/**
 * The layer merge shared by `execute` in src/build/usecase/BuildConfigUseCase.ts
 * and `buildConfig` in src/index.js: start from
 * `{platform, stage: {}, routing: {}}`, `Object.assign` the environment-named
 * layer of config.json and then its `all` layer, then `Object.assign`
 * stage.json into `config.stage` and routing.json into `config.routing`.
 */
module ConfigAssembly {
  import opened Base
  import opened JsString
  import opened Json

  /** A config document as the assembler finds it: missing, unparsable, or parsed. */
  datatype Document = Absent | Malformed | Present(value: Value)

  /** src/config/config.json, stage.json and routing.json. */
  datatype Documents = Documents(config: Document, stage: Document, routing: Document)

  /** The object every pass starts from. */
  function Initial(platform: string): seq<Member>
  {
    [Member("platform", Str(platform)), Member("stage", Object([])), Member("routing", Object([]))]
  }

  /** The three keys the config starts with, which keep their places. */
  const Skeleton: seq<string> := ["platform", "stage", "routing"]

  predicate Shaped(c: seq<Member>)
  {
    |c| >= 3 && Keys(c)[..3] == Skeleton && UniqueKeys(c)
  }

  /**
   * The environment-named layer if config.json has that key, then the `all`
   * layer if it is truthy. `in` throws unless config.json is an object or an
   * array; the keys the config had stay first, in place, each still once.
   */
  function ApplyLayers(config: seq<Member>, environment: string, configObject: Value): (r: Result<seq<Member>>)
    ensures r.Err? <==> !(configObject.Object? || configObject.Array?)
    ensures r.Ok? ==> Keys(config) <= Keys(r.value)
    ensures r.Ok? && UniqueKeys(config) ==> UniqueKeys(r.value)
  {
    var hasEnv :- HasProperty(configObject, environment);
    var withEnv := if hasEnv then Assign(config, Get(configObject, environment).value) else config;
    var all := Get(configObject, "all");
    Ok(if all.Some? && Truthy(all.value) then Assign(withEnv, all.value) else withEnv)
  }

  /** The config after config.json: a missing document leaves it alone, a malformed one throws. */
  function Layered(platform: string, environment: string, doc: Document): Result<seq<Member>>
  {
    match doc
    case Absent => Ok(Initial(platform))
    case Malformed => Err(SyntaxError("config.json"))
    case Present(configObject) => ApplyLayers(Initial(platform), environment, configObject)
  }

  /** Property names up to 2^32 - 2 are array indices; larger ones are plain properties. */
  const MaxArrayIndex: nat := 0xFFFF_FFFE

  /** `key` names array index `j`: canonical decimal text of a valid index. */
  predicate NamesIndex(key: string, j: nat)
  {
    ParseIndex(key) == Some(j) && j <= MaxArrayIndex
  }

  /** Member `i` of `source` names index `j` and no later member does. */
  predicate LastNaming(source: seq<Member>, j: nat, i: int)
  {
    0 <= i < |source| && NamesIndex(source[i].key, j) &&
    forall i' :: i < i' < |source| ==> !NamesIndex(source[i'].key, j)
  }

  /** The value the last member of `source` naming index `j` carries, if any. */
  function LastAt(source: seq<Member>, j: nat): (r: Option<Value>)
    ensures r.Some? <==> exists i :: 0 <= i < |source| && NamesIndex(source[i].key, j)
    ensures r.Some? ==> exists i :: LastNaming(source, j, i) && r.value == source[i].value
    decreases source
  {
    if source == [] then None
    else
      var rest := LastAt(source[1..], j);
      assert forall i :: 1 <= i < |source| ==> source[i] == source[1..][i - 1];
      if rest.Some? then rest
      else if NamesIndex(source[0].key, j) then Some(source[0].value)
      else None
  }

  /**
   * `Object.assign` onto an array target: an index key overwrites its element,
   * or grows the array up to it through holes, read here as null; every
   * element ends up holding the last source value for its index, or keeps
   * its old value, and every index the source names is inside the array.
   */
  function AssignIndices(items: seq<Value>, source: seq<Member>): (r: seq<Value>)
    ensures |r| >= |items|
    ensures forall j :: 0 <= j < |r| ==>
      r[j] == if LastAt(source, j).Some? then LastAt(source, j).value else if j < |items| then items[j] else Null
    ensures forall j: nat :: LastAt(source, j).Some? ==> j < |r|
    decreases source
  {
    if source == [] then items
    else
      var idx := ParseIndex(source[0].key);
      var items' :=
        if idx.None? || idx.value > MaxArrayIndex then items
        else if idx.value < |items| then items[idx.value := source[0].value]
        else items + seq(idx.value - |items|, _ => Null) + [source[0].value];
      assert forall j: nat :: j < |items'| ==>
        items'[j] == if NamesIndex(source[0].key, j) then source[0].value else if j < |items| then items[j] else Null;
      AssignIndices(items', source[1..])
  }

  /**
   * The array grows only as far as the largest index the source names: it
   * keeps its length, or its last element is one the source wrote.
   */
  lemma {:induction false} AssignIndicesLength(items: seq<Value>, source: seq<Member>)
    ensures var r := AssignIndices(items, source); |r| == |items| || LastAt(source, |r| - 1).Some?
    decreases source
  {
    if source != [] {
      var idx := ParseIndex(source[0].key);
      var items' :=
        if idx.None? || idx.value > MaxArrayIndex then items
        else if idx.value < |items| then items[idx.value := source[0].value]
        else items + seq(idx.value - |items|, _ => Null) + [source[0].value];
      assert AssignIndices(items, source) == AssignIndices(items', source[1..]);
      AssignIndicesLength(items', source[1..]);
      var n := |AssignIndices(items, source)|;
      if n != |items| {
        if LastAt(source[1..], n - 1).Some? {
          assert LastAt(source, n - 1).Some?;
        } else {
          assert NamesIndex(source[0].key, n - 1);
          assert LastAt(source, n - 1).Some?;
        }
      }
    }
  }

  /** The properties a String wrapper holds read-only: `length` and the index of each character. */
  predicate ReadOnlyOnString(s: string, key: string)
  {
    key == "length" || (ParseIndex(key).Some? && ParseIndex(key).value < |s|)
  }

  /** The first of `entries` a String wrapper of `s` refuses: where `Object.assign` throws. */
  function FirstReadOnly(s: string, entries: seq<Member>): (r: Option<string>)
    ensures r.Some? <==> exists i :: 0 <= i < |entries| && ReadOnlyOnString(s, entries[i].key)
    ensures r.Some? ==> ReadOnlyOnString(s, r.value) && r.value in Keys(entries)
    decreases entries
  {
    if entries == [] then None
    else if ReadOnlyOnString(s, entries[0].key) then Some(entries[0].key)
    else
      var r := FirstReadOnly(s, entries[1..]);
      assert forall i :: 1 <= i < |entries| ==> entries[i] == entries[1..][i - 1];
      r
  }

  /** The target `Object.assign(config[key], source)` throws on. */
  predicate Refuses(target: Option<Value>, source: Value)
  {
    match target
    case None => true
    case Some(Null) => true
    case Some(Str(s)) => exists i :: 0 <= i < |OwnEntries(source)| && ReadOnlyOnString(s, OwnEntries(source)[i].key)
    case Some(_) => false
  }

  /**
   * `Object.assign(config[key], source)`: an object or array sub-value is
   * updated where it sits; a missing or null one throws; a string, number or
   * boolean is wrapped, updated and dropped, and a String wrapper throws on
   * its read-only `length` and character indices.
   */
  function MergeInto(config: seq<Member>, key: string, source: Value): (r: Result<seq<Member>>)
    ensures r.Err? <==> Refuses(Find(config, key), source)
    ensures Find(config, key).Some? && Find(config, key).value.Object? ==>
      r == Ok(Put(config, key, Object(Assign(Find(config, key).value.members, source))))
    ensures Find(config, key).Some? && Find(config, key).value.Array? ==>
      r == Ok(Put(config, key, Array(AssignIndices(Find(config, key).value.items, OwnEntries(source)))))
    ensures r.Ok? && !(Find(config, key).value.Object? || Find(config, key).value.Array?) ==> r.value == config
  {
    match Find(config, key)
    case None => Err(TypeError("Cannot convert undefined or null to object"))
    case Some(Null) => Err(TypeError("Cannot convert undefined or null to object"))
    case Some(Object(ms)) => Ok(Put(config, key, Object(Assign(ms, source))))
    case Some(Array(items)) => Ok(Put(config, key, Array(AssignIndices(items, OwnEntries(source)))))
    case Some(Str(s)) =>
      var refused := FirstReadOnly(s, OwnEntries(source));
      if refused.Some? then Err(TypeError("Cannot assign to read only property '" + refused.value + "' of object '[object String]'"))
      else Ok(config)
    case Some(_) => Ok(config)
  }

  function MergeDocument(config: seq<Member>, key: string, doc: Document, file: string): Result<seq<Member>>
  {
    match doc
    case Absent => Ok(config)
    case Malformed => Err(SyntaxError(file))
    case Present(source) => MergeInto(config, key, source)
  }

  /** The assembled config object, or the failure that aborts the pass. */
  function Assemble(platform: string, environment: string, docs: Documents): (r: Result<Value>)
    ensures docs.config.Malformed? ==> r == Err(SyntaxError("config.json"))
    ensures docs.stage.Malformed? && !docs.config.Malformed? ==> r.Err?
    ensures docs.routing.Malformed? ==> r.Err?
    ensures docs == Documents(Absent, Absent, Absent) ==> r == Ok(Object(Initial(platform)))
    ensures r.Ok? ==> r.value.Object?
  {
    var layered :- Layered(platform, environment, docs.config);
    var staged :- MergeDocument(layered, "stage", docs.stage, "stage.json");
    var routed :- MergeDocument(staged, "routing", docs.routing, "routing.json");
    Ok(Object(routed))
  }

  /** The merge as the source performs it, one statement at a time. */
  method Merge(platform: string, environment: string, docs: Documents) returns (r: Result<Value>)
    ensures r == Assemble(platform, environment, docs)
  {
    var config := Initial(platform);

    match docs.config {
      case Malformed =>
        return Err(SyntaxError("config.json"));
      case Present(configObject) =>
        var hasEnv :- HasProperty(configObject, environment);
        if hasEnv {
          config := Assign(config, Get(configObject, environment).value);
        }
        var all := Get(configObject, "all");
        if all.Some? && Truthy(all.value) {
          config := Assign(config, all.value);
        }
      case Absent =>
    }

    match docs.stage {
      case Malformed =>
        return Err(SyntaxError("stage.json"));
      case Present(stage) =>
        config :- MergeInto(config, "stage", stage);
      case Absent =>
    }

    match docs.routing {
      case Malformed =>
        return Err(SyntaxError("routing.json"));
      case Present(routing) =>
        config :- MergeInto(config, "routing", routing);
      case Absent =>
    }

    return Ok(Object(config));
  }

  // ---------------------------------------------------------------------
  // Properties of the merge

  lemma AssignShaped(c: seq<Member>, source: Value)
    requires Shaped(c)
    ensures Shaped(Assign(c, source))
  {
    AssignKeys(c, OwnEntries(source));
    AssignUnique(c, OwnEntries(source));
    var r := Assign(c, source);
    assert Keys(r)[..3] == (Keys(c) + NewKeys(Keys(c), Keys(OwnEntries(source))))[..3];
  }

  lemma PutShaped(c: seq<Member>, k: string, v: Value)
    requires Shaped(c) && k in Keys(c)
    ensures Shaped(Put(c, k, v))
  {
    PutKeys(c, k, v);
    PutUnique(c, k, v);
  }

  /** A merge that succeeds keeps the config's keys, in place. */
  lemma MergeIntoKeys(c: seq<Member>, key: string, source: Value)
    ensures MergeInto(c, key, source).Ok? ==> Keys(MergeInto(c, key, source).value) == Keys(c)
  {
    var r := MergeInto(c, key, source);
    if r.Ok? {
      var t := Find(c, key).value;
      if t.Object? {
        var v := Object(Assign(t.members, source));
        assert r.value == Put(c, key, v);
        PutKeys(c, key, v);
      } else if t.Array? {
        var v := Array(AssignIndices(t.items, OwnEntries(source)));
        assert r.value == Put(c, key, v);
        PutKeys(c, key, v);
      } else {
        assert r.value == c;
      }
    }
  }

  /** Shape depends only on the keys. */
  lemma SameKeysShaped(c: seq<Member>, d: seq<Member>)
    requires Shaped(c) && Keys(d) == Keys(c)
    ensures Shaped(d)
  {
    forall i, j | 0 <= i < j < |d|
      ensures d[i].key != d[j].key
    {
      assert d[i].key == Keys(c)[i] == c[i].key;
      assert d[j].key == Keys(c)[j] == c[j].key;
    }
  }

  lemma MergeIntoShaped(c: seq<Member>, key: string, source: Value)
    requires Shaped(c)
    ensures MergeInto(c, key, source).Ok? ==> Shaped(MergeInto(c, key, source).value)
  {
    MergeIntoKeys(c, key, source);
    if MergeInto(c, key, source).Ok? {
      SameKeysShaped(c, MergeInto(c, key, source).value);
    }
  }

  /** The assembled config always starts with platform, stage and routing, each key once. */
  lemma AssembledShape(platform: string, environment: string, docs: Documents)
    ensures Assemble(platform, environment, docs).Ok? ==> Shaped(Assemble(platform, environment, docs).value.members)
  {
    var layered := Layered(platform, environment, docs.config);
    LayeredShaped(platform, environment, docs.config);
    if layered.Ok? {
      var staged := MergeDocument(layered.value, "stage", docs.stage, "stage.json");
      MergeDocumentShaped(layered.value, "stage", docs.stage, "stage.json");
      if staged.Ok? {
        MergeDocumentShaped(staged.value, "routing", docs.routing, "routing.json");
      }
    }
  }

  lemma LayeredShaped(platform: string, environment: string, doc: Document)
    ensures Layered(platform, environment, doc).Ok? ==> Shaped(Layered(platform, environment, doc).value)
  {
    var init := Initial(platform);
    assert Keys(init) == Skeleton;
    assert Shaped(init);
    if doc.Present? && Layered(platform, environment, doc).Ok? {
      var configObject := doc.value;
      var hasEnv := HasProperty(configObject, environment).value;
      var withEnv := if hasEnv then Assign(init, Get(configObject, environment).value) else init;
      if hasEnv {
        AssignShaped(init, Get(configObject, environment).value);
      }
      var all := Get(configObject, "all");
      if all.Some? && Truthy(all.value) {
        AssignShaped(withEnv, all.value);
      }
    }
  }

  lemma MergeDocumentShaped(c: seq<Member>, key: string, doc: Document, file: string)
    requires Shaped(c) && (key == "stage" || key == "routing")
    ensures MergeDocument(c, key, doc, file).Ok? ==> Shaped(MergeDocument(c, key, doc, file).value)
  {
    if doc.Present? {
      MergeIntoShaped(c, key, doc.value);
    }
  }

  /**
   * Precedence: on a key both layers define, the `all` layer's value wins;
   * the merge is shallow, so whole values are replaced.
   */
  lemma AllLayerWins(platform: string, environment: string, configObject: seq<Member>,
                     envLayer: seq<Member>, allLayer: seq<Member>, k: string)
    requires Find(configObject, environment) == Some(Object(envLayer))
    requires Find(configObject, "all") == Some(Object(allLayer))
    requires UniqueKeys(envLayer) && UniqueKeys(allLayer)
    ensures Layered(platform, environment, Present(Object(configObject))).Ok?
    ensures Find(Layered(platform, environment, Present(Object(configObject))).value, k) ==
      if k in Keys(allLayer) then Find(allLayer, k)
      else if k in Keys(envLayer) then Find(envLayer, k)
      else Find(Initial(platform), k)
  {
    var init := Initial(platform);
    BothLayers(init, environment, configObject, envLayer, allLayer);
    var withEnv := AssignMembers(init, envLayer);
    var layered := AssignMembers(withEnv, allLayer);
    assert Layered(platform, environment, Present(Object(configObject))) == Ok(layered);
    AssignFind(withEnv, allLayer, k);
    AssignFind(init, envLayer, k);
  }

  /** Both layers present: the environment's members are assigned, then `all`'s. */
  lemma BothLayers(init: seq<Member>, environment: string, configObject: seq<Member>,
                   envLayer: seq<Member>, allLayer: seq<Member>)
    requires Find(configObject, environment) == Some(Object(envLayer))
    requires Find(configObject, "all") == Some(Object(allLayer))
    ensures ApplyLayers(init, environment, Object(configObject)) ==
      Ok(AssignMembers(AssignMembers(init, envLayer), allLayer))
  {
    assert HasProperty(Object(configObject), environment) == Ok(true);
    assert Get(Object(configObject), environment) == Some(Object(envLayer));
    assert Assign(init, Object(envLayer)) == AssignMembers(init, envLayer);
    assert Get(Object(configObject), "all") == Some(Object(allLayer));
    assert Truthy(Object(allLayer));
    assert Assign(AssignMembers(init, envLayer), Object(allLayer)) == AssignMembers(AssignMembers(init, envLayer), allLayer);
  }

  /** A layer that is missing, or an `all` that is falsy, is not applied. */
  lemma LayersOnlyWhenPresent(platform: string, environment: string, configObject: seq<Member>)
    requires environment !in Keys(configObject)
    requires Find(configObject, "all").None? || !Truthy(Find(configObject, "all").value)
    ensures Layered(platform, environment, Present(Object(configObject))) == Ok(Initial(platform))
  {
  }

  /**
   * Layer precedence for every key, whichever layers are on: the environment
   * layer is on when config.json has that key, the `all` layer when it is
   * truthy; `all` beats the environment layer, which beats the starting object.
   */
  lemma LayerPrecedence(platform: string, environment: string, co: seq<Member>, k: string)
    requires environment in Keys(co) ==> UniqueKeys(OwnEntries(Find(co, environment).value))
    requires "all" in Keys(co) ==> UniqueKeys(OwnEntries(Find(co, "all").value))
    ensures Layered(platform, environment, Present(Object(co))).Ok?
    ensures var envOn := environment in Keys(co);
      var allOn := Find(co, "all").Some? && Truthy(Find(co, "all").value);
      Find(Layered(platform, environment, Present(Object(co))).value, k) ==
        if allOn && k in Keys(OwnEntries(Find(co, "all").value)) then Find(OwnEntries(Find(co, "all").value), k)
        else if envOn && k in Keys(OwnEntries(Find(co, environment).value)) then Find(OwnEntries(Find(co, environment).value), k)
        else Find(Initial(platform), k)
  {
    var init := Initial(platform);
    var envOn := environment in Keys(co);
    assert HasProperty(Object(co), environment) == Ok(envOn);
    var withEnv := if envOn then Assign(init, Find(co, environment).value) else init;
    if envOn {
      AssignFind(init, OwnEntries(Find(co, environment).value), k);
    }
    var all := Find(co, "all");
    if all.Some? && Truthy(all.value) {
      AssignFind(withEnv, OwnEntries(all.value), k);
      assert Layered(platform, environment, Present(Object(co))) == Ok(Assign(withEnv, all.value));
    } else {
      assert Layered(platform, environment, Present(Object(co))) == Ok(withEnv);
    }
  }

  /**
   * A string left under `stage` or `routing` takes any key but its read-only
   * `length` and character indices, and is then dropped: the config does not change.
   */
  lemma MergeIntoString(config: seq<Member>, key: string, s: string, source: Value)
    requires Find(config, key) == Some(Str(s))
    ensures MergeInto(config, key, source).Ok? ==> MergeInto(config, key, source).value == config
    ensures s != "" && (source.Str? || source.Array?) ==>
      (MergeInto(config, key, source).Ok? <==> OwnEntries(source) == [])
    ensures source.Object? && "length" in Keys(source.members) ==> MergeInto(config, key, source).Err?
  {
    var es := OwnEntries(source);
    if s != "" && (source.Str? || source.Array?) && es != [] {
      IndexRoundTrip(0);
      assert ReadOnlyOnString(s, es[0].key);
    }
    if source.Object? && "length" in Keys(source.members) {
      var i :| 0 <= i < |es| && es[i].key == "length";
      assert ReadOnlyOnString(s, es[i].key);
    }
  }

  /** config.json `{"local": {"stage": "ab"}}`. */
  const StringStageConfig: seq<Member> := [Member("local", Object([Member("stage", Str("ab"))]))]

  /** The `local` layer puts the string "ab" under `stage`. */
  lemma StringStageLayered()
    ensures Layered("web", "local", Present(Object(StringStageConfig))) ==
      Ok([Member("platform", Str("web")), Member("stage", Str("ab")), Member("routing", Object([]))])
  {
    var env := Member("stage", Str("ab"));
    var init := Initial("web");
    assert Put(init, "stage", Str("ab")) == [Member("platform", Str("web")), env, Member("routing", Object([]))];
    assert [env][1..] == [];
    assert Find(StringStageConfig, "local") == Some(Object([env]));
    assert Find(StringStageConfig, "all") == None;
  }

  /** With that config, stage.json `{"0": "x"}` throws: index 0 of "ab" is read-only. */
  lemma StringStageRefusesIndex()
    ensures Assemble("web", "local", Documents(
      Present(Object(StringStageConfig)), Present(Object([Member("0", Str("x"))])), Absent)).Err?
  {
    StringStageLayered();
    var layered := [Member("platform", Str("web")), Member("stage", Str("ab")), Member("routing", Object([]))];
    StringStageMerge(layered);
  }

  lemma StringStageMerge(layered: seq<Member>)
    requires Find(layered, "stage") == Some(Str("ab"))
    ensures MergeInto(layered, "stage", Object([Member("0", Str("x"))])).Err?
  {
    var source := [Member("0", Str("x"))];
    assert ParseIndex("0") == Some(0) by {
      IndexRoundTrip(0);
      assert NatToString(0) == "0";
    }
    assert ReadOnlyOnString("ab", OwnEntries(Object(source))[0].key);
  }

  function DocumentFor(docs: Documents, key: string): Document
  {
    if key == "stage" then docs.stage else docs.routing
  }

  /** Merging into one sub-map touches no other top-level key. */
  lemma MergeDocumentOthers(c: seq<Member>, key: string, doc: Document, file: string, k: string)
    requires MergeDocument(c, key, doc, file).Ok? && k != key
    ensures Find(MergeDocument(c, key, doc, file).value, k) == Find(c, k)
  {
    if doc.Present? {
      match Find(c, key)
      case Some(Object(ms)) => PutFind(c, key, Object(Assign(ms, doc.value)), k);
      case Some(Array(items)) => PutFind(c, key, Array(AssignIndices(items, OwnEntries(doc.value))), k);
      case _ =>
    }
  }

  /** Merging a present object into an object sub-map assigns it key by key. */
  lemma MergeDocumentObject(c: seq<Member>, key: string, source: seq<Member>, file: string, ms: seq<Member>)
    requires Find(c, key) == Some(Object(ms))
    ensures MergeDocument(c, key, Present(Object(source)), file).Ok?
    ensures Find(MergeDocument(c, key, Present(Object(source)), file).value, key) ==
      Some(Object(AssignMembers(ms, source)))
  {
    var merged := Object(AssignMembers(ms, source));
    MergeIntoObject(c, key, Object(source), ms);
    assert MergeDocument(c, key, Present(Object(source)), file) == Ok(Put(c, key, merged));
    PutFind(c, key, merged, key);
  }

  lemma MergeIntoObject(c: seq<Member>, key: string, source: Value, ms: seq<Member>)
    requires Find(c, key) == Some(Object(ms))
    ensures MergeInto(c, key, source) == Ok(Put(c, key, Object(Assign(ms, source))))
  {
  }

  /**
   * stage.json and routing.json are merged key by key into whatever map the
   * layers left under `stage` and `routing`.
   */
  lemma SubMapMerged(platform: string, environment: string, docs: Documents, key: string,
                     layered: seq<Member>, before: seq<Member>, source: seq<Member>)
    requires key == "stage" || key == "routing"
    requires Layered(platform, environment, docs.config) == Ok(layered)
    requires Find(layered, key) == Some(Object(before))
    requires DocumentFor(docs, key) == Present(Object(source))
    ensures var r := Assemble(platform, environment, docs);
      r.Ok? ==> Find(r.value.members, key) == Some(Object(AssignMembers(before, source)))
  {
    var staged := MergeDocument(layered, "stage", docs.stage, "stage.json");
    if staged.Ok? {
      var routed := MergeDocument(staged.value, "routing", docs.routing, "routing.json");
      if routed.Ok? {
        assert Assemble(platform, environment, docs) == Ok(Object(routed.value));
        if key == "stage" {
          MergeDocumentObject(layered, "stage", source, "stage.json", before);
          MergeDocumentOthers(staged.value, "routing", docs.routing, "routing.json", "stage");
        } else {
          MergeDocumentOthers(layered, "stage", docs.stage, "stage.json", "routing");
          MergeDocumentObject(staged.value, "routing", source, "routing.json", before);
        }
      }
    }
  }

  /** The sub-map merges leave every other top-level key as the layers left it. */
  lemma OtherKeysFromLayers(platform: string, environment: string, docs: Documents,
                            layered: seq<Member>, k: string)
    requires k != "stage" && k != "routing"
    requires Layered(platform, environment, docs.config) == Ok(layered)
    ensures var r := Assemble(platform, environment, docs);
      r.Ok? ==> Find(r.value.members, k) == Find(layered, k)
  {
    var staged := MergeDocument(layered, "stage", docs.stage, "stage.json");
    if staged.Ok? {
      MergeDocumentOthers(layered, "stage", docs.stage, "stage.json", k);
      var routed := MergeDocument(staged.value, "routing", docs.routing, "routing.json");
      if routed.Ok? {
        assert Assemble(platform, environment, docs) == Ok(Object(routed.value));
        MergeDocumentOthers(staged.value, "routing", docs.routing, "routing.json", k);
      }
    }
  }
}
