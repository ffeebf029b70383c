/**
 * The placeholder pass of `execute` in src/build/usecase/BuildConfigUseCase.ts:
 * every `{{a.b.c}}` token the global pattern `/{{(.*?)}}/g` finds in
 * `JSON.stringify(config, null, 4)` is turned into a dotted path, the path is
 * walked through the assembled config with `in` and `[]`, and, when the walk
 * left the root, the first occurrence of the token in the current text is
 * replaced by `String(value)`.
 */
module Placeholders {
  import opened Base
  import opened JsString
  import opened Json

  // ---------------------------------------------------------------------
  // The matches of /{{(.*?)}}/g

  /** The characters `.` refuses to match in a JavaScript pattern. */
  predicate IsLineTerminator(c: char)
  {
    c == '\n' || c == '\r' || c == '\U{2028}' || c == '\U{2029}'
  }

  /** No line terminator lies in `s[k..m]`: `.` can match all of it. */
  predicate LineFree(s: string, k: nat, m: nat)
    requires k <= m <= |s|
  {
    forall t :: k <= t < m ==> !IsLineTerminator(s[t])
  }

  /**
   * Where the lazy `(.*?)` that starts at `k` stops: the first `}}` at or
   * after `k` with no line terminator before it, or None when every `}}`
   * after `k` has a line terminator before it.
   */
  function CloseAt(s: string, k: nat): (r: Option<nat>)
    requires k <= |s|
    ensures r.Some? ==> k <= r.value && OccursAt(s, "}}", r.value) && LineFree(s, k, r.value)
    ensures r.Some? ==> forall m :: k <= m < r.value ==> !OccursAt(s, "}}", m)
    ensures r.None? ==> forall m :: k <= m && OccursAt(s, "}}", m) ==> !LineFree(s, k, m)
    decreases |s| - k
  {
    if OccursAt(s, "}}", k) then Some(k)
    else if k < |s| && !IsLineTerminator(s[k]) then
      var r := CloseAt(s, k + 1);
      assert forall m :: k + 1 <= m <= |s| && LineFree(s, k, m) ==> LineFree(s, k + 1, m);
      r
    else
      assert forall m :: k < m <= |s| ==> !LineFree(s, k, m);
      None
  }

  /** A string the pattern can match: `{{`, no line terminator, `}}`. */
  predicate IsToken(t: string)
  {
    |t| >= 4 && t[..2] == "{{" && t[|t| - 2..] == "}}" &&
    forall m :: 2 <= m < |t| - 2 ==> !IsLineTerminator(t[m])
  }

  /** The matches found by scanning `s` from position `i` on. */
  function TokensFrom(s: string, i: nat): (ts: seq<string>)
    requires i <= |s|
    ensures forall t :: t in ts ==> IsToken(t) && Contains(s, t)
    decreases |s| - i
  {
    if i == |s| then []
    else if OccursAt(s, "{{", i) && CloseAt(s, i + 2).Some? then
      var e := CloseAt(s, i + 2).value + 2;
      MatchIsToken(s, i, e - 2);
      [s[i..e]] + TokensFrom(s, e)
    else TokensFrom(s, i + 1)
  }

  /** The run from a "{{" at `i` to the "}}" at `k` that closes it is a token of `s`. */
  lemma MatchIsToken(s: string, i: nat, k: nat)
    requires i + 2 <= |s| && OccursAt(s, "{{", i) && CloseAt(s, i + 2) == Some(k)
    ensures IsToken(s[i..k + 2]) && Contains(s, s[i..k + 2])
  {
    var t := s[i..k + 2];
    assert t[..2] == s[i..i + 2];
    assert t[|t| - 2..] == s[k..k + 2];
    assert forall m :: 2 <= m < |t| - 2 ==> t[m] == s[i + m];
    ContainsAt(s, t, i);
  }

  /**
   * `s.match(/{{(.*?)}}/g)`, with `null` read as no matches: each match is a
   * `{{`-to-`}}` run on one line, taken from `s`.
   */
  function Tokens(s: string): (ts: seq<string>)
    ensures forall t :: t in ts ==> IsToken(t) && Contains(s, t)
  {
    TokensFrom(s, 0)
  }

  /** At a "{{" that closes on its line the scan takes that match and goes on after its "}}". */
  lemma TokensFromMatch(s: string, i: nat, k: nat)
    requires i <= |s| && OccursAt(s, "{{", i) && i + 2 <= |s| && CloseAt(s, i + 2) == Some(k)
    ensures TokensFrom(s, i) == [s[i..k + 2]] + TokensFrom(s, k + 2)
  {
  }

  /**
   * A "{{" whose match closes on its line, anywhere from `i` on, means the
   * scan from `i` finds at least one match.
   */
  lemma {:induction false} TokensFromFinds(s: string, i: nat, j: nat)
    requires i <= j && j + 2 <= |s| && OccursAt(s, "{{", j) && CloseAt(s, j + 2).Some?
    ensures TokensFrom(s, i) != []
    decreases |s| - i
  {
    if !(OccursAt(s, "{{", i) && CloseAt(s, i + 2).Some?) {
      TokensFromFinds(s, i + 1, j);
    }
  }

  /** The string `"{{ stage.id }}"` as it appears in serialised config holds exactly that one match. */
  lemma TokensExample(s: string)
    requires s == "\"{{ stage.id }}\""
    ensures Tokens(s) == ["{{ stage.id }}"]
  {
    QuotedTokenOpens(s);
    QuotedTokenCloses(s);
    TokensFromMatch(s, 1, 13);
    QuotedTokenEnds(s);
  }

  lemma QuotedTokenOpens(s: string)
    requires s == "\"{{ stage.id }}\""
    ensures TokensFrom(s, 0) == TokensFrom(s, 1)
    ensures OccursAt(s, "{{", 1)
    ensures s[1..15] == "{{ stage.id }}"
  {
    assert !OccursAt(s, "{{", 0) by { assert s[0..2][0] == s[0] == '"'; }
    assert OccursAt(s, "{{", 1);
  }

  lemma QuotedTokenCloses(s: string)
    requires s == "\"{{ stage.id }}\""
    ensures CloseAt(s, 3) == Some(13)
  {
    forall m | 3 <= m < 13 ensures !OccursAt(s, "}}", m) {
      assert s[m] != '}';
      assert s[m..m + 2][0] == s[m];
    }
    assert LineFree(s, 3, 13);
    assert OccursAt(s, "}}", 13);
  }

  lemma QuotedTokenEnds(s: string)
    requires s == "\"{{ stage.id }}\""
    ensures TokensFrom(s, 15) == []
  {
    assert |s| == 16;
    assert !OccursAt(s, "{{", 15);
  }

  lemma {:induction false} NoTokensFrom(s: string, i: nat)
    requires i <= |s|
    requires forall j :: i <= j ==> !OccursAt(s, "{{", j)
    ensures TokensFrom(s, i) == []
    decreases |s| - i
  {
    if i < |s| {
      NoTokensFrom(s, i + 1);
    }
  }

  /** A text without `{{` has no placeholders. */
  lemma NoTokens(s: string)
    requires !Contains(s, "{{")
    ensures Tokens(s) == []
  {
    ContainsIff(s, "{{");
    NoTokensFrom(s, 0);
  }

  // ---------------------------------------------------------------------
  // From a token to a path

  /** The characters of JavaScript's `\s` class. */
  predicate IsSpace(c: char)
  {
    c == '\t' || c == '\n' || c == '\U{000B}' || c == '\U{000C}' || c == '\r' || c == ' ' ||
    c == '\U{00A0}' || c == '\U{1680}' || ('\U{2000}' <= c <= '\U{200A}') ||
    c == '\U{2028}' || c == '\U{2029}' || c == '\U{202F}' || c == '\U{205F}' ||
    c == '\U{3000}' || c == '\U{FEFF}'
  }

  predicate IsBrace(c: char)
  {
    c == '{' || c == '}'
  }

  /** `replace(/\{|\{|\}|\}/g, "")`: every brace removed, everything else kept in order. */
  function RemoveBraces(s: string): (r: string)
    ensures forall c :: c in r ==> !IsBrace(c)
    ensures |r| <= |s|
    ensures (forall c :: c in s ==> !IsBrace(c)) ==> r == s
  {
    if s == [] then ""
    else
      assert forall c :: c in s[1..] ==> c in s;
      (if IsBrace(s[0]) then "" else [s[0]]) + RemoveBraces(s[1..])
  }

  /** `replace(/\s+/g, "")`: every white-space character removed, everything else kept in order. */
  function RemoveSpace(s: string): (r: string)
    ensures forall c :: c in r ==> !IsSpace(c)
    ensures |r| <= |s|
    ensures (forall c :: c in s ==> !IsSpace(c)) ==> r == s
  {
    if s == [] then ""
    else
      assert forall c :: c in s[1..] ==> c in s;
      (if IsSpace(s[0]) then "" else [s[0]]) + RemoveSpace(s[1..])
  }

  /** Removing braces works piece by piece: it distributes over concatenation. */
  lemma {:induction false} RemoveBracesConcat(a: string, b: string)
    ensures RemoveBraces(a + b) == RemoveBraces(a) + RemoveBraces(b)
    decreases |a|
  {
    if a != [] {
      assert (a + b)[0] == a[0] && (a + b)[1..] == a[1..] + b;
      RemoveBracesConcat(a[1..], b);
    } else {
      assert a + b == b;
    }
  }

  /** Removing white space distributes over concatenation. */
  lemma {:induction false} RemoveSpaceConcat(a: string, b: string)
    ensures RemoveSpace(a + b) == RemoveSpace(a) + RemoveSpace(b)
    decreases |a|
  {
    if a != [] {
      assert (a + b)[0] == a[0] && (a + b)[1..] == a[1..] + b;
      RemoveSpaceConcat(a[1..], b);
    } else {
      assert a + b == b;
    }
  }

  /** The dotted path of a token with braces and white space removed. */
  function PathText(token: string): string
  {
    RemoveSpace(RemoveBraces(token))
  }

  /**
   * The names of the path, `split(".")`: never an empty list, so the source's
   * `!names.length` guard never fires; joined with "." they give the path back.
   */
  function Names(token: string): (names: seq<string>)
    ensures |names| >= 1
    ensures Join(names, ".") == PathText(token)
  {
    var path := PathText(token);
    JoinSplitChar(path, '.', '.');
    assert ReplaceChar(path, '.', '.') == path;
    Split(path, ".")
  }

  /** A path free of braces and white space comes out of `{{ path }}` unchanged. */
  lemma PathTextOfSpacedToken(path: string)
    requires forall c :: c in path ==> !IsBrace(c) && !IsSpace(c)
    ensures PathText("{{ " + path + " }}") == path
  {
    RemoveBracesConcat("{{ " + path, " }}");
    RemoveBracesConcat("{{ ", path);
    SpacedBraces();
    RemoveSpaceConcat(" " + path, " ");
    RemoveSpaceConcat(" ", path);
  }

  lemma SpacedBraces()
    ensures RemoveBraces("{{ ") == " " && RemoveBraces(" }}") == " " && RemoveSpace(" ") == ""
  {
  }

  /** A match `{{ path }}` yields the parts of the path between its dots. */
  lemma NamesOfSpacedToken(path: string)
    requires forall c :: c in path ==> !IsBrace(c) && !IsSpace(c)
    ensures Names("{{ " + path + " }}") == Split(path, ".")
  {
    PathTextOfSpacedToken(path);
  }

  /** The match `{{ stage.id }}` yields the names "stage" and "id". */
  lemma NamesExample(path: string)
    requires path == "stage.id"
    ensures Names("{{ " + path + " }}") == ["stage", "id"]
  {
    PlainPath(path);
    NamesOfSpacedToken(path);
    StageIdSplit(path);
  }

  lemma PlainPath(path: string)
    requires path == "stage.id"
    ensures forall c :: c in path ==> !IsBrace(c) && !IsSpace(c)
  {
    forall c | c in path
      ensures !IsBrace(c) && !IsSpace(c)
    {
      assert 'a' <= c <= 'z' || c == '.';
    }
  }

  lemma StageIdSplit(path: string)
    requires path == "stage.id"
    ensures Split(path, ".") == ["stage", "id"]
  {
    assert path == "stage" + ['.'] + "id";
    SplitAfterField("stage", '.', "id");
    SplitNoChar("id", '.');
  }

  // ---------------------------------------------------------------------
  // Walking a path

  /**
   * Where the walk stands: `moved` records whether some name was found, which
   * is when `configValue` stops being the root (`config === configValue`);
   * a JSON tree never leads back to its root.
   */
  datatype Resolution = Resolution(moved: bool, value: Value)

  /**
   * The rest of the walk from `cur`: a name the current value has is stepped
   * into, a missing one is skipped, and `in` on a primitive throws.
   */
  function Step(cur: Resolution, names: seq<string>): Result<Resolution>
    decreases names
  {
    if names == [] then Ok(cur)
    else
      var has :- HasProperty(cur.value, names[0]);
      var next := if has then Resolution(true, Get(cur.value, names[0]).value) else cur;
      Step(next, names[1..])
  }

  function Resolve(root: Value, names: seq<string>): Result<Resolution>
  {
    Step(Resolution(false, root), names)
  }

  /** The inner loop over the names, one `in` test at a time. */
  method ResolvePath(config: Value, names: seq<string>) returns (r: Result<Resolution>)
    ensures r == Resolve(config, names)
  {
    var configValue := config;
    var moved := false;
    var idx := 0;
    while idx < |names|
      invariant 0 <= idx <= |names|
      invariant Step(Resolution(moved, configValue), names[idx..]) == Resolve(config, names)
    {
      var name := names[idx];
      assert names[idx..][1..] == names[idx + 1..];
      var has :- HasProperty(configValue, name);
      if has {
        configValue := Get(configValue, name).value;
        moved := true;
      }
      idx := idx + 1;
    }
    return Ok(Resolution(moved, configValue));
  }

  /** Once the walk has left the root it never reads as unresolved again. */
  lemma {:induction false} StaysMoved(v: Value, names: seq<string>)
    ensures Step(Resolution(true, v), names).Ok? ==> Step(Resolution(true, v), names).value.moved
    decreases names
  {
    if names != [] {
      var has := HasProperty(v, names[0]);
      if has.Ok? {
        var next := if has.value then Get(v, names[0]).value else v;
        StaysMoved(next, names[1..]);
      }
    }
  }

  /**
   * A placeholder over an object root stays unresolved exactly when none of
   * its names is a top-level key; a walk that never moves never throws.
   */
  lemma {:induction false} UnresolvedIff(ms: seq<Member>, names: seq<string>)
    ensures Resolve(Object(ms), names) == Ok(Resolution(false, Object(ms))) <==>
      forall i :: 0 <= i < |names| ==> names[i] !in Keys(ms)
    decreases names
  {
    if names != [] {
      UnresolvedIff(ms, names[1..]);
      if names[0] in Keys(ms) {
        StaysMoved(Find(ms, names[0]).value, names[1..]);
      } else {
        assert forall i :: 1 <= i < |names| ==> names[i] == names[1..][i - 1];
      }
    }
  }

  /** `{platform: "web", stage: {id: "42"}}`: the path stage.id reaches "42". */
  lemma ResolvesNestedKey()
    ensures var config := Object([Member("platform", Str("web")), Member("stage", Object([Member("id", Str("42"))]))]);
      Resolve(config, ["stage", "id"]) == Ok(Resolution(true, Str("42")))
  {
    var stage := Object([Member("id", Str("42"))]);
    var config := Object([Member("platform", Str("web")), Member("stage", stage)]);
    assert Keys(config.members) == ["platform", "stage"];
    assert Find(config.members, "stage") == Some(stage);
    assert Step(Resolution(false, config), ["stage", "id"]) == Step(Resolution(true, stage), ["id"]);
    assert Keys(stage.members) == ["id"];
  }

  /**
   * The same config and the path stage.missing: the walk stops on the stage
   * object, which has left the root, so the token is replaced by that
   * object's text "[object Object]" rather than kept.
   */
  lemma MissingLeafStopsAtParent()
    ensures var stage := Object([Member("id", Str("42"))]);
      var config := Object([Member("platform", Str("web")), Member("stage", stage)]);
      Resolve(config, ["stage", "missing"]) == Ok(Resolution(true, stage)) &&
      ToText(stage) == "[object Object]"
  {
    var stage := Object([Member("id", Str("42"))]);
    var config := Object([Member("platform", Str("web")), Member("stage", stage)]);
    assert Keys(config.members) == ["platform", "stage"];
    assert Find(config.members, "stage") == Some(stage);
    assert Step(Resolution(false, config), ["stage", "missing"]) == Step(Resolution(true, stage), ["missing"]);
    assert Keys(stage.members) == ["id"];
  }

  /** A name after a primitive throws: `"x" in "web"` is a TypeError. */
  lemma PathThroughPrimitiveThrows(ms: seq<Member>, first: string, s: string, rest: seq<string>)
    requires Find(ms, first) == Some(Str(s))
    requires |rest| >= 1
    ensures Resolve(Object(ms), [first] + rest).Err?
  {
    var names := [first] + rest;
    assert names[0] == first && names[1..] == rest;
    assert HasProperty(Object(ms), first) == Ok(true);
    assert Resolve(Object(ms), names) == Step(Resolution(true, Str(s)), rest);
    assert HasProperty(Str(s), rest[0]).Err?;
  }

  // ---------------------------------------------------------------------
  // Substitution

  /**
   * Each token in turn: resolved, and if resolved replaced at its first
   * occurrence. The pass throws exactly when the walk of some token's path
   * throws, whatever the text.
   */
  function Substitute(text: string, tokens: seq<string>, root: Value): (r: Result<string>)
    ensures r.Err? <==> exists i :: 0 <= i < |tokens| && Resolve(root, Names(tokens[i])).Err?
    decreases tokens
  {
    if tokens == [] then Ok(text)
    else
      var res :- Resolve(root, Names(tokens[0]));
      var text' := if res.moved then ReplaceFirst(text, tokens[0], ToText(res.value)) else text;
      assert forall i :: 1 <= i < |tokens| ==> tokens[i] == tokens[1..][i - 1];
      Substitute(text', tokens[1..], root)
  }

  /** The config text after the placeholder pass. */
  function Render(config: Value): Result<string>
  {
    var text := Stringify(config);
    Substitute(text, Tokens(text), config)
  }

  /** The outer loop over the matches. */
  method ResolvePlaceholders(config: Value) returns (r: Result<string>)
    ensures r == Render(config)
  {
    var configString := Stringify(config);
    var values := Tokens(configString);
    var idx := 0;
    while idx < |values|
      invariant 0 <= idx <= |values|
      invariant Substitute(configString, values[idx..], config) == Render(config)
    {
      var value := values[idx];
      assert values[idx..][0] == value && values[idx..][1..] == values[idx + 1..];
      var names := Names(value);
      var resolved := ResolvePath(config, names);
      if resolved.Err? {
        return Err(resolved.error);
      }
      var configValue := resolved.value;
      if configValue.moved {
        configString := ReplaceFirst(configString, value, ToText(configValue.value));
      }
      idx := idx + 1;
    }
    return Ok(configString);
  }

  /** A text without placeholders comes out as `JSON.stringify` wrote it. */
  lemma RenderWithoutPlaceholders(config: Value)
    requires !Contains(Stringify(config), "{{")
    ensures Render(config) == Ok(Stringify(config))
  {
    NoTokens(Stringify(config));
  }

  /** Tokens that stay unresolved leave the text as it was. */
  lemma {:induction false} UnresolvedKeepsText(text: string, tokens: seq<string>, root: Value)
    requires forall t :: t in tokens ==> Resolve(root, Names(t)) == Ok(Resolution(false, root))
    ensures Substitute(text, tokens, root) == Ok(text)
    decreases tokens
  {
    if tokens != [] {
      assert tokens[0] in tokens;
      assert forall t :: t in tokens[1..] ==> t in tokens;
      UnresolvedKeepsText(text, tokens[1..], root);
    }
  }

  /** Replacing a `{{...}}` token keeps an opening "{\n", since no token can start there. */
  lemma ReplaceKeepsOpening(text: string, token: string, rep: string)
    requires StartsWith(text, "{\n") && IsToken(token)
    ensures StartsWith(ReplaceFirst(text, token, rep), "{\n")
  {
    if Contains(text, token) {
      var i := IndexOf(text, token);
      assert text[..2] == "{\n";
      assert text[1] == text[..2][1] == '\n';
      assert OccursAt(text, token, i);
      var seg := text[i..i + |token|];
      assert seg == token;
      assert token[0] == token[..2][0] == '{' && token[1] == token[..2][1] == '{';
      assert text[i] == seg[0] && text[i + 1] == seg[1];
      assert i >= 2;
      var r := ReplaceFirst(text, token, rep);
      assert r[..2] == r[..i][..2] == text[..i][..2];
    }
  }

  /** Substitution keeps an opening "{\n": the rendered config of an object is never empty. */
  lemma {:induction false} SubstituteKeepsOpening(text: string, tokens: seq<string>, root: Value)
    requires StartsWith(text, "{\n")
    requires forall t :: t in tokens ==> IsToken(t)
    ensures Substitute(text, tokens, root).Ok? ==> StartsWith(Substitute(text, tokens, root).value, "{\n")
    decreases tokens
  {
    if tokens != [] {
      assert tokens[0] in tokens;
      assert forall t :: t in tokens[1..] ==> t in tokens;
      var res := Resolve(root, Names(tokens[0]));
      if res.Ok? {
        var text' := if res.value.moved then ReplaceFirst(text, tokens[0], ToText(res.value.value)) else text;
        if res.value.moved {
          ReplaceKeepsOpening(text, tokens[0], ToText(res.value.value));
        }
        SubstituteKeepsOpening(text', tokens[1..], root);
      }
    }
  }

  /** A non-empty object config renders to text starting "{\n". */
  lemma RenderedOpening(ms: seq<Member>)
    requires ms != []
    ensures Render(Object(ms)).Ok? ==> StartsWith(Render(Object(ms)).value, "{\n")
  {
    var text := Stringify(Object(ms));
    SubstituteKeepsOpening(text, Tokens(text), Object(ms));
  }
}
