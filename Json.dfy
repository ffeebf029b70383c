/**
 * Parsed JSON documents and the JavaScript operations the config assembler
 * applies to them: `Object.assign`, the `in` operator, property reads,
 * truthiness, `String(v)` and `JSON.stringify(v, null, 4)`.
 *
 * An object is an ordered list of members: JavaScript keeps the position of
 * an existing key when it is overwritten and appends new keys, and that
 * order decides the serialised text.
 */
module Json {
  import opened Base
  import opened JsString

  datatype Value =
    | Null
    | Bool(b: bool)
    | Number(n: int)
    | Str(s: string)
    | Array(items: seq<Value>)
    | Object(members: seq<Member>)

  datatype Member = Member(key: string, value: Value)

  // ---------------------------------------------------------------------
  // Decimal text of numbers and array indices

  function DigitChar(d: nat): (c: char)
    requires d < 10
    ensures '0' <= c <= '9' && c as int - '0' as int == d
  {
    ('0' as int + d) as char
  }

  /** The decimal text of `n`, as `String(n)` writes it: no sign, no leading zero. */
  function NatToString(n: nat): (r: string)
    ensures |r| >= 1
    ensures forall i :: 0 <= i < |r| ==> '0' <= r[i] <= '9'
    ensures r[0] == '0' ==> n == 0
    decreases n
  {
    if n < 10 then [DigitChar(n)] else NatToString(n / 10) + [DigitChar(n % 10)]
  }

  function IntToString(i: int): string
  {
    if i < 0 then "-" + NatToString(-i) else NatToString(i)
  }

  predicate IsDigits(s: string)
  {
    forall i :: 0 <= i < |s| ==> '0' <= s[i] <= '9'
  }

  function DigitsValue(s: string): nat
    requires IsDigits(s)
    decreases |s|
  {
    if s == [] then 0 else DigitsValue(s[..|s| - 1]) * 10 + (s[|s| - 1] as int - '0' as int)
  }

  /** The array index a property name denotes: canonical decimal text only ("01" is no index). */
  function ParseIndex(name: string): Option<nat>
  {
    if name != [] && IsDigits(name) && (name[0] != '0' || |name| == 1) then Some(DigitsValue(name))
    else None
  }

  lemma {:induction false} DigitsValueOfNat(n: nat)
    ensures DigitsValue(NatToString(n)) == n
    decreases n
  {
    if n >= 10 {
      var s := NatToString(n);
      assert s[..|s| - 1] == NatToString(n / 10);
      DigitsValueOfNat(n / 10);
    }
  }

  /** An index written out reads back as the same index. */
  lemma IndexRoundTrip(n: nat)
    ensures ParseIndex(NatToString(n)) == Some(n)
  {
    DigitsValueOfNat(n);
  }

  lemma {:induction false} LeadingDigitPositive(s: string)
    requires s != [] && IsDigits(s) && s[0] != '0'
    ensures DigitsValue(s) >= 1
    decreases |s|
  {
    if |s| > 1 {
      LeadingDigitPositive(s[..|s| - 1]);
    }
  }

  /** Every index name is the text of the index it denotes, so index names are canonical. */
  lemma {:induction false} IndexNameCanonical(name: string)
    requires ParseIndex(name).Some?
    ensures NatToString(ParseIndex(name).value) == name
    decreases |name|
  {
    var n := DigitsValue(name);
    if |name| > 1 {
      var p := name[..|name| - 1];
      LeadingDigitPositive(p);
      assert ParseIndex(p) == Some(DigitsValue(p));
      IndexNameCanonical(p);
      assert n / 10 == DigitsValue(p) && n % 10 == name[|name| - 1] as int - '0' as int;
      assert name == p + [name[|name| - 1]];
    } else {
      assert |name| == 1 && name[..0] == [];
      assert DigitsValue(name[..0]) == 0;
      assert n == DigitsValue(name[..0]) * 10 + (name[0] as int - '0' as int);
      assert DigitChar(n) == name[0];
    }
  }

  // ---------------------------------------------------------------------
  // Objects as ordered member lists

  function Keys(ms: seq<Member>): (ks: seq<string>)
    ensures |ks| == |ms|
    ensures forall i :: 0 <= i < |ms| ==> ks[i] == ms[i].key
  {
    if ms == [] then [] else [ms[0].key] + Keys(ms[1..])
  }

  predicate UniqueKeys(ms: seq<Member>)
  {
    forall i, j :: 0 <= i < j < |ms| ==> ms[i].key != ms[j].key
  }

  /** The value of the first member named `k`. */
  function Find(ms: seq<Member>, k: string): (r: Option<Value>)
    ensures r.Some? <==> k in Keys(ms)
    ensures r.Some? ==> exists i :: 0 <= i < |ms| && ms[i] == Member(k, r.value)
  {
    if ms == [] then None
    else if ms[0].key == k then Some(ms[0].value)
    else Find(ms[1..], k)
  }

  /** `o[k] = v`: overwrite the member named `k` in place, or append a new one. */
  function Put(ms: seq<Member>, k: string, v: Value): (r: seq<Member>)
  {
    if ms == [] then [Member(k, v)]
    else if ms[0].key == k then [Member(k, v)] + ms[1..]
    else [ms[0]] + Put(ms[1..], k, v)
  }

  lemma {:induction false} PutFind(ms: seq<Member>, k: string, v: Value, k': string)
    ensures Find(Put(ms, k, v), k') == if k' == k then Some(v) else Find(ms, k')
  {
    if ms != [] && ms[0].key != k {
      PutFind(ms[1..], k, v, k');
    }
  }

  lemma {:induction false} PutKeys(ms: seq<Member>, k: string, v: Value)
    ensures Keys(Put(ms, k, v)) == if k in Keys(ms) then Keys(ms) else Keys(ms) + [k]
  {
    if ms != [] && ms[0].key != k {
      PutKeys(ms[1..], k, v);
      assert Keys(ms) == [ms[0].key] + Keys(ms[1..]);
    }
  }

  lemma PutUnique(ms: seq<Member>, k: string, v: Value)
    requires UniqueKeys(ms)
    ensures UniqueKeys(Put(ms, k, v))
  {
    var r := Put(ms, k, v);
    PutKeys(ms, k, v);
    assert Keys(r) == Keys(ms) || Keys(r) == Keys(ms) + [k];
    forall i, j | 0 <= i < j < |r| ensures r[i].key != r[j].key {
      assert Keys(r)[i] == r[i].key && Keys(r)[j] == r[j].key;
      if j < |ms| {
        assert Keys(ms)[i] == ms[i].key && Keys(ms)[j] == ms[j].key;
      }
    }
  }

  /** Copy `source`'s members into `target` one by one, in order. */
  function AssignMembers(target: seq<Member>, source: seq<Member>): seq<Member>
    decreases source
  {
    if source == [] then target
    else AssignMembers(Put(target, source[0].key, source[0].value), source[1..])
  }

  /** The own enumerable properties `Object.assign` copies from a value. */
  function OwnEntries(v: Value): (r: seq<Member>)
    ensures v.Object? ==> r == v.members
    ensures v.Null? || v.Bool? || v.Number? ==> r == []
  {
    match v
    case Object(ms) => ms
    case Array(items) => seq(|items|, i requires 0 <= i < |items| => Member(NatToString(i), items[i]))
    case Str(s) => seq(|s|, i requires 0 <= i < |s| => Member(NatToString(i), Str([s[i]])))
    case _ => []
  }

  /** Distinct indices have distinct names, so an array's or a string's entries never share a key. */
  lemma OwnEntriesUnique(v: Value)
    requires v.Object? ==> UniqueKeys(v.members)
    ensures UniqueKeys(OwnEntries(v))
  {
    var es := OwnEntries(v);
    if v.Array? || v.Str? {
      forall i, j | 0 <= i < j < |es|
        ensures es[i].key != es[j].key
      {
        assert es[i].key == NatToString(i) && es[j].key == NatToString(j);
        IndexRoundTrip(i);
        IndexRoundTrip(j);
      }
    }
  }

  /**
   * `Object.assign(target, source)` on an ordinary object target: the
   * target's keys stay where they are and the source's new keys follow in
   * source order, each key still once.
   */
  function Assign(target: seq<Member>, source: Value): (r: seq<Member>)
    ensures Keys(r) == Keys(target) + NewKeys(Keys(target), Keys(OwnEntries(source)))
    ensures UniqueKeys(target) ==> UniqueKeys(r)
  {
    AssignKeys(target, OwnEntries(source));
    AssignUnique(target, OwnEntries(source));
    AssignMembers(target, OwnEntries(source))
  }

  /** The keys `source` adds to a target that already has `seen`, in the order it adds them. */
  function NewKeys(seen: seq<string>, ks: seq<string>): seq<string>
    decreases ks
  {
    if ks == [] then []
    else if ks[0] in seen then NewKeys(seen, ks[1..])
    else [ks[0]] + NewKeys(seen + [ks[0]], ks[1..])
  }

  /** Assignment keeps every existing key where it was and appends the new ones in source order. */
  lemma {:induction false} AssignKeys(target: seq<Member>, source: seq<Member>)
    ensures Keys(AssignMembers(target, source)) == Keys(target) + NewKeys(Keys(target), Keys(source))
    decreases source
  {
    if source != [] {
      var m := source[0];
      var t' := Put(target, m.key, m.value);
      PutKeys(target, m.key, m.value);
      AssignKeys(t', source[1..]);
      assert Keys(source) == [m.key] + Keys(source[1..]);
    }
  }

  /** Assignment overwrites exactly the keys the source has, with the source's values. */
  lemma {:induction false} AssignFind(target: seq<Member>, source: seq<Member>, k: string)
    requires UniqueKeys(source)
    ensures Find(AssignMembers(target, source), k) ==
      if k in Keys(source) then Find(source, k) else Find(target, k)
    decreases source
  {
    if source != [] {
      var m := source[0];
      PutFind(target, m.key, m.value, k);
      assert UniqueKeys(source[1..]);
      AssignFind(Put(target, m.key, m.value), source[1..], k);
      assert Keys(source) == [m.key] + Keys(source[1..]);
    }
  }

  lemma {:induction false} AssignUnique(target: seq<Member>, source: seq<Member>)
    ensures UniqueKeys(target) ==> UniqueKeys(AssignMembers(target, source))
    decreases source
  {
    if source != [] && UniqueKeys(target) {
      PutUnique(target, source[0].key, source[0].value);
      AssignUnique(Put(target, source[0].key, source[0].value), source[1..]);
    }
  }

  // ---------------------------------------------------------------------
  // Property access

  /** `name in v`: own keys of an object, indices and "length" of an array; a TypeError otherwise. */
  function HasProperty(v: Value, name: string): (r: Result<bool>)
    ensures r.Err? <==> !(v.Object? || v.Array?)
  {
    match v
    case Object(ms) => Ok(name in Keys(ms))
    case Array(items) => Ok(name == "length" || (ParseIndex(name).Some? && ParseIndex(name).value < |items|))
    case _ => Err(TypeError("cannot use 'in' operator to search for '" + name + "'"))
  }

  /** `v[name]` on an object or an array; None stands for `undefined`. */
  function Get(v: Value, name: string): (r: Option<Value>)
    ensures (v.Object? || v.Array?) ==> (r.Some? <==> HasProperty(v, name) == Ok(true))
    ensures v.Object? ==> r == Find(v.members, name)
  {
    match v
    case Object(ms) => Find(ms, name)
    case Array(items) =>
      if name == "length" then Some(Number(|items|))
      else if ParseIndex(name).Some? && ParseIndex(name).value < |items| then Some(items[ParseIndex(name).value])
      else None
    case _ => None
  }

  /** JavaScript truthiness of a parsed value: only null, false, 0 and "" are falsy. */
  function Truthy(v: Value): (r: bool)
    ensures !r <==> v in {Null, Bool(false), Number(0), Str("")}
  {
    match v
    case Null => false
    case Bool(b) => b
    case Number(n) => n != 0
    case Str(s) => s != ""
    case _ => true
  }

  // ---------------------------------------------------------------------
  // String(v)

  /**
   * `String(v)`: the text a value turns into when it replaces a placeholder.
   * A string is itself, a number its decimal text, which reads back as the
   * number, an empty array the empty text, and a one-element array the
   * text of its element.
   */
  function ToText(v: Value): (r: string)
    ensures v.Str? ==> r == v.s
    ensures v.Number? && v.n >= 0 ==> ParseIndex(r) == Some(v.n)
    ensures v.Number? && v.n < 0 ==> |r| >= 2 && r[0] == '-' && ParseIndex(r[1..]) == Some(-v.n)
    ensures v.Array? && v.items == [] ==> r == ""
    ensures v.Array? && |v.items| == 1 && !v.items[0].Null? ==> r == ToText(v.items[0])
    decreases v
  {
    match v
    case Null => "null"
    case Bool(b) => if b then "true" else "false"
    case Number(n) =>
      if n >= 0 then IndexRoundTrip(n); IntToString(n)
      else IndexRoundTrip(-n); assert IntToString(n)[1..] == NatToString(-n); IntToString(n)
    case Str(s) => s
    case Array(items) => ItemsText(items)
    case Object(_) => "[object Object]"
  }

  /** `items.join(",")`, where a null element contributes nothing. */
  function ItemsText(items: seq<Value>): string
    decreases items
  {
    if items == [] then ""
    else
      var first := if items[0].Null? then "" else ToText(items[0]);
      if |items| == 1 then first else first + "," + ItemsText(items[1..])
  }

  // ---------------------------------------------------------------------
  // JSON.stringify(v, null, 4)

  function Indent(depth: nat): string
  {
    seq(4 * depth, _ => ' ')
  }

  function HexDigit(d: nat): char
    requires d < 16
  {
    if d < 10 then DigitChar(d) else ('a' as int + d - 10) as char
  }

  /** The JSON escape of one character of a string. */
  function EscapeChar(c: char): string
  {
    if c == '"' then "\\\""
    else if c == '\\' then "\\\\"
    else if c as int == 8 then "\\b"
    else if c as int == 12 then "\\f"
    else if c == '\n' then "\\n"
    else if c == '\r' then "\\r"
    else if c == '\t' then "\\t"
    else if c as int < 32 then "\\u00" + [HexDigit(c as int / 16), HexDigit(c as int % 16)]
    else [c]
  }

  function Escape(s: string): string
  {
    if s == [] then "" else EscapeChar(s[0]) + Escape(s[1..])
  }

  function Quote(s: string): string
  {
    "\"" + Escape(s) + "\""
  }

  /** The text of `v` at nesting depth `depth`, indented by four spaces per level. */
  function Serialize(v: Value, depth: nat): string
    decreases v
  {
    match v
    case Null => "null"
    case Bool(b) => if b then "true" else "false"
    case Number(n) => IntToString(n)
    case Str(s) => Quote(s)
    case Array(items) =>
      if items == [] then "[]"
      else "[\n" + SerializeItems(items, depth + 1) + "\n" + Indent(depth) + "]"
    case Object(ms) =>
      if ms == [] then "{}"
      else "{\n" + SerializeMembers(ms, depth + 1) + "\n" + Indent(depth) + "}"
  }

  function SerializeItems(items: seq<Value>, depth: nat): string
    requires items != []
    decreases items
  {
    var first := Indent(depth) + Serialize(items[0], depth);
    if |items| == 1 then first else first + ",\n" + SerializeItems(items[1..], depth)
  }

  function SerializeMembers(ms: seq<Member>, depth: nat): string
    requires ms != []
    decreases ms
  {
    var first := Indent(depth) + Quote(ms[0].key) + ": " + Serialize(ms[0].value, depth);
    if |ms| == 1 then first else first + ",\n" + SerializeMembers(ms[1..], depth)
  }

  /** `JSON.stringify(v, null, 4)`. */
  function Stringify(v: Value): (r: string)
    ensures v.Object? && v.members != [] ==> StartsWith(r, "{\n")
    ensures v.Array? && v.items != [] ==> StartsWith(r, "[\n")
  {
    Serialize(v, 0)
  }
}
