/**
 * The handful of JavaScript string operations the generators are built from,
 * with the semantics of String.prototype: indexOf, split, join, replace with
 * a string pattern, and slice(0, -n).  JavaScript strings are sequences of
 * UTF-16 code units; here a string is a sequence of Dafny characters.
 */
module JsString {

  /** `pat` occurs in `s` starting at position `i`. */
  predicate OccursAt(s: string, pat: string, i: int)
  {
    0 <= i && i + |pat| <= |s| && s[i..i + |pat|] == pat
  }

  /** `s.indexOf(pat)`: the first position where `pat` occurs, or -1. */
  function IndexOf(s: string, pat: string): (r: int)
    ensures r == -1 || OccursAt(s, pat, r)
    ensures forall j {:trigger OccursAt(s, pat, j)} :: 0 <= j && (r == -1 || j < r) ==> !OccursAt(s, pat, j)
    decreases |s|
  {
    if |pat| > |s| then -1
    else if s[..|pat|] == pat then 0
    else
      var k := IndexOf(s[1..], pat);
      assert forall j {:trigger OccursAt(s, pat, j)} :: 1 <= j ==> (OccursAt(s, pat, j) <==> OccursAt(s[1..], pat, j - 1)) by {
        forall j | 1 <= j
          ensures OccursAt(s, pat, j) <==> OccursAt(s[1..], pat, j - 1)
        {
          if j + |pat| <= |s| {
            assert s[1..][j - 1..j - 1 + |pat|] == s[j..j + |pat|];
          }
        }
      }
      if k == -1 then -1 else k + 1
  }

  /** `s.indexOf(pat) !== -1`: the substring test the plugin uses everywhere. */
  predicate Contains(s: string, pat: string)
  {
    IndexOf(s, pat) >= 0
  }

  lemma ContainsIff(s: string, pat: string)
    ensures Contains(s, pat) <==> exists i :: OccursAt(s, pat, i)
  {
    var r := IndexOf(s, pat);
    if r >= 0 {
      assert OccursAt(s, pat, r);
    }
  }

  /** An occurrence anywhere means the string contains the pattern. */
  lemma ContainsAt(s: string, pat: string, i: int)
    requires OccursAt(s, pat, i)
    ensures Contains(s, pat)
  {
  }

  /** A string that contains `p + q` contains `p`. */
  lemma {:induction false} ContainsPrefix(s: string, p: string, q: string)
    requires Contains(s, p + q)
    ensures Contains(s, p)
  {
    var i := IndexOf(s, p + q);
    assert s[i..i + |p|] == (p + q)[..|p|] == p;
    assert OccursAt(s, p, i);
    ContainsIff(s, p);
  }

  /** A string that has a suffix containing `pat` contains `pat`. */
  lemma {:induction false} ContainsFromSuffix(s: string, k: nat, pat: string)
    requires k <= |s| && Contains(s[k..], pat)
    ensures Contains(s, pat)
  {
    var i := IndexOf(s[k..], pat);
    assert s[k..][i..i + |pat|] == s[k + i..k + i + |pat|];
    assert OccursAt(s, pat, k + i);
    ContainsIff(s, pat);
  }

  predicate StartsWith(s: string, prefix: string)
  {
    |prefix| <= |s| && s[..|prefix|] == prefix
  }

  /**
   * `s.replace(pat, rep)` with a string pattern: only the first occurrence
   * is replaced ("$" patterns in `rep` are not interpreted here).
   */
  function ReplaceFirst(s: string, pat: string, rep: string): (r: string)
    ensures !Contains(s, pat) ==> r == s
    ensures Contains(s, pat) ==>
      var i := IndexOf(s, pat);
      |r| == |s| - |pat| + |rep| && r[..i] == s[..i] && r[i..i + |rep|] == rep && r[i + |rep|..] == s[i + |pat|..]
  {
    var i := IndexOf(s, pat);
    if i < 0 then s else s[..i] + rep + s[i + |pat|..]
  }

  /** Removing a prefix the string starts with leaves exactly the rest. */
  lemma StripPrefix(s: string, prefix: string)
    requires StartsWith(s, prefix)
    ensures ReplaceFirst(s, prefix, "") == s[|prefix|..]
  {
    assert OccursAt(s, prefix, 0);
  }

  /** `s.split(sep)` for a non-empty separator: the pieces between the occurrences (see `SplitJoin`). */
  function Split(s: string, sep: string): (parts: seq<string>)
    requires sep != ""
    ensures |parts| >= 1
    decreases |s|
  {
    var i := IndexOf(s, sep);
    if i < 0 then [s] else [s[..i]] + Split(s[i + |sep|..], sep)
  }

  /** Joined with the separator, the pieces give `s` back. */
  lemma {:induction false} SplitJoin(s: string, sep: string)
    requires sep != ""
    ensures Join(Split(s, sep), sep) == s
    decreases |s|
  {
    var i := IndexOf(s, sep);
    if i >= 0 {
      assert OccursAt(s, sep, i);
      var rest := s[i + |sep|..];
      assert s == s[..i] + sep + rest by {
        assert s == s[..i] + s[i..i + |sep|] + s[i + |sep|..];
      }
      SplitJoin(rest, sep);
      var tail := Split(rest, sep);
      assert Split(s, sep) == [s[..i]] + tail;
      JoinCons(s[..i], tail, sep);
    } else {
      assert Split(s, sep) == [s];
    }
  }

  /** A part in front of a non-empty list joins with one separator. */
  lemma JoinCons(part: string, parts: seq<string>, sep: string)
    requires parts != []
    ensures Join([part] + parts, sep) == part + sep + Join(parts, sep)
  {
    assert ([part] + parts)[1..] == parts;
  }

  /** None of the pieces of a split contains the separator. */
  lemma {:induction false} SplitPiecesFree(s: string, sep: string)
    requires sep != ""
    ensures forall k :: 0 <= k < |Split(s, sep)| ==> !Contains(Split(s, sep)[k], sep)
    decreases |s|
  {
    var i := IndexOf(s, sep);
    if i >= 0 {
      var rest := s[i + |sep|..];
      SplitPiecesFree(rest, sep);
      NoOccurrenceBefore(s, sep, i);
      assert Split(s, sep) == [s[..i]] + Split(rest, sep);
    } else {
      NoOccurrenceBefore(s, sep, |s|);
      assert s[..|s|] == s;
    }
  }

  /** The text before the first occurrence of `sep` does not contain it. */
  lemma NoOccurrenceBefore(s: string, sep: string, i: int)
    requires sep != "" && 0 <= i <= |s|
    requires forall j {:trigger OccursAt(s, sep, j)} :: 0 <= j < i ==> !OccursAt(s, sep, j)
    ensures !Contains(s[..i], sep)
  {
    var j := IndexOf(s[..i], sep);
    if j >= 0 {
      assert s[..i][j..j + |sep|] == s[j..j + |sep|];
      assert OccursAt(s, sep, j);
    }
  }

  /** Splitting on a character at its first position `k` gives `s[..k]`, then the split of the rest. */
  lemma SplitAtChar(s: string, c: char, k: nat)
    requires k < |s| && s[k] == c
    requires forall j :: 0 <= j < k ==> s[j] != c
    ensures Split(s, [c]) == [s[..k]] + Split(s[k + 1..], [c])
  {
    assert OccursAt(s, [c], k);
    forall j | 0 <= j < k
      ensures !OccursAt(s, [c], j)
    {
      assert s[j..j + 1] == [s[j]];
    }
  }

  /** A field free of the separator character, then the separator: the field comes off first. */
  lemma SplitAfterField(p: string, c: char, rest: string)
    requires forall j :: 0 <= j < |p| ==> p[j] != c
    ensures Split(p + [c] + rest, [c]) == [p] + Split(rest, [c])
  {
    var s := p + [c] + rest;
    forall j | 0 <= j < |p|
      ensures s[j] != c
    {
      assert s[j] == p[j];
    }
    SplitAtChar(s, c, |p|);
    assert s[..|p|] == p;
    assert s[|p| + 1..] == rest;
  }

  /** A string without the character splits into itself. */
  lemma SplitNoChar(s: string, c: char)
    requires forall j :: 0 <= j < |s| ==> s[j] != c
    ensures Split(s, [c]) == [s]
  {
    forall j | 0 <= j
      ensures !OccursAt(s, [c], j)
    {
      if j < |s| {
        assert s[j..j + 1] == [s[j]];
      }
    }
    assert IndexOf(s, [c]) == -1;
  }

  /** `split(sep)[1]` exists exactly when the separator occurs. */
  lemma SplitHasSecond(s: string, sep: string)
    requires sep != ""
    ensures |Split(s, sep)| >= 2 <==> Contains(s, sep)
  {
  }

  /** `split(sep)[0]` is the text before the first separator, or all of `s`. */
  lemma SplitFirst(s: string, sep: string)
    requires sep != ""
    ensures Split(s, sep)[0] == if Contains(s, sep) then s[..IndexOf(s, sep)] else s
  {
  }

  /** Two occurrences of a one-character separator give at least three fields. */
  lemma {:induction false} SplitThreeFields(s: string, c: char, i: int, j: int)
    requires 0 <= i < j < |s| && s[i] == c && s[j] == c
    ensures |Split(s, [c])| >= 3
  {
    var k := IndexOf(s, [c]);
    assert s[i..i + 1] == [c];
    assert OccursAt(s, [c], i);
    CharAbsentBefore(s, c, k);
    SplitAtChar(s, c, k);
    var rest := s[k + 1..];
    assert rest[j - k - 1] == c;
    SplitTwoFields(rest, c, j - k - 1);
  }

  /** One occurrence of a one-character separator gives at least two fields. */
  lemma SplitTwoFields(s: string, c: char, i: int)
    requires 0 <= i < |s| && s[i] == c
    ensures |Split(s, [c])| >= 2
  {
    assert s[i..i + 1] == [c];
    ContainsAt(s, [c], i);
    SplitHasSecond(s, [c]);
  }

  /** The lengths of `parts` added up. */
  function TotalLength(parts: seq<string>): nat
  {
    if parts == [] then 0 else |parts[0]| + TotalLength(parts[1..])
  }

  /** `parts.join(sep)`: the parts in order, one separator between neighbours. */
  function Join(parts: seq<string>, sep: string): (r: string)
    ensures parts == [] ==> r == ""
    ensures parts != [] ==> StartsWith(r, parts[0]) && |r| == TotalLength(parts) + (|parts| - 1) * |sep|
  {
    if parts == [] then ""
    else if |parts| == 1 then parts[0]
    else parts[0] + sep + Join(parts[1..], sep)
  }

  /** Joining fields free of a one-character separator and splitting on it again gives the fields back. */
  lemma {:induction false} SplitJoinChar(parts: seq<string>, c: char)
    requires parts != []
    requires forall k, j :: 0 <= k < |parts| && 0 <= j < |parts[k]| ==> parts[k][j] != c
    ensures Split(Join(parts, [c]), [c]) == parts
    decreases |parts|
  {
    if |parts| == 1 {
      SplitNoChar(parts[0], c);
    } else {
      assert forall j :: 0 <= j < |parts[0]| ==> parts[0][j] != c;
      SplitJoinChar(parts[1..], c);
      SplitAfterField(parts[0], c, Join(parts[1..], [c]));
    }
  }

  /** Every occurrence of character `c` in `s` replaced by `d`. */
  function ReplaceChar(s: string, c: char, d: char): (r: string)
    ensures |r| == |s|
    ensures forall i :: 0 <= i < |s| ==> r[i] == (if s[i] == c then d else s[i])
  {
    seq(|s|, i requires 0 <= i < |s| => if s[i] == c then d else s[i])
  }

  /** No position before the first occurrence of a one-character pattern holds that character. */
  lemma CharAbsentBefore(s: string, c: char, k: int)
    requires k == |s| || (0 <= k < |s| && OccursAt(s, [c], k))
    requires forall j {:trigger OccursAt(s, [c], j)} :: 0 <= j < k ==> !OccursAt(s, [c], j)
    ensures forall i :: 0 <= i < k ==> s[i] != c
  {
    forall i | 0 <= i < k ensures s[i] != c {
      assert s[i..i + 1] == [s[i]];
      assert !OccursAt(s, [c], i);
    }
  }

  lemma ReplaceCharSplit(s: string, c: char, d: char, k: nat)
    requires k < |s| && s[k] == c
    requires forall i :: 0 <= i < k ==> s[i] != c
    ensures ReplaceChar(s, c, d) == s[..k] + [d] + ReplaceChar(s[k + 1..], c, d)
  {
  }

  /** `s.split(c).join(d)` for one-character strings replaces every `c` by `d`. */
  lemma {:induction false} JoinSplitChar(s: string, c: char, d: char)
    ensures Join(Split(s, [c]), [d]) == ReplaceChar(s, c, d)
    decreases |s|
  {
    var k := IndexOf(s, [c]);
    if k < 0 {
      CharAbsentBefore(s, c, |s|);
      assert ReplaceChar(s, c, d) == s;
    } else {
      var rest := s[k + 1..];
      CharAbsentBefore(s, c, k);
      assert s[k] == c by { assert s[k..k + 1] == [c]; }
      JoinSplitChar(rest, c, d);
      var tail := Split(rest, [c]);
      assert Split(s, [c]) == [s[..k]] + tail;
      assert Join([s[..k]] + tail, [d]) == s[..k] + [d] + Join(tail, [d]);
      ReplaceCharSplit(s, c, d, k);
    }
  }

  /**
   * `s.slice(0, -n)` for n > 0: all but the last `n` characters, or "" when
   * `s` is shorter (`slice(0, -0)` would be "", so n = 0 is not this operation).
   */
  function DropLast(s: string, n: nat): (r: string)
    requires n > 0
    ensures |r| == if |s| <= n then 0 else |s| - n
    ensures r <= s
  {
    if |s| <= n then "" else s[..|s| - n]
  }
}
