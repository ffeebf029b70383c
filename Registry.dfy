/**
 * The source scan shared by the three package generators
 * (src/build/usecase/BuildPackageUseCase.ts, src/BuildPackage.ts and
 * `buildPackage` in src/index.js): for each walked file whose path contains
 * the extension marker, read it, take the first line holding
 * "export class ", and turn the declared name into an import line and a row
 * of the `packages` array, depending on whether the file lies under
 * src/view/ or src/model/.  The three copies differ only in the marker, the
 * line separator and the header they wrap the result in.
 */
module Registry {
  import opened Base
  import opened JsString
  import opened FileSystem

  const ClassMarker: string := "export class "

  // ---------------------------------------------------------------------
  // One file

  /** The first line that declares a class, if any. */
  function FirstClassLine(lines: seq<string>): (r: Option<nat>)
    ensures r.Some? ==> r.value < |lines| && Contains(lines[r.value], ClassMarker)
    ensures forall j :: 0 <= j < |lines| && (r.None? || j < r.value) ==> !Contains(lines[j], ClassMarker)
  {
    if lines == [] then None
    else if Contains(lines[0], ClassMarker) then Some(0)
    else match FirstClassLine(lines[1..])
      case None => None
      case Some(k) => Some(k + 1)
  }

  /**
   * `line.split(" ")[2]`: a line holding "export class " has at least three
   * space-separated fields, so the name is always defined.
   */
  function DeclaredName(line: string): (r: string)
    requires Contains(line, ClassMarker)
    ensures !Contains(r, " ")
  {
    var i := IndexOf(line, ClassMarker);
    var head := line[i..i + 13];
    assert head == ClassMarker;
    assert head[6] == ' ' && head[12] == ' ';
    assert line[i + 6] == head[6] && line[i + 12] == head[12];
    SplitThreeFields(line, ' ', i + 6, i + 12);
    SplitPiecesFree(line, " ");
    Split(line, " ")[2]
  }

  /** A line that starts with the marker splits into "export", "class" and the fields after it. */
  lemma SplitDeclarationHead(line: string)
    requires StartsWith(line, ClassMarker)
    ensures Split(line, " ") == ["export", "class"] + Split(line[13..], " ")
  {
    var rest := line[13..];
    var second := "class" + [' '] + rest;
    MarkerFields(line);
    SplitAfterField("export", ' ', second);
    SplitAfterField("class", ' ', rest);
  }

  /** The marker's two fields and spaces, then the rest of the line. */
  lemma MarkerFields(line: string)
    requires StartsWith(line, ClassMarker)
    ensures line == "export" + [' '] + ("class" + [' '] + line[13..])
  {
    assert line == line[..13] + line[13..];
    assert ClassMarker == "export" + [' '] + ("class" + [' ']);
  }

  /** A declaration line yields the declared name. */
  lemma DeclaredNameOfDeclaration(name: string, rest: string)
    requires forall k :: 0 <= k < |name| ==> name[k] != ' '
    requires rest == "" || rest[0] == ' '
    ensures Contains(ClassMarker + name + rest, ClassMarker)
    ensures DeclaredName(ClassMarker + name + rest) == name
  {
    var line := ClassMarker + name + rest;
    assert OccursAt(line, ClassMarker, 0);
    ContainsIff(line, ClassMarker);
    SplitDeclarationHead(line);
    var tail := line[13..];
    assert tail == name + rest;
    if rest == "" {
      SplitNoChar(tail, ' ');
    } else {
      SplitAtChar(tail, ' ', |name|);
      assert tail[..|name|] == name;
    }
  }

  /**
   * The third field counts from the start of the whole line, so an indented
   * declaration yields "export" instead of the class name.
   */
  lemma IndentedDeclarationName(line: string)
    requires StartsWith(line, "  " + ClassMarker)
    ensures Contains(line, ClassMarker)
    ensures DeclaredName(line) == "export"
  {
    assert line[2..][..13] == line[2..15] == ClassMarker;
    assert OccursAt(line, ClassMarker, 2);
    ContainsAt(line, ClassMarker, 2);
    IndentedSplit(line);
  }

  /** Two leading spaces give two empty fields before "export" and "class". */
  lemma IndentedSplit(line: string)
    requires StartsWith(line, "  " + ClassMarker)
    ensures Split(line, " ") == ["", ""] + Split(line[2..], " ")
    ensures Split(line[2..], " ")[0] == "export"
  {
    assert line[..15] == "  " + ClassMarker;
    assert line[2..][..13] == line[2..15] == ClassMarker;
    SplitDeclarationHead(line[2..]);
    assert line[0] == line[..15][0] && line[1] == line[..15][1];
    TwoLeadingSpaces(line);
  }

  /** Two leading spaces split off two empty fields. */
  lemma TwoLeadingSpaces(s: string)
    requires |s| >= 2 && s[0] == ' ' && s[1] == ' '
    ensures Split(s, " ") == ["", ""] + Split(s[2..], " ")
  {
    LeadingSpace(s);
    LeadingSpace(s[1..]);
    assert s[1..][1..] == s[2..];
    var fields := Split(s[2..], " ");
    assert [""] + ([""] + fields) == ["", ""] + fields;
  }

  /** A leading space splits off an empty first field. */
  lemma LeadingSpace(s: string)
    requires |s| > 0 && s[0] == ' '
    ensures Split(s, " ") == [""] + Split(s[1..], " ")
  {
    assert s == "" + [' '] + s[1..];
    SplitAfterField("", ' ', s[1..]);
  }

  /** `file.replace(`${dir}/`, "")`. */
  function RelativePath(cwd: string, file: string): string
  {
    ReplaceFirst(file, cwd + "/", "")
  }

  /** `path.split("src/")[1].split(marker)[0]`: the module path after "@/". */
  function ModulePath(path: string, marker: string): string
    requires Contains(path, "src/") && marker != ""
  {
    SplitHasSecond(path, "src/");
    Split(Split(path, "src/")[1], marker)[0]
  }

  /** `file.split("src/model/")[1]`. */
  function ModelSegment(file: string): string
    requires Contains(file, "src/model/")
  {
    SplitHasSecond(file, "src/model/");
    Split(file, "src/model/")[1]
  }

  /** The registry key of a model: segment joined with ".", extension dropped. */
  function ModelKey(file: string): string
    requires Contains(file, "src/model/")
  {
    DropLast(Join(Split(ModelSegment(file), "/"), "."), 3)
  }

  /** The import alias of a model: segment joined with "_", extension dropped. */
  function ModelAlias(file: string): string
    requires Contains(file, "src/model/")
  {
    DropLast(Join(Split(ModelSegment(file), "/"), "_"), 3)
  }

  /** The key and the alias are the model's segment with every "/" turned into "." and "_". */
  lemma ModelNamesReplaceSlashes(file: string)
    requires Contains(file, "src/model/")
    ensures ModelKey(file) == DropLast(ReplaceChar(ModelSegment(file), '/', '.'), 3)
    ensures ModelAlias(file) == DropLast(ReplaceChar(ModelSegment(file), '/', '_'), 3)
  {
    JoinSplitChar(ModelSegment(file), '/', '.');
    JoinSplitChar(ModelSegment(file), '/', '_');
  }

  /** The import path of `src/<p><marker>` is `p` when "src/" appears only at the start and the marker only at the end. */
  lemma ModulePathOf(p: string, marker: string)
    requires marker != "" && !Contains(p + marker, "src/") && IndexOf(p + marker, marker) == |p|
    ensures Contains("src/" + p + marker, "src/")
    ensures ModulePath("src/" + p + marker, marker) == p
  {
    var path := "src/" + p + marker;
    assert OccursAt(path, "src/", 0);
    ContainsIff(path, "src/");
    assert path[4..] == p + marker;
    SplitFirst(p + marker, "src/");
    SplitFirst(p + marker, marker);
    assert (p + marker)[..|p|] == p;
  }

  /** The segment of a model file is what follows its only "src/model/". */
  lemma ModelSegmentOf(prefix: string, seg: string)
    requires IndexOf(prefix + "src/model/" + seg, "src/model/") == |prefix|
    requires !Contains(seg, "src/model/")
    ensures Contains(prefix + "src/model/" + seg, "src/model/")
    ensures ModelSegment(prefix + "src/model/" + seg) == seg
  {
    var file := prefix + "src/model/" + seg;
    assert file[|prefix| + 10..] == seg;
    SplitFirst(seg, "src/model/");
  }

  /** A row ends with "]," and the line separator. */
  predicate RowClosed(row: string, eol: string)
  {
    |row| >= 2 + |eol| && row[|row| - 2 - |eol|..] == "]," + eol
  }

  /** A row of the array: `    ["key", Ident],` and the separator. */
  function Row(key: string, ident: string, eol: string): (r: string)
    ensures RowClosed(r, eol)
  {
    var r := "    [\"" + key + "\", " + ident + "]," + eol;
    assert r[|r| - 2 - |eol|..] == "]," + eol;
    r
  }

  /** What one class contributes: a line of the import block and a row of the array. */
  datatype Entry = Entry(importLine: string, row: string)

  /**
   * The `switch (true)`: a view is registered under its class name, a model
   * under its dotted key and an alias; anything else contributes nothing.
   */
  function Classify(cwd: string, file: string, name: string, marker: string, eol: string): (r: Option<Entry>)
    requires StartsWith(file, cwd + "/") && marker != ""
    ensures r.Some? <==> Contains(file[|cwd| + 1..], "src/view/") || Contains(file[|cwd| + 1..], "src/model/")
    ensures r.Some? ==> RowClosed(r.value.row, eol)
    ensures Contains(file[|cwd| + 1..], "src/view/") ==> r.Some? && r.value.row == Row(name, name, eol)
    ensures !Contains(file[|cwd| + 1..], "src/view/") && Contains(file[|cwd| + 1..], "src/model/") ==>
      (ContainsFromSuffix(file, |cwd| + 1, "src/model/");
       r.Some? && r.value.row == Row(ModelKey(file), ModelAlias(file), eol))
  {
    var path := RelativePath(cwd, file);
    StripPrefix(file, cwd + "/");
    if Contains(path, "src/view/") then
      UnderSrc(path);
      Some(ViewEntry(path, name, marker, eol))
    else if Contains(path, "src/model/") then
      UnderSrc(path);
      ContainsFromSuffix(file, |cwd| + 1, "src/model/");
      Some(ModelEntry(file, path, name, marker, eol))
    else
      None
  }

  /** A path in the view or the model folder contains "src/". */
  lemma UnderSrc(path: string)
    requires Contains(path, "src/view/") || Contains(path, "src/model/")
    ensures Contains(path, "src/")
  {
    if Contains(path, "src/view/") {
      assert "src/" + "view/" == "src/view/";
      ContainsPrefix(path, "src/", "view/");
    } else {
      assert "src/" + "model/" == "src/model/";
      ContainsPrefix(path, "src/", "model/");
    }
  }

  /** `import { N } from "@/<module>";` and the row `["N", N]`. */
  function ViewEntry(path: string, name: string, marker: string, eol: string): Entry
    requires Contains(path, "src/") && marker != ""
  {
    Entry("import { " + name + " } from \"@/" + ModulePath(path, marker) + "\";" + eol, Row(name, name, eol))
  }

  /** `import { N as alias } from "@/<module>";` and the row `["key", alias]`. */
  function ModelEntry(file: string, path: string, name: string, marker: string, eol: string): Entry
    requires Contains(path, "src/") && Contains(file, "src/model/") && marker != ""
  {
    Entry("import { " + name + " as " + ModelAlias(file) + " } from \"@/" + ModulePath(path, marker) + "\";" + eol,
          Row(ModelKey(file), ModelAlias(file), eol))
  }

  /**
   * One walked file: skipped unless its path contains the marker, a read
   * failure throws, and only its first class line counts.
   */
  function ScanFile(cwd: string, file: string, text: Option<string>, marker: string, eol: string): (r: Result<Option<Entry>>)
    requires StartsWith(file, cwd + "/") && marker != ""
    ensures r.Err? <==> Contains(file, marker) && text.None?
    ensures r.Err? ==> r.error == ReadError(file)
    ensures r.Ok? && r.value.Some? ==>
      Contains(file, marker) && FirstClassLine(Split(text.value, "\n")).Some? &&
      (Contains(file[|cwd| + 1..], "src/view/") || Contains(file[|cwd| + 1..], "src/model/")) &&
      RowClosed(r.value.value.row, eol)
  {
    if !Contains(file, marker) then Ok(None)
    else if text.None? then Err(ReadError(file))
    else
      var lines := Split(text.value, "\n");
      match FirstClassLine(lines)
      case None => Ok(None)
      case Some(k) => Ok(Classify(cwd, file, DeclaredName(lines[k]), marker, eol))
  }

  // ---------------------------------------------------------------------
  // All files

  /** Every walked path lies below the working directory. */
  predicate UnderRoot(cwd: string, files: seq<string>)
  {
    forall i :: 0 <= i < |files| ==> StartsWith(files[i], cwd + "/")
  }

  /** The walk of `${cwd}/src` only yields paths below `${cwd}/`. */
  lemma WalkUnderRoot(cwd: string, src: seq<FsNode>)
    ensures UnderRoot(cwd, Walk(cwd + "/src", src))
  {
    var files := Walk(cwd + "/src", src);
    forall i | 0 <= i < |files|
      ensures StartsWith(files[i], cwd + "/")
    {
      WalkUnder(cwd + "/src", src, files[i]);
      assert (cwd + "/src") + "/" == (cwd + "/") + "src/";
      PrefixTransitive(files[i], cwd + "/", "src/");
    }
  }

  /** The entries of the first `n` files in walk order; the first unreadable candidate aborts. */
  function ScanUpTo(cwd: string, files: seq<string>, texts: seq<Option<string>>, n: nat, marker: string, eol: string): (r: Result<seq<Entry>>)
    requires |files| == |texts| && UnderRoot(cwd, files) && marker != "" && n <= |files|
    ensures r.Ok? ==> |r.value| <= n
    ensures r.Ok? ==> forall i :: 0 <= i < |r.value| ==> RowClosed(r.value[i].row, eol)
    decreases n
  {
    if n == 0 then Ok([])
    else
      var init :- ScanUpTo(cwd, files, texts, n - 1, marker, eol);
      var e :- ScanFile(cwd, files[n - 1], texts[n - 1], marker, eol);
      Ok(Extend(init, e))
  }

  /** The entries of all the files. */
  function Scan(cwd: string, files: seq<string>, texts: seq<Option<string>>, marker: string, eol: string): (r: Result<seq<Entry>>)
    requires |files| == |texts| && UnderRoot(cwd, files) && marker != ""
    ensures r.Ok? ==> |r.value| <= |files|
    ensures r.Ok? ==> forall i :: 0 <= i < |r.value| ==> RowClosed(r.value[i].row, eol)
  {
    ScanUpTo(cwd, files, texts, |files|, marker, eol)
  }

  /** A failure among the first `m` files is the failure of every longer scan. */
  lemma {:induction false} ScanPrefixErr(cwd: string, files: seq<string>, texts: seq<Option<string>>,
                                         marker: string, eol: string, m: nat, n: nat)
    requires |files| == |texts| && UnderRoot(cwd, files) && marker != "" && m <= n <= |files|
    requires ScanUpTo(cwd, files, texts, m, marker, eol).Err?
    ensures ScanUpTo(cwd, files, texts, n, marker, eol) == ScanUpTo(cwd, files, texts, m, marker, eol)
    decreases n
  {
    if m < n {
      ScanPrefixErr(cwd, files, texts, marker, eol, m, n - 1);
    }
  }

  /** Files whose paths lack the marker are never read and contribute nothing. */
  lemma {:induction false} ScanSkipsUnmarked(cwd: string, files: seq<string>, texts: seq<Option<string>>,
                                             n: nat, marker: string, eol: string)
    requires |files| == |texts| && UnderRoot(cwd, files) && marker != "" && n <= |files|
    requires forall i :: 0 <= i < n ==> !Contains(files[i], marker)
    ensures ScanUpTo(cwd, files, texts, n, marker, eol) == Ok([])
    decreases n
  {
    if n > 0 {
      ScanSkipsUnmarked(cwd, files, texts, n - 1, marker, eol);
    }
  }

  function Imports(es: seq<Entry>): string
  {
    if es == [] then "" else Imports(es[..|es| - 1]) + es[|es| - 1].importLine
  }

  function Rows(es: seq<Entry>): string
  {
    if es == [] then "" else Rows(es[..|es| - 1]) + es[|es| - 1].row
  }

  /** The text the array literal starts from, `[${EOL}`. */
  function Opening(eol: string): string
  {
    "[" + eol
  }

  /**
   * `packages.slice(0, -2) + `${EOL}]`` over the opening and the rows: the
   * accumulated text less its last two characters, then the separator and "]".
   */
  function RegistryLiteral(rows: string, eol: string): (r: string)
    ensures |r| >= |eol| + 1 && r[|r| - |eol| - 1..] == eol + "]"
    ensures r[..|r| - |eol| - 1] <= Opening(eol) + rows
    ensures |Opening(eol) + rows| >= 2 ==> |r| == |Opening(eol) + rows| - 2 + |eol| + 1
  {
    DropLast(Opening(eol) + rows, 2) + eol + "]"
  }

  /** With no class found, the literal is "\n]" under "\n" (no opening bracket) and "[\r\n]" under "\r\n". */
  lemma EmptyRegistry()
    ensures RegistryLiteral(Rows([]), "\n") == "\n]"
    ensures RegistryLiteral(Rows([]), "\r\n") == "[\r\n]"
  {
    assert Opening("\r\n") + "" == "[\r\n";
  }

  /**
   * The slice cuts the last two characters of closed rows: their ",\n" under
   * "\n", but only "\r\n" under "\r\n", where a trailing comma stays.
   */
  lemma CutClosed(rows: string, eol: string)
    requires (eol == "\n" || eol == "\r\n") && RowClosed(rows, eol)
    ensures RegistryLiteral(rows, eol) == Opening(eol) + rows[..|rows| - 2] + eol + "]"
    ensures eol == "\n" ==> rows[|rows| - 2..] == ",\n" && rows[|rows| - 3] == ']'
    ensures eol == "\r\n" ==> rows[|rows| - 2..] == "\r\n" && rows[|rows| - 4..|rows| - 2] == "],"
  {
    var tail := rows[|rows| - 2 - |eol|..];
    assert tail == "]," + eol;
    if eol == "\n" {
      assert rows[|rows| - 2..] == tail[1..] == ",\n";
      assert rows[|rows| - 3] == tail[0] == ']';
    } else {
      assert rows[|rows| - 2..] == tail[2..] == "\r\n";
      assert rows[|rows| - 4..|rows| - 2] == tail[..2] == "],";
    }
    var full := Opening(eol) + rows;
    assert DropLast(full, 2) == full[..|full| - 2];
    assert full[..|full| - 2] == Opening(eol) + rows[..|rows| - 2];
  }

  /** The rows end as their last row does. */
  lemma RowsClosed(es: seq<Entry>, eol: string)
    requires es != [] && RowClosed(es[|es| - 1].row, eol)
    ensures RowClosed(Rows(es), eol)
  {
    RowsLast(es);
    ClosedAppend(Rows(es[..|es| - 1]), es[|es| - 1].row, eol);
  }

  lemma RowsLast(es: seq<Entry>)
    requires es != []
    ensures Rows(es) == Rows(es[..|es| - 1]) + es[|es| - 1].row
  {
  }

  /** Text followed by a closed row is closed. */
  lemma ClosedAppend(text: string, row: string, eol: string)
    requires RowClosed(row, eol)
    ensures RowClosed(text + row, eol)
  {
    var n := 2 + |eol|;
    assert (text + row)[|text + row| - n..] == row[|row| - n..];
  }

  /** Without an entry there is no import and the literal is "\n]". */
  lemma NothingGenerated(cwd: string, files: seq<string>, texts: seq<Option<string>>, marker: string)
    requires |files| == |texts| && UnderRoot(cwd, files) && marker != ""
    requires Scan(cwd, files, texts, marker, "\n") == Ok([])
    ensures Generate(cwd, files, texts, marker, "\n") == Ok(Generated("", "\n]"))
  {
    EmptyRegistry();
  }

  /** The import block and the array literal of one pass. */
  datatype Generated = Generated(imports: string, packages: string)

  function Generate(cwd: string, files: seq<string>, texts: seq<Option<string>>, marker: string, eol: string): Result<Generated>
    requires |files| == |texts| && UnderRoot(cwd, files) && marker != ""
  {
    var es :- Scan(cwd, files, texts, marker, eol);
    Ok(Generated(Imports(es), RegistryLiteral(Rows(es), eol)))
  }

  /** A scan of every file that succeeds yields the imports and the cut literal of its entries. */
  lemma GenerateOf(cwd: string, files: seq<string>, texts: seq<Option<string>>, marker: string, eol: string,
                   es: seq<Entry>, imports: string, packages: string)
    requires |files| == |texts| && UnderRoot(cwd, files) && marker != ""
    requires ScanUpTo(cwd, files, texts, |files|, marker, eol) == Ok(es)
    requires imports == Imports(es) && packages == Pending(es, eol)
    ensures Generate(cwd, files, texts, marker, eol) == Ok(Generated(imports, DropLast(packages, 2) + eol + "]"))
  {
  }

  /** A successful scan fixes the pass's output: its imports and the literal of its rows. */
  lemma GenerateScanned(cwd: string, files: seq<string>, texts: seq<Option<string>>, marker: string, eol: string,
                        es: seq<Entry>)
    requires |files| == |texts| && UnderRoot(cwd, files) && marker != ""
    requires Scan(cwd, files, texts, marker, eol) == Ok(es)
    ensures Generate(cwd, files, texts, marker, eol) == Ok(Generated(Imports(es), RegistryLiteral(Rows(es), eol)))
  {
  }

  /**
   * The literal a successful pass writes: the rows end as a row does, and the
   * slice cuts their last two characters (see `CutClosed` for what that
   * leaves under each separator).
   */
  lemma GeneratedLiteral(cwd: string, files: seq<string>, texts: seq<Option<string>>, marker: string, eol: string,
                         es: seq<Entry>)
    requires |files| == |texts| && UnderRoot(cwd, files) && marker != ""
    requires eol == "\n" || eol == "\r\n"
    requires Scan(cwd, files, texts, marker, eol) == Ok(es) && es != []
    ensures RowClosed(Rows(es), eol)
    ensures Generate(cwd, files, texts, marker, eol) ==
      Ok(Generated(Imports(es), Opening(eol) + Rows(es)[..|Rows(es)| - 2] + eol + "]"))
  {
    assert RowClosed(es[|es| - 1].row, eol);
    RowsClosed(es, eol);
    CutClosed(Rows(es), eol);
    GenerateScanned(cwd, files, texts, marker, eol, es);
  }

  /** The entries after one more file: its entry, if it has one, appended. */
  function Extend(es: seq<Entry>, entry: Option<Entry>): seq<Entry>
  {
    es + if entry.Some? then [entry.value] else []
  }

  lemma ImportsRowsExtend(es: seq<Entry>, entry: Option<Entry>)
    ensures Imports(Extend(es, entry)) == Imports(es) + (if entry.Some? then entry.value.importLine else "")
    ensures Rows(Extend(es, entry)) == Rows(es) + (if entry.Some? then entry.value.row else "")
  {
    var es' := Extend(es, entry);
    if entry.None? {
      assert es' == es;
    } else {
      assert es'[..|es'| - 1] == es;
    }
  }

  /** The array text before the closing slice: the opening and every row so far. */
  function Pending(es: seq<Entry>, eol: string): string
  {
    Opening(eol) + Rows(es)
  }

  /** The two accumulators of the scan loop after one more file. */
  lemma AccumulateStep(eol: string, es: seq<Entry>, entry: Option<Entry>, imports: string, packages: string)
    requires imports == Imports(es) && packages == Pending(es, eol)
    ensures (if entry.Some? then imports + entry.value.importLine else imports) == Imports(Extend(es, entry))
    ensures (if entry.Some? then packages + entry.value.row else packages) == Pending(Extend(es, entry), eol)
  {
    ImportsRowsExtend(es, entry);
    if entry.Some? {
      assert packages + entry.value.row == Opening(eol) + (Rows(es) + entry.value.row);
    } else {
      assert Rows(es) + "" == Rows(es) && Imports(es) + "" == Imports(es);
    }
  }

  /** One more file extends the scan by what that file contributes. */
  lemma ScanStep(cwd: string, files: seq<string>, texts: seq<Option<string>>, marker: string, eol: string,
                 idx: nat, es: seq<Entry>, entry: Option<Entry>)
    requires |files| == |texts| && UnderRoot(cwd, files) && marker != "" && idx < |files|
    requires ScanUpTo(cwd, files, texts, idx, marker, eol) == Ok(es)
    requires ScanFile(cwd, files[idx], texts[idx], marker, eol) == Ok(entry)
    ensures ScanUpTo(cwd, files, texts, idx + 1, marker, eol) == Ok(Extend(es, entry))
  {
  }

  /** A file that fails to read fails the whole scan with its error. */
  lemma ScanStepErr(cwd: string, files: seq<string>, texts: seq<Option<string>>, marker: string, eol: string,
                    idx: nat, es: seq<Entry>)
    requires |files| == |texts| && UnderRoot(cwd, files) && marker != "" && idx < |files|
    requires ScanUpTo(cwd, files, texts, idx, marker, eol) == Ok(es)
    requires ScanFile(cwd, files[idx], texts[idx], marker, eol).Err?
    ensures Scan(cwd, files, texts, marker, eol) == Err(ScanFile(cwd, files[idx], texts[idx], marker, eol).error)
    ensures Generate(cwd, files, texts, marker, eol) == Err(ScanFile(cwd, files[idx], texts[idx], marker, eol).error)
  {
    ScanPrefixErr(cwd, files, texts, marker, eol, idx + 1, |files|);
  }

  /** The inner loop over the lines of one file: stop at the first class line. */
  method FirstEntry(cwd: string, file: string, lines: seq<string>, marker: string, eol: string)
    returns (entry: Option<Entry>)
    requires StartsWith(file, cwd + "/") && marker != ""
    ensures entry == match FirstClassLine(lines)
      case None => None
      case Some(k) => Classify(cwd, file, DeclaredName(lines[k]), marker, eol)
  {
    entry := None;
    var lineIdx := 0;
    while lineIdx < |lines|
      invariant 0 <= lineIdx <= |lines|
      invariant forall j :: 0 <= j < lineIdx ==> !Contains(lines[j], ClassMarker)
    {
      var line := lines[lineIdx];
      if !Contains(line, ClassMarker) {
        lineIdx := lineIdx + 1;
        continue;
      }
      var name := DeclaredName(line);
      entry := Classify(cwd, file, name, marker, eol);
      FirstClassLineAt(lines, lineIdx);
      return;
    }
    FirstClassLineAt(lines, |lines|);
  }

  /** The first line holding the marker is the one before which none does. */
  lemma {:induction false} FirstClassLineAt(lines: seq<string>, k: nat)
    requires k <= |lines| && forall j :: 0 <= j < k ==> !Contains(lines[j], ClassMarker)
    requires k < |lines| ==> Contains(lines[k], ClassMarker)
    ensures FirstClassLine(lines) == if k < |lines| then Some(k) else None
    decreases k
  {
    if k > 0 {
      assert !Contains(lines[0], ClassMarker);
      forall j | 0 <= j < k - 1
        ensures !Contains(lines[1..][j], ClassMarker)
      {
        assert lines[1..][j] == lines[j + 1];
      }
      assert k - 1 < |lines| - 1 ==> lines[1..][k - 1] == lines[k];
      FirstClassLineAt(lines[1..], k - 1);
    }
  }

  /** The body of the file loop: the extension filter, the read, the line loop. */
  method ScanOne(cwd: string, file: string, text: Option<string>, marker: string, eol: string)
    returns (r: Result<Option<Entry>>)
    requires StartsWith(file, cwd + "/") && marker != ""
    ensures r == ScanFile(cwd, file, text, marker, eol)
  {
    if !Contains(file, marker) {
      return Ok(None);
    }
    if text.None? {
      return Err(ReadError(file));
    }
    var lines := Split(text.value, "\n");
    var entry := FirstEntry(cwd, file, lines, marker, eol);
    return Ok(entry);
  }

  /** One turn of the file loop: scan the next file and append what it declares. */
  method ScanNext(cwd: string, files: seq<string>, texts: seq<Option<string>>, marker: string, eol: string,
                  idx: nat, ghost es: seq<Entry>, imports: string, packages: string)
    returns (r: Result<Option<Entry>>, imports': string, packages': string)
    requires |files| == |texts| && UnderRoot(cwd, files) && marker != "" && idx < |files|
    requires ScanUpTo(cwd, files, texts, idx, marker, eol) == Ok(es)
    requires imports == Imports(es) && packages == Pending(es, eol)
    ensures r.Err? ==> Generate(cwd, files, texts, marker, eol) == Err(r.error)
    ensures r.Ok? ==> ScanUpTo(cwd, files, texts, idx + 1, marker, eol) == Ok(Extend(es, r.value))
    ensures r.Ok? ==> imports' == Imports(Extend(es, r.value)) && packages' == Pending(Extend(es, r.value), eol)
  {
    imports', packages' := imports, packages;
    r := ScanOne(cwd, files[idx], texts[idx], marker, eol);
    if r.Err? {
      ScanStepErr(cwd, files, texts, marker, eol, idx, es);
      return;
    }
    var entry := r.value;
    ScanStep(cwd, files, texts, marker, eol, idx, es, entry);
    AccumulateStep(eol, es, entry, imports, packages);
    if entry.Some? {
      imports' := imports + entry.value.importLine;
      packages' := packages + entry.value.row;
    }
  }

  /** The scan loop: files in walk order, lines until the first class, then the closing slice. */
  method ScanSources(cwd: string, files: seq<string>, texts: seq<Option<string>>, marker: string, eol: string)
    returns (r: Result<Generated>)
    requires |files| == |texts| && UnderRoot(cwd, files) && marker != ""
    ensures r == Generate(cwd, files, texts, marker, eol)
  {
    var imports := "";
    var packages := Opening(eol);
    var idx := 0;
    ghost var es: seq<Entry> := [];
    assert packages == Pending(es, eol);
    while idx < |files|
      invariant 0 <= idx <= |files|
      invariant ScanUpTo(cwd, files, texts, idx, marker, eol) == Ok(es)
      invariant imports == Imports(es)
      invariant packages == Pending(es, eol)
    {
      var scanned;
      scanned, imports, packages := ScanNext(cwd, files, texts, marker, eol, idx, es, imports, packages);
      if scanned.Err? {
        return Err(scanned.error);
      }
      es := Extend(es, scanned.value);
      idx := idx + 1;
    }
    GenerateOf(cwd, files, texts, marker, eol, es, imports, packages);
    packages := DropLast(packages, 2);
    packages := packages + eol + "]";
    return Ok(Generated(imports, packages));
  }
}
