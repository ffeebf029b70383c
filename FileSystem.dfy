/**
 * The part of the file system the generators touch, as values: a directory
 * listing is a sequence of entries in the order `fs.readdirSync` returns
 * them, `fs.statSync` of an entry's path is decided by the kind of entry,
 * `fs.readFileSync` of a file is its content, and `fs.writeFileSync` appends
 * to a write log.
 */
module FileSystem {
  import opened Base
  import opened JsString

  /** One directory entry. */
  datatype FsNode =
    | File(name: string, content: Option<string>)   // content None: reading the file throws
    | Dir(name: string, entries: seq<FsNode>)
    | Special(name: string)                         // a socket, FIFO or device: stat succeeds, neither file nor directory
    | Unstatable(name: string)                      // stat throws: a dangling link, a permission error

  /** What a successful `fs.statSync` says about an entry. */
  datatype StatKind = RegularFile | Directory | OtherKind

  function Stat(node: FsNode): (r: Result<StatKind>)
    ensures r.Err? <==> node.Unstatable?
  {
    match node
    case File(_, _) => Ok(RegularFile)
    case Dir(_, _) => Ok(Directory)
    case Special(_) => Ok(OtherKind)
    case Unstatable(name) => Err(StatError(name))
  }

  /** The path `${dir_path}/${name}` the walkers stat. */
  function EntryPath(dir: string, node: FsNode): string
  {
    dir + "/" + node.name
  }

  // ---------------------------------------------------------------------
  // The specification of the tree walkers

  /** The file paths under a directory: depth first, each listing in its own order. */
  function Walk(dir: string, entries: seq<FsNode>): seq<string>
    decreases entries
  {
    if entries == [] then [] else WalkEntry(dir, entries[0]) + Walk(dir, entries[1..])
  }

  function WalkEntry(dir: string, node: FsNode): seq<string>
    decreases node
  {
    match node
    case File(_, _) => [EntryPath(dir, node)]
    case Dir(name, entries) => Walk(EntryPath(dir, node), entries)
    case _ => []
  }

  /** The contents `fs.readFileSync` returns for the walked files, position by position. */
  function Texts(entries: seq<FsNode>): seq<Option<string>>
    decreases entries
  {
    if entries == [] then [] else TextsEntry(entries[0]) + Texts(entries[1..])
  }

  function TextsEntry(node: FsNode): seq<Option<string>>
    decreases node
  {
    match node
    case File(_, content) => [content]
    case Dir(_, entries) => Texts(entries)
    case _ => []
  }

  /** The paths of the entries whose stat fails, in the order a walk meets them. */
  function StatFailures(dir: string, entries: seq<FsNode>): seq<string>
    decreases entries
  {
    if entries == [] then [] else StatFailuresEntry(dir, entries[0]) + StatFailures(dir, entries[1..])
  }

  function StatFailuresEntry(dir: string, node: FsNode): seq<string>
    decreases node
  {
    match node
    case Unstatable(_) => [EntryPath(dir, node)]
    case Dir(_, entries) => StatFailures(EntryPath(dir, node), entries)
    case _ => []
  }

  /** `p` is the path of a file somewhere below `dir`. */
  predicate FileAt(dir: string, entries: seq<FsNode>, p: string)
    decreases entries
  {
    entries != [] && (FileAtEntry(dir, entries[0], p) || FileAt(dir, entries[1..], p))
  }

  predicate FileAtEntry(dir: string, node: FsNode, p: string)
    decreases node
  {
    match node
    case File(_, _) => p == EntryPath(dir, node)
    case Dir(_, entries) => FileAt(EntryPath(dir, node), entries, p)
    case _ => false
  }

  /** `p` is the path of a file somewhere below `dir` whose node holds `content`. */
  predicate FileWith(dir: string, entries: seq<FsNode>, p: string, content: Option<string>)
    decreases entries
  {
    entries != [] && (FileWithEntry(dir, entries[0], p, content) || FileWith(dir, entries[1..], p, content))
  }

  predicate FileWithEntry(dir: string, node: FsNode, p: string, content: Option<string>)
    decreases node
  {
    match node
    case File(_, c) => p == EntryPath(dir, node) && c == content
    case Dir(_, entries) => FileWith(EntryPath(dir, node), entries, p, content)
    case _ => false
  }

  // ---------------------------------------------------------------------
  // Properties of the walk

  lemma {:induction false} WalkAppend(dir: string, entries: seq<FsNode>, node: FsNode)
    ensures Walk(dir, entries + [node]) == Walk(dir, entries) + WalkEntry(dir, node)
    decreases entries
  {
    if entries == [] {
      assert [node][1..] == [];
    } else {
      assert (entries + [node])[1..] == entries[1..] + [node];
      WalkAppend(dir, entries[1..], node);
    }
  }

  lemma {:induction false} WalkConcat(dir: string, xs: seq<FsNode>, ys: seq<FsNode>)
    ensures Walk(dir, xs + ys) == Walk(dir, xs) + Walk(dir, ys)
    decreases xs
  {
    if xs == [] {
      assert xs + ys == ys;
    } else {
      assert (xs + ys)[1..] == xs[1..] + ys;
      WalkConcat(dir, xs[1..], ys);
    }
  }

  /** The walk and the logged failures of one more entry of a listing. */
  lemma ListingStep(dir: string, listing: seq<FsNode>, idx: nat)
    requires idx < |listing|
    ensures Walk(dir, listing[..idx + 1]) == Walk(dir, listing[..idx]) + WalkEntry(dir, listing[idx])
    ensures StatFailures(dir, listing[..idx + 1]) == StatFailures(dir, listing[..idx]) + StatFailuresEntry(dir, listing[idx])
  {
    assert listing[..idx + 1] == listing[..idx] + [listing[idx]];
    WalkAppend(dir, listing[..idx], listing[idx]);
    StatFailuresAppend(dir, listing[..idx], listing[idx]);
  }

  lemma {:induction false} StatFailuresAppend(dir: string, entries: seq<FsNode>, node: FsNode)
    ensures StatFailures(dir, entries + [node]) == StatFailures(dir, entries) + StatFailuresEntry(dir, node)
    decreases entries
  {
    if entries == [] {
      assert [node][1..] == [];
    } else {
      assert (entries + [node])[1..] == entries[1..] + [node];
      StatFailuresAppend(dir, entries[1..], node);
    }
  }

  /** The walked files paired with their contents: one walk that both `Walk` and `Texts` project. */
  function Files(dir: string, entries: seq<FsNode>): seq<(string, Option<string>)>
    decreases entries
  {
    if entries == [] then [] else FilesEntry(dir, entries[0]) + Files(dir, entries[1..])
  }

  function FilesEntry(dir: string, node: FsNode): seq<(string, Option<string>)>
    decreases node
  {
    match node
    case File(_, content) => [(EntryPath(dir, node), content)]
    case Dir(name, entries) => Files(EntryPath(dir, node), entries)
    case _ => []
  }

  /** `paths` and `texts` are the two columns of `files`. */
  predicate Columns(files: seq<(string, Option<string>)>, paths: seq<string>, texts: seq<Option<string>>)
  {
    |paths| == |files| && |texts| == |files|
    && forall i :: 0 <= i < |files| ==> files[i] == (paths[i], texts[i])
  }

  lemma ColumnsConcat(f1: seq<(string, Option<string>)>, p1: seq<string>, t1: seq<Option<string>>,
                      f2: seq<(string, Option<string>)>, p2: seq<string>, t2: seq<Option<string>>)
    requires Columns(f1, p1, t1) && Columns(f2, p2, t2)
    ensures Columns(f1 + f2, p1 + p2, t1 + t2)
  {
    forall i | 0 <= i < |f1 + f2|
      ensures (f1 + f2)[i] == ((p1 + p2)[i], (t1 + t2)[i])
    {
      if i >= |f1| {
        assert (f1 + f2)[i] == f2[i - |f1|];
      }
    }
  }

  /**
   * Every walked file has its content at the same position: the i-th path of
   * `Walk` and the i-th content of `Texts` are the path and content of the
   * i-th file the tree holds.
   */
  lemma {:induction false} TextsMatchWalk(dir: string, entries: seq<FsNode>)
    ensures |Texts(entries)| == |Walk(dir, entries)|
    ensures Columns(Files(dir, entries), Walk(dir, entries), Texts(entries))
    decreases entries
  {
    if entries != [] {
      TextsMatchWalkEntry(dir, entries[0]);
      TextsMatchWalk(dir, entries[1..]);
      ColumnsConcat(FilesEntry(dir, entries[0]), WalkEntry(dir, entries[0]), TextsEntry(entries[0]),
                    Files(dir, entries[1..]), Walk(dir, entries[1..]), Texts(entries[1..]));
    }
  }

  lemma {:induction false} TextsMatchWalkEntry(dir: string, node: FsNode)
    ensures Columns(FilesEntry(dir, node), WalkEntry(dir, node), TextsEntry(node))
    decreases node
  {
    if node.Dir? {
      TextsMatchWalk(EntryPath(dir, node), node.entries);
    }
  }

  /** The paired walk lists each file of the tree with the content its node holds. */
  lemma {:induction false} FilesHoldContents(dir: string, entries: seq<FsNode>, p: string, content: Option<string>)
    ensures (p, content) in Files(dir, entries) <==> FileWith(dir, entries, p, content)
    decreases entries
  {
    if entries != [] {
      FilesEntryHoldContents(dir, entries[0], p, content);
      FilesHoldContents(dir, entries[1..], p, content);
    }
  }

  lemma {:induction false} FilesEntryHoldContents(dir: string, node: FsNode, p: string, content: Option<string>)
    ensures (p, content) in FilesEntry(dir, node) <==> FileWithEntry(dir, node, p, content)
    decreases node
  {
    if node.Dir? {
      FilesHoldContents(EntryPath(dir, node), node.entries, p, content);
    }
  }

  /** The walk lists exactly the paths of the files in the tree. */
  lemma {:induction false} WalkIsFiles(dir: string, entries: seq<FsNode>, p: string)
    ensures p in Walk(dir, entries) <==> FileAt(dir, entries, p)
    decreases entries
  {
    if entries != [] {
      WalkEntryIsFiles(dir, entries[0], p);
      WalkIsFiles(dir, entries[1..], p);
    }
  }

  lemma {:induction false} WalkEntryIsFiles(dir: string, node: FsNode, p: string)
    ensures p in WalkEntry(dir, node) <==> FileAtEntry(dir, node, p)
    decreases node
  {
    if node.Dir? {
      WalkIsFiles(EntryPath(dir, node), node.entries, p);
    }
  }

  lemma PrefixTransitive(s: string, a: string, b: string)
    requires StartsWith(s, a + b)
    ensures StartsWith(s, a)
  {
    assert s[..|a|] == (a + b)[..|a|];
  }

  /** Every walked path is `${dir}/${entry}` for some listed entry, or lies below one. */
  lemma {:induction false} WalkUnder(dir: string, entries: seq<FsNode>, p: string)
    requires p in Walk(dir, entries)
    ensures exists i :: 0 <= i < |entries| && StartsWith(p, EntryPath(dir, entries[i]))
    ensures StartsWith(p, dir + "/")
    decreases entries
  {
    var head := entries[0];
    if p in WalkEntry(dir, head) {
      if head.Dir? {
        var sub := EntryPath(dir, head);
        WalkUnder(sub, head.entries, p);
        PrefixTransitive(p, sub, "/");
      }
      PrefixTransitive(p, dir + "/", head.name);
    } else {
      WalkUnder(dir, entries[1..], p);
      var i :| 0 <= i < |entries[1..]| && StartsWith(p, EntryPath(dir, entries[1..][i]));
      assert entries[1..][i] == entries[i + 1];
    }
  }

  /** For a directory holding only files the walk is its listing, each name prefixed by the directory. */
  lemma {:induction false} WalkFlat(dir: string, entries: seq<FsNode>)
    requires forall i :: 0 <= i < |entries| ==> entries[i].File?
    ensures |Walk(dir, entries)| == |entries|
    ensures forall i :: 0 <= i < |entries| ==> Walk(dir, entries)[i] == dir + "/" + entries[i].name
    decreases entries
  {
    if entries != [] {
      WalkFlat(dir, entries[1..]);
    }
  }

  /** An entry that is neither a file nor a directory contributes nothing, wherever it is listed. */
  lemma SkipUnknown(dir: string, entries: seq<FsNode>, i: nat)
    requires i < |entries| && (entries[i].Special? || entries[i].Unstatable?)
    ensures Walk(dir, entries[..i] + entries[i + 1..]) == Walk(dir, entries)
  {
    var before, node, after := entries[..i], entries[i], entries[i + 1..];
    assert entries == (before + [node]) + after;
    assert WalkEntry(dir, node) == [];
    WalkAppend(dir, before, node);
    assert Walk(dir, before + [node]) == Walk(dir, before);
    WalkConcat(dir, before + [node], after);
    WalkConcat(dir, before, after);
  }

  // ---------------------------------------------------------------------
  // Writes

  datatype FileWrite = FileWrite(path: string, text: string)

  /** The record of every `fs.writeFileSync` call, oldest first. */
  class Disk {
    var writes: seq<FileWrite>

    constructor ()
      ensures writes == []
    {
      writes := [];
    }

    method Write(path: string, text: string)
      modifies this
      ensures writes == old(writes) + [FileWrite(path, text)]
    {
      writes := writes + [FileWrite(path, text)];
    }
  }
}
