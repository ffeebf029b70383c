/**
 * src/build/usecase/BuildGetFilePathListUseCase.ts and the stat service it
 * calls: the recursive walker the package use case starts from `${cwd}/src`.
 */
module FilePathListUseCase {
  import opened Base
  import opened FileSystem

  /**
   * The stat service: "file", "directory" or "unknown"; a stat that throws
   * is caught and reads as "unknown".
   */
  function GetFileType(node: FsNode): (kind: string)
    ensures kind == "file" || kind == "directory" || kind == "unknown"
    ensures kind == "file" <==> Stat(node) == Ok(RegularFile)
    ensures kind == "directory" <==> Stat(node) == Ok(Directory)
  {
    match Stat(node)
    case Err(_) => "unknown"
    case Ok(RegularFile) => "file"
    case Ok(Directory) => "directory"
    case Ok(OtherKind) => "unknown"
  }

  /**
   * The file paths below `dirPath`, whose listing is `listing`: files as
   * `${dirPath}/${name}`, directories expanded in place, anything else skipped.
   */
  method Execute(dirPath: string, listing: seq<FsNode>) returns (files: seq<string>)
    ensures files == Walk(dirPath, listing)
    decreases listing
  {
    files := [];
    var idx := 0;
    while idx < |listing|
      invariant 0 <= idx <= |listing|
      invariant files == Walk(dirPath, listing[..idx])
    {
      var node := listing[idx];
      var path := dirPath + "/" + node.name;
      var kind := GetFileType(node);
      if kind == "file" {
        files := files + [path];
      } else if kind == "directory" {
        var nested := Execute(path, node.entries);
        files := files + nested;
      }
      WalkAppend(dirPath, listing[..idx], node);
      assert listing[..idx + 1] == listing[..idx] + [node];
      idx := idx + 1;
    }
    assert listing[..idx] == listing;
  }
}
