/**
 * src/BuildPackage.ts: the stand-alone package generator with its own stat
 * helper (which logs a failed stat), its own walker, an output extension
 * fixed when the module loads, and its own cache.
 */
module BuildPackageTs {
  import opened Base
  import opened FileSystem
  import opened Registry
  import FilePathListUseCase
  import PackageUseCase

  /**
   * `getFileType` with its `console.error`: the kind, and whether the stat
   * threw and was logged.
   */
  function GetFileType(node: FsNode): (r: (string, bool))
    ensures r.0 == "file" <==> Stat(node) == Ok(RegularFile)
    ensures r.0 == "directory" <==> Stat(node) == Ok(Directory)
    ensures r.0 == FilePathListUseCase.GetFileType(node)
    ensures r.1 <==> Stat(node).Err?
  {
    match Stat(node)
    case Err(_) => ("unknown", true)
    case Ok(RegularFile) => ("file", false)
    case Ok(Directory) => ("directory", false)
    case Ok(OtherKind) => ("unknown", false)
  }

  /**
   * `getFilePathList`: the same walk as the use case's, together with the
   * paths whose stat was logged, in the order they were logged.
   */
  method GetFilePathList(dirPath: string, listing: seq<FsNode>) returns (files: seq<string>, logged: seq<string>)
    ensures files == Walk(dirPath, listing)
    ensures logged == StatFailures(dirPath, listing)
    decreases listing
  {
    files := [];
    logged := [];
    var idx := 0;
    while idx < |listing|
      invariant 0 <= idx <= |listing|
      invariant files == Walk(dirPath, listing[..idx])
      invariant logged == StatFailures(dirPath, listing[..idx])
    {
      var node := listing[idx];
      var path := dirPath + "/" + node.name;
      var (kind, failed) := GetFileType(node);
      if failed {
        logged := logged + [path];
      }
      if kind == "file" {
        files := files + [path];
      } else if kind == "directory" {
        var nestedFiles, nestedLogged := GetFilePathList(path, node.entries);
        files := files + nestedFiles;
        logged := logged + nestedLogged;
      }
      ListingStep(dirPath, listing, idx);
      idx := idx + 1;
    }
    assert listing[..idx] == listing;
  }

  /** `ext`: "ts" when src/index.ts exists when the module loads, else "js". */
  function ExtFor(useTypeScript: bool): Ext
  {
    if useTypeScript then TS else JS
  }

  /** The module's state: the extension chosen at load time and the cache. */
  class PackageBuilder {
    const ext: Ext
    var cachePackages: string

    constructor (useTypeScript: bool)
      ensures ext == ExtFor(useTypeScript)
      ensures cachePackages == ""
    {
      ext := ExtFor(useTypeScript);
      cachePackages := "";
    }

    /**
     * `buildPackage`: the same module text as the use case's for the same
     * extension, the same write-on-change cache, plus the paths it logged.
     */
    method BuildPackage(cwd: string, src: seq<FsNode>, disk: Disk) returns (r: Result<bool>, logged: seq<string>)
      modifies this, disk
      ensures logged == StatFailures(cwd + "/src", src)
      ensures r.Err? <==> PackageUseCase.PackagesText(ext, cwd, src).Err?
      ensures r.Err? ==> cachePackages == old(cachePackages) && disk.writes == old(disk.writes)
      ensures r.Ok? ==>
        var source := PackageUseCase.PackagesText(ext, cwd, src).value;
        cachePackages == source &&
        r.value == (source != old(cachePackages)) &&
        disk.writes == old(disk.writes) + (if r.value then [FileWrite(PackageUseCase.PackagesPath(cwd, ext), source)] else [])
    {
      var filePaths;
      filePaths, logged := GetFilePathList(cwd + "/src", src);
      var texts := Texts(src);
      TextsMatchWalk(cwd + "/src", src);
      WalkUnderRoot(cwd, src);
      var generated := ScanSources(cwd, filePaths, texts, PackageUseCase.Marker(ext), PackageUseCase.EOL);
      if generated.Err? {
        return Err(generated.error), logged;
      }
      var source := PackageUseCase.PackagesSource(ext, generated.value);
      if cachePackages != source {
        cachePackages := source;
        disk.Write(PackageUseCase.PackagesPath(cwd, ext), source);
        return Ok(true), logged;
      }
      return Ok(false), logged;
    }
  }
}
