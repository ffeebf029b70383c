/**
 * `execute` of src/build/usecase/BuildPackageUseCase.ts: walk `${cwd}/src`,
 * scan the files carrying the output extension, wrap the import block and
 * the `packages` array in a module, and write `src/Packages.[ts|js]` when the
 * text differs from the one the previous pass wrote.
 */
module PackageUseCase {
  import opened Base
  import opened JsString
  import opened FileSystem
  import opened Registry
  import FilePathListUseCase

  /** The line separator this generator writes. */
  const EOL: string := "\n"

  /** `.${ext}`: the substring a candidate path must contain. */
  function Marker(ext: Ext): string
  {
    "." + ext.Name()
  }

  /** The head of the array's declaration, typed for TypeScript. */
  const TsDeclaration: string := "const packages: Array<Array<string | Function>> = "
  const JsDeclaration: string := "const packages = "

  /** The last line of the generated module. */
  const PackagesExport: string := "export { packages };"

  /** The declaration of the array, typed for TypeScript. */
  function Declaration(ext: Ext, packages: string): string
  {
    match ext
    case TS => TsDeclaration + packages + ";" + EOL
    case JS => JsDeclaration + packages + ";" + EOL
  }

  /** The generated module around the import block and the array literal. */
  function PackagesSource(ext: Ext, g: Generated): string
  {
    g.imports + EOL + Declaration(ext, g.packages) + PackagesExport
  }

  /** The module text of one pass over the tree `src` below `${cwd}/src`. */
  function PackagesText(ext: Ext, cwd: string, src: seq<FsNode>): Result<string>
  {
    TextsMatchWalk(cwd + "/src", src);
    WalkUnderRoot(cwd, src);
    var g :- Generate(cwd, Walk(cwd + "/src", src), Texts(src), Marker(ext), EOL);
    Ok(PackagesSource(ext, g))
  }

  function PackagesPath(cwd: string, ext: Ext): string
  {
    cwd + "/src/Packages." + ext.Name()
  }

  /**
   * A tree without a single path carrying the extension yields the empty
   * registry, whose array literal is "\n]": the module then declares
   * `const packages = \n];`.
   */
  lemma NoCandidates(ext: Ext, cwd: string, src: seq<FsNode>)
    requires forall p :: p in Walk(cwd + "/src", src) ==> !Contains(p, Marker(ext))
    ensures PackagesText(ext, cwd, src) == Ok(EOL + Declaration(ext, "\n]") + PackagesExport)
  {
    var files := Walk(cwd + "/src", src);
    TextsMatchWalk(cwd + "/src", src);
    WalkUnderRoot(cwd, src);
    assert forall i :: 0 <= i < |files| ==> files[i] in files;
    ScanSkipsUnmarked(cwd, files, Texts(src), |files|, Marker(ext), EOL);
    NothingGenerated(cwd, files, Texts(src), Marker(ext));
    assert PackagesText(ext, cwd, src) == Ok(PackagesSource(ext, Generated("", "\n]")));
    assert "" + EOL == EOL;
  }

  /** The use case with its module-level cache of the last module written. */
  class PackageUseCase {
    var cachePackages: string

    constructor ()
      ensures cachePackages == ""
    {
      cachePackages := "";
    }

    /**
     * One pass: a read failure leaves cache and disk alone; otherwise the
     * cache holds the new module and the file is written exactly when it changed.
     */
    method Execute(ext: Ext, cwd: string, src: seq<FsNode>, disk: Disk) returns (r: Result<bool>)
      modifies this, disk
      ensures r.Err? <==> PackagesText(ext, cwd, src).Err?
      ensures r.Err? ==> cachePackages == old(cachePackages) && disk.writes == old(disk.writes)
      ensures r.Ok? ==>
        var source := PackagesText(ext, cwd, src).value;
        cachePackages == source &&
        r.value == (source != old(cachePackages)) &&
        disk.writes == old(disk.writes) + (if r.value then [FileWrite(PackagesPath(cwd, ext), source)] else [])
    {
      var files := FilePathListUseCase.Execute(cwd + "/src", src);
      var texts := Texts(src);
      TextsMatchWalk(cwd + "/src", src);
      WalkUnderRoot(cwd, src);
      var generated :- ScanSources(cwd, files, texts, Marker(ext), EOL);
      var source := PackagesSource(ext, generated);
      if cachePackages != source {
        cachePackages := source;
        disk.Write(PackagesPath(cwd, ext), source);
        return Ok(true);
      }
      return Ok(false);
    }
  }

  /**
   * Two passes over an unchanged tree on a fresh use case: the module is
   * written once, by the first.
   */
  method RunTwice(ext: Ext, cwd: string, src: seq<FsNode>) returns (writes: seq<FileWrite>)
    ensures PackagesText(ext, cwd, src).Err? ==> writes == []
    ensures PackagesText(ext, cwd, src).Ok? ==>
      writes == [FileWrite(PackagesPath(cwd, ext), PackagesText(ext, cwd, src).value)]
  {
    var disk := new Disk();
    var useCase := new PackageUseCase();
    var first := useCase.Execute(ext, cwd, src, disk);
    var second := useCase.Execute(ext, cwd, src, disk);
    writes := disk.writes;
  }
}
