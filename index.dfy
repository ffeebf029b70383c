/**
 * src/index.js, the older entry point: `buildConfig` (the layer merge with
 * no placeholder pass, always writing Config.ts), its own `getFileType` and
 * `getListFiles`, and `buildPackage` (".ts" files only, the platform's line
 * separator, an untyped array), each generator with a cache that starts
 * as `null`.
 */
module LegacyIndex {
  import opened Base
  import opened JsString
  import opened Json
  import opened FileSystem
  import opened ConfigAssembly
  import opened Placeholders
  import opened Registry
  import FilePathListUseCase
  import ConfigUseCase
  import PackageUseCase

  /** The plugin options `{platform, environment}`. */
  datatype Options = Options(platform: string, environment: string)

  /** `JSON.stringify(config, null, 4)` of the merged config. */
  function ConfigJson(opts: Options, docs: Documents): Result<string>
  {
    var config :- Assemble(opts.platform, opts.environment, docs);
    Ok(Stringify(config))
  }

  /** The type import and the typed declaration that open Config.ts. */
  const ConfigPrologue: string := "import type { ConfigImpl } from \"@next2d/framework\";\nconst config: ConfigImpl = "

  function ConfigModule(json: string): string
  {
    ConfigPrologue + json + ";\nexport { config };"
  }

  function ConfigPath(cwd: string): string
  {
    cwd + "/src/config/Config.ts"
  }

  /**
   * Without placeholders in its text, the use case's config is the text this
   * entry point writes for the options the environment selects.
   */
  lemma AgreesWithUseCase(env: ConfigUseCase.Environment, docs: Documents)
    requires var a := Assemble(ConfigUseCase.PlatformName(env), ConfigUseCase.EnvironmentName(env), docs);
      a.Ok? && !Contains(Stringify(a.value), "{{")
    ensures ConfigUseCase.ConfigText(env, docs) ==
      ConfigJson(Options(ConfigUseCase.PlatformName(env), ConfigUseCase.EnvironmentName(env)), docs)
  {
    var a := Assemble(ConfigUseCase.PlatformName(env), ConfigUseCase.EnvironmentName(env), docs);
    RenderWithoutPlaceholders(a.value);
  }

  /** The third copy of the walker, over the same stat classification. */
  method GetListFiles(dirPath: string, listing: seq<FsNode>) returns (files: seq<string>)
    ensures files == Walk(dirPath, listing)
    decreases listing
  {
    files := [];
    var idx := 0;
    while idx < |listing|
      invariant 0 <= idx <= |listing|
      invariant files == Walk(dirPath, listing[..idx])
    {
      var node := listing[idx];
      var path := dirPath + "/" + node.name;
      var kind := FilePathListUseCase.GetFileType(node);
      if kind == "file" {
        files := files + [path];
      } else if kind == "directory" {
        var nested := GetListFiles(path, node.entries);
        files := files + nested;
      }
      WalkAppend(dirPath, listing[..idx], node);
      assert listing[..idx + 1] == listing[..idx] + [node];
      idx := idx + 1;
    }
    assert listing[..idx] == listing;
  }

  /** The untyped declaration of the array. */
  const AnyDeclaration: string := "\nconst packages: any[] = "

  function PackagesModule(g: Generated): string
  {
    g.imports + AnyDeclaration + g.packages + ";\n" + PackageUseCase.PackagesExport
  }

  /** The module text of one pass: ".ts" candidates, rows separated by `eol`. */
  function PackagesValue(cwd: string, src: seq<FsNode>, eol: string): Result<string>
  {
    TextsMatchWalk(cwd + "/src", src);
    WalkUnderRoot(cwd, src);
    var g :- Generate(cwd, Walk(cwd + "/src", src), Texts(src), ".ts", eol);
    Ok(PackagesModule(g))
  }

  function PackagesPath(cwd: string): string
  {
    cwd + "/src/Packages.ts"
  }

  /**
   * With "\n" as the line separator this entry point fails exactly when the
   * TypeScript use case does, and otherwise wraps the same import block and
   * the same array literal, differing only in the declaration's annotation.
   */
  lemma SameRegistryAsUseCase(cwd: string, src: seq<FsNode>)
    ensures PackagesValue(cwd, src, "\n").Err? <==> PackageUseCase.PackagesText(TS, cwd, src).Err?
    ensures PackagesValue(cwd, src, "\n").Err? ==>
      PackagesValue(cwd, src, "\n").error == PackageUseCase.PackagesText(TS, cwd, src).error
    ensures PackagesValue(cwd, src, "\n").Ok? ==>
      exists g :: PackagesValue(cwd, src, "\n") == Ok(PackagesModule(g)) &&
        PackageUseCase.PackagesText(TS, cwd, src) == Ok(PackageUseCase.PackagesSource(TS, g))
  {
    TextsMatchWalk(cwd + "/src", src);
    WalkUnderRoot(cwd, src);
    assert PackageUseCase.Marker(TS) == ".ts";
    var g := Generate(cwd, Walk(cwd + "/src", src), Texts(src), ".ts", "\n");
    if g.Ok? {
      assert PackagesValue(cwd, src, "\n") == Ok(PackagesModule(g.value));
      assert PackageUseCase.PackagesText(TS, cwd, src) == Ok(PackageUseCase.PackagesSource(TS, g.value));
    }
  }

  /** The two caches of the module, `null` until the first pass. */
  class Loader {
    var cacheConfig: Option<string>
    var cachePackages: Option<string>

    constructor ()
      ensures cacheConfig == None && cachePackages == None
    {
      cacheConfig := None;
      cachePackages := None;
    }

    /**
     * `buildConfig`: on success the cache holds the JSON text, and Config.ts
     * is written when it differs from the cache, which the first pass always does.
     */
    method BuildConfig(cwd: string, opts: Options, docs: Documents, disk: Disk) returns (r: Result<bool>)
      modifies this, disk
      ensures r.Err? <==> ConfigJson(opts, docs).Err?
      ensures r.Err? ==> cacheConfig == old(cacheConfig) && disk.writes == old(disk.writes)
      ensures r.Ok? ==>
        var json := ConfigJson(opts, docs).value;
        cacheConfig == Some(json) &&
        r.value == (old(cacheConfig) != Some(json)) &&
        disk.writes == old(disk.writes) + (if r.value then [FileWrite(ConfigPath(cwd), ConfigModule(json))] else [])
    {
      var config :- Merge(opts.platform, opts.environment, docs);
      var json := Stringify(config);
      if cacheConfig != Some(json) {
        cacheConfig := Some(json);
        disk.Write(ConfigPath(cwd), ConfigModule(Stringify(config)));
        return Ok(true);
      }
      return Ok(false);
    }

    /** `buildPackage`: the same cache discipline over the package module. */
    method BuildPackage(cwd: string, src: seq<FsNode>, eol: string, disk: Disk) returns (r: Result<bool>)
      modifies this, disk
      ensures r.Err? <==> PackagesValue(cwd, src, eol).Err?
      ensures r.Err? ==> cachePackages == old(cachePackages) && disk.writes == old(disk.writes)
      ensures r.Ok? ==>
        var value := PackagesValue(cwd, src, eol).value;
        cachePackages == Some(value) &&
        r.value == (old(cachePackages) != Some(value)) &&
        disk.writes == old(disk.writes) + (if r.value then [FileWrite(PackagesPath(cwd), value)] else [])
    {
      var files := GetListFiles(cwd + "/src", src);
      var texts := Texts(src);
      TextsMatchWalk(cwd + "/src", src);
      WalkUnderRoot(cwd, src);
      var generated :- ScanSources(cwd, files, texts, ".ts", eol);
      var value := PackagesModule(generated);
      if cachePackages != Some(value) {
        cachePackages := Some(value);
        disk.Write(PackagesPath(cwd), value);
        return Ok(true);
      }
      return Ok(false);
    }
  }

  /** On a fresh loader the first config pass that succeeds writes Config.ts. */
  method FirstBuildWrites(cwd: string, opts: Options, docs: Documents) returns (writes: seq<FileWrite>)
    ensures ConfigJson(opts, docs).Ok? ==>
      writes == [FileWrite(ConfigPath(cwd), ConfigModule(ConfigJson(opts, docs).value))]
    ensures ConfigJson(opts, docs).Err? ==> writes == []
  {
    var disk := new Disk();
    var loader := new Loader();
    ghost var json := ConfigJson(opts, docs);
    var first := loader.BuildConfig(cwd, opts, docs, disk);
    assert json.Ok? ==> first == Ok(true) && loader.cacheConfig == Some(json.value);
    var second := loader.BuildConfig(cwd, opts, docs, disk);
    assert json.Ok? ==> second == Ok(false);
    writes := disk.writes;
  }
}
