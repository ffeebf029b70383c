/**
 * `execute` of src/build/usecase/BuildConfigUseCase.ts: assemble the config,
 * resolve its placeholders, and write `src/config/Config.[ts|js]` when the
 * text differs from the one the previous pass wrote.
 */
module ConfigUseCase {
  import opened Base
  import opened JsString
  import opened Json
  import opened FileSystem
  import opened ConfigAssembly
  import opened Placeholders

  /** NEXT2D_EBUILD_ENVIRONMENT and NEXT2D_TARGET_PLATFORM; None when unset. */
  datatype Environment = Environment(ebuildEnvironment: Option<string>, targetPlatform: Option<string>)

  /** `value || fallback`: an unset or empty variable falls back. */
  function OrDefault(value: Option<string>, fallback: string): (r: string)
    ensures value.None? || value.value == "" ==> r == fallback
    ensures value.Some? && value.value != "" ==> r == value.value
  {
    if value.Some? && value.value != "" then value.value else fallback
  }

  function EnvironmentName(env: Environment): string
  {
    OrDefault(env.ebuildEnvironment, "local")
  }

  function PlatformName(env: Environment): string
  {
    OrDefault(env.targetPlatform, "web")
  }

  /** The config text of one pass: assembled, stringified, placeholders resolved. */
  function ConfigText(env: Environment, docs: Documents): Result<string>
  {
    var config :- Assemble(PlatformName(env), EnvironmentName(env), docs);
    Render(config)
  }

  function ConfigPath(cwd: string, ext: Ext): string
  {
    cwd + "/src/config/Config." + ext.Name()
  }

  /** The generated module around the config text. */
  function ConfigSource(text: string): string
  {
    "const config = " + text + ";\nexport { config };"
  }

  /** The config text of a pass that succeeds is never empty: it opens with "{\n". */
  lemma ConfigTextOpening(env: Environment, docs: Documents)
    ensures ConfigText(env, docs).Ok? ==> StartsWith(ConfigText(env, docs).value, "{\n")
  {
    var assembled := Assemble(PlatformName(env), EnvironmentName(env), docs);
    if assembled.Ok? {
      AssembledShape(PlatformName(env), EnvironmentName(env), docs);
      RenderedOpening(assembled.value.members);
    }
  }

  /** The use case with its module-level cache of the last text written. */
  class ConfigUseCase {
    var cacheConfig: string

    constructor ()
      ensures cacheConfig == ""
    {
      cacheConfig := "";
    }

    /**
     * One pass: a failure leaves cache and disk alone; otherwise the cache
     * holds the new text and the file is written exactly when the text changed.
     */
    method Execute(ext: Ext, cwd: string, env: Environment, docs: Documents, disk: Disk)
      returns (r: Result<bool>)
      modifies this, disk
      ensures r.Err? <==> ConfigText(env, docs).Err?
      ensures r.Err? ==> cacheConfig == old(cacheConfig) && disk.writes == old(disk.writes)
      ensures r.Ok? ==>
        var text := ConfigText(env, docs).value;
        cacheConfig == text &&
        r.value == (text != old(cacheConfig)) &&
        disk.writes == old(disk.writes) + (if r.value then [FileWrite(ConfigPath(cwd, ext), ConfigSource(text))] else [])
    {
      var environment := OrDefault(env.ebuildEnvironment, "local");
      var platform := OrDefault(env.targetPlatform, "web");
      var config :- Merge(platform, environment, docs);
      var configString :- ResolvePlaceholders(config);
      if cacheConfig != configString {
        cacheConfig := configString;
        disk.Write(ConfigPath(cwd, ext), ConfigSource(configString));
        return Ok(true);
      }
      return Ok(false);
    }
  }

  /**
   * Two passes over unchanged inputs on a fresh use case: the first writes
   * the module, the second finds the cache current and writes nothing.
   */
  method RunTwice(ext: Ext, cwd: string, env: Environment, docs: Documents) returns (writes: seq<FileWrite>)
    ensures ConfigText(env, docs).Err? ==> writes == []
    ensures ConfigText(env, docs).Ok? ==>
      writes == [FileWrite(ConfigPath(cwd, ext), ConfigSource(ConfigText(env, docs).value))]
  {
    var disk := new Disk();
    var useCase := new ConfigUseCase();
    ConfigTextOpening(env, docs);
    var first := useCase.Execute(ext, cwd, env, docs, disk);
    var second := useCase.Execute(ext, cwd, env, docs, disk);
    writes := disk.writes;
  }
}
