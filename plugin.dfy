/**
 * The dev-server plugin: its hooks and the state it keeps between requests.
 *
 * Helpers the plugin calls synchronously and does not define (extension tests,
 * the loader table, path arithmetic, the server's request-to-file mapping) are
 * the fields of `Host`. Results of the awaited calls (module resolution,
 * realpath, package lookup, the bundler) are parameters of the hooks that
 * await them.
 */
module Plugin {
  import opened Wrappers
  import opened SearchParams
  import opened Requests
  import opened VirtualFs
  import ModuleName

  datatype Host = Host(
    isJs: string -> bool,
    isJson: string -> bool,
    isCss: string -> bool,
    /** getRequestLoader: the transform loader registered for the extension of a path, if any. */
    requestLoader: string -> Option<string>,
    /** getRequestFilePath(url, rootDir). */
    requestFilePath: (string, string) -> string,
    /** resolveRelativeImport(path, importer, rootDir). */
    relativeImport: (string, string, string) -> string,
    /** path.relative(from, to). */
    relative: (string, string) -> string,
    /** path.dirname. */
    dirname: string -> string,
    isHelperImport: string -> bool)

  /** The options the plugin is created with; only the alias table concerns this model. */
  datatype Config = Config(alias: map<string, string>)

  /** The host's configuration, captured at server start. */
  datatype ServerConfig = ServerConfig(rootDir: string)

  /** The entry handed to the transformer or the bundler. */
  datatype Entrypoint = Entrypoint(root: string, input: string, code: Option<string>, loader: Option<string>, bundle: bool)

  datatype MimeType = ScriptMime | StylesheetMime | HostDefault

  /** A synthetic response, a cached body, or nothing (the host serves the file itself). */
  datatype ServeResult =
    | Respond(body: string, contentType: string)
    | FromCache(path: string, entry: Entry, transformCacheKey: bool)
    | NotServed
    | ServeBeforeStart

  datatype TransformResult = Untouched | Transpile(entry: Entrypoint) | TransformBeforeStart

  /** How far an import resolution gets before the package lookup it awaits. */
  datatype ResolveStep =
    | NotBare
    | ResolveBeforeStart
    | Unresolved
    | Symlinked
    | Rewrite(path: string)
    | NeedsBuild(resolved: string, importerFile: string, rootDir: string, importerPath: string)

  /** A JavaScript truthiness test on an optional string. */
  predicate Truthy(o: Option<string>) {
    o.Some? && o.value != ""
  }

  /** The specifier after the alias table: an alias applies when it maps to a non-empty string. */
  function Aliased(alias: map<string, string>, source: string): string {
    if source in alias && alias[source] != "" then alias[source] else source
  }

  const JS_CONTENT_TYPE := "text/javascript"

  /** No resolved path occurs twice in a build log. */
  predicate BuiltOnce(builds: seq<string>) {
    forall i, j | 0 <= i < j < |builds| :: builds[i] != builds[j]
  }

  class RnaPlugin {
    const config: Config
    const host: Host
    var serverConfig: Option<ServerConfig>
    var virtualFs: map<string, Entry>
    /** The resolved paths whose bundle was started, in order. */
    ghost var builds: seq<string>

    /** At most one build per resolved path, and each built path keeps its slot. */
    ghost predicate Valid()
      reads this
    {
      && BuiltOnce(builds)
      && (forall i | 0 <= i < |builds| :: builds[i] in virtualFs)
    }

    /** rnaPlugin(config): no server configuration yet and an empty cache. */
    constructor (config: Config, host: Host)
      ensures Valid()
      ensures this.config == config && this.host == host
      ensures serverConfig == None && virtualFs == map[] && builds == []
    {
      this.config := config;
      this.host := host;
      serverConfig := None;
      virtualFs := map[];
      builds := [];
    }

    /** serverStart: captures the host configuration (a later call replaces it). */
    method ServerStart(cfg: ServerConfig)
      requires Valid()
      modifies this
      ensures Valid()
      ensures serverConfig == Some(cfg)
      ensures virtualFs == old(virtualFs) && builds == old(builds)
    {
      serverConfig := Some(cfg);
    }

    /** The file the server maps a URL to. */
    function RequestFile(u: Url, rootDir: string): string {
      host.requestFilePath(Serialize(u), rootDir)
    }

    /** The URL of an emitted asset: its file, relative to the requesting URL, with the request's parameters. */
    function AssetUrl(u: Url, rootDir: string): Url {
      Url(host.relativeImport(host.requestFilePath(u.path, rootDir), Serialize(u), rootDir), u.params)
    }

    /**
     * resolveMimeType: script for script and JSON paths and for css-module and
     * file requests; stylesheet for any other stylesheet path; else the host's default.
     */
    function ResolveMimeType(u: Url): (r: MimeType)
      ensures r == ScriptMime <==>
        host.isJs(u.path) || host.isJson(u.path) || IsCssModuleRequest(u) || IsFileRequest(u)
      ensures r == StylesheetMime <==> r != ScriptMime && host.isCss(u.path)
    {
      if host.isJs(u.path) || host.isJson(u.path) || IsCssModuleRequest(u) || IsFileRequest(u) then ScriptMime
      else if host.isCss(u.path) then StylesheetMime
      else HostDefault
    }

    /**
     * transformImport: a JSON specifier is tagged `loader=json`, else a
     * stylesheet `loader=css`, else anything that is not a script `loader=file`;
     * a script is left alone. Only the loader tag changes.
     */
    function TransformImport(source: Url): (r: Option<Url>)
      ensures var text := Serialize(source);
        && (r.None? <==> !host.isJson(text) && !host.isCss(text) && host.isJs(text))
        && (host.isJson(text) ==> r.Some? && IsJsonModuleRequest(r.value))
        && (!host.isJson(text) && host.isCss(text) ==> r.Some? && IsCssModuleRequest(r.value))
        && (!host.isJson(text) && !host.isCss(text) && !host.isJs(text) ==>
              r.Some? && Get(r.value, LOADER) == Some("file") && IsFileRequest(r.value))
      ensures r.Some? ==> r.value.path == source.path
      ensures r.Some? ==> forall k | k != LOADER :: Get(r.value, k) == Get(source, k)
    {
      var text := Serialize(source);
      AppendedTagsClassify(source);
      AppendSpec(source, LOADER, "json");
      AppendSpec(source, LOADER, "css");
      AppendSpec(source, LOADER, "file");
      if host.isJson(text) then Some(AppendJsonModuleParam(source))
      else if host.isCss(text) then Some(AppendCssModuleParam(source))
      else if !host.isJs(text) then Some(AppendFileParam(source))
      else None
    }

    /**
     * serve: a file request gets the file module (even when also tagged css),
     * otherwise a css-module request gets the stylesheet injector, both as
     * JavaScript; otherwise a path in the cache is answered from it with
     * transform caching off; otherwise the host serves the request.
     */
    function Serve(u: Url): (r: ServeResult)
      reads this
      ensures r.Respond? ==> r.contentType == JS_CONTENT_TYPE
      ensures IsFileRequest(u) ==>
        if serverConfig.None? then r == ServeBeforeStart
        else r.Respond? && r.body == ConvertFileToJsModule(AssetUrl(u, serverConfig.value.rootDir))
      ensures !IsFileRequest(u) && IsCssModuleRequest(u) ==>
        r.Respond? && r.body == ConvertCssToJsModule(u)
      ensures r.FromCache? <==>
        && !IsFileRequest(u) && !IsCssModuleRequest(u) && serverConfig.Some?
        && RequestFile(u, serverConfig.value.rootDir) in virtualFs
      ensures r.FromCache? ==>
        r.path == RequestFile(u, serverConfig.value.rootDir) && r.entry == virtualFs[r.path] && !r.transformCacheKey
      ensures r.NotServed? <==>
        && !IsFileRequest(u) && !IsCssModuleRequest(u) && serverConfig.Some?
        && RequestFile(u, serverConfig.value.rootDir) !in virtualFs
      ensures r.ServeBeforeStart? <==> serverConfig.None? && (IsFileRequest(u) || !IsCssModuleRequest(u))
    {
      if IsFileRequest(u) then
        if serverConfig.None? then ServeBeforeStart
        else Respond(ConvertFileToJsModule(AssetUrl(u, serverConfig.value.rootDir)), JS_CONTENT_TYPE)
      else if IsCssModuleRequest(u) then
        Respond(ConvertCssToJsModule(u), JS_CONTENT_TYPE)
      else if serverConfig.None? then ServeBeforeStart
      else
        var filePath := RequestFile(u, serverConfig.value.rootDir);
        if filePath in virtualFs then FromCache(filePath, virtualFs[filePath], false)
        else NotServed
    }

    /** Whether `transform` lets a request through to the transformer, before it needs the configuration. */
    predicate TransformApplies(u: Url) {
      && !host.isHelperImport(u.path)
      && !IsCssModuleRequest(u) && !IsFileRequest(u)
      && Truthy(host.requestLoader(u.path))
      && (host.requestLoader(u.path).value == "json" ==> IsJsonModuleRequest(u))
    }

    /**
     * transform: helper imports, css-module and file requests, paths without a
     * loader, untagged JSON and cached paths are left untouched; anything else is
     * transpiled as a non-bundled entry of the project root carrying the body.
     */
    function Transform(u: Url, body: string): (r: TransformResult)
      reads this
      ensures r.TransformBeforeStart? <==> TransformApplies(u) && serverConfig.None?
      ensures r.Transpile? <==>
        TransformApplies(u) && serverConfig.Some? && RequestFile(u, serverConfig.value.rootDir) !in virtualFs
      ensures host.requestLoader(u.path) == Some("json") && !IsJsonModuleRequest(u) ==> r == Untouched
      ensures r.Transpile? ==>
        var rootDir := serverConfig.value.rootDir;
        && r.entry.root == rootDir
        && r.entry.input == "./" + host.relative(rootDir, RequestFile(u, rootDir))
        && r.entry.code == Some(body)
        && r.entry.loader == host.requestLoader(u.path)
        && !r.entry.bundle
    {
      if host.isHelperImport(u.path) then Untouched
      else if IsCssModuleRequest(u) || IsFileRequest(u) then Untouched
      else
        var loader := host.requestLoader(u.path);
        if !Truthy(loader) then Untouched
        else if loader.value == "json" && !IsJsonModuleRequest(u) then Untouched
        else if serverConfig.None? then TransformBeforeStart
        else
          var rootDir := serverConfig.value.rootDir;
          var filePath := RequestFile(u, rootDir);
          if filePath in virtualFs then Untouched
          else Transpile(Entrypoint(rootDir, "./" + host.relative(rootDir, filePath), Some(body), loader, false))
    }

    /**
     * resolveImport up to the package lookup: the alias is applied first; a
     * specifier that is not bare, does not resolve, or resolves to a symlink is
     * left to the host; a resolved path already in the cache is rewritten at
     * once; any other needs a build.
     */
    function ResolveImportStart(source: string, importer: Url, resolved: Option<string>, realPath: string): (r: ResolveStep)
      reads this
      ensures var s := Aliased(config.alias, source);
        && (r.NotBare? <==> !ModuleName.IsBareModuleSource(s))
        && (r.ResolveBeforeStart? <==> ModuleName.IsBareModuleSource(s) && serverConfig.None?)
        && (r.Unresolved? <==> ModuleName.IsBareModuleSource(s) && serverConfig.Some? && !Truthy(resolved))
        && (r.Symlinked? <==>
              ModuleName.IsBareModuleSource(s) && serverConfig.Some? && Truthy(resolved) && realPath != resolved.value)
      ensures r.Rewrite? || r.NeedsBuild? ==>
        serverConfig.Some? && Truthy(resolved) && realPath == resolved.value
      ensures r.Rewrite? <==> (r.Rewrite? || r.NeedsBuild?) && resolved.value in virtualFs
      ensures r.Rewrite? ==>
        var rootDir := serverConfig.value.rootDir;
        r.path == host.relativeImport(resolved.value, RequestFile(importer, rootDir), rootDir)
      ensures r.NeedsBuild? ==>
        var rootDir := serverConfig.value.rootDir;
        r == NeedsBuild(resolved.value, RequestFile(importer, rootDir), rootDir, importer.path)
    {
      var s := Aliased(config.alias, source);
      if !ModuleName.IsBareModuleSource(s) then NotBare
      else if serverConfig.None? then ResolveBeforeStart
      else
        var rootDir := serverConfig.value.rootDir;
        var filePath := RequestFile(importer, rootDir);
        if !Truthy(resolved) then Unresolved
        else if realPath != resolved.value then Symlinked
        else if resolved.value in virtualFs then Rewrite(host.relativeImport(resolved.value, filePath, rootDir))
        else NeedsBuild(resolved.value, filePath, rootDir, importer.path)
    }

    /** The entry a dependency is bundled from: its package directory, or the project root. */
    function DependencyEntry(step: ResolveStep, packageFile: Option<string>): Entrypoint
      requires step.NeedsBuild?
    {
      var root := if Truthy(packageFile) then host.dirname(packageFile.value) else step.rootDir;
      Entrypoint(root, "./" + host.relative(root, step.resolved), None, host.requestLoader(step.importerPath), false)
    }

    /**
     * resolveImport after the package lookup: registers a pending slot for the
     * resolved path and starts its build, unless a slot appeared meanwhile; in
     * both cases the import is rewritten to the same path as on the fast path.
     */
    method ResolveImportRegister(step: ResolveStep, packageFile: Option<string>) returns (rewritten: string, build: Option<Entrypoint>)
      requires Valid()
      requires step.NeedsBuild?
      modifies this
      ensures Valid()
      ensures serverConfig == old(serverConfig)
      ensures rewritten == host.relativeImport(step.resolved, step.importerFile, step.rootDir)
      ensures virtualFs == Register(old(virtualFs), step.resolved).fs
      ensures build.Some? <==> step.resolved !in old(virtualFs)
      ensures build.Some? ==> build.value == DependencyEntry(step, packageFile) && builds == old(builds) + [step.resolved]
      ensures build.None? ==> builds == old(builds)
    {
      var registration := Register(virtualFs, step.resolved);
      virtualFs := registration.fs;
      if registration.launched {
        builds := builds + [step.resolved];
        build := Some(DependencyEntry(step, packageFile));
      } else {
        build := None;
      }
      rewritten := host.relativeImport(step.resolved, step.importerFile, step.rootDir);
    }

    /**
     * resolveImport after the package lookup, as the source writes it: the
     * slot is overwritten with a pending build and the build is started,
     * whatever the cache holds by then. This does not keep `Valid()`.
     */
    method ResolveImportRegisterAsWritten(step: ResolveStep, packageFile: Option<string>) returns (rewritten: string, build: Entrypoint)
      requires step.NeedsBuild?
      modifies this
      ensures serverConfig == old(serverConfig)
      ensures rewritten == host.relativeImport(step.resolved, step.importerFile, step.rootDir)
      ensures virtualFs == RegisterAsWritten(old(virtualFs), step.resolved).fs
      ensures build == DependencyEntry(step, packageFile) && builds == old(builds) + [step.resolved]
    {
      virtualFs := RegisterAsWritten(virtualFs, step.resolved).fs;
      builds := builds + [step.resolved];
      build := DependencyEntry(step, packageFile);
      rewritten := host.relativeImport(step.resolved, step.importerFile, step.rootDir);
    }

    /**
     * The end of a dependency build: every output file is written into the
     * cache in order; a still-pending slot of the resolved path that no output
     * file filled, or that a build without output files leaves, fails.
     */
    method CompleteBuild(resolved: string, result: BuildResult)
      requires Valid()
      modifies this
      ensures Valid()
      ensures serverConfig == old(serverConfig) && builds == old(builds)
      ensures virtualFs == Complete(old(virtualFs), resolved, result)
    {
      var files := Outputs(result);
      var before := virtualFs;
      var i := 0;
      while i < |files|
        invariant 0 <= i <= |files|
        invariant virtualFs == Publish(old(virtualFs), files[..i])
        invariant serverConfig == old(serverConfig) && builds == old(builds)
      {
        assert files[..i + 1][..i] == files[..i];
        virtualFs := virtualFs[files[i].path := Done(files[i].text)];
        i := i + 1;
      }
      assert files[..i] == files;
      if resolved in before && before[resolved].Pending? && resolved !in OutputPaths(files) {
        virtualFs := virtualFs[resolved := Failed];
      }
      PublishKeys(old(virtualFs), files);
    }
  }

  /**
   * A stylesheet import is tagged as a css module; the tagged URL is a script,
   * is served as the injector linking the specifier without its loader tag,
   * and is not transformed again.
   */
  lemma ImportedStylesheetIsInjected(p: RnaPlugin, source: Url, body: string)
    requires p.host.isCss(Serialize(source)) && !p.host.isJson(Serialize(source))
    requires Get(source, EMIT) != Some("file") && Get(source, EMIT) != Some("chunk")
    ensures p.TransformImport(source) == Some(AppendCssModuleParam(source))
    ensures var tagged := AppendCssModuleParam(source);
      && p.ResolveMimeType(tagged) == ScriptMime
      && p.Serve(tagged) == Respond(ConvertCssToJsModule(source), JS_CONTENT_TYPE)
      && p.Transform(tagged, body) == Untouched
  {
    var tagged := AppendCssModuleParam(source);
    AppendedTagsClassify(source);
    CssTagRoundTrip(source);
    assert ConvertCssToJsModule(tagged) == ConvertCssToJsModule(source);
  }

  /**
   * An import that is neither JSON, stylesheet nor script is tagged as a file;
   * once the server is configured the tagged URL is a script served as a file
   * module whose asset URL carries the specifier's own parameters without the
   * `emit` and `loader` tags.
   */
  lemma ImportedAssetIsReferenced(p: RnaPlugin, source: Url, body: string)
    requires var text := Serialize(source); !p.host.isJson(text) && !p.host.isCss(text) && !p.host.isJs(text)
    requires p.serverConfig.Some?
    ensures p.TransformImport(source) == Some(AppendFileParam(source))
    ensures var tagged := AppendFileParam(source);
      var asset := p.AssetUrl(tagged, p.serverConfig.value.rootDir);
      && p.ResolveMimeType(tagged) == ScriptMime
      && p.Serve(tagged) == Respond(ConvertFileToJsModule(asset), JS_CONTENT_TYPE)
      && FileReference(asset).params == FileReference(source).params
      && p.Transform(tagged, body) == Untouched
  {
    var tagged := AppendFileParam(source);
    AppendedTagsClassify(source);
    FileTagRoundTrip(source);
    AppendSpec(source, LOADER, "file");
    RemoveCommutes(tagged, EMIT, LOADER);
    var asset := p.AssetUrl(tagged, p.serverConfig.value.rootDir);
    RemoveCommutes(asset, EMIT, LOADER);
    assert FileReference(asset).params == FileReference(tagged).params;
  }

  /**
   * A JSON import is tagged so that, once configured and not cached, the
   * file goes through the JSON loader; the same file requested without the tag
   * is left to the host.
   */
  lemma ImportedJsonIsTranspiled(p: RnaPlugin, source: Url, body: string)
    requires p.host.isJson(Serialize(source))
    requires p.host.requestLoader(source.path) == Some("json") && !p.host.isHelperImport(source.path)
    requires Get(source, EMIT) != Some("file") && Get(source, EMIT) != Some("chunk")
    requires p.serverConfig.Some?
    requires p.RequestFile(AppendJsonModuleParam(source), p.serverConfig.value.rootDir) !in p.virtualFs
    ensures p.TransformImport(source) == Some(AppendJsonModuleParam(source))
    ensures var t := p.Transform(AppendJsonModuleParam(source), body);
      t.Transpile? && t.entry.loader == Some("json") && t.entry.code == Some(body)
    ensures !IsJsonModuleRequest(source) ==> p.Transform(source, body) == Untouched
  {
    AppendedTagsClassify(source);
  }

  /** A response the plugin serves itself, synthetic or cached, is never transformed afterwards. */
  lemma ServedResponsesAreFinal(p: RnaPlugin, u: Url, body: string)
    requires p.Serve(u).Respond? || p.Serve(u).FromCache?
    ensures p.Transform(u, body) == Untouched
  {
  }

  /**
   * Once a build of `resolved` has completed, a request mapped to one of its
   * output paths is answered from the cache with the text of the last output
   * of that path, and is not transformed.
   */
  lemma PublishedOutputIsServed(p: RnaPlugin, fs: map<string, Entry>, resolved: string, result: BuildResult, i: int,
                                u: Url, body: string)
    requires p.virtualFs == Complete(fs, resolved, result) && p.serverConfig.Some?
    requires 0 <= i < |Outputs(result)| && LastWith(Outputs(result), i)
    requires p.RequestFile(u, p.serverConfig.value.rootDir) == Outputs(result)[i].path
    requires !IsFileRequest(u) && !IsCssModuleRequest(u)
    ensures p.Serve(u) == FromCache(Outputs(result)[i].path, Done(Outputs(result)[i].text), false)
    ensures p.Transform(u, body) == Untouched
  {
    assert Outputs(result)[i].path in OutputPaths(Outputs(result));
  }

  /**
   * Two imports of one dependency from importers `a` and `b`, both checking
   * the cache before either registers (the source awaits the package lookup
   * in between): both need a build of the same path, the registrations as
   * written both start one, and the build log then holds that path twice.
   */
  lemma RacingImportsBuildTwice(p: RnaPlugin, source: string, a: Url, b: Url, resolved: Option<string>, realPath: string)
    requires p.ResolveImportStart(source, a, resolved, realPath).NeedsBuild?
    ensures var first := p.ResolveImportStart(source, a, resolved, realPath);
      var second := p.ResolveImportStart(source, b, resolved, realPath);
      var registered := RegisterAsWritten(p.virtualFs, first.resolved);
      && second.NeedsBuild? && second.resolved == first.resolved
      && registered.launched
      && RegisterAsWritten(registered.fs, second.resolved).launched
      && !BuiltOnce(p.builds + [first.resolved, second.resolved])
  {
    var first := p.ResolveImportStart(source, a, resolved, realPath);
    var log := p.builds + [first.resolved, first.resolved];
    assert log[|p.builds|] == log[|p.builds| + 1];
  }

  /**
   * The race run on the plugin as written: two imports pass the cache check,
   * then both register, and the plugin no longer satisfies `Valid()`.
   */
  method RacingImports(p: RnaPlugin, source: string, a: Url, b: Url, resolved: Option<string>, realPath: string,
                       packageFile: Option<string>)
    requires p.ResolveImportStart(source, a, resolved, realPath).NeedsBuild?
    modifies p
    ensures |p.builds| == |old(p.builds)| + 2
    ensures !p.Valid()
  {
    var first := p.ResolveImportStart(source, a, resolved, realPath);
    var second := p.ResolveImportStart(source, b, resolved, realPath);
    RacingImportsBuildTwice(p, source, a, b, resolved, realPath);
    var r1, b1 := p.ResolveImportRegisterAsWritten(first, packageFile);
    var r2, b2 := p.ResolveImportRegisterAsWritten(second, packageFile);
    assert p.builds[|p.builds| - 2] == p.builds[|p.builds| - 1];
  }

  /**
   * The same bare specifier imported from two files: the first import
   * registers the only build, the second is rewritten from the cache, and
   * from the same importer both imports are rewritten to the same path.
   */
  method ImportTwice(p: RnaPlugin, source: string, importer: Url, other: Url, resolved: Option<string>, realPath: string,
                     packageFile: Option<string>) returns (first: string, second: ResolveStep)
    requires p.Valid()
    requires p.ResolveImportStart(source, importer, resolved, realPath).NeedsBuild?
    modifies p
    ensures p.Valid()
    ensures |p.builds| == |old(p.builds)| + 1
    ensures second.Rewrite?
    ensures other == importer ==> second.path == first
  {
    var step := p.ResolveImportStart(source, importer, resolved, realPath);
    var build;
    first, build := p.ResolveImportRegister(step, packageFile);
    second := p.ResolveImportStart(source, other, resolved, realPath);
  }
}
