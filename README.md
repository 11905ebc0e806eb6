# rna dev-server plugin, modelled in Dafny

This project models the core of the `rna` plugin for a web dev server
(`packages/wds-plugin-rna/lib/plugins/rna.js`). The plugin classifies every
module request by two query tags: `emit` marks an emitted asset or chunk, and
`loader` picks the synthetic handling (`css`, `json`, `file`). It serves CSS
and binary assets as small synthetic ES modules. It tags import specifiers so
that later requests are classified. It bundles bare third-party dependencies
into an in-memory cache (`virtualFs`) keyed by resolved path.

Modules, leaf first:

- `Wrappers` (`wrappers.dfy`): `Option`.
- `ModuleName` (`module_name.dfy`): the bare-module-name test. It is written as
  a character-by-character automaton and proved to accept exactly the strings of
  the `VALID_MODULE_NAME` shape: `( '@' Lead Tail* '/' )? Lead Tail*`. Here
  Lead is `[a-z0-9-~]` and Tail is `[a-z0-9-._~]`.
- `SearchParams` (`search_params.dfy`): a URL is a path plus an ordered list of
  key/value pairs. `Get` gives the first value of a key. `Remove` deletes every
  pair of a key. `Append` deletes the key's pairs and adds the new pair at the
  end.
- `Requests` (`requests.dfy`): the classifiers, the tag appenders and the two
  synthetic module texts.
- `VirtualFs` (`virtual_fs.dfy`): cache entries (`Pending | Done(text) |
  Failed`), slot registration, and the publication of a build's output files.
- `Plugin` (`plugin.dfy`): the class `RnaPlugin`, with its mutable closure state
  as fields (`serverConfig`, `virtualFs`) and its hooks. `ResolveMimeType`,
  `TransformImport`, `Serve` and `Transform` are functions that return a variant
  saying which branch was taken. `resolveImport` is split at its awaits:
  - `ResolveImportStart` runs up to the package lookup.
  - `ResolveImportRegister` runs after the package lookup and registers the
    slot.
  - `CompleteBuild` runs when the bundler returns. Its `forEach` over
    `outputFiles` is a `while` loop.
  - The ghost field `builds` records each started build. `Valid()` states that
    no path is built twice.

External collaborators are inputs:

- The synchronous helpers are the fields of `Plugin.Host`: `isJs`, `isJson`,
  `isCss`, the loader table looked up by extension (`getRequestLoader`),
  `getRequestFilePath`, `resolveRelativeImport`, `path.relative`,
  `path.dirname` and `isHelperImport`.
- The awaited results are parameters: `browserResolve`, `realpath`, `pkgUp`,
  and the bundler's `outputFiles` (present or absent).

The model follows the code on these points:

- `serverStart` overwrites the captured configuration on every call
  (rna.js:176).
- The CSS injector is four statements: create the link, set `rel`, set
  `href`, append it to the head (rna.js:62-65).
- `_` and `.` may appear in a scope or a name, but never as its first
  character (rna.js:146).

There is one exception, where the model does not follow the code. The code
awaits `pkgUp` between its cache check and its slot insert (rna.js:305-322),
so two imports of one dependency can both build it (see Findings). That
registration is modelled as written: `VirtualFs.RegisterAsWritten` and
`Plugin.RnaPlugin.ResolveImportRegisterAsWritten`. The class's
`ResolveImportRegister`, and the invariant `Valid()` built on it, use the
corrected registration, which checks the slot again at insert.

## Model

| member | source | states |
|---|---|---|
| `ModuleName.IsBareModuleSource` | packages/wds-plugin-rna/lib/plugins/rna.js:146-153 | the automaton accepts a name exactly when it matches the VALID_MODULE_NAME shape (optional `@scope/`, then a name; lead and tail character sets) |
| `ModuleName.AcceptedShape` | packages/wds-plugin-rna/lib/plugins/rna.js:146-153 | an accepted name is non-empty, starts with `@` or a lead character (so `.`, `/` and `_` starts are refused), holds only tail characters apart from the scope's `@` and `/`, and holds a `/` only after a leading `@` |
| `ModuleName.ScopedNameAccepted` | packages/wds-plugin-rna/lib/plugins/rna.js:146 | `@scope/name` is accepted if and only if scope and name are both segments |
| `ModuleName.RefusesAt` | packages/wds-plugin-rna/lib/plugins/rna.js:146-153 | the empty string is refused, and so is a string with a non-lead first character other than `@`, or with a later character outside the tail set (a `/` counts only after a leading `@`) |
| `ModuleName.AcceptsExamples` | packages/wds-plugin-rna/lib/plugins/rna.js:146-153 | `lodash` and `@scope/pkg` are bare |
| `ModuleName.RefusesExamples` | packages/wds-plugin-rna/lib/plugins/rna.js:146-153 | ``, `./local`, `/abs/path`, `http://x/y`, `UPPER` and `lodash/fp` are not bare |
| `SearchParams.Get` | packages/wds-plugin-rna/lib/plugins/rna.js:19 | getSearchParam; the definition is `Lookup` on the URL's pairs |
| `SearchParams.Remove` | packages/wds-plugin-rna/lib/plugins/rna.js:61 | removeSearchParam; the definition is the URL with `Without` applied to its pairs, path kept |
| `SearchParams.Append` | packages/wds-plugin-rna/lib/plugins/rna.js:40 | appendSearchParam; the definition is the pairs without the key, then the new pair last, path kept |
| `SearchParams.Lookup` | packages/wds-plugin-rna/lib/plugins/rna.js:19 | getSearchParam: none exactly when no pair has the key; otherwise the value of the first pair with that key |
| `SearchParams.Without` | packages/wds-plugin-rna/lib/plugins/rna.js:61 | removal drops every pair of the key (none is left) and keeps every pair of other keys |
| `SearchParams.RemoveSpec` | packages/wds-plugin-rna/lib/plugins/rna.js:61 | after removeSearchParam the key is absent, every other key answers as before, the path is kept; removing an absent key is a no-op; removal is idempotent |
| `SearchParams.AppendSpec` | packages/wds-plugin-rna/lib/plugins/rna.js:40 | after appendSearchParam, get of the key returns the value just set (replace, not duplicate), other keys answer as before, the path is kept |
| `SearchParams.RemoveAfterAppend` | packages/wds-plugin-rna/lib/plugins/rna.js:40-61 | removing an appended key gives the URL with that key removed, which is the URL itself when it had no such key |
| `SearchParams.AppendTwice` | packages/wds-plugin-rna/lib/plugins/rna.js:40 | appending a key twice equals appending only the second value |
| `SearchParams.RemoveCommutes` | packages/wds-plugin-rna/lib/plugins/rna.js:73-74 | two removals of different keys commute, so stripping `emit` then `loader` does not depend on their order |
| `Requests.IsFileRequest` | packages/wds-plugin-rna/lib/plugins/rna.js:18-20 | the definition is the formula: `emit` is `file` or `chunk`, or `loader` is `file` |
| `Requests.IsCssModuleRequest` | packages/wds-plugin-rna/lib/plugins/rna.js:25-27 | the definition is the formula: `loader` is `css` |
| `Requests.IsJsonModuleRequest` | packages/wds-plugin-rna/lib/plugins/rna.js:32-34 | the definition is the formula: `loader` is `json` |
| `Requests.AppendCssModuleParam` | packages/wds-plugin-rna/lib/plugins/rna.js:39-41 | the definition is `Append` of `loader=css` |
| `Requests.AppendJsonModuleParam` | packages/wds-plugin-rna/lib/plugins/rna.js:46-48 | the definition is `Append` of `loader=json` |
| `Requests.AppendFileParam` | packages/wds-plugin-rna/lib/plugins/rna.js:53-55 | the definition is `Append` of `loader=file` |
| `Requests.LoaderTagsExclusive` | packages/wds-plugin-rna/lib/plugins/rna.js:18-34 | no URL is both a css module and a json module request, and neither has `loader=file` |
| `Requests.AppendedTagsClassify` | packages/wds-plugin-rna/lib/plugins/rna.js:18-55 | each appender makes its classifier hold and the other loader classifiers fail; after the css or json tag a URL is a file request exactly when its `emit` is `file` or `chunk` |
| `Requests.UnrelatedParamsDoNotClassify` | packages/wds-plugin-rna/lib/plugins/rna.js:18-34 | appending, or appending then removing, a key other than `emit` and `loader` leaves all three classifications unchanged |
| `Requests.FileReference` | packages/wds-plugin-rna/lib/plugins/rna.js:72-74 | the asset reference has the request's path, carries neither `emit` nor `loader`, is no tagged request, and keeps every other parameter |
| `Requests.StylesheetHref` | packages/wds-plugin-rna/lib/plugins/rna.js:60-61 | the stylesheet address has the request's path, no loader tag, and every other parameter |
| `Requests.ConvertFileToJsModule` | packages/wds-plugin-rna/lib/plugins/rna.js:72-76 | the text is exactly `export default new URL('`, then the tag-stripped asset URL, then `', import.meta.url).href;` |
| `Requests.ConvertCssToJsModule` | packages/wds-plugin-rna/lib/plugins/rna.js:60-67 | the text is exactly the fixed four-statement link-injection head, then the URL without `loader` as `link.href`, then the fixed tail |
| `Requests.FileModuleDeterminesReference` | packages/wds-plugin-rna/lib/plugins/rna.js:72-76 | two file modules are equal exactly when their asset URLs are |
| `Requests.CssModuleDeterminesHref` | packages/wds-plugin-rna/lib/plugins/rna.js:60-67 | two CSS modules are equal exactly when their stylesheet addresses are |
| `Requests.FileTagRoundTrip` | packages/wds-plugin-rna/lib/plugins/rna.js:53-55 | the asset reference of a file-tagged URL is that of the untagged URL |
| `Requests.CssTagRoundTrip` | packages/wds-plugin-rna/lib/plugins/rna.js:39-41 | the stylesheet address of a css-tagged URL is that of the untagged URL |
| `VirtualFs.RegisterAsWritten` | packages/wds-plugin-rna/lib/plugins/rna.js:309-322 | as written: after the package lookup the slot is set to pending and a build starts, whatever the cache then holds; every other slot is kept and only the resolved path may be added |
| `VirtualFs.Register` | packages/wds-plugin-rna/lib/plugins/rna.js:305-322 | a build starts and a pending slot is added exactly when the path has no slot; existing slots are kept; afterwards the path has a slot |
| `VirtualFs.RegisterIsSingleFlight` | packages/wds-plugin-rna/lib/plugins/rna.js:305-322 | a second registration of the same path starts no build and changes nothing |
| `VirtualFs.Publish` | packages/wds-plugin-rna/lib/plugins/rna.js:335-337 | the definition writes the output files into the cache in order, each as `Done` with its text |
| `VirtualFs.PublishKeys` | packages/wds-plugin-rna/lib/plugins/rna.js:335-337 | publishing adds exactly the output paths to the cache |
| `VirtualFs.PublishOutput` | packages/wds-plugin-rna/lib/plugins/rna.js:335-337 | each output path ends up `Done` with the text of the last output file of that path |
| `VirtualFs.PublishOther` | packages/wds-plugin-rna/lib/plugins/rna.js:335-337 | a path that is no output file keeps its slot, or stays absent |
| `VirtualFs.PublishOutputs` | packages/wds-plugin-rna/lib/plugins/rna.js:335-337 | every output file that is the last of its path leaves that path `Done` with its text |
| `VirtualFs.PublishDone` | packages/wds-plugin-rna/lib/plugins/rna.js:335-337 | after publishing, every output path holds a body |
| `VirtualFs.PublishOthers` | packages/wds-plugin-rna/lib/plugins/rna.js:335-337 | every path that is no output file keeps its slot, or stays absent |
| `VirtualFs.PublishKeepsSlots` | packages/wds-plugin-rna/lib/plugins/rna.js:335-337 | publishing never removes a slot |
| `VirtualFs.Complete` | packages/wds-plugin-rna/lib/plugins/rna.js:322-340 | the cache gains exactly the output paths; each holds the text of the last output file of its path; a still-pending slot of the resolved path that no output file filled settles with itself and becomes `Failed`, as does one whose build returned no output files; every other slot is kept |
| `Plugin.Aliased` | packages/wds-plugin-rna/lib/plugins/rna.js:284-286 | the definition is the formula: the alias when the table maps the specifier to a non-empty string, else the specifier |
| `Plugin.RnaPlugin.AssetUrl` | packages/wds-plugin-rna/lib/plugins/rna.js:193-195 | the definition is the request's file made relative to the request URL by `resolveRelativeImport`, with the request's parameters |
| `Plugin.RnaPlugin.DependencyEntry` | packages/wds-plugin-rna/lib/plugins/rna.js:309-320 | the definition is the entry rooted at the package directory, or the project root without a package file, with input `./` plus the resolved path relative to that root, the importer's loader and `bundle: false` |
| `Plugin.RnaPlugin.constructor` | packages/wds-plugin-rna/lib/plugins/rna.js:158-167 | a new plugin has no server configuration, an empty cache and no builds |
| `Plugin.RnaPlugin.ServerStart` | packages/wds-plugin-rna/lib/plugins/rna.js:175-177 | captures the host configuration; the cache is unchanged |
| `Plugin.RnaPlugin.ResolveMimeType` | packages/wds-plugin-rna/lib/plugins/rna.js:179-189 | script exactly for script or JSON paths and css-module or file requests; stylesheet exactly for the other stylesheet paths; else the host default |
| `Plugin.RnaPlugin.TransformImport` | packages/wds-plugin-rna/lib/plugins/rna.js:269-281 | JSON specifiers get `loader=json`, else stylesheets `loader=css`, else non-scripts `loader=file`; scripts are returned unchanged (none); only the loader tag changes |
| `Plugin.RnaPlugin.Serve` | packages/wds-plugin-rna/lib/plugins/rna.js:191-220 | a file request gets the file module even when css-tagged; else a css-module request gets the injector, both as `text/javascript`; else a path in the cache gets its entry with `transformCacheKey: false`; else passthrough; a missing server configuration fails where the source reads it |
| `Plugin.RnaPlugin.Transform` | packages/wds-plugin-rna/lib/plugins/rna.js:222-266 | passes through helper imports, css-module and file requests, paths without a loader, untagged JSON and cached paths; otherwise transpiles a non-bundled entry of the project root with the request body and the path's loader |
| `Plugin.RnaPlugin.ResolveImportStart` | packages/wds-plugin-rna/lib/plugins/rna.js:283-307 | alias first, then the bare test; not bare, unresolved (failure or empty) and symlinked specifiers are left to the host; a cached resolved path is rewritten with `resolveRelativeImport(resolved, filePath, rootDir)`; any other needs a build |
| `Plugin.RnaPlugin.ResolveImportRegister` | packages/wds-plugin-rna/lib/plugins/rna.js:309-342 | corrected registration: it checks the slot again at insert (the code as written is `Plugin.RnaPlugin.ResolveImportRegisterAsWritten`); adds one pending slot and one build exactly when the resolved path has no slot, else changes nothing; rewrites to the same path as the fast path; keeps at most one build per path |
| `Plugin.RnaPlugin.ResolveImportRegisterAsWritten` | packages/wds-plugin-rna/lib/plugins/rna.js:309-342 | as written: overwrites the slot with a pending build and starts the build whatever the cache holds; rewrites to the same path as the fast path |
| `Plugin.RnaPlugin.CompleteBuild` | packages/wds-plugin-rna/lib/plugins/rna.js:322-340 | writes every output file into the cache in order (the `forEach` loop), then fails a still-pending slot of the resolved path that no output file filled; the new cache is `Complete` of the old; the set of builds is unchanged |
| `Plugin.ImportedStylesheetIsInjected` | packages/wds-plugin-rna/lib/plugins/rna.js:179-232 | a stylesheet import is css-tagged; the tagged URL is a script, is served as the injector linking the specifier without its loader tag, and is not transformed |
| `Plugin.ImportedAssetIsReferenced` | packages/wds-plugin-rna/lib/plugins/rna.js:191-202 | a non-script, non-style, non-JSON import is file-tagged; the tagged URL is a script served as a file module whose asset URL keeps the specifier's parameters without `emit` and `loader` |
| `Plugin.ImportedJsonIsTranspiled` | packages/wds-plugin-rna/lib/plugins/rna.js:234-242 | a tagged JSON import goes through the JSON loader; the same file untagged is left to the host |
| `Plugin.ServedResponsesAreFinal` | packages/wds-plugin-rna/lib/plugins/rna.js:214-248 | whatever the plugin serves itself, synthetic or cached, is not transformed again |
| `Plugin.PublishedOutputIsServed` | packages/wds-plugin-rna/lib/plugins/rna.js:214-219 | after a build completes, a request for one of its output paths is answered from the cache with that path's last output text and is not transformed |
| `Plugin.RacingImportsBuildTwice` | packages/wds-plugin-rna/lib/plugins/rna.js:305-322 | when one import of a dependency needs a build, an import from any other importer on the same state needs a build of the same path; both as-written registrations start a build, and the build log then holds that path twice |
| `Plugin.RacingImports` | packages/wds-plugin-rna/lib/plugins/rna.js:305-322 | two imports that pass the cache check and then register as written start two builds and leave the plugin outside `Valid()` |
| `Plugin.ImportTwice` | packages/wds-plugin-rna/lib/plugins/rna.js:305-342 | the same bare specifier imported twice starts one build; the second import takes the fast path, and from the same importer it is rewritten to the same path |

## Left out

- `createConfig` and the whole transform configuration are not modelled. This
  covers its plugin callbacks (postcss, commonjs `ignore`, worker proxy) and the
  build options `chunkNames`, `output`, `jsxModule` and `write`. They only
  assemble input for the external transformer and bundler.
- The transformer and the bundler are foreign calls. `Transform` returns the
  entry it would transpile, not the resulting code. A build is represented only
  by whether it returned `outputFiles`. A build that throws is modelled like one
  with no output files.
- `getChunkOptions(context.url)`, spread into the transform entry at rna.js:261,
  is not modelled. The entry is built without it.
- The query-parameter library is modelled abstractly. There is no real URL
  parsing and no percent-encoding. `Serialize` is a plain `path?k=v&…` join,
  used where the source passes URL text to an external helper or into module
  text.
- `getRequestLoader` (rna.js:81-84) is folded into `Host.requestLoader`, a
  function of the request path.
- Single-threaded interleaving is modelled only at the one await that sits
  between reading and writing the cache: the package lookup. Hooks and methods
  are otherwise atomic. Promises are not modelled. `Serve` returns the cache
  entry that the response would await.
- Plugin.RnaPlugin.CompleteBuild: a slot's promise and its rejection reason
  are not modelled. A promise that settles with itself (rna.js:339) is
  modelled as a `Failed` slot, like a build that returned no output files.
- `realpath` failing (a rejected await) is not modelled. `ResolveImportStart`
  takes its result as given.
- Alias table values are strings. The source's truthiness test on
  `config.alias[source]` is modelled as "present and non-empty". Inherited
  object properties of the alias table (`constructor`, `toString`) are not
  modelled: the table is a map with only its own keys.

## Findings

| source | as written | input that shows it | evidently intended | confidence | as-written member | corrected member |
|---|---|---|---|---|---|---|
| packages/wds-plugin-rna/lib/plugins/rna.js:305-322 | The check `resolved in virtualFs` (305) and the slot insert (322) are separated by `await pkgUp(...)` (309). An import arriving during the lookup also passes the check, and the insert overwrites any slot. | Two modules importing `lodash` are requested at the same time. Both resolve to the same path, both find no slot, and both await `pkgUp`. Both then set the slot to pending and start a build: two builds of one path. | At most one build per resolved path. The slot should be re-checked (or inserted) before any await. | high (not executed) | `VirtualFs.RegisterAsWritten`, `Plugin.RnaPlugin.ResolveImportRegisterAsWritten`, `Plugin.RacingImportsBuildTwice`, `Plugin.RacingImports` | `VirtualFs.Register`, `VirtualFs.RegisterIsSingleFlight`, `Plugin.RnaPlugin.ResolveImportRegister` |
