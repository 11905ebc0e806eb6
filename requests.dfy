/**
 * Request classifiers, the tags that feed them, and the synthetic module text
 * served for tagged requests. A request's handling is carried in two query
 * parameters: `emit` (`file` or `chunk`: an emitted artifact) and `loader`
 * (`css`, `json` or `file`: the synthetic handling to apply).
 */
module Requests {
  import opened Wrappers
  import opened SearchParams

  const EMIT := "emit"
  const LOADER := "loader"

  /** isFileRequest: `emit` is `file` or `chunk`, or `loader` is `file`. */
  predicate IsFileRequest(u: Url) {
    Get(u, EMIT) == Some("file") || Get(u, EMIT) == Some("chunk") || Get(u, LOADER) == Some("file")
  }

  /** isCssModuleRequest. */
  predicate IsCssModuleRequest(u: Url) {
    Get(u, LOADER) == Some("css")
  }

  /** isJsonModuleRequest. */
  predicate IsJsonModuleRequest(u: Url) {
    Get(u, LOADER) == Some("json")
  }

  /** appendCssModuleParam. */
  function AppendCssModuleParam(u: Url): Url {
    Append(u, LOADER, "css")
  }

  /** appendJsonModuleParam. */
  function AppendJsonModuleParam(u: Url): Url {
    Append(u, LOADER, "json")
  }

  /** appendFileParam. */
  function AppendFileParam(u: Url): Url {
    Append(u, LOADER, "file")
  }

  /** `loader` has one value, so a URL is at most one of css module, json module and file loader. */
  lemma LoaderTagsExclusive(u: Url)
    ensures !(IsCssModuleRequest(u) && IsJsonModuleRequest(u))
    ensures IsCssModuleRequest(u) || IsJsonModuleRequest(u) ==> Get(u, LOADER) != Some("file")
  {
  }

  /** Each appender makes its own classifier hold and the other loader classifiers fail. */
  lemma AppendedTagsClassify(u: Url)
    ensures IsCssModuleRequest(AppendCssModuleParam(u)) && !IsJsonModuleRequest(AppendCssModuleParam(u))
    ensures IsJsonModuleRequest(AppendJsonModuleParam(u)) && !IsCssModuleRequest(AppendJsonModuleParam(u))
    ensures IsFileRequest(AppendFileParam(u))
    ensures !IsCssModuleRequest(AppendFileParam(u)) && !IsJsonModuleRequest(AppendFileParam(u))
    ensures IsFileRequest(AppendCssModuleParam(u)) <==> Get(u, EMIT) in {Some("file"), Some("chunk")}
    ensures IsFileRequest(AppendJsonModuleParam(u)) <==> Get(u, EMIT) in {Some("file"), Some("chunk")}
  {
    AppendSpec(u, LOADER, "css");
    AppendSpec(u, LOADER, "json");
    AppendSpec(u, LOADER, "file");
  }

  /**
   * Appending and then removing a parameter with any other key leaves every
   * classification of the URL as it was.
   */
  lemma UnrelatedParamsDoNotClassify(u: Url, key: string, value: string)
    requires key != EMIT && key != LOADER
    ensures var v := Remove(Append(u, key, value), key);
      && (IsFileRequest(v) <==> IsFileRequest(u))
      && (IsCssModuleRequest(v) <==> IsCssModuleRequest(u))
      && (IsJsonModuleRequest(v) <==> IsJsonModuleRequest(u))
    ensures var v := Append(u, key, value);
      && (IsFileRequest(v) <==> IsFileRequest(u))
      && (IsCssModuleRequest(v) <==> IsCssModuleRequest(u))
      && (IsJsonModuleRequest(v) <==> IsJsonModuleRequest(u))
  {
    RemoveAfterAppend(u, key, value);
    RemoveSpec(u, key);
    AppendSpec(u, key, value);
  }

  /**
   * The asset reference of a file module: the request with `emit` and `loader`
   * removed. It carries neither tag, so it is no longer a tagged request, and
   * every other parameter answers as in the request.
   */
  function FileReference(u: Url): (r: Url)
    ensures r.path == u.path
    ensures Get(r, EMIT) == None && Get(r, LOADER) == None
    ensures !IsFileRequest(r) && !IsCssModuleRequest(r) && !IsJsonModuleRequest(r)
    ensures forall k | k != EMIT && k != LOADER :: Get(r, k) == Get(u, k)
  {
    RemoveSpec(u, EMIT);
    RemoveSpec(Remove(u, EMIT), LOADER);
    Remove(Remove(u, EMIT), LOADER)
  }

  /** The stylesheet address of a CSS module: the request with `loader` removed. */
  function StylesheetHref(u: Url): (r: Url)
    ensures r.path == u.path
    ensures Get(r, LOADER) == None && !IsCssModuleRequest(r)
    ensures forall k | k != LOADER :: Get(r, k) == Get(u, k)
  {
    RemoveSpec(u, LOADER);
    Remove(u, LOADER)
  }

  const FILE_MODULE_HEAD := "export default new URL('"
  const FILE_MODULE_TAIL := "', import.meta.url).href;"

  /**
   * convertFileToJsModule: one default export whose value is the asset URL
   * resolved against the importing module at run time. The text is the fixed
   * head, the asset reference, and the fixed tail.
   */
  function ConvertFileToJsModule(u: Url): (r: string)
    ensures |r| == |FILE_MODULE_HEAD| + |Serialize(FileReference(u))| + |FILE_MODULE_TAIL|
    ensures r[..|FILE_MODULE_HEAD|] == FILE_MODULE_HEAD
    ensures r[|FILE_MODULE_HEAD|..|r| - |FILE_MODULE_TAIL|] == Serialize(FileReference(u))
    ensures r[|r| - |FILE_MODULE_TAIL|..] == FILE_MODULE_TAIL
  {
    FILE_MODULE_HEAD + Serialize(FileReference(u)) + FILE_MODULE_TAIL
  }

  const CSS_MODULE_HEAD := "var link = document.createElement('link');\nlink.rel = 'stylesheet';\nlink.href = '"
  const CSS_MODULE_TAIL := "';\ndocument.head.appendChild(link);\n"

  /**
   * convertCssToJsModule: four statements that create a stylesheet link to the
   * untagged URL and append it to the document head. The text is the fixed
   * head, the stylesheet address, and the fixed tail.
   */
  function ConvertCssToJsModule(u: Url): (r: string)
    ensures |r| == |CSS_MODULE_HEAD| + |Serialize(StylesheetHref(u))| + |CSS_MODULE_TAIL|
    ensures r[..|CSS_MODULE_HEAD|] == CSS_MODULE_HEAD
    ensures r[|CSS_MODULE_HEAD|..|r| - |CSS_MODULE_TAIL|] == Serialize(StylesheetHref(u))
    ensures r[|r| - |CSS_MODULE_TAIL|..] == CSS_MODULE_TAIL
  {
    CSS_MODULE_HEAD + Serialize(StylesheetHref(u)) + CSS_MODULE_TAIL
  }

  /** Two file modules are the same text exactly when they reference the same asset URL. */
  lemma FileModuleDeterminesReference(u: Url, v: Url)
    ensures ConvertFileToJsModule(u) == ConvertFileToJsModule(v) <==>
      Serialize(FileReference(u)) == Serialize(FileReference(v))
  {
  }

  /** Two CSS modules are the same text exactly when they link the same stylesheet address. */
  lemma CssModuleDeterminesHref(u: Url, v: Url)
    ensures ConvertCssToJsModule(u) == ConvertCssToJsModule(v) <==>
      Serialize(StylesheetHref(u)) == Serialize(StylesheetHref(v))
  {
  }

  /** The file module of a URL tagged by `AppendFileParam` references it with the tags stripped. */
  lemma FileTagRoundTrip(u: Url)
    ensures FileReference(AppendFileParam(u)) == FileReference(u)
  {
    RemoveCommutes(u, EMIT, LOADER);
    RemoveCommutes(AppendFileParam(u), EMIT, LOADER);
    RemoveAfterAppend(u, LOADER, "file");
    assert Remove(AppendFileParam(u), LOADER) == Remove(u, LOADER);
  }

  /** The CSS module of a URL tagged by `AppendCssModuleParam` links the URL without its loader tag. */
  lemma CssTagRoundTrip(u: Url)
    ensures StylesheetHref(AppendCssModuleParam(u)) == StylesheetHref(u)
  {
    RemoveAfterAppend(u, LOADER, "css");
  }
}
