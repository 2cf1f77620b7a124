/** The two pure helpers of the JSX builder: the URI a document is served
    at, and the clean-up a page context goes through before it is
    serialised. */
module Builder {
  import opened Wrappers
  import opened Strings

  // ----- target URIs -----

  /** `sphinx.util.osutil.SEP`. */
  const Sep: char := '/'

  /** `get_target_uri`: the root index is served at the empty URI, any
      other `…/index` at its directory, and every other document at a
      directory of its own name. */
  function TargetUri(docname: string): (r: string)
    ensures r == "" <==> docname == "index"
    ensures r != "" ==> r[|r| - 1] == Sep
    ensures r <= docname + [Sep]
  {
    if docname == "index" then ""
    else if EndsWith(docname, [Sep] + "index") then docname[..|docname| - 5]
    else docname + [Sep]
  }

  /** An independent description of which documents are served at `uri`:
      the empty URI serves only the root index; a URI ending in the
      separator serves the index page inside that directory, and the
      document named like the directory unless that name is itself an
      index page. */
  predicate ServedAt(docname: string, uri: string) {
    if uri == "" then docname == "index"
    else
      && uri[|uri| - 1] == Sep
      && (|| docname == uri + "index"
          || (docname == uri[..|uri| - 1] && docname != "index" && !EndsWith(docname, [Sep] + "index")))
  }

  /** `TargetUri` maps a document to a URI exactly when the document is
      one `ServedAt` lists for it. */
  lemma TargetUriServedAt(docname: string, uri: string)
    ensures TargetUri(docname) == uri <==> ServedAt(docname, uri)
  {

  }

  /** A document and the index page inside the directory of the same name
      collide, unless the document is itself an index page. */
  lemma TargetUriCollision(docname: string)
    ensures TargetUri(docname + [Sep] + "index") == TargetUri(docname)
            <==> docname != "index" && !EndsWith(docname, [Sep] + "index")
  {

  }

  // ----- page contexts -----

  /** The values a page context holds, as far as the clean-up can tell them
      apart.  `Function` is a Python function object (a `def` or a lambda,
      `types.FunctionType`); `Callable` is any other callable, such as a
      bound method or a builtin, which that test does not match.  `Asset`
      is a stylesheet or script entry, of which only `filename` is read.
      `Dict` is a mapping with string keys. */
  datatype Value =
    | Null
    | Bool(b: bool)
    | Int(i: int)
    | Str(s: string)
    | List(items: seq<Value>)
    | Dict(entries: map<string, Value>)
    | Asset(filename: string, attributes: seq<(string, string)>)
    | Function(name: string)
    | Callable(name: string)

  type Context = map<string, Value>

  predicate NoFunctions(ctx: Context) {
    forall k :: k in ctx ==> !ctx[k].Function?
  }

  /** The lambda `handle_page` stores under `pathto` when there is none. */
  const IdentityPathto: Value := Function("<lambda>")

  /** The context changes `handle_page` makes before dumping: record the
      page name, default `pathto`, then delete every function-valued entry. */
  function CleanPageContext(pagename: string, ctx: Context): (r: Context)
    ensures "current_page_name" in r && r["current_page_name"] == Str(pagename)
    ensures forall k :: k in r <==> k == "current_page_name" || (k in ctx && !ctx[k].Function?)
    ensures forall k :: k in r && k != "current_page_name" ==> r[k] == ctx[k]
    ensures NoFunctions(r)
  {
    var named := ctx["current_page_name" := Str(pagename)];
    var defaulted := if "pathto" in named then named else named["pathto" := IdentityPathto];
    map k | k in defaulted && !defaulted[k].Function? :: defaulted[k]
  }

  /** Cleaning a cleaned context for the same page changes nothing. */
  lemma CleanPageContextIdempotent(pagename: string, ctx: Context)
    ensures CleanPageContext(pagename, CleanPageContext(pagename, ctx)) == CleanPageContext(pagename, ctx)
  {

  }

  /** `[x.filename for x in v]`: None where Python raises, because `v` is
      not iterable or one of its elements has no `filename`.  The empty
      string and the empty mapping iterate to nothing; any other string
      yields characters and any other mapping its keys, none of which has a
      `filename`. */
  function Filenames(v: Value): (r: Option<Value>)
    ensures r.Some? <==> v == Str("") || v == Dict(map[]) || (v.List? && forall i :: 0 <= i < |v.items| ==> v.items[i].Asset?)
    ensures r.Some? ==> r.value.List?
    ensures r.Some? && v.List? ==>
      && |r.value.items| == |v.items|
      && forall i :: 0 <= i < |v.items| ==> r.value.items[i] == Str(v.items[i].filename)
    ensures r.Some? && !v.List? ==> r.value.items == []
  {
    match v
    case Str(s) => if s == "" then Some(List([])) else None
    case Dict(entries) => if entries == map[] then Some(List([])) else None
    case List(items) =>
      if forall i :: 0 <= i < |items| ==> items[i].Asset? then
        Some(List(seq(|items|, i requires 0 <= i < |items| => Str(items[i].filename))))
      else None
    case _ => None
  }

  /** The entries `dump_context` rewrites. */
  const FileKeys: set<string> := {"css_files", "script_files"}

  /** Replaces `ctx[key]` by its filenames, when present. */
  function WithFilenames(ctx: Context, key: string): Option<Context> {
    if key !in ctx then Some(ctx)
    else
      match Filenames(ctx[key])
      case None => None
      case Some(names) => Some(ctx[key := names])
  }

  /** The context `dump_context` hands to the serialiser: a copy in which
      the stylesheet and script lists become lists of filenames.  None when
      Python raises while building one of them. */
  function DumpContext(ctx: Context): (r: Option<Context>)
    ensures r.Some? <==> forall key :: key in FileKeys && key in ctx ==> Filenames(ctx[key]).Some?
    ensures r.Some? ==> r.value.Keys == ctx.Keys
    ensures r.Some? ==> forall k :: k in ctx && k !in FileKeys ==> r.value[k] == ctx[k]
    ensures r.Some? ==> forall key :: key in FileKeys && key in ctx ==> r.value[key] == Filenames(ctx[key]).value
  {
    match WithFilenames(ctx, "css_files")
    case None => None
    case Some(c) => WithFilenames(c, "script_files")
  }

  /** A dumped list holds strings, which have no `filename`: dumping the
      dumped context again raises as soon as a stylesheet is listed. */
  lemma DumpContextNotRepeatable(ctx: Context)
    requires DumpContext(ctx).Some?
    requires "css_files" in ctx && ctx["css_files"].List? && |ctx["css_files"].items| > 0
    ensures DumpContext(DumpContext(ctx).value).None?
  {
    var d := DumpContext(ctx).value;
    assert !d["css_files"].items[0].Asset?;
  }

  /** What `handle_page` produces: the context the page is created from,
      and the copy written to the page's file. */
  datatype Page = Page(context: Context, dumped: Context)

  /** `handle_page` without its I/O: the cleaned context is dumped, then
      the page is created from the cleaned context itself.  None when the
      dump raises, in which case no page is created. */
  function HandlePage(pagename: string, ctx: Context): (r: Option<Page>)
    ensures r.Some? <==> forall key :: key in FileKeys && key in ctx && !ctx[key].Function? ==> Filenames(ctx[key]).Some?
    ensures r.Some? ==>
      && "current_page_name" in r.value.context
      && r.value.context["current_page_name"] == Str(pagename)
      && NoFunctions(r.value.context)
      && NoFunctions(r.value.dumped)
      && r.value.dumped.Keys == r.value.context.Keys
    ensures r.Some? ==> forall key :: key in FileKeys && key in r.value.context ==> key in ctx && r.value.context[key] == ctx[key]
    ensures r.Some? ==> r.value.context == CleanPageContext(pagename, ctx)
    ensures r.Some? ==> DumpContext(r.value.context) == Some(r.value.dumped)
  {
    var page := CleanPageContext(pagename, ctx);
    match DumpContext(page)
    case None => None
    case Some(dumped) => Some(Page(page, dumped))
  }
}
