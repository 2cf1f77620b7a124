# jsx-builder, modelled in Dafny

`jsx_builder` is a Sphinx extension. Its translator renders a docutils
document as JSX-flavoured markup. Sections, tables, cells, internal links,
code blocks and admonitions become React components: `Section`, `Table`,
`TableHead`/`TableBody`/`TableFoot`, `TableRow`, `TableCell`, `Link`,
`CodeBlock` and `Note`. Everything else is left to the host HTML5
translator. The builder decides the URI each document is served at, and
cleans up each page's render context before writing it out.

This project models the following:

- `_html_attr_to_jsx`, the attribute-name conversion (`attrnames.dfy`).
- `_escape_attr`, the attribute-value escaper (`escape.dfy`).
- `get_jsx_imports`, the import block generator (`imports.dfy`).
- The visit/depart pair of every node kind the translator handles, as functions over an immutable translator state: `body`, `context`, `section_level` and `jsx_components_used` (`translator.dfy`).
- The docutils walk that drives those pairs (`walk.dfy`).
- `get_target_uri`, together with the `handle_page`/`dump_context` clean-up of a page context (`builder.dfy`).

The other files are shared helpers:

- `document.dfy` holds the node tree, attributes and tag strings.
- `strings.dfy` holds `join`, `split`, `lower` and integer printing.
- `wrappers.dfy` holds `Option`.

The main results are these:

- Escaping is a per-character map with an inverse. It changes a string exactly when the string holds one of the five special characters, and it is not idempotent.
- The import block has one line per component, in sorted order, and is empty exactly when no component was used.
- Every handled visit pushes one closing tag, and the matching depart pops it into the body.
- Translating a whole document leaves `context` empty and `section_level` at 0. The body produced equals a recursive reference rendering that nests each node's children between its tags, and in which a section's `level` is its nesting depth.
- The recorded component set is exactly the set of components in that rendering.
- `get_target_uri` maps a document to a URI exactly when an independent description of the URI scheme lists it. A document collides with the index page of the directory of the same name, unless the document is itself an index page.
- The page-context clean-up is idempotent and leaves no function values. The copy `dump_context` writes holds the filenames of the stylesheets and scripts, in order, while the context the page is created from keeps the original entries.

## Model

| member | source | states |
|---|---|---|
| AttrNames.HtmlAttrToJsx | src/jsx_builder/translator.py:328-344 | the result is either the name unchanged or one of the fixed camelCase names, it differs from the input only when the lower-cased input is a key of the table, and a key of the table becomes its own value |
| AttrNames.TableEntries | src/jsx_builder/translator.py:330-343 | each of the eleven keys becomes its own table value (`for` becomes `htmlFor`); with `CaseInsensitive` this fixes the result for every spelling of a key |
| AttrNames.CaseInsensitive | src/jsx_builder/translator.py:344 | names that agree after lower-casing convert alike when mapped; unmapped names are returned exactly as given, case included |
| AttrNames.ChangedIff | src/jsx_builder/translator.py:330-344 | a name is changed exactly when its lower-cased form is a key whose value differs from the name |
| AttrNames.Idempotent | src/jsx_builder/translator.py:328-344 | converting a converted name changes nothing |
| AttrNames.Examples | src/jsx_builder/translator.py:330-344 | `class` and `CLASS` become `className`, `ColSpan` becomes `colSpan`, unmapped names keep their case |
| Escape.EscapeAttr | src/jsx_builder/translator.py:346-356 | empty input comes back unchanged; the result is the per-character escaping, unescaping gives the input back, its length is the input length plus the number of special characters, it has no raw newline, carriage return or tab, and every `"` in it follows a backslash |
| Escape.PassesArePerCharacter | src/jsx_builder/translator.py:351-355 | the five replace passes, backslash first, equal one per-character map |
| Escape.UnescapeEscape | src/jsx_builder/translator.py:351-355 | unescaping inverts escaping |
| Escape.EscapeUnescape | src/jsx_builder/translator.py:351-355 | every well-escaped string is the escaping of its unescaping, so escaping is onto the well-escaped strings |
| Escape.EscapeLength | src/jsx_builder/translator.py:351-355 | each special character adds exactly one character |
| Escape.EscapeFixedPoint | src/jsx_builder/translator.py:348-355 | escaping leaves a string unchanged exactly when it holds none of the five special characters |
| Escape.EscapeIdempotentIff | src/jsx_builder/translator.py:351-352 | escaping twice equals escaping once exactly when the string holds no special character |
| Escape.EscapeQuoteTwice | src/jsx_builder/translator.py:351-352 | a lone `"` escapes to `\"`, and escaping that again gives a different string |
| Escape.EscapeAppend | src/jsx_builder/translator.py:351-355 | escaping distributes over concatenation |
| Escape.EscapeSentence | src/jsx_builder/translator.py:346-356 | `He said "hi"` plus a newline escapes to `He said \"hi\"\n` |
| Imports.Insert | src/jsx_builder/translator.py:364 | inserting a new name into a strictly sorted list keeps it strictly sorted, with the same elements plus the new one |
| Imports.SortComponents | src/jsx_builder/translator.py:364 | the result lists every used component once, in strictly ascending order |
| Imports.ListingUnique | src/jsx_builder/translator.py:364 | there is only one such sorted listing, so the import order is determined by the set |
| Imports.GetJsxImports | src/jsx_builder/translator.py:358-367 | the result is the block built from the sorted listing, and it is empty exactly when no component was used |
| Imports.ImportBlockLines | src/jsx_builder/translator.py:363-367 | splitting the block at newlines yields exactly one import line per component, in sorted order, and the block ends with `;`, not a newline |
| Document.CloseTagCloses | src/jsx_builder/translator.py:60-61 | the closing tag a visit pushes closes the opening tag it appends, whatever the attributes |
| Translator.PopContext | src/jsx_builder/translator.py:63-66 | the top of the stack moves to the end of the body, and the rest of the stack is left |
| Translator.TitleText | src/jsx_builder/translator.py:51-55 | the title text is the text of the first title child, or empty when there is none |
| Translator.SecNumberRoundTrip | src/jsx_builder/translator.py:45-48 | the dotted section number splits back into the numbers it was built from |
| Translator.SectionAttrsValues | src/jsx_builder/translator.py:30-58 | the section tag carries `id` (joined ids) when there are ids, always `level`, `source`, `line` and `secnumber` when set, and the escaped `title` when there is one, which unescapes back to the title text; no other attribute appears, each appears at most once, and they come in that order |
| Translator.VisitSection | src/jsx_builder/translator.py:26-61 | the level goes up by one before the tag is built, one `</Section>` is pushed and `Section` is recorded |
| Translator.DepartSection | src/jsx_builder/translator.py:63-66 | the level goes back down, the pending tag is popped into the body, and the component set is left as it was |
| Translator.VisitTitle | src/jsx_builder/translator.py:68-73 | a title is skipped exactly when its parent is a section; otherwise the host renders it, and the stack, the level and the component set stay as they were |
| Translator.ExtraAttrs | src/jsx_builder/translator.py:87-91 | every node attribute other than `classes` and `ids` appears with its converted name and value, and nothing else does; no entries give nothing and one entry gives that entry's own contribution |
| Translator.ExtraAttrsAppend | src/jsx_builder/translator.py:87-91 | the loop works entry by entry in iteration order: the attributes of two runs of entries are those of the first followed by those of the second, so each kept entry gives exactly one attribute in its place |
| Translator.VisitTable | src/jsx_builder/translator.py:76-94 | one `Table` tag is appended with className first, then the converted attributes, and one `</Table>` is pushed |
| Translator.VisitTablePart | src/jsx_builder/translator.py:100-128 | a table head, body or foot appends its attribute-less tag and pushes its closing tag |
| Translator.VisitRow | src/jsx_builder/translator.py:130-144 | a row appends a `TableRow` tag that carries className only when it has classes |
| Translator.EntryAttrsValues | src/jsx_builder/translator.py:155-182 | a cell carries `colSpan`/`rowSpan` exactly when the extra count is non-zero, with a value that parses back to the count plus one, `isHeader="true"` exactly for header cells, and `line` when set; className first, then those in that order, each at most once, and nothing else |
| Translator.VisitEntry | src/jsx_builder/translator.py:150-186 | a header cell's own class list gains `header-cell` before the tag is built, and one `</TableCell>` is pushed |
| Translator.EntryHeaderMarking | src/jsx_builder/translator.py:155-178 | a cell is marked `isHeader="true"` exactly when its grandparent's tag name is `thead`; a header cell's className ends with `header-cell`, and any other cell is left as it was |
| Translator.EntryRevisitMarksTwice | src/jsx_builder/translator.py:160-161 | because the node's own list is extended, visiting the same header cell twice adds `header-cell` twice |
| Translator.LinkTarget | src/jsx_builder/translator.py:202 | `to` is `refuri` when it is non-empty, else `#` followed by `refid` |
| Translator.LinkAttrs | src/jsx_builder/translator.py:198-209 | a Link carries exactly one `to`, then className when there are classes, and nothing else |
| Translator.VisitReference | src/jsx_builder/translator.py:192-217 | an internal reference, or one without `refuri`, opens a Link and records it; any other reference goes to the host and leaves the stack and component set alone |
| Translator.DepartReference | src/jsx_builder/translator.py:219-224 | the depart tests the same condition: it pops for a Link, and hands back to the host otherwise |
| Translator.ReferenceBalanced | src/jsx_builder/translator.py:192-224 | a reference's visit followed by its depart leaves the stack as it was and appends a matching open/close pair of the same kind |
| Translator.CodeBlockAttrs | src/jsx_builder/translator.py:230-241 | a code block carries `language` exactly when it is non-empty, then className when there are classes, and nothing else |
| Translator.VisitLiteralBlock | src/jsx_builder/translator.py:226-251 | one `CodeBlock` tag is appended, one `</CodeBlock>` pushed and `CodeBlock` recorded |
| Translator.FirstKind | src/jsx_builder/translator.py:267-270 | the first class that is a known admonition kind, or none when no class is |
| Translator.AdmonitionType | src/jsx_builder/translator.py:262-270 | the type is the first known-kind class if there is one, else the name passed in, else `note` |
| Translator.NoteAttrs | src/jsx_builder/translator.py:273-277 | a Note always carries exactly one `type`, then className when there are classes, and nothing else |
| Translator.VisitAdmonition | src/jsx_builder/translator.py:258-326 | every admonition kind opens one `Note` tag of its type and pushes `</Note>` |
| Translator.AdmonitionTypeExamples | src/jsx_builder/translator.py:262-270 | no name and no class gives `note`; a known class overrides the name; an unknown class is ignored |
| Walk.VisitStepIsTranslator | src/jsx_builder/translator.py:26-281 | the generic visit step, with the JSX translator's attributes, is the translator's own visit for every handled kind |
| Walk.Walk | src/jsx_builder/translator.py:26-326 | translating any subtree gives back the stack and the section level it started with |
| Walk.WalkEmits | src/jsx_builder/translator.py:26-326 | the body the walk appends is the reference rendering, with each section's level read off its ancestors |
| Walk.WalkRecords | src/jsx_builder/translator.py:26-326 | the walk records exactly the components of the reference rendering, and marks every header cell |
| Walk.EmitBracketed | src/jsx_builder/translator.py:26-326 | the rendering of a handled node starts with its component's opening tag and ends with the closing tag that closes it |
| Walk.SectionOpensAtDepth | src/jsx_builder/translator.py:26-36 | the rendering of a section opens with a `Section` tag built for the level of the walk's base plus the sections around it |
| Walk.SectionLevelAttr | src/jsx_builder/translator.py:29-36 | the tag of a section entered at a given level carries a `level` one higher, so a section's `level` is one more than the number of sections around it |
| Walk.ComponentsKnown | src/jsx_builder/translator.py:26-326 | every recorded component is one of the ten known components, so every import path names a real component |
| Walk.TranslateTree | src/jsx_builder/translator.py:26-326 | for any visitor, a tree translated from the initial state leaves an empty stack and level 0, appends the reference rendering from base 0, and records exactly its components |
| Walk.TranslateDocument | src/jsx_builder/translator.py:26-326 | from the initial state a document leaves an empty stack and level 0, appends the reference rendering, and records exactly (and only known) components |
| Builder.TargetUri | src/jsx_builder/builders.py:70-75 | the URI is empty exactly for the root `index`, otherwise ends with `/`, and is always a prefix of the docname followed by `/` |
| Builder.TargetUriServedAt | src/jsx_builder/builders.py:70-75 | a document maps to a URI exactly when the independent description of the URI scheme lists it for that URI |
| Builder.TargetUriCollision | src/jsx_builder/builders.py:73-75 | `d` and `d/index` share a URI exactly when `d` is not itself an index page |
| Builder.CleanPageContext | src/jsx_builder/builders.py:92-111 | `current_page_name` is the page name, every other entry survives unchanged exactly when it is not a function, and the defaulted `pathto` never survives |
| Builder.CleanPageContextIdempotent | src/jsx_builder/builders.py:92-111 | cleaning a cleaned context for the same page changes nothing |
| Builder.Filenames | src/jsx_builder/builders.py:80-82 | a list of assets becomes the list of their filenames, with the same length and order; the empty string and the empty mapping give an empty list; anything else raises |
| Builder.DumpContext | src/jsx_builder/builders.py:77-82 | the copy has the same keys, `css_files` and `script_files` replaced by their filenames, and all other entries unchanged; it raises exactly when one of the two lists cannot be converted |
| Builder.DumpContextNotRepeatable | src/jsx_builder/builders.py:80 | dumping an already dumped context raises as soon as a stylesheet is listed, since filenames are strings without `filename` |
| Builder.HandlePage | src/jsx_builder/builders.py:90-119 | the dumped copy and the page context have the same keys and hold no functions; the page context still holds the original stylesheet and script entries; the page fails exactly when a non-function file list cannot be converted; the page context is the cleaned context, and the written copy is `dump_context` of it |

## Left out

- Host delegations: `super().visit_title`, `super().visit_reference`, `super().depart_reference`, and every node kind the translator does not handle. The host is a parameter, a `Host` value giving the fragments it appends on visit and depart. The host is taken to keep `context`, `section_level` and the component set unchanged.
- `get_secnumber` and `astext()`: the section number and the title text are inputs, given as the node's `secnumber` and its title children's text.
- `special_characters` (translator.py line 21): only the host's text encoder uses it.
- `node.line`, `node.source`, `morecols` and `morerows`: Python's truthiness is modelled with 0 and the empty string meaning "absent or falsy".
- Strings.Lower: lower-cases ASCII only. That is exact for the conversion table, since no non-ASCII character lower-cases into one of its keys except the Kelvin sign, and no key contains `k`.
- Translator.VisitEntry and Walk.Placed: a cell is required to have a grandparent. Python raises on `node.parent.parent` for a cell with fewer than two ancestors, and that crash is not modelled.
- Translator.PopContext: requires a non-empty stack, where Python's `pop` would raise.
- The docutils traversal order is modelled by `Walk` itself. Titles under a section raise `SkipNode`, so they are neither descended into nor departed. A host visit may raise `SkipNode` too (comments, raw nodes): the `Host` value says which nodes it skips, and for those the walk and the reference rendering keep the host's visit fragment and drop the children and the depart.
- Where the attribute values go into the markup unescaped (`source`, `refuri`, `language`, table attributes), the model renders them as given, as the code does.
- File I/O and serialisation: `open`, `ensuredir`, `copyfile`, `implementation.dump` and `createPage`. `DumpContext` returns the object that would be serialised.
- `jsxfileimpl`, `SphinxJSONEncoder`, `JsxFileOutputImplementation`, `handle_finish` and `init`: these are file output and host configuration.
- `_apply_jsx_attribute_fixes`: a regex rewrite of files on disk, which no code path shown calls.
- The `html-page-context` event, the `section_list` copy and the `docId` lookup in `handle_page`: these are host callbacks and configuration. The translator defines no `section_list`.
- Builder.HandlePage: the event listeners could change the context between the clean-up steps, which the model does not represent.
- A cell is a header when its grandparent's tag name is `thead`. The code tests exactly that, which in a docutils table is the same as the nearest table part being a head. A node of an unlisted kind whose tag name is `thead` counts too.
- Host fragments are a function of the node alone. The real host's output for a node can also depend on where the node sits (a title in a table, a topic or an admonition renders differently); the walk theorems hold for any host function, so they do not depend on this.
- Builder.Value: holds the value shapes the clean-up can tell apart. Tuples, sets and other objects are not modelled.
