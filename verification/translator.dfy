/** The visit/depart pairs of `JSXTranslator` (src/jsx_builder/translator.py),
    one node at a time.  The translator state is a record threaded through
    pure functions: `body` (the markup fragments so far), `context` (the stack
    of pending closing tags), `section_level` and `jsx_components_used`.
    Every handled visit appends one opening fragment, pushes exactly one
    closing tag and records its component; the matching depart pops that tag
    into `body`.  Work delegated to the host HTML5 translator is a `Host`
    value. */
module Translator {
  import opened Wrappers
  import opened Strings
  import opened Escape
  import opened AttrNames
  import opened Document

  datatype Translator = Translator(
    body: seq<string>,
    context: seq<string>,
    sectionLevel: int,
    components: set<string>)

  /** The state the host translator starts each page with. */
  const Initial: Translator := Translator([], [], 0, {})

  /** What the host HTML5 translator appends when it visits and departs a node
      the JSX translator does not handle.  The host's own pushes and pops of
      `context` balance, so only the fragments it appends are modelled.
      `skips` holds for the nodes whose host visit raises `SkipNode` after
      appending `open` (a comment, a raw node): their children are not
      visited and they are not departed. */
  datatype Host = Host(open: Node -> seq<string>, close: Node -> seq<string>, skips: Node -> bool)

  /** Every component name the translator can record. */
  const KnownComponents: set<string> := {
    "Section", "Table", "TableHead", "TableBody", "TableFoot", "TableRow",
    "TableCell", "Link", "CodeBlock", "Note" }

  /** The common tail of a handled visit: append `<component attrs>`, push
      `</component>`, add the component to the set used. */
  function Open(st: Translator, component: string, attrs: seq<Attr>): Translator {
    st.(body := st.body + [OpenTag(component, attrs)],
        context := st.context + [CloseTag(component)],
        components := st.components + {component})
  }

  /** `self.body.append(self.context.pop())`: the innermost pending closing
      tag moves from the stack to the body, nothing else changes.  An empty
      stack makes Python's `pop` raise, hence the precondition. */
  function PopContext(st: Translator): (r: Translator)
    requires |st.context| > 0
    ensures r.context + [st.context[|st.context| - 1]] == st.context
    ensures r.body == st.body + [st.context[|st.context| - 1]]
    ensures r.sectionLevel == st.sectionLevel && r.components == st.components
  {
    var top := st.context[|st.context| - 1];
    st.(body := st.body + [top], context := st.context[..|st.context| - 1])
  }

  /** Host rendering of a node the translator does not handle. */
  function HostVisit(h: Host, st: Translator, n: Node): Translator {
    st.(body := st.body + h.open(n))
  }

  function HostDepart(h: Host, st: Translator, n: Node): Translator {
    st.(body := st.body + h.close(n))
  }

  /** `className="c1 c2"` in front of `rest` when the node has classes. */
  function WithClassName(classes: seq<string>, rest: seq<Attr>): seq<Attr> {
    Put(|classes| > 0, Attr("className", Join(classes, " ")), rest)
  }

  // ----- section and title -----

  /** The `astext()` of the first title child, "" when there is none. */
  function TitleText(children: seq<Node>): (r: string)
    ensures (exists i :: 0 <= i < |children| && children[i].Title? && children[i].text == r
                && forall j :: 0 <= j < i ==> !children[j].Title?)
         || (r == "" && forall i :: 0 <= i < |children| ==> !children[i].Title?)
    decreases |children|
  {
    if |children| == 0 then ""
    else if children[0].Title? then children[0].text
    else
      var r := TitleText(children[1..]);
      assert forall i :: 1 <= i < |children| ==> children[i] == children[1..][i - 1];
      r
  }

  /** `'.'.join(map(str, secnumber))`. */
  function SecNumberText(secnumber: seq<nat>): string {
    Join(NumberTexts(secnumber), ".")
  }

  function NumberTexts(numbers: seq<nat>): (r: seq<string>)
    ensures |r| == |numbers|
    ensures forall i :: 0 <= i < |r| ==> r[i] == NatToString(numbers[i])
  {
    seq(|numbers|, i requires 0 <= i < |numbers| => NatToString(numbers[i]))
  }

  /** The section number text splits back, at its dots, into the decimal
      texts of the numbers, each of which reads back as its number. */
  lemma SecNumberRoundTrip(secnumber: seq<nat>)
    requires |secnumber| > 0
    ensures Split(SecNumberText(secnumber), '.') == NumberTexts(secnumber)
    ensures forall i :: 0 <= i < |secnumber| ==> ParseNat(NumberTexts(secnumber)[i]) == secnumber[i]
  {
    var texts := NumberTexts(secnumber);
    forall i | 0 <= i < |texts| ensures '.' !in texts[i] {
      assert forall k :: 0 <= k < |texts[i]| ==> '0' <= texts[i][k] <= '9';
    }
    SplitJoin(texts, '.');
    forall i | 0 <= i < |secnumber| ensures ParseNat(texts[i]) == secnumber[i] {
      ParseNatToString(secnumber[i]);
    }
  }

  /** The attributes of `<Section …>`, in source order. */
  function SectionAttrs(ids: seq<string>, level: int, source: string, line: nat,
                        secnumber: seq<nat>, title: string): seq<Attr>
  {
    Put(|ids| > 0, Attr("id", Join(ids, " ")),
    Put(true, Attr("level", IntToString(level)),
    Put(source != "", Attr("source", source),
    Put(line != 0, Attr("line", NatToString(line)),
    Put(|secnumber| > 0, Attr("secnumber", SecNumberText(secnumber)),
    Put(title != "", Attr("title", EscapeAttr(title)), []))))))
  }

  /** The names a section tag can carry, in the order the source appends them. */
  const SectionAttrOrder: seq<string> := ["id", "level", "source", "line", "secnumber", "title"]

  /** A section tag carries no attribute but these, each at most once and in
      the source's order. */
  lemma SectionAttrsInOrder(ids: seq<string>, level: int, source: string, line: nat,
                            secnumber: seq<nat>, title: string)
    ensures InOrder(SectionAttrs(ids, level, source, line, secnumber, title), SectionAttrOrder)
  {
    var tt := Attr("title", EscapeAttr(title));
    var t1 := Put(title != "", tt, []);
    var t2 := Put(|secnumber| > 0, Attr("secnumber", SecNumberText(secnumber)), t1);
    var t3 := Put(line != 0, Attr("line", NatToString(line)), t2);
    var t4 := Put(source != "", Attr("source", source), t3);
    var t5 := Put(true, Attr("level", IntToString(level)), t4);
    PutInOrder(title != "", tt, [], SectionAttrOrder[5..]);
    PutInOrder(|secnumber| > 0, Attr("secnumber", SecNumberText(secnumber)), t1, SectionAttrOrder[4..]);
    PutInOrder(line != 0, Attr("line", NatToString(line)), t2, SectionAttrOrder[3..]);
    PutInOrder(source != "", Attr("source", source), t3, SectionAttrOrder[2..]);
    PutInOrder(true, Attr("level", IntToString(level)), t4, SectionAttrOrder[1..]);
    PutInOrder(|ids| > 0, Attr("id", Join(ids, " ")), t5, SectionAttrOrder);
  }

  /** A section tag carries `id` (the ids joined by blanks) exactly when there
      are ids, `level` always, `source` and `line` exactly when set,
      `secnumber` exactly when the host numbers the section, and `title`
      exactly when there is title text, each at most once and in that order,
      and nothing else; the title value is escaped and unescapes back to the
      text. */
  lemma SectionAttrsValues(ids: seq<string>, level: int, source: string, line: nat,
                           secnumber: seq<nat>, title: string)
    ensures var r := SectionAttrs(ids, level, source, line, secnumber, title);
      && |r| > 0
      && Lookup(r, "id") == (if |ids| == 0 then None else Some(Join(ids, " ")))
      && Lookup(r, "level") == Some(IntToString(level))
      && Lookup(r, "source") == (if source == "" then None else Some(source))
      && Lookup(r, "line") == (if line == 0 then None else Some(NatToString(line)))
      && Lookup(r, "secnumber") == (if |secnumber| == 0 then None else Some(SecNumberText(secnumber)))
      && Lookup(r, "title") == (if title == "" then None else Some(EscapeAttr(title)))
      && (Lookup(r, "title").Some? ==> Unescape(Lookup(r, "title").value) == title)
      && Count(r, "id") <= 1 && Count(r, "level") == 1 && Count(r, "source") <= 1
      && Count(r, "line") <= 1 && Count(r, "secnumber") <= 1 && Count(r, "title") <= 1
      && InOrder(r, SectionAttrOrder)
  {
    SectionAttrsInOrder(ids, level, source, line, secnumber, title);
    SectionAttrsByName(ids, level, source, line, secnumber, title, "id");
    SectionAttrsByName(ids, level, source, line, secnumber, title, "level");
    SectionAttrsByName(ids, level, source, line, secnumber, title, "source");
    SectionAttrsByName(ids, level, source, line, secnumber, title, "line");
    SectionAttrsByName(ids, level, source, line, secnumber, title, "secnumber");
    SectionAttrsByName(ids, level, source, line, secnumber, title, "title");
    SectionAttrsCount(ids, level, source, line, secnumber, title, "id");
    SectionAttrsCount(ids, level, source, line, secnumber, title, "level");
    SectionAttrsCount(ids, level, source, line, secnumber, title, "source");
    SectionAttrsCount(ids, level, source, line, secnumber, title, "line");
    SectionAttrsCount(ids, level, source, line, secnumber, title, "secnumber");
    SectionAttrsCount(ids, level, source, line, secnumber, title, "title");
  }

  lemma SectionAttrsByName(ids: seq<string>, level: int, source: string, line: nat,
                           secnumber: seq<nat>, title: string, name: string)
    ensures var r := SectionAttrs(ids, level, source, line, secnumber, title);
      && Lookup(r, name) ==
           (if |ids| > 0 && name == "id" then Some(Join(ids, " "))
           else if name == "level" then Some(IntToString(level))
           else if source != "" && name == "source" then Some(source)
           else if line != 0 && name == "line" then Some(NatToString(line))
           else if |secnumber| > 0 && name == "secnumber" then Some(SecNumberText(secnumber))
           else if title != "" && name == "title" then Some(EscapeAttr(title))
           else None)
  {
    var id, lv, src := Attr("id", Join(ids, " ")), Attr("level", IntToString(level)), Attr("source", source);
    var ln, sn, tt := Attr("line", NatToString(line)), Attr("secnumber", SecNumberText(secnumber)), Attr("title", EscapeAttr(title));
    var tail := Put(|secnumber| > 0, sn, Put(title != "", tt, []));
    LookupPut(|secnumber| > 0, sn, Put(title != "", tt, []), name);
    LookupPut(title != "", tt, [], name);
    FourPuts(|ids| > 0, id, true, lv, source != "", src, line != 0, ln, tail, name);
  }

  lemma SectionAttrsCount(ids: seq<string>, level: int, source: string, line: nat,
                           secnumber: seq<nat>, title: string, name: string)
    ensures var r := SectionAttrs(ids, level, source, line, secnumber, title);
      && Count(r, name) ==
           ((if |ids| > 0 && name == "id" then 1 else 0)
           + (if name == "level" then 1 else 0)
           + (if source != "" && name == "source" then 1 else 0)
           + (if line != 0 && name == "line" then 1 else 0)
           + (if |secnumber| > 0 && name == "secnumber" then 1 else 0)
           + (if title != "" && name == "title" then 1 else 0))
  {
    var id, lv, src := Attr("id", Join(ids, " ")), Attr("level", IntToString(level)), Attr("source", source);
    var ln, sn, tt := Attr("line", NatToString(line)), Attr("secnumber", SecNumberText(secnumber)), Attr("title", EscapeAttr(title));
    var tail := Put(|secnumber| > 0, sn, Put(title != "", tt, []));
    LookupPut(|secnumber| > 0, sn, Put(title != "", tt, []), name);
    LookupPut(title != "", tt, [], name);
    FourPuts(|ids| > 0, id, true, lv, source != "", src, line != 0, ln, tail, name);
  }

  /** `visit_section`: the level goes up by one and the opening tag carries
      the new level. */
  function VisitSection(st: Translator, n: Node): (r: Translator)
    requires n.Section?
    ensures r.sectionLevel == st.sectionLevel + 1
    ensures r.context == st.context + [CloseTag("Section")]
    ensures r.components == st.components + {"Section"}
    ensures r.body == st.body + [OpenTag("Section",
      SectionAttrs(n.ids, st.sectionLevel + 1, n.source, n.line, n.secnumber, TitleText(n.children)))]
  {
    var level := st.sectionLevel + 1;
    var attrs := SectionAttrs(n.ids, level, n.source, n.line, n.secnumber, TitleText(n.children));
    Open(st.(sectionLevel := level), "Section", attrs)
  }

  /** `depart_section`: the level goes back down and `</Section>` (or
      whatever tag is pending) is popped into the body. */
  function DepartSection(st: Translator): (r: Translator)
    requires |st.context| > 0
    ensures r.sectionLevel == st.sectionLevel - 1
    ensures r.components == st.components
    ensures r.context + [st.context[|st.context| - 1]] == st.context
    ensures r.body == st.body + [st.context[|st.context| - 1]]
  {
    PopContext(st.(sectionLevel := st.sectionLevel - 1))
  }

  /** `visit_title`: None stands for `SkipNode`, raised for a title whose
      parent is a section (the section tag already carries its text); any
      other title goes to the host. */
  function VisitTitle(h: Host, st: Translator, n: Node, parent: Option<Tag>): (r: Option<Translator>)
    requires n.Title?
    ensures r.None? <==> parent == Some(SectionTag)
    ensures r.Some? ==>
      && r.value.context == st.context && r.value.sectionLevel == st.sectionLevel
      && r.value.components == st.components && r.value.body == st.body + h.open(n)
  {
    if parent == Some(SectionTag) then None else Some(HostVisit(h, st, n))
  }

  // ----- tables -----

  /** The table attributes other than `classes` and `ids`, names converted to
      JSX, values as given. */
  /** What one entry of `node.attributes` contributes: nothing for `classes`
      and `ids`, otherwise one attribute with the converted name. */
  function ExtraAttr(entry: (string, string)): (r: seq<Attr>)
    ensures |r| <= 1
    ensures r == [] <==> entry.0 == "classes" || entry.0 == "ids"
    ensures r != [] ==> r[0].name == HtmlAttrToJsx(entry.0) && r[0].value == entry.1
  {
    if entry.0 == "classes" || entry.0 == "ids" then [] else [Attr(HtmlAttrToJsx(entry.0), entry.1)]
  }

  function ExtraAttrs(attributes: seq<(string, string)>): (r: seq<Attr>)
    ensures |attributes| == 0 ==> r == []
    ensures |attributes| == 1 ==> r == ExtraAttr(attributes[0])
    ensures |r| <= |attributes|
    ensures forall i :: 0 <= i < |attributes| && attributes[i].0 != "classes" && attributes[i].0 != "ids"
              ==> Attr(HtmlAttrToJsx(attributes[i].0), attributes[i].1) in r
    ensures forall a :: a in r ==>
      exists i :: (0 <= i < |attributes| && attributes[i].0 != "classes"
                   && attributes[i].0 != "ids" && a == Attr(HtmlAttrToJsx(attributes[i].0), attributes[i].1))
    decreases |attributes|
  {
    if |attributes| == 0 then []
    else
      var (key, value) := attributes[0];
      var rest := ExtraAttrs(attributes[1..]);
      assert forall i :: 1 <= i < |attributes| ==> attributes[i] == attributes[1..][i - 1];
      (if key == "classes" || key == "ids" then [] else [Attr(HtmlAttrToJsx(key), value)]) + rest
  }

  /** The loop appends entry by entry: the attributes of a concatenation are
      those of its parts, one after the other.  With the empty and
      one-entry cases this fixes the result, order included. */
  lemma {:induction false} ExtraAttrsAppend(a: seq<(string, string)>, b: seq<(string, string)>)
    ensures ExtraAttrs(a + b) == ExtraAttrs(a) + ExtraAttrs(b)
    decreases |a|
  {
    if |a| > 0 {
      assert (a + b)[0] == a[0];
      assert (a + b)[1..] == a[1..] + b;
      ExtraAttrsAppend(a[1..], b);
    } else {
      assert a + b == b;
    }
  }

  function TableAttrs(classes: seq<string>, attributes: seq<(string, string)>): seq<Attr> {
    WithClassName(classes, ExtraAttrs(attributes))
  }

  /** `visit_table`. */
  function VisitTable(st: Translator, n: Node): (r: Translator)
    requires n.Table?
    ensures r.sectionLevel == st.sectionLevel
    ensures r.context == st.context + [CloseTag("Table")]
    ensures r.components == st.components + {"Table"}
    ensures r.body == st.body + [OpenTag("Table", TableAttrs(n.classes, n.attributes))]
  {
    Open(st, "Table", TableAttrs(n.classes, n.attributes))
  }

  /** The component of a table head, body or foot. */
  function TablePartComponent(n: Node): string
    requires n.THead? || n.TBody? || n.TFoot?
  {
    if n.THead? then "TableHead" else if n.TBody? then "TableBody" else "TableFoot"
  }

  /** `visit_thead`, `visit_tbody`, `visit_tfoot`: a bare tag. */
  function VisitTablePart(st: Translator, n: Node): (r: Translator)
    requires n.THead? || n.TBody? || n.TFoot?
    ensures r.sectionLevel == st.sectionLevel
    ensures r.context == st.context + [CloseTag(TablePartComponent(n))]
    ensures r.components == st.components + {TablePartComponent(n)}
    ensures r.body == st.body + [OpenTag(TablePartComponent(n), [])]
    ensures r.body[|r.body| - 1] == "<" + TablePartComponent(n) + ">"
  {
    assert OpenTag(TablePartComponent(n), []) == "<" + TablePartComponent(n) + ">";
    Open(st, TablePartComponent(n), [])
  }

  /** `visit_row`. */
  function VisitRow(st: Translator, n: Node): (r: Translator)
    requires n.Row?
    ensures r.sectionLevel == st.sectionLevel
    ensures r.context == st.context + [CloseTag("TableRow")]
    ensures r.components == st.components + {"TableRow"}
    ensures r.body == st.body + [OpenTag("TableRow", WithClassName(n.classes, []))]
  {
    Open(st, "TableRow", WithClassName(n.classes, []))
  }

  /** The cell's classes after `visit_entry`: the source appends
      `header-cell` to the node's own list, so the node itself changes. */
  function EntryClasses(classes: seq<string>, isHeader: bool): seq<string> {
    if isHeader then classes + ["header-cell"] else classes
  }

  /** The attributes of `<TableCell …>`, in source order. */
  function EntryAttrs(classes: seq<string>, morecols: nat, morerows: nat, isHeader: bool, line: nat): seq<Attr> {
    WithClassName(classes,
    Put(morecols != 0, Attr("colSpan", NatToString(morecols + 1)),
    Put(morerows != 0, Attr("rowSpan", NatToString(morerows + 1)),
    Put(isHeader, Attr("isHeader", "true"),
    Put(line != 0, Attr("line", NatToString(line)), [])))))
  }

  /** The names a cell tag can carry, in the order the source appends them. */
  const EntryAttrOrder: seq<string> := ["className", "colSpan", "rowSpan", "isHeader", "line"]

  /** A cell tag carries no attribute but these, each at most once and in
      the source's order. */
  lemma EntryAttrsInOrder(classes: seq<string>, morecols: nat, morerows: nat, isHeader: bool, line: nat)
    ensures InOrder(EntryAttrs(classes, morecols, morerows, isHeader, line), EntryAttrOrder)
  {
    var t1 := Put(line != 0, Attr("line", NatToString(line)), []);
    var t2 := Put(isHeader, Attr("isHeader", "true"), t1);
    var t3 := Put(morerows != 0, Attr("rowSpan", NatToString(morerows + 1)), t2);
    var t4 := Put(morecols != 0, Attr("colSpan", NatToString(morecols + 1)), t3);
    PutInOrder(line != 0, Attr("line", NatToString(line)), [], EntryAttrOrder[4..]);
    PutInOrder(isHeader, Attr("isHeader", "true"), t1, EntryAttrOrder[3..]);
    PutInOrder(morerows != 0, Attr("rowSpan", NatToString(morerows + 1)), t2, EntryAttrOrder[2..]);
    PutInOrder(morecols != 0, Attr("colSpan", NatToString(morecols + 1)), t3, EntryAttrOrder[1..]);
    PutInOrder(|classes| > 0, Attr("className", Join(classes, " ")), t4, EntryAttrOrder);
  }

  /** A cell tag carries `className` from the (already extended) classes,
      `colSpan` and `rowSpan` exactly when the extra column or row count is
      non-zero, with a value that reads back as that count plus one,
      `isHeader="true"` exactly for header cells, and `line` when set; each
      at most once and in that order, and nothing else. */
  lemma EntryAttrsValues(classes: seq<string>, morecols: nat, morerows: nat, isHeader: bool, line: nat)
    ensures var r := EntryAttrs(classes, morecols, morerows, isHeader, line);
      && Lookup(r, "className") == (if |classes| == 0 then None else Some(Join(classes, " ")))
      && Lookup(r, "colSpan") == (if morecols == 0 then None else Some(NatToString(morecols + 1)))
      && Lookup(r, "rowSpan") == (if morerows == 0 then None else Some(NatToString(morerows + 1)))
      && Lookup(r, "isHeader") == (if isHeader then Some("true") else None)
      && Lookup(r, "line") == (if line == 0 then None else Some(NatToString(line)))
      && (Lookup(r, "colSpan").Some? ==> ParseNat(Lookup(r, "colSpan").value) == morecols + 1)
      && (Lookup(r, "rowSpan").Some? ==> ParseNat(Lookup(r, "rowSpan").value) == morerows + 1)
      && Count(r, "className") <= 1 && Count(r, "colSpan") <= 1 && Count(r, "rowSpan") <= 1
      && Count(r, "isHeader") <= 1 && Count(r, "line") <= 1
      && InOrder(r, EntryAttrOrder)
  {
    EntryAttrsInOrder(classes, morecols, morerows, isHeader, line);
    EntryAttrsByName(classes, morecols, morerows, isHeader, line, "className");
    EntryAttrsByName(classes, morecols, morerows, isHeader, line, "colSpan");
    EntryAttrsByName(classes, morecols, morerows, isHeader, line, "rowSpan");
    EntryAttrsByName(classes, morecols, morerows, isHeader, line, "isHeader");
    EntryAttrsByName(classes, morecols, morerows, isHeader, line, "line");
    ParseNatToString(morecols + 1);
    ParseNatToString(morerows + 1);
  }

  lemma EntryAttrsByName(classes: seq<string>, morecols: nat, morerows: nat, isHeader: bool, line: nat, name: string)
    ensures var r := EntryAttrs(classes, morecols, morerows, isHeader, line);
      && Lookup(r, name) ==
           (if |classes| > 0 && name == "className" then Some(Join(classes, " "))
           else if morecols != 0 && name == "colSpan" then Some(NatToString(morecols + 1))
           else if morerows != 0 && name == "rowSpan" then Some(NatToString(morerows + 1))
           else if isHeader && name == "isHeader" then Some("true")
           else if line != 0 && name == "line" then Some(NatToString(line))
           else None)
      && Count(r, name) ==
           ((if |classes| > 0 && name == "className" then 1 else 0)
           + (if morecols != 0 && name == "colSpan" then 1 else 0)
           + (if morerows != 0 && name == "rowSpan" then 1 else 0)
           + (if isHeader && name == "isHeader" then 1 else 0)
           + (if line != 0 && name == "line" then 1 else 0))
  {
    var cn, cs, rs := Attr("className", Join(classes, " ")), Attr("colSpan", NatToString(morecols + 1)), Attr("rowSpan", NatToString(morerows + 1));
    var hd, ln := Attr("isHeader", "true"), Attr("line", NatToString(line));
    LookupPut(line != 0, ln, [], name);
    FourPuts(|classes| > 0, cn, morecols != 0, cs, morerows != 0, rs, isHeader, hd, Put(line != 0, ln, []), name);
  }

  /** `visit_entry`, given the tag of the cell's grandparent (the table
      section holding its row), which makes the cell a header cell when its
      tag name is `thead`.  Returns the new state and the node as the source
      leaves it: a header cell's classes gain `header-cell`. */
  function VisitEntry(st: Translator, n: Node, grandparent: Tag): (r: (Translator, Node))
    requires n.Entry?
    ensures r.1 == Entry(EntryClasses(n.classes, grandparent.NamedTHead()), n.morecols, n.morerows, n.line, n.children)
    ensures r.0.sectionLevel == st.sectionLevel
    ensures r.0.context == st.context + [CloseTag("TableCell")]
    ensures r.0.components == st.components + {"TableCell"}
    ensures r.0.body == st.body + [OpenTag("TableCell",
      EntryAttrs(r.1.classes, n.morecols, n.morerows, grandparent.NamedTHead(), n.line))]
  {
    var isHeader := grandparent.NamedTHead();
    var classes := EntryClasses(n.classes, isHeader);
    (Open(st, "TableCell", EntryAttrs(classes, n.morecols, n.morerows, isHeader, n.line)),
     Entry(classes, n.morecols, n.morerows, n.line, n.children))
  }

  /** A cell whose grandparent is named `thead` is marked `isHeader="true"`
      and its className ends with `header-cell`; any other cell carries
      neither marker beyond the classes it already had. */
  lemma EntryHeaderMarking(st: Translator, n: Node, grandparent: Tag)
    requires n.Entry?
    ensures var r := VisitEntry(st, n, grandparent);
            var attrs := EntryAttrs(r.1.classes, n.morecols, n.morerows, grandparent.NamedTHead(), n.line);
            && (Lookup(attrs, "isHeader") == Some("true") <==> grandparent.NamedTHead())
            && (grandparent.NamedTHead() ==> Lookup(attrs, "className") == Some(Join(n.classes + ["header-cell"], " ")))
            && (!grandparent.NamedTHead() ==> Lookup(attrs, "isHeader") == None && r.1 == n)
  {
    var r := VisitEntry(st, n, grandparent);
    EntryAttrsValues(r.1.classes, n.morecols, n.morerows, grandparent.NamedTHead(), n.line);
  }

  /** Because the source extends the node's own class list, translating the
      same header cell a second time marks it twice. */
  lemma EntryRevisitMarksTwice(st: Translator, st': Translator, n: Node)
    requires n.Entry?
    ensures VisitEntry(st', VisitEntry(st, n, THeadTag).1, THeadTag).1.classes
            == n.classes + ["header-cell", "header-cell"]
  {
  }

  // ----- references -----

  /** The condition `visit_reference` and `depart_reference` both test: an
      internal reference, or one without `refuri`, becomes a Link. */
  predicate IsLink(n: Node)
    requires n.Reference?
  {
    n.internal || n.refuri.None?
  }

  /** `node.get('refuri') or f"#{node.get('refid', '')}"`. */
  function LinkTarget(refuri: Option<string>, refid: string): (r: string)
    ensures refuri.Some? && refuri.value != "" ==> r == refuri.value
    ensures refuri.None? || refuri.value == "" ==> r == "#" + refid
  {
    if refuri.Some? && refuri.value != "" then refuri.value else "#" + refid
  }

  function LinkAttrs(refuri: Option<string>, refid: string, classes: seq<string>): (r: seq<Attr>)
    ensures Lookup(r, "to") == Some(LinkTarget(refuri, refid)) && Count(r, "to") == 1
    ensures Lookup(r, "className") == (if |classes| == 0 then None else Some(Join(classes, " ")))
    ensures Count(r, "className") <= 1
    ensures InOrder(r, ["to", "className"])
  {
    var c := WithClassName(classes, []);
    LookupPut(|classes| > 0, Attr("className", Join(classes, " ")), [], "to");
    LookupPut(|classes| > 0, Attr("className", Join(classes, " ")), [], "className");
    LookupPut(true, Attr("to", LinkTarget(refuri, refid)), c, "to");
    LookupPut(true, Attr("to", LinkTarget(refuri, refid)), c, "className");
    PutInOrder(|classes| > 0, Attr("className", Join(classes, " ")), [], ["className"]);
    PutInOrder(true, Attr("to", LinkTarget(refuri, refid)), c, ["to", "className"]);
    Put(true, Attr("to", LinkTarget(refuri, refid)), c)
  }

  /** `visit_reference`: a Link tag for internal references; the host's
      anchor for the rest, with the stack and component set untouched. */
  function VisitReference(h: Host, st: Translator, n: Node): (r: Translator)
    requires n.Reference?
    ensures r.sectionLevel == st.sectionLevel
    ensures IsLink(n) ==>
      && r.context == st.context + [CloseTag("Link")]
      && r.components == st.components + {"Link"}
      && r.body == st.body + [OpenTag("Link", LinkAttrs(n.refuri, n.refid, n.classes))]
    ensures !IsLink(n) ==>
      r.context == st.context && r.components == st.components && r.body == st.body + h.open(n)
  {
    if IsLink(n) then Open(st, "Link", LinkAttrs(n.refuri, n.refid, n.classes))
    else HostVisit(h, st, n)
  }

  /** `depart_reference`: pops for a Link, hands back to the host otherwise. */
  function DepartReference(h: Host, st: Translator, n: Node): (r: Translator)
    requires n.Reference?
    requires IsLink(n) ==> |st.context| > 0
    ensures r.sectionLevel == st.sectionLevel && r.components == st.components
    ensures IsLink(n) ==> r == PopContext(st)
    ensures !IsLink(n) ==> r.context == st.context && r.body == st.body + h.close(n)
  {
    if IsLink(n) then PopContext(st) else HostDepart(h, st, n)
  }

  /** Visit and depart test the same condition, so a reference with nothing
      inside it leaves the stack as it found it and appends an opening and a
      closing fragment of the same kind. */
  lemma ReferenceBalanced(h: Host, st: Translator, n: Node)
    requires n.Reference?
    ensures var r := DepartReference(h, VisitReference(h, st, n), n);
            && r.context == st.context
            && (IsLink(n) ==>
                  r.body == st.body + [OpenTag("Link", LinkAttrs(n.refuri, n.refid, n.classes)), "</Link>"]
                  && r.components == st.components + {"Link"})
            && (!IsLink(n) ==> r.body == st.body + h.open(n) + h.close(n) && r.components == st.components)
  {
    var v := VisitReference(h, st, n);
    if IsLink(n) {
      assert v.context[|v.context| - 1] == "</Link>";
      assert v.context[..|v.context| - 1] == st.context;
    }
  }

  // ----- code blocks and admonitions -----

  function CodeBlockAttrs(language: string, classes: seq<string>): (r: seq<Attr>)
    ensures Lookup(r, "language") == (if language == "" then None else Some(language))
    ensures Lookup(r, "className") == (if |classes| == 0 then None else Some(Join(classes, " ")))
    ensures Count(r, "language") <= 1 && Count(r, "className") <= 1
    ensures InOrder(r, ["language", "className"])
  {
    var c := WithClassName(classes, []);
    LookupPut(|classes| > 0, Attr("className", Join(classes, " ")), [], "language");
    LookupPut(|classes| > 0, Attr("className", Join(classes, " ")), [], "className");
    LookupPut(language != "", Attr("language", language), c, "language");
    LookupPut(language != "", Attr("language", language), c, "className");
    PutInOrder(|classes| > 0, Attr("className", Join(classes, " ")), [], ["className"]);
    PutInOrder(language != "", Attr("language", language), c, ["language", "className"]);
    Put(language != "", Attr("language", language), c)
  }

  /** `visit_literal_block`. */
  function VisitLiteralBlock(st: Translator, n: Node): (r: Translator)
    requires n.LiteralBlock?
    ensures r.sectionLevel == st.sectionLevel
    ensures r.context == st.context + [CloseTag("CodeBlock")]
    ensures r.components == st.components + {"CodeBlock"}
    ensures r.body == st.body + [OpenTag("CodeBlock", CodeBlockAttrs(n.language, n.classes))]
  {
    Open(st, "CodeBlock", CodeBlockAttrs(n.language, n.classes))
  }

  /** The classes that select an admonition type, in the source's order. */
  const AdmonitionKinds: seq<string> := ["note", "warning", "tip", "important", "caution", "danger", "error"]

  /** The first class that names an admonition kind. */
  function FirstKind(classes: seq<string>): (r: Option<string>)
    ensures r.Some? ==>
      && r.value in AdmonitionKinds
      && exists i :: (0 <= i < |classes| && classes[i] == r.value
                      && forall j :: 0 <= j < i ==> classes[j] !in AdmonitionKinds)
    ensures r.None? ==> forall i :: 0 <= i < |classes| ==> classes[i] !in AdmonitionKinds
    decreases |classes|
  {
    if |classes| == 0 then None
    else if classes[0] in AdmonitionKinds then Some(classes[0])
    else
      var r := FirstKind(classes[1..]);
      assert forall i :: 1 <= i < |classes| ==> classes[i] == classes[1..][i - 1];
      r
  }

  /** The `type` of a Note: the first class naming an admonition kind, else
      the name the host passed, else "note". */
  function AdmonitionType(name: string, classes: seq<string>): (r: string)
    ensures (exists i :: 0 <= i < |classes| && classes[i] in AdmonitionKinds) ==>
      && r in AdmonitionKinds
      && exists i :: (0 <= i < |classes| && classes[i] == r
                      && forall j :: 0 <= j < i ==> classes[j] !in AdmonitionKinds)
    ensures (forall i :: 0 <= i < |classes| ==> classes[i] !in AdmonitionKinds) ==>
      r == (if name == "" then "note" else name)
  {
    FirstKind(classes).GetOr(if name == "" then "note" else name)
  }

  function NoteAttrs(admonitionType: string, classes: seq<string>): (r: seq<Attr>)
    ensures |r| > 0
    ensures Lookup(r, "type") == Some(admonitionType) && Count(r, "type") == 1
    ensures Lookup(r, "className") == (if |classes| == 0 then None else Some(Join(classes, " ")))
    ensures Count(r, "className") <= 1
    ensures InOrder(r, ["type", "className"])
  {
    var c := WithClassName(classes, []);
    LookupPut(|classes| > 0, Attr("className", Join(classes, " ")), [], "type");
    LookupPut(|classes| > 0, Attr("className", Join(classes, " ")), [], "className");
    LookupPut(true, Attr("type", admonitionType), c, "type");
    LookupPut(true, Attr("type", admonitionType), c, "className");
    PutInOrder(|classes| > 0, Attr("className", Join(classes, " ")), [], ["className"]);
    PutInOrder(true, Attr("type", admonitionType), c, ["type", "className"]);
    Put(true, Attr("type", admonitionType), c)
  }

  /** `visit_admonition` (reached through `visit_note`, `visit_warning`,
      `visit_tip`, `visit_important`, `visit_error` and the host's other
      admonition visitors). */
  function VisitAdmonition(st: Translator, n: Node): (r: Translator)
    requires n.Admonition?
    ensures r.sectionLevel == st.sectionLevel
    ensures r.context == st.context + [CloseTag("Note")]
    ensures r.components == st.components + {"Note"}
    ensures r.body == st.body + [OpenTag("Note", NoteAttrs(AdmonitionType(n.name, n.classes), n.classes))]
  {
    Open(st, "Note", NoteAttrs(AdmonitionType(n.name, n.classes), n.classes))
  }

  /** Worked examples of the admonition type. */
  lemma AdmonitionTypeExamples()
    ensures AdmonitionType("", []) == "note"
    ensures AdmonitionType("tip", []) == "tip"
    ensures AdmonitionType("tip", ["custom", "danger", "warning"]) == "danger"
    ensures AdmonitionType("hint", ["hint"]) == "hint"
  {
    assert "custom" !in AdmonitionKinds;
    assert "hint" !in AdmonitionKinds;
    assert ["custom", "danger", "warning"][1..] == ["danger", "warning"];
  }
}
