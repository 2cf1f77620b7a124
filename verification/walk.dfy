/** The docutils driver that calls the translator: a pre-order visit, the
    children in order, then the post-order depart.

    The driver is written once for any `Visitor`: the host's fragments for
    the nodes the JSX translator leaves alone, and the attribute function of
    the opening tags.  `Jsx` is the JSX translator's visitor, and
    `VisitStepIsTranslator` shows that one step of the driver with it is
    exactly the translator's own `visit_*` function for that node kind.

    `Emit` is an independent reference rendering that nests each handled
    node's children between its opening and closing tag and reads the
    section level off the ancestors instead of a counter; a node whose host
    visit raises `SkipNode` contributes its host fragment alone.  The walk
    lemmas show the stack machine produces exactly that rendering, leaves the
    stack and the level where it found them, and records exactly the
    components the tree uses. */
module Walk {
  import opened Wrappers
  import opened Strings
  import opened Document
  import opened Translator

  /** A title directly under a section raises `SkipNode`: neither the title
      nor anything inside it is visited, and it is not departed. */
  predicate Skips(n: Node, anc: seq<Tag>) {
    n.Title? && |anc| > 0 && anc[|anc| - 1] == SectionTag
  }

  /** A node the host renders whose host visit appends its fragment and then
      raises `SkipNode`: its children are not visited and it is not
      departed. */
  predicate HostSkips(h: Host, n: Node) {
    !Handled(n) && h.skips(n)
  }

  /** The nodes the JSX translator renders itself; every other node (a title
      outside a section, an external reference, any kind not listed) goes to
      the host. */
  predicate Handled(n: Node) {
    match n
    case Section(_, _, _, _, _) => true
    case Title(_, _) => false
    case Table(_, _, _) => true
    case THead(_) => true
    case TBody(_) => true
    case TFoot(_) => true
    case Row(_, _) => true
    case Entry(_, _, _, _, _) => true
    case Reference(_, _, _, _, _) => IsLink(n)
    case LiteralBlock(_, _, _) => true
    case Admonition(_, _, _) => true
    case Other(_, _) => false
  }

  /** The JSX component a handled node becomes. */
  function ComponentOf(n: Node): string
    requires Handled(n)
  {
    match n
    case Section(_, _, _, _, _) => "Section"
    case Table(_, _, _) => "Table"
    case THead(_) => "TableHead"
    case TBody(_) => "TableBody"
    case TFoot(_) => "TableFoot"
    case Row(_, _) => "TableRow"
    case Entry(_, _, _, _, _) => "TableCell"
    case Reference(_, _, _, _, _) => "Link"
    case LiteralBlock(_, _, _) => "CodeBlock"
    case Admonition(_, _, _) => "Note"
  }

  /** The same node with other children. */
  function WithChildren(n: Node, kids: seq<Node>): (r: Node)
    ensures r.children == kids && r.TagOf() == n.TagOf()
  {
    match n
    case Section(ids, source, line, secnumber, _) => Section(ids, source, line, secnumber, kids)
    case Title(text, _) => Title(text, kids)
    case Table(classes, attributes, _) => Table(classes, attributes, kids)
    case THead(_) => THead(kids)
    case TBody(_) => TBody(kids)
    case TFoot(_) => TFoot(kids)
    case Row(classes, _) => Row(classes, kids)
    case Entry(classes, morecols, morerows, line, _) => Entry(classes, morecols, morerows, line, kids)
    case Reference(classes, internal, refuri, refid, _) => Reference(classes, internal, refuri, refid, kids)
    case LiteralBlock(language, classes, _) => LiteralBlock(language, classes, kids)
    case Admonition(name, classes, _) => Admonition(name, classes, kids)
    case Other(tagname, _) => Other(tagname, kids)
  }

  /** The tree is one docutils can hand over: every table cell sits at least
      two levels down, so `node.parent.parent` exists. */
  predicate Placed(n: Node, anc: seq<Tag>)
    decreases n
  {
    && (n.Entry? ==> |anc| >= 2)
    && forall i :: 0 <= i < |n.children| ==> Placed(n.children[i], anc + [n.TagOf()])
  }

  /** How many of the ancestors are sections. */
  function SectionCount(anc: seq<Tag>): (k: nat)
    ensures k <= |anc|
  {
    if |anc| == 0 then 0
    else SectionCount(anc[..|anc| - 1]) + (if anc[|anc| - 1] == SectionTag then 1 else 0)
  }

  /** `node.parent.parent.tagname == 'thead'` for a cell with ancestors `anc`. */
  predicate HeaderCell(anc: seq<Tag>) {
    |anc| >= 2 && anc[|anc| - 2].NamedTHead()
  }

  // ----- visitors -----

  /** What a driver needs to know about a translator: the host's fragments,
      and the attributes of the opening tag of a handled node given the
      level in force before its visit and its ancestors. */
  datatype Visitor = Visitor(host: Host, attrs: (Node, int, seq<Tag>) -> seq<Attr>)

  /** The attributes of the JSX translator's opening tags. */
  function OpenAttrs(n: Node, level: int, anc: seq<Tag>): seq<Attr> {
    match n
    case Section(ids, source, line, secnumber, kids) =>
      SectionAttrs(ids, level + 1, source, line, secnumber, TitleText(kids))
    case Table(classes, attributes, _) => TableAttrs(classes, attributes)
    case Row(classes, _) => WithClassName(classes, [])
    case Entry(classes, morecols, morerows, line, _) =>
      EntryAttrs(EntryClasses(classes, HeaderCell(anc)), morecols, morerows, HeaderCell(anc), line)
    case Reference(classes, _, refuri, refid, _) => LinkAttrs(refuri, refid, classes)
    case LiteralBlock(language, classes, _) => CodeBlockAttrs(language, classes)
    case Admonition(name, classes, _) => NoteAttrs(AdmonitionType(name, classes), classes)
    case _ => []
  }

  /** The JSX translator, over a given host. */
  function Jsx(h: Host): Visitor {
    Visitor(h, OpenAttrs)
  }

  /** The node as the visit leaves it: a header cell's own class list gains
      `header-cell`. */
  function VisitedNode(n: Node, anc: seq<Tag>): Node {
    if n.Entry? then Entry(EntryClasses(n.classes, HeaderCell(anc)), n.morecols, n.morerows, n.line, n.children)
    else n
  }

  /** One visit of a handled node: the level goes up for a section, then the
      opening tag is appended, its closing tag pushed and its component
      recorded. */
  function VisitStep(v: Visitor, st: Translator, n: Node, anc: seq<Tag>): (r: (Translator, Node))
    requires Handled(n)
    ensures r.0.context == st.context + [CloseTag(ComponentOf(n))]
    ensures r.0.sectionLevel == st.sectionLevel + (if n.Section? then 1 else 0)
    ensures r.0.components == st.components + {ComponentOf(n)}
    ensures r.0.body == st.body + [OpenTag(ComponentOf(n), v.attrs(n, st.sectionLevel, anc))]
    ensures r.1 == VisitedNode(n, anc)
  {
    var level := st.sectionLevel + (if n.Section? then 1 else 0);
    (Open(st.(sectionLevel := level), ComponentOf(n), v.attrs(n, st.sectionLevel, anc)), VisitedNode(n, anc))
  }

  /** The translator's own visit function for a handled node. */
  function TranslatorVisit(h: Host, st: Translator, n: Node, anc: seq<Tag>): (Translator, Node)
    requires Handled(n) && (n.Entry? ==> |anc| >= 2)
  {
    match n
    case Section(_, _, _, _, _) => (VisitSection(st, n), n)
    case Table(_, _, _) => (VisitTable(st, n), n)
    case THead(_) => (VisitTablePart(st, n), n)
    case TBody(_) => (VisitTablePart(st, n), n)
    case TFoot(_) => (VisitTablePart(st, n), n)
    case Row(_, _) => (VisitRow(st, n), n)
    case Entry(_, _, _, _, _) => VisitEntry(st, n, anc[|anc| - 2])
    case Reference(_, _, _, _, _) => (VisitReference(h, st, n), n)
    case LiteralBlock(_, _, _) => (VisitLiteralBlock(st, n), n)
    case Admonition(_, _, _) => (VisitAdmonition(st, n), n)
  }

  /** The driver's visit step with the JSX visitor is the translator's
      `visit_*` function for the node's kind. */
  lemma VisitStepIsTranslator(h: Host, st: Translator, n: Node, anc: seq<Tag>)
    requires Handled(n) && (n.Entry? ==> |anc| >= 2)
    ensures VisitStep(Jsx(h), st, n, anc) == TranslatorVisit(h, st, n, anc)
  {
    if !n.Section? {
      assert st.(sectionLevel := st.sectionLevel) == st;
    }
  }

  /** The depart half of a handled node: a section also lowers the level. */
  function DepartStep(st: Translator, n: Node): (r: Translator)
    requires Handled(n) && |st.context| > 0
    ensures r.sectionLevel == st.sectionLevel - (if n.Section? then 1 else 0)
    ensures r.context + [st.context[|st.context| - 1]] == st.context
    ensures r.body == st.body + [st.context[|st.context| - 1]]
    ensures r.components == st.components
  {
    if n.Section? then DepartSection(st) else PopContext(st)
  }

  /** The visit half of a node the host renders. */
  function VisitHost(h: Host, st: Translator, n: Node, anc: seq<Tag>): (r: Translator)
    requires !Handled(n) && !Skips(n, anc)
    ensures r == st.(body := st.body + h.open(n))
  {
    if n.Title? then
      var parent := if |anc| == 0 then None else Some(anc[|anc| - 1]);
      VisitTitle(h, st, n, parent).GetOr(st)
    else if n.Reference? then VisitReference(h, st, n)
    else HostVisit(h, st, n)
  }

  /** The depart half of a node the host renders. */
  function DepartHost(h: Host, st: Translator, n: Node): (r: Translator)
    requires !Handled(n)
    ensures r == st.(body := st.body + h.close(n))
  {
    if n.Reference? then DepartReference(h, st, n) else HostDepart(h, st, n)
  }

  // ----- the driver -----

  /** Translating the subtree at `n`, whose ancestors' tags are `anc`.  The
      stack and the level come back as they were. */
  function Walk(v: Visitor, st: Translator, n: Node, anc: seq<Tag>): (r: (Translator, Node))
    requires Placed(n, anc)
    ensures r.0.context == st.context
    ensures r.0.sectionLevel == st.sectionLevel
    decreases n, 2
  {
    if Skips(n, anc) then (st, n)
    else if Handled(n) then WalkHandled(v, st, n, anc)
    else if v.host.skips(n) then (VisitHost(v.host, st, n, anc), n)
    else WalkHost(v, st, n, anc)
  }

  /** Visit, children, depart for a node the translator renders itself. */
  function WalkHandled(v: Visitor, st: Translator, n: Node, anc: seq<Tag>): (r: (Translator, Node))
    requires Placed(n, anc) && !Skips(n, anc) && Handled(n)
    ensures r.0.context == st.context
    ensures r.0.sectionLevel == st.sectionLevel
    ensures var w := WalkChildren(v, VisitStep(v, st, n, anc).0, n.children, anc + [n.TagOf()]);
      && r.0.body == w.0.body + [CloseTag(ComponentOf(n))]
      && r.0.components == w.0.components
      && r.1 == WithChildren(VisitedNode(n, anc), w.1)
    decreases n, 1
  {
    var st1 := VisitStep(v, st, n, anc).0;
    var w := WalkChildren(v, st1, n.children, anc + [n.TagOf()]);
    (DepartStep(w.0, n), WithChildren(VisitedNode(n, anc), w.1))
  }

  /** Host visit, children, host depart for any other node that is visited
      and not skipped by the host. */
  function WalkHost(v: Visitor, st: Translator, n: Node, anc: seq<Tag>): (r: (Translator, Node))
    requires Placed(n, anc) && !Skips(n, anc) && !Handled(n) && !v.host.skips(n)
    ensures r.0.context == st.context
    ensures r.0.sectionLevel == st.sectionLevel
    ensures var w := WalkChildren(v, VisitHost(v.host, st, n, anc), n.children, anc + [n.TagOf()]);
      && r.0.body == w.0.body + v.host.close(n)
      && r.0.components == w.0.components
      && r.1 == WithChildren(n, w.1)
    decreases n, 1
  {
    var w := WalkChildren(v, VisitHost(v.host, st, n, anc), n.children, anc + [n.TagOf()]);
    (DepartHost(v.host, w.0, n), WithChildren(n, w.1))
  }

  function WalkChildren(v: Visitor, st: Translator, kids: seq<Node>, anc: seq<Tag>): (r: (Translator, seq<Node>))
    requires forall i :: 0 <= i < |kids| ==> Placed(kids[i], anc)
    ensures r.0.context == st.context
    ensures r.0.sectionLevel == st.sectionLevel
    decreases kids, 0
  {
    if |kids| == 0 then (st, [])
    else
      var k := Walk(v, st, kids[0], anc);
      var w := WalkChildren(v, k.0, kids[1..], anc);
      (w.0, [k.1] + w.1)
  }

  // ----- the reference rendering -----

  /** The opening tag of a handled node, the enclosing level being `level`. */
  function OpenFragment(v: Visitor, n: Node, level: int, anc: seq<Tag>): string
    requires Handled(n)
  {
    OpenTag(ComponentOf(n), v.attrs(n, level, anc))
  }

  /** The rendering of the subtree at `n`.  A handled node at depth k below
      a root whose enclosing level is `base` sees the level base + (sections
      among its ancestors).  A node the host skips contributes its host
      fragment alone. */
  function Emit(v: Visitor, base: int, n: Node, anc: seq<Tag>): seq<string>
    requires Placed(n, anc)
    decreases n, 1
  {
    if Skips(n, anc) then []
    else if HostSkips(v.host, n) then v.host.open(n)
    else
      var inner := EmitAll(v, base, n.children, anc + [n.TagOf()]);
      if Handled(n) then
        [OpenFragment(v, n, base + SectionCount(anc), anc)] + inner + [CloseTag(ComponentOf(n))]
      else v.host.open(n) + inner + v.host.close(n)
  }

  function EmitAll(v: Visitor, base: int, kids: seq<Node>, anc: seq<Tag>): seq<string>
    requires forall i :: 0 <= i < |kids| ==> Placed(kids[i], anc)
    decreases kids, 0
  {
    if |kids| == 0 then []
    else Emit(v, base, kids[0], anc) + EmitAll(v, base, kids[1..], anc)
  }

  /** The components a rendering over host `h` uses. */
  function ComponentsOf(h: Host, n: Node, anc: seq<Tag>): set<string>
    decreases n, 1
  {
    if Skips(n, anc) || HostSkips(h, n) then {}
    else
      var inner := ComponentsOfAll(h, n.children, anc + [n.TagOf()]);
      if Handled(n) then {ComponentOf(n)} + inner else inner
  }

  function ComponentsOfAll(h: Host, kids: seq<Node>, anc: seq<Tag>): set<string>
    decreases kids, 0
  {
    if |kids| == 0 then {}
    else ComponentsOf(h, kids[0], anc) + ComponentsOfAll(h, kids[1..], anc)
  }

  /** The tree as the translation over host `h` leaves it: every visited
      cell under a `thead` has gained the `header-cell` class. */
  function Marked(h: Host, n: Node, anc: seq<Tag>): Node
    decreases n, 1
  {
    if Skips(n, anc) || HostSkips(h, n) then n
    else WithChildren(VisitedNode(n, anc), MarkedAll(h, n.children, anc + [n.TagOf()]))
  }

  function MarkedAll(h: Host, kids: seq<Node>, anc: seq<Tag>): seq<Node>
    decreases kids, 0
  {
    if |kids| == 0 then []
    else [Marked(h, kids[0], anc)] + MarkedAll(h, kids[1..], anc)
  }

  // ----- what the walk produces -----

  lemma SectionCountChild(anc: seq<Tag>, n: Node)
    ensures SectionCount(anc + [n.TagOf()]) == SectionCount(anc) + (if n.Section? then 1 else 0)
  {
    assert (anc + [n.TagOf()])[..|anc|] == anc;
  }

  /** Associativity of concatenation, given as a fact of its own: stated
      inline in `WalkChildrenEmits` it is far costlier for the solver. */
  lemma Assoc(a: seq<string>, b: seq<string>, c: seq<string>)
    ensures (a + b) + c == a + (b + c)
  {
  }

  /** Appending an opening part, an inner part and a closing part one after
      the other appends their concatenation. */
  lemma Nest(body: seq<string>, b1: seq<string>, b2: seq<string>, b3: seq<string>,
             open: seq<string>, inner: seq<string>, close: seq<string>, e: seq<string>)
    requires b1 == body + open && b2 == b1 + inner && b3 == b2 + close
    requires e == open + inner + close
    ensures b3 == body + e
  {
    assert (body + open) + inner == body + (open + inner);
    assert (body + (open + inner)) + close == body + (open + inner + close);
  }

  /** The walk's output is the reference rendering, with each section's
      level read off its ancestors. */
  lemma {:induction false} WalkEmits(v: Visitor, st: Translator, n: Node, anc: seq<Tag>)
    requires Placed(n, anc)
    ensures Walk(v, st, n, anc).0.body == st.body + Emit(v, st.sectionLevel - SectionCount(anc), n, anc)
    decreases n, 2
  {
    if Skips(n, anc) || HostSkips(v.host, n) {
    } else if Handled(n) {
      WalkHandledEmits(v, st, n, anc);
    } else {
      WalkHostEmits(v, st, n, anc);
    }
  }

  lemma {:induction false} WalkHandledEmits(v: Visitor, st: Translator, n: Node, anc: seq<Tag>)
    requires Placed(n, anc) && !Skips(n, anc) && Handled(n)
    ensures WalkHandled(v, st, n, anc).0.body == st.body + Emit(v, st.sectionLevel - SectionCount(anc), n, anc)
    decreases n, 1
  {
    var base := st.sectionLevel - SectionCount(anc);
    var anc' := anc + [n.TagOf()];
    var st1 := VisitStep(v, st, n, anc).0;
    ChildrenEmitAt(v, st1, base, n, anc);
    EmitHandled(v, base, st.sectionLevel, n, anc);
    var st2 := WalkChildren(v, st1, n.children, anc').0;
    Nest(st.body, st1.body, st2.body, WalkHandled(v, st, n, anc).0.body,
         [OpenFragment(v, n, st.sectionLevel, anc)], EmitAll(v, base, n.children, anc'),
         [CloseTag(ComponentOf(n))], Emit(v, base, n, anc));
  }

  /** The children of a visited node are rendered with the same base as the
      node: the level the visit leaves minus the sections above them. */
  lemma {:induction false} ChildrenEmitAt(v: Visitor, st1: Translator, base: int, n: Node, anc: seq<Tag>)
    requires Placed(n, anc)
    requires base == st1.sectionLevel - SectionCount(anc) - (if n.Section? then 1 else 0)
    ensures WalkChildren(v, st1, n.children, anc + [n.TagOf()]).0.body
            == st1.body + EmitAll(v, base, n.children, anc + [n.TagOf()])
    decreases n, 0
  {
    var anc' := anc + [n.TagOf()];
    SectionCountChild(anc, n);
    WalkChildrenEmits(v, st1, n.children, anc');
    assert EmitAll(v, st1.sectionLevel - SectionCount(anc'), n.children, anc') == EmitAll(v, base, n.children, anc');
  }

  /** The reference rendering of a handled node, unfolded once. */
  lemma EmitHandled(v: Visitor, base: int, level: int, n: Node, anc: seq<Tag>)
    requires Placed(n, anc) && !Skips(n, anc) && Handled(n)
    requires level == base + SectionCount(anc)
    ensures Emit(v, base, n, anc)
            == [OpenFragment(v, n, level, anc)] + EmitAll(v, base, n.children, anc + [n.TagOf()]) + [CloseTag(ComponentOf(n))]
  {
  }

  lemma {:induction false} WalkHostEmits(v: Visitor, st: Translator, n: Node, anc: seq<Tag>)
    requires Placed(n, anc) && !Skips(n, anc) && !Handled(n) && !v.host.skips(n)
    ensures WalkHost(v, st, n, anc).0.body == st.body + Emit(v, st.sectionLevel - SectionCount(anc), n, anc)
    decreases n, 1
  {
    var base := st.sectionLevel - SectionCount(anc);
    var anc' := anc + [n.TagOf()];
    var st1 := VisitHost(v.host, st, n, anc);
    SectionCountChild(anc, n);
    WalkChildrenEmits(v, st1, n.children, anc');
    assert EmitAll(v, st1.sectionLevel - SectionCount(anc'), n.children, anc') == EmitAll(v, base, n.children, anc');
    var st2 := WalkChildren(v, st1, n.children, anc').0;
    Nest(st.body, st1.body, st2.body, WalkHost(v, st, n, anc).0.body,
         v.host.open(n), EmitAll(v, base, n.children, anc'), v.host.close(n), Emit(v, base, n, anc));
  }

  lemma {:induction false} WalkChildrenEmits(v: Visitor, st: Translator, kids: seq<Node>, anc: seq<Tag>)
    requires forall i :: 0 <= i < |kids| ==> Placed(kids[i], anc)
    ensures WalkChildren(v, st, kids, anc).0.body == st.body + EmitAll(v, st.sectionLevel - SectionCount(anc), kids, anc)
    decreases kids, 0
  {
    if |kids| > 0 {
      var base := st.sectionLevel - SectionCount(anc);
      WalkEmits(v, st, kids[0], anc);
      var st1 := Walk(v, st, kids[0], anc).0;
      WalkChildrenEmits(v, st1, kids[1..], anc);
      Assoc(st.body, Emit(v, base, kids[0], anc), EmitAll(v, base, kids[1..], anc));
    }
  }

  /** The walk records exactly the components the reference rendering
      uses, and leaves the tree with every header cell marked. */
  lemma {:induction false} WalkRecords(v: Visitor, st: Translator, n: Node, anc: seq<Tag>)
    requires Placed(n, anc)
    ensures Walk(v, st, n, anc).0.components == st.components + ComponentsOf(v.host, n, anc)
    ensures Walk(v, st, n, anc).1 == Marked(v.host, n, anc)
    decreases n, 2
  {
    if Skips(n, anc) || HostSkips(v.host, n) {
    } else if Handled(n) {
      WalkHandledRecords(v, st, n, anc);
    } else {
      WalkChildrenRecords(v, VisitHost(v.host, st, n, anc), n.children, anc + [n.TagOf()]);
    }
  }

  lemma {:induction false} WalkHandledRecords(v: Visitor, st: Translator, n: Node, anc: seq<Tag>)
    requires Placed(n, anc) && !Skips(n, anc) && Handled(n)
    ensures WalkHandled(v, st, n, anc).0.components == st.components + ComponentsOf(v.host, n, anc)
    ensures WalkHandled(v, st, n, anc).1 == Marked(v.host, n, anc)
    decreases n, 1
  {
    WalkChildrenRecords(v, VisitStep(v, st, n, anc).0, n.children, anc + [n.TagOf()]);
  }

  lemma {:induction false} WalkChildrenRecords(v: Visitor, st: Translator, kids: seq<Node>, anc: seq<Tag>)
    requires forall i :: 0 <= i < |kids| ==> Placed(kids[i], anc)
    ensures WalkChildren(v, st, kids, anc).0.components == st.components + ComponentsOfAll(v.host, kids, anc)
    ensures WalkChildren(v, st, kids, anc).1 == MarkedAll(v.host, kids, anc)
    decreases kids, 0
  {
    if |kids| > 0 {
      WalkRecords(v, st, kids[0], anc);
      WalkChildrenRecords(v, Walk(v, st, kids[0], anc).0, kids[1..], anc);
    }
  }

  // ----- consequences -----

  /** Every component a handled node uses is one the translator knows and a
      valid JSX element name. */
  lemma ComponentOfKnown(n: Node)
    requires Handled(n)
    ensures ComponentOf(n) in KnownComponents && ComponentName(ComponentOf(n))
  {
  }

  lemma {:induction false} ComponentsKnown(h: Host, n: Node, anc: seq<Tag>)
    ensures ComponentsOf(h, n, anc) <= KnownComponents
    decreases n, 1
  {
    if !Skips(n, anc) && !HostSkips(h, n) {
      ComponentsAllKnown(h, n.children, anc + [n.TagOf()]);
      if Handled(n) {
        ComponentOfKnown(n);
      }
    }
  }

  lemma {:induction false} ComponentsAllKnown(h: Host, kids: seq<Node>, anc: seq<Tag>)
    ensures ComponentsOfAll(h, kids, anc) <= KnownComponents
    decreases kids, 0
  {
    if |kids| > 0 {
      ComponentsKnown(h, kids[0], anc);
      ComponentsAllKnown(h, kids[1..], anc);
    }
  }

  /** The rendering of a handled node opens with its component's tag and
      ends with the closing tag that closes it: what `depart_*` pops is what
      `visit_*` pushed. */
  lemma EmitBracketed(v: Visitor, base: int, n: Node, anc: seq<Tag>)
    requires Placed(n, anc) && !Skips(n, anc) && Handled(n)
    ensures var e := Emit(v, base, n, anc);
      && |e| >= 2
      && e[0] == OpenTag(ComponentOf(n), v.attrs(n, base + SectionCount(anc), anc))
      && Closes(e[|e| - 1], e[0])
  {
    ComponentOfKnown(n);
    CloseTagCloses(ComponentOf(n), v.attrs(n, base + SectionCount(anc), anc));
  }

  /** With the JSX visitor, the rendering of a section opens with a
      `Section` tag whose attributes are those of a section entered at the
      level of the walk's base plus the sections around it. */
  lemma SectionOpensAtDepth(h: Host, base: int, n: Node, anc: seq<Tag>)
    requires Placed(n, anc) && !Skips(n, anc) && n.Section?
    ensures Emit(Jsx(h), base, n, anc)[0] == OpenTag("Section", OpenAttrs(n, base + SectionCount(anc), anc))
  {
    EmitBracketed(Jsx(h), base, n, anc);
  }

  /** The opening attributes of a section entered at `level` carry `level`
      one higher: together with `SectionOpensAtDepth`, a section's `level`
      attribute is one more than the number of sections around it. */
  lemma SectionLevelAttr(n: Node, level: int, anc: seq<Tag>)
    requires n.Section?
    ensures Lookup(OpenAttrs(n, level, anc), "level") == Some(IntToString(level + 1))
  {
    SectionAttrsByName(n.ids, level + 1, n.source, n.line, n.secnumber, TitleText(n.children), "level");
  }

  /** A whole tree, translated from the initial state by any visitor: the
      stack ends empty, the level back at 0, the body is the reference
      rendering from base 0, and the components recorded are exactly those
      the rendering uses. */
  lemma {:induction false} TranslateTree(v: Visitor, root: Node)
    requires Placed(root, [])
    ensures var r := Walk(v, Initial, root, []);
      && r.0.context == []
      && r.0.sectionLevel == 0
      && r.0.body == Emit(v, 0, root, [])
      && r.0.components == ComponentsOf(v.host, root, [])
      && r.1 == Marked(v.host, root, [])
  {
    WalkEmits(v, Initial, root, []);
    WalkRecords(v, Initial, root, []);
    assert Initial.sectionLevel - SectionCount([]) == 0;
    assert Initial.body + Emit(v, 0, root, []) == Emit(v, 0, root, []);
  }

  /** A whole document, translated by the JSX translator from its initial
      state: the stack ends empty, the level back at 0, the body is the
      reference rendering with section levels equal to nesting depth, the
      components recorded are exactly those the rendering uses (all known
      ones), and every header cell has been marked. */
  lemma TranslateDocument(h: Host, root: Node)
    requires Placed(root, [])
    ensures var r := Walk(Jsx(h), Initial, root, []);
      && r.0.context == []
      && r.0.sectionLevel == 0
      && r.0.body == Emit(Jsx(h), 0, root, [])
      && r.0.components == ComponentsOf(h, root, [])
      && r.0.components <= KnownComponents
      && r.1 == Marked(h, root, [])
  {
    TranslateTree(Jsx(h), root);
    ComponentsKnown(h, root, []);
  }
}
