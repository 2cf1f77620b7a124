/** The document tree the translator walks, restricted to the node kinds the
    JSX translator handles, plus a catch-all for the kinds it leaves to the
    host HTML5 translator.  Each variant carries only the node data that
    src/jsx_builder/translator.py reads.  Python truthiness is encoded
    directly: an absent or zero `line`, `morecols` or `morerows` is 0, an
    absent `source` or `language` is "". */
module Document {
  import opened Wrappers
  import opened Strings

  /** The docutils tag name of a node; `OtherTag` holds any kind not listed. */
  datatype Tag =
    | SectionTag | TitleTag | TableTag | THeadTag | TBodyTag | TFootTag
    | RowTag | EntryTag | ReferenceTag | LiteralBlockTag | AdmonitionTag
    | OtherTag(tagname: string)
  {
    /** `tagname == 'thead'`: a table head, or an unlisted kind that
        carries that tag name. */
    predicate NamedTHead() {
      this == THeadTag || this == OtherTag("thead")
    }
  }

  datatype Node =
    | Section(ids: seq<string>, source: string, line: nat, secnumber: seq<nat>, children: seq<Node>)
      /** `text` is the title's `astext()`. */
    | Title(text: string, children: seq<Node>)
      /** `attributes` is the node's attribute dictionary in insertion order,
          each value already rendered by Python's `str`. */
    | Table(classes: seq<string>, attributes: seq<(string, string)>, children: seq<Node>)
    | THead(children: seq<Node>)
    | TBody(children: seq<Node>)
    | TFoot(children: seq<Node>)
    | Row(classes: seq<string>, children: seq<Node>)
    | Entry(classes: seq<string>, morecols: nat, morerows: nat, line: nat, children: seq<Node>)
    | Reference(classes: seq<string>, internal: bool, refuri: Option<string>, refid: string, children: seq<Node>)
    | LiteralBlock(language: string, classes: seq<string>, children: seq<Node>)
      /** `name` is the admonition name the host passes to `visit_admonition`
          ("" for a generic admonition). */
    | Admonition(name: string, classes: seq<string>, children: seq<Node>)
    | Other(tagname: string, children: seq<Node>)
  {
    function TagOf(): Tag {
      match this
      case Section(_, _, _, _, _) => SectionTag
      case Title(_, _) => TitleTag
      case Table(_, _, _) => TableTag
      case THead(_) => THeadTag
      case TBody(_) => TBodyTag
      case TFoot(_) => TFootTag
      case Row(_, _) => RowTag
      case Entry(_, _, _, _, _) => EntryTag
      case Reference(_, _, _, _, _) => ReferenceTag
      case LiteralBlock(_, _, _) => LiteralBlockTag
      case Admonition(_, _, _) => AdmonitionTag
      case Other(t, _) => OtherTag(t)
    }
  }

  /** One JSX attribute, rendered `name="value"` with the value as given. */
  datatype Attr = Attr(name: string, value: string)

  function RenderAttr(a: Attr): string {
    a.name + "=\"" + a.value + "\""
  }

  function RenderAttrs(attrs: seq<Attr>): (r: seq<string>)
    ensures |r| == |attrs|
  {
    seq(|attrs|, i requires 0 <= i < |attrs| => RenderAttr(attrs[i]))
  }

  /** The source's `f'<{component}{attr_string}>'` with
      `attr_string = ' ' + ' '.join(attrs) if attrs else ''`. */
  function OpenTag(component: string, attrs: seq<Attr>): string {
    "<" + component + (if |attrs| == 0 then "" else " " + Join(RenderAttrs(attrs), " ")) + ">"
  }

  function CloseTag(component: string): string {
    "</" + component + ">"
  }

  /** An optional attribute in front of the rest of the list: the source's
      `if …: attrs.append(…)`. */
  function Put(present: bool, a: Attr, rest: seq<Attr>): seq<Attr> {
    if present then [a] + rest else rest
  }

  /** The value of the first attribute called `name`. */
  function Lookup(attrs: seq<Attr>, name: string): Option<string>
    decreases |attrs|
  {
    if |attrs| == 0 then None
    else if attrs[0].name == name then Some(attrs[0].value)
    else Lookup(attrs[1..], name)
  }

  /** How many attributes are called `name`. */
  function Count(attrs: seq<Attr>, name: string): nat
    decreases |attrs|
  {
    if |attrs| == 0 then 0
    else (if attrs[0].name == name then 1 else 0) + Count(attrs[1..], name)
  }

  lemma LookupPut(present: bool, a: Attr, rest: seq<Attr>, name: string)
    ensures Lookup(Put(present, a, rest), name)
         == (if present && a.name == name then Some(a.value) else Lookup(rest, name))
    ensures Count(Put(present, a, rest), name)
         == (if present && a.name == name then 1 else 0) + Count(rest, name)
  {
    if present {
      assert ([a] + rest)[1..] == rest;
    }
  }

  /** The attribute names are drawn from `order`, each at most once and in
      the order `order` lists them: no other attribute appears. */
  predicate InOrder(attrs: seq<Attr>, order: seq<string>)
    decreases |order|
  {
    if |attrs| == 0 then true
    else if |order| == 0 then false
    else if attrs[0].name == order[0] then InOrder(attrs[1..], order[1..])
    else InOrder(attrs, order[1..])
  }

  /** Allowing one more name in front keeps a list in order. */
  lemma {:induction false} InOrderCons(attrs: seq<Attr>, order: seq<string>)
    requires |order| > 0 && InOrder(attrs, order[1..])
    ensures InOrder(attrs, order)
    decreases |order|, |attrs|
  {
    if |attrs| > 0 && attrs[0].name == order[0] {
      InOrderTail(attrs, order[1..]);
    }
  }

  /** Dropping the first attribute keeps a list in order. */
  lemma {:induction false} InOrderTail(attrs: seq<Attr>, order: seq<string>)
    requires |attrs| > 0 && InOrder(attrs, order)
    ensures InOrder(attrs[1..], order)
    decreases |order|, |attrs|
  {
    if attrs[0].name == order[0] {
      InOrderCons(attrs[1..], order);
    } else {
      InOrderTail(attrs, order[1..]);
      InOrderCons(attrs[1..], order);
    }
  }

  /** An optional attribute named like the first entry of `order`, in front
      of attributes in the order of the rest. */
  lemma PutInOrder(present: bool, a: Attr, rest: seq<Attr>, order: seq<string>)
    requires |order| > 0 && a.name == order[0] && InOrder(rest, order[1..])
    ensures InOrder(Put(present, a, rest), order)
  {
    if present {
      assert ([a] + rest)[1..] == rest;
    } else {
      InOrderCons(rest, order);
    }
  }

  /** Four optional attributes in front of `rest`: the first present one
      with the name wins, and each present one with the name counts once. */
  lemma FourPuts(p1: bool, a1: Attr, p2: bool, a2: Attr, p3: bool, a3: Attr,
                 p4: bool, a4: Attr, rest: seq<Attr>, name: string)
    ensures var r := Put(p1, a1, Put(p2, a2, Put(p3, a3, Put(p4, a4, rest))));
      && Lookup(r, name) ==
           (if p1 && a1.name == name then Some(a1.value)
           else if p2 && a2.name == name then Some(a2.value)
           else if p3 && a3.name == name then Some(a3.value)
           else if p4 && a4.name == name then Some(a4.value)
           else Lookup(rest, name))
      && Count(r, name) ==
           (if p1 && a1.name == name then 1 else 0) + (if p2 && a2.name == name then 1 else 0)
           + (if p3 && a3.name == name then 1 else 0) + (if p4 && a4.name == name then 1 else 0)
           + Count(rest, name)
  {
    LookupPut(p4, a4, rest, name);
    LookupPut(p3, a3, Put(p4, a4, rest), name);
    LookupPut(p2, a2, Put(p3, a3, Put(p4, a4, rest)), name);
    LookupPut(p1, a1, Put(p2, a2, Put(p3, a3, Put(p4, a4, rest))), name);
  }

  /** A component name as JSX writes it: non-empty, no blank, no `>`, no `/`. */
  predicate ComponentName(c: string) {
    |c| > 0 && forall i :: 0 <= i < |c| ==> c[i] != ' ' && c[i] != '>' && c[i] != '/'
  }

  /** The element name at the start of `s`: everything before the first blank
      or `>`. */
  function NamePrefix(s: string): string
    decreases |s|
  {
    if |s| == 0 || s[0] == ' ' || s[0] == '>' then "" else [s[0]] + NamePrefix(s[1..])
  }

  /** The element name an opening fragment opens. */
  function OpenedName(fragment: string): string {
    if |fragment| > 0 && fragment[0] == '<' then NamePrefix(fragment[1..]) else ""
  }

  /** `close` is the closing tag of the element `open` opens. */
  predicate Closes(close: string, open: string) {
    |open| > 1 && open[0] == '<' && open[1] != '/' && close == CloseTag(OpenedName(open))
  }

  lemma {:induction false} NamePrefixOf(c: string, rest: string)
    requires forall i :: 0 <= i < |c| ==> c[i] != ' ' && c[i] != '>'
    requires |rest| > 0 && (rest[0] == ' ' || rest[0] == '>')
    ensures NamePrefix(c + rest) == c
    decreases |c|
  {
    if |c| == 0 {
      assert c + rest == rest;
    } else {
      NamePrefixOf(c[1..], rest);
      assert (c + rest)[1..] == c[1..] + rest;
      assert c == [c[0]] + c[1..];
    }
  }

  /** The closing tag of a component closes every opening tag of it, whatever
      its attributes. */
  lemma CloseTagCloses(component: string, attrs: seq<Attr>)
    requires ComponentName(component)
    ensures Closes(CloseTag(component), OpenTag(component, attrs))
  {
    var tail := (if |attrs| == 0 then "" else " " + Join(RenderAttrs(attrs), " ")) + ">";
    assert OpenTag(component, attrs) == "<" + (component + tail);
    assert tail[0] == ' ' || tail[0] == '>';
    NamePrefixOf(component, tail);
    assert OpenTag(component, attrs)[1..] == component + tail;
  }
}
