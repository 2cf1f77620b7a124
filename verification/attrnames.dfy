/** `JSXTranslator._html_attr_to_jsx` (src/jsx_builder/translator.py:328-344):
    HTML attribute names to their JSX spelling through a fixed table, looked
    up case-insensitively; a name outside the table is returned unchanged. */
module AttrNames {
  import opened Strings

  /** The eleven conversions, keyed by lower-case HTML name. */
  const Conversions: map<string, string> := map[
    "class" := "className",
    "for" := "htmlFor",
    "tabindex" := "tabIndex",
    "readonly" := "readOnly",
    "maxlength" := "maxLength",
    "cellpadding" := "cellPadding",
    "cellspacing" := "cellSpacing",
    "rowspan" := "rowSpan",
    "colspan" := "colSpan",
    "usemap" := "useMap",
    "frameborder" := "frameBorder"
  ]

  /** The JSX name: a table value when the lower-cased name is a key, the name
      exactly as given (not lower-cased) otherwise. */
  function HtmlAttrToJsx(attrName: string): (r: string)
    ensures r == attrName || r in Conversions.Values
    ensures r != attrName ==> Lower(attrName) in Conversions
    ensures attrName in Conversions ==> r == Conversions[attrName]
  {
    KeysAreLower();
    var key := Lower(attrName);
    if key in Conversions then Conversions[key] else attrName
  }

  /** The lookup ignores case: names that lower-case alike and are in the
      table translate alike, and a name outside the table comes back
      verbatim, case and all. */
  lemma CaseInsensitive(a: string, b: string)
    requires Lower(a) == Lower(b)
    ensures Lower(a) in Conversions ==> HtmlAttrToJsx(a) == HtmlAttrToJsx(b)
    ensures Lower(a) !in Conversions ==> HtmlAttrToJsx(a) == a && HtmlAttrToJsx(b) == b
  {
  }

  /** A name is rewritten exactly when its lower-case form is a key whose
      value differs from the name as written. */
  lemma ChangedIff(a: string)
    ensures HtmlAttrToJsx(a) != a <==> Lower(a) in Conversions && Conversions[Lower(a)] != a
  {
  }

  /** The keys of the table are already lower case. */
  lemma KeysAreLower()
    ensures forall k :: k in Conversions ==> Lower(k) == k
  {
    assert Lower("class") == "class" && Lower("for") == "for";
    assert Lower("tabindex") == "tabindex" && Lower("readonly") == "readonly";
    assert Lower("maxlength") == "maxlength" && Lower("cellpadding") == "cellpadding";
    assert Lower("cellspacing") == "cellspacing" && Lower("rowspan") == "rowspan";
    assert Lower("colspan") == "colspan" && Lower("usemap") == "usemap";
    assert Lower("frameborder") == "frameborder";
  }

  /** Every key of the table becomes its own JSX spelling: `for` becomes
      `htmlFor`, not some other camelCase name.  With `CaseInsensitive`
      this fixes the result for every spelling of a key. */
  lemma TableEntries()
    ensures forall k :: k in Conversions ==> HtmlAttrToJsx(k) == Conversions[k]
  {
    KeysAreLower();
  }

  /** Each JSX spelling lower-cases either to no key or to a key that maps
      back to itself (`tabIndex` lower-cases to the key `tabindex`). */
  lemma ValuesAreStable()
    ensures forall k :: k in Conversions ==>
      var v := Conversions[k]; Lower(v) !in Conversions || Conversions[Lower(v)] == v
  {
    LowerOfValues();
  }

  /** The lower-case forms of the eleven JSX spellings. */
  lemma LowerOfValues()
    ensures Lower("className") == "classname" && Lower("htmlFor") == "htmlfor"
    ensures Lower("tabIndex") == "tabindex" && Lower("readOnly") == "readonly"
    ensures Lower("maxLength") == "maxlength" && Lower("cellPadding") == "cellpadding"
    ensures Lower("cellSpacing") == "cellspacing" && Lower("rowSpan") == "rowspan"
    ensures Lower("colSpan") == "colspan" && Lower("useMap") == "usemap"
    ensures Lower("frameBorder") == "frameborder"
  {
    assert Lower("className") == "classname";
    assert Lower("htmlFor") == "htmlfor";
    assert Lower("tabIndex") == "tabindex";
    assert Lower("readOnly") == "readonly";
    assert Lower("maxLength") == "maxlength";
    assert Lower("cellPadding") == "cellpadding";
    assert Lower("cellSpacing") == "cellspacing";
    assert Lower("rowSpan") == "rowspan";
    assert Lower("colSpan") == "colspan";
    assert Lower("useMap") == "usemap";
    assert Lower("frameBorder") == "frameborder";
  }

  /** Translating an already translated name changes nothing. */
  lemma Idempotent(a: string)
    ensures HtmlAttrToJsx(HtmlAttrToJsx(a)) == HtmlAttrToJsx(a)
  {
    ValuesAreStable();
  }

  /** Worked examples: upper-case keys are found, unknown names keep their
      case. */
  lemma Examples()
    ensures HtmlAttrToJsx("class") == "className"
    ensures HtmlAttrToJsx("CLASS") == "className"
    ensures HtmlAttrToJsx("ColSpan") == "colSpan"
    ensures HtmlAttrToJsx("UNKNOWN") == "UNKNOWN"
    ensures HtmlAttrToJsx("data-Id") == "data-Id"
  {
    assert Lower("class") == "class";
    assert Lower("CLASS") == "class";
    assert Lower("ColSpan") == "colspan";
    assert Lower("UNKNOWN") == "unknown";
    assert Lower("data-Id") == "data-id";
  }
}
