/** `JSXTranslator._escape_attr` (src/jsx_builder/translator.py:346-356): five
    `str.replace` passes over an attribute value, backslash first.  The
    module shows that the pipeline equals a per-character map, that an
    unescaper inverts it in both directions, and that it is not idempotent. */
module Escape {

  /** Python's `s.replace(c, t)` for a one-character pattern. */
  function ReplaceChar(s: string, c: char, t: string): string
    decreases |s|
  {
    if |s| == 0 then "" else (if s[0] == c then t else [s[0]]) + ReplaceChar(s[1..], c, t)
  }

  /** The five passes, in the order the source applies them. */
  function Passes(text: string): string {
    var t1 := ReplaceChar(text, '\\', "\\\\");
    var t2 := ReplaceChar(t1, '"', "\\\"");
    var t3 := ReplaceChar(t2, '\n', "\\n");
    var t4 := ReplaceChar(t3, '\r', "\\r");
    ReplaceChar(t4, '\t', "\\t")
  }

  /** The characters the escaper rewrites. */
  predicate IsSpecial(c: char) {
    c == '\\' || c == '"' || c == '\n' || c == '\r' || c == '\t'
  }

  /** How many characters of `s` the escaper rewrites. */
  function SpecialCount(s: string): nat
    decreases |s|
  {
    if |s| == 0 then 0 else (if IsSpecial(s[0]) then 1 else 0) + SpecialCount(s[1..])
  }

  /** The escape of one character: a backslash and a code letter for the five
      special characters, the character itself otherwise. */
  function EscapeChar(c: char): string {
    match c
    case '\\' => "\\\\"
    case '"' => "\\\""
    case '\n' => "\\n"
    case '\r' => "\\r"
    case '\t' => "\\t"
    case _ => [c]
  }

  /** The per-character reference definition of escaping. */
  function EscapeEach(s: string): string
    decreases |s|
  {
    if |s| == 0 then "" else EscapeChar(s[0]) + EscapeEach(s[1..])
  }

  /** Reads one escape code back: `n`, `r`, `t` stand for the control
      characters, every other code for itself. */
  function UnescapeCode(c: char): char {
    match c
    case 'n' => '\n'
    case 'r' => '\r'
    case 't' => '\t'
    case _ => c
  }

  /** The inverse of escaping: a backslash and the character after it become
      one character. */
  function Unescape(s: string): string
    decreases |s|
  {
    if |s| == 0 then ""
    else if s[0] == '\\' && |s| >= 2 then [UnescapeCode(s[1])] + Unescape(s[2..])
    else [s[0]] + Unescape(s[1..])
  }

  /** The strings escaping can produce: every backslash starts a two-character
      unit whose second character is a code, and no special character stands
      alone. */
  predicate WellEscaped(s: string)
    decreases |s|
  {
    if |s| == 0 then true
    else if s[0] == '\\' then
      |s| >= 2 && s[1] in "\\\"nrt" && WellEscaped(s[2..])
    else !IsSpecial(s[0]) && WellEscaped(s[1..])
  }

  /** `_escape_attr(text)`: empty text is returned as is; otherwise the five
      passes.  The result is the per-character escape, reads back as `text`,
      holds no raw newline, carriage return or tab, and has a backslash
      before every double quote. */
  function EscapeAttr(text: string): (r: string)
    ensures |text| == 0 ==> r == text
    ensures r == EscapeEach(text)
    ensures Unescape(r) == text
    ensures |r| == |text| + SpecialCount(text)
    ensures forall i :: 0 <= i < |r| ==> r[i] != '\n' && r[i] != '\r' && r[i] != '\t'
    ensures forall i :: 0 <= i < |r| && r[i] == '"' ==> i > 0 && r[i - 1] == '\\'
  {
    PassesArePerCharacter(text);
    UnescapeEscape(text);
    EscapeLength(text);
    EscapeWellEscaped(text);
    WellEscapedHasNoRawSpecials(EscapeEach(text));
    if |text| == 0 then text else Passes(text)
  }

  lemma {:induction false} ReplaceCharAppend(a: string, b: string, c: char, t: string)
    ensures ReplaceChar(a + b, c, t) == ReplaceChar(a, c, t) + ReplaceChar(b, c, t)
    decreases |a|
  {
    if |a| > 0 {
      ReplaceCharAppend(a[1..], b, c, t);
      assert (a + b)[1..] == a[1..] + b;
    } else {
      assert a + b == b;
    }
  }

  lemma PassesAppend(a: string, b: string)
    ensures Passes(a + b) == Passes(a) + Passes(b)
  {
    ReplaceCharAppend(a, b, '\\', "\\\\");
    var a1, b1 := ReplaceChar(a, '\\', "\\\\"), ReplaceChar(b, '\\', "\\\\");
    ReplaceCharAppend(a1, b1, '"', "\\\"");
    var a2, b2 := ReplaceChar(a1, '"', "\\\""), ReplaceChar(b1, '"', "\\\"");
    ReplaceCharAppend(a2, b2, '\n', "\\n");
    var a3, b3 := ReplaceChar(a2, '\n', "\\n"), ReplaceChar(b2, '\n', "\\n");
    ReplaceCharAppend(a3, b3, '\r', "\\r");
    var a4, b4 := ReplaceChar(a3, '\r', "\\r"), ReplaceChar(b3, '\r', "\\r");
    ReplaceCharAppend(a4, b4, '\t', "\\t");
  }

  /** Replacing a character the string does not hold changes nothing. */
  lemma {:induction false} ReplaceAbsent(s: string, c: char, t: string)
    requires c !in s
    ensures ReplaceChar(s, c, t) == s
    decreases |s|
  {
    if |s| > 0 {
      assert c !in s[1..];
      ReplaceAbsent(s[1..], c, t);
      assert s == [s[0]] + s[1..];
    }
  }

  lemma ReplaceOne(c: char, t: string)
    ensures ReplaceChar([c], c, t) == t
  {
    assert [c][1..] == [];
  }

  /** A later pass never rewrites what an earlier one produced. */
  lemma PassesOneChar(c: char)
    ensures Passes([c]) == EscapeChar(c)
  {
    var bs, qt, nl, cr, tb := "\\\\", "\\\"", "\\n", "\\r", "\\t";
    if c == '\\' {
      ReplaceOne(c, bs);
      ReplaceAbsent(bs, '"', qt);
      ReplaceAbsent(bs, '\n', nl);
      ReplaceAbsent(bs, '\r', cr);
      ReplaceAbsent(bs, '\t', tb);
    } else if c == '"' {
      ReplaceAbsent([c], '\\', bs);
      ReplaceOne(c, qt);
      ReplaceAbsent(qt, '\n', nl);
      ReplaceAbsent(qt, '\r', cr);
      ReplaceAbsent(qt, '\t', tb);
    } else if c == '\n' {
      ReplaceAbsent([c], '\\', bs);
      ReplaceAbsent([c], '"', qt);
      ReplaceOne(c, nl);
      ReplaceAbsent(nl, '\r', cr);
      ReplaceAbsent(nl, '\t', tb);
    } else if c == '\r' {
      ReplaceAbsent([c], '\\', bs);
      ReplaceAbsent([c], '"', qt);
      ReplaceAbsent([c], '\n', nl);
      ReplaceOne(c, cr);
      ReplaceAbsent(cr, '\t', tb);
    } else if c == '\t' {
      ReplaceAbsent([c], '\\', bs);
      ReplaceAbsent([c], '"', qt);
      ReplaceAbsent([c], '\n', nl);
      ReplaceAbsent([c], '\r', cr);
      ReplaceOne(c, tb);
    } else {
      ReplaceAbsent([c], '\\', bs);
      ReplaceAbsent([c], '"', qt);
      ReplaceAbsent([c], '\n', nl);
      ReplaceAbsent([c], '\r', cr);
      ReplaceAbsent([c], '\t', tb);
    }
  }

  /** Backslash goes first, so the five passes equal the per-character map. */
  lemma {:induction false} PassesArePerCharacter(s: string)
    ensures Passes(s) == EscapeEach(s)
    decreases |s|
  {
    if |s| > 0 {
      PassesArePerCharacter(s[1..]);
      assert s == [s[0]] + s[1..];
      PassesAppend([s[0]], s[1..]);
      PassesOneChar(s[0]);
    }
  }

  lemma {:induction false} UnescapeEscape(s: string)
    ensures Unescape(EscapeEach(s)) == s
    decreases |s|
  {
    if |s| > 0 {
      UnescapeEscape(s[1..]);
      var e, rest := EscapeChar(s[0]), EscapeEach(s[1..]);
      if IsSpecial(s[0]) {
        assert |e| == 2 && e[0] == '\\';
        assert (e + rest)[2..] == rest;
      } else {
        assert e == [s[0]];
        assert (e + rest)[1..] == rest;
      }
      assert s == [s[0]] + s[1..];
    }
  }

  lemma {:induction false} EscapeLength(s: string)
    ensures |EscapeEach(s)| == |s| + SpecialCount(s)
    decreases |s|
  {
    if |s| > 0 {
      EscapeLength(s[1..]);
    }
  }

  lemma {:induction false} EscapeWellEscaped(s: string)
    ensures WellEscaped(EscapeEach(s))
    decreases |s|
  {
    if |s| > 0 {
      EscapeWellEscaped(s[1..]);
      var e, rest := EscapeChar(s[0]), EscapeEach(s[1..]);
      if IsSpecial(s[0]) {
        assert (e + rest)[2..] == rest;
      } else {
        assert (e + rest)[1..] == rest;
      }
    }
  }

  /** Every well-escaped string is the escape of its unescaping: escaping is a
      bijection onto the well-escaped strings. */
  lemma {:induction false} EscapeUnescape(s: string)
    requires WellEscaped(s)
    ensures EscapeEach(Unescape(s)) == s
    decreases |s|
  {
    if |s| > 0 {
      if s[0] == '\\' {
        EscapeUnescape(s[2..]);
        assert s == s[..2] + s[2..];
      } else {
        EscapeUnescape(s[1..]);
        assert s == [s[0]] + s[1..];
      }
    }
  }

  lemma {:induction false} WellEscapedHasNoRawSpecials(s: string)
    requires WellEscaped(s)
    ensures forall i :: 0 <= i < |s| ==> s[i] != '\n' && s[i] != '\r' && s[i] != '\t'
    ensures forall i :: 0 <= i < |s| && s[i] == '"' ==> i > 0 && s[i - 1] == '\\'
    decreases |s|
  {
    if |s| > 0 {
      var k := if s[0] == '\\' then 2 else 1;
      WellEscapedHasNoRawSpecials(s[k..]);
      forall i | k <= i < |s|
        ensures s[i] != '\n' && s[i] != '\r' && s[i] != '\t'
        ensures s[i] == '"' ==> i > 0 && s[i - 1] == '\\'
      {
        assert s[i] == s[k..][i - k];
        if i > k {
          assert s[i - 1] == s[k..][i - 1 - k];
        }
      }
    }
  }

  /** Escaping changes a string exactly when it holds a special character. */
  lemma {:induction false} EscapeFixedPoint(s: string)
    ensures EscapeAttr(s) == s <==> SpecialCount(s) == 0
    decreases |s|
  {
    if SpecialCount(s) == 0 {
      NoSpecialsUnchanged(s);
    }
  }

  lemma {:induction false} NoSpecialsUnchanged(s: string)
    requires SpecialCount(s) == 0
    ensures EscapeEach(s) == s
    decreases |s|
  {
    if |s| > 0 {
      NoSpecialsUnchanged(s[1..]);
      assert s == [s[0]] + s[1..];
    }
  }

  lemma {:induction false} EscapeKeepsSpecials(s: string)
    ensures SpecialCount(EscapeEach(s)) >= SpecialCount(s)
    decreases |s|
  {
    if |s| > 0 {
      EscapeKeepsSpecials(s[1..]);
      SpecialCountAppend(EscapeChar(s[0]), EscapeEach(s[1..]));
      var e := EscapeChar(s[0]);
      if IsSpecial(s[0]) {
        assert e[0] == '\\' && |e| == 2;
        assert e[1..][1..] == [];
      }
    }
  }

  lemma {:induction false} SpecialCountAppend(a: string, b: string)
    ensures SpecialCount(a + b) == SpecialCount(a) + SpecialCount(b)
    decreases |a|
  {
    if |a| > 0 {
      SpecialCountAppend(a[1..], b);
      assert (a + b)[1..] == a[1..] + b;
    } else {
      assert a + b == b;
    }
  }

  /** Escaping twice equals escaping once exactly when there was nothing to
      escape; in general escaping is not idempotent. */
  lemma EscapeIdempotentIff(s: string)
    ensures EscapeAttr(EscapeAttr(s)) == EscapeAttr(s) <==> SpecialCount(s) == 0
  {
    EscapeFixedPoint(s);
    EscapeFixedPoint(EscapeAttr(s));
    EscapeKeepsSpecials(s);
  }

  /** The source's own counterexample: a lone double quote. */
  lemma EscapeQuoteTwice()
    ensures EscapeAttr("\"") == "\\\""
    ensures EscapeAttr(EscapeAttr("\"")) == "\\\\\\\""
    ensures EscapeAttr(EscapeAttr("\"")) != EscapeAttr("\"")
  {
    assert EscapeEach("\"") == "\\\"";
    assert "\\\""[1..] == "\"";
    assert EscapeEach("\\\"") == "\\\\\\\"";
  }

  lemma EscapeAppend(a: string, b: string)
    ensures EscapeEach(a + b) == EscapeEach(a) + EscapeEach(b)
  {
    PassesAppend(a, b);
    PassesArePerCharacter(a);
    PassesArePerCharacter(b);
    PassesArePerCharacter(a + b);
  }

  lemma {:induction false} PlainUnchanged(s: string)
    requires forall i :: 0 <= i < |s| ==> !IsSpecial(s[i])
    ensures EscapeEach(s) == s
    decreases |s|
  {
    if |s| > 0 {
      PlainUnchanged(s[1..]);
      assert s == [s[0]] + s[1..];
    }
  }

  /** The worked example: `He said "hi"` and a newline. */
  lemma EscapeSentence()
    ensures EscapeAttr("He said \"hi\"\n") == "He said \\\"hi\\\"\\n"
  {
    var a, q, h, n := "He said ", "\"", "hi", "\n";
    var s := a + q + h + q + n;
    var eq, en := "\\\"", "\\n";
    assert EscapeEach(s) == a + eq + h + eq + en by {
      PlainUnchanged(a);
      PlainUnchanged(h);
      assert EscapeEach(q) == eq;
      assert EscapeEach(n) == en;
      EscapeAppend(a, q);
      EscapeAppend(a + q, h);
      EscapeAppend(a + q + h, q);
      EscapeAppend(a + q + h + q, n);
    }
    assert s == "He said \"hi\"\n";
    assert a + eq + h + eq + en == "He said \\\"hi\\\"\\n";
  }
}
