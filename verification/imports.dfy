/** `JSXTranslator.get_jsx_imports` (src/jsx_builder/translator.py:358-367):
    one import line per component used, in Python's sorted (code-point)
    order, joined by newlines. */
module Imports {
  import opened Strings

  /** The import line of one component. */
  function ImportLine(component: string): string {
    "import { " + component + " } from '../components/" + component + "';"
  }

  function ImportLines(components: seq<string>): (r: seq<string>)
    ensures |r| == |components|
    ensures forall i :: 0 <= i < |r| ==> r[i] == ImportLine(components[i])
  {
    seq(|components|, i requires 0 <= i < |components| => ImportLine(components[i]))
  }

  /** Strictly ascending in Python's string order, hence also duplicate-free. */
  predicate StrictlySorted(xs: seq<string>) {
    forall i, j :: 0 <= i < j < |xs| ==> StrLess(xs[i], xs[j])
  }

  /** `xs` lists the elements of `s` in ascending order: what `sorted(s)`
      returns. */
  ghost predicate IsListing(xs: seq<string>, s: set<string>) {
    StrictlySorted(xs) && forall x :: x in xs <==> x in s
  }

  /** Inserting a new element into a sorted sequence keeps it sorted. */
  function Insert(xs: seq<string>, x: string): (r: seq<string>)
    requires StrictlySorted(xs) && x !in xs
    ensures StrictlySorted(r)
    ensures forall y :: y in r <==> y in xs || y == x
    ensures |r| == |xs| + 1
    decreases |xs|
  {
    if |xs| == 0 then [x]
    else if StrLess(x, xs[0]) then
      assert forall j :: 0 < j < |xs| ==> StrLess(x, xs[j]) by {
        forall j | 0 < j < |xs| ensures StrLess(x, xs[j]) {
          StrLessTransitive(x, xs[0], xs[j]);
        }
      }
      [x] + xs
    else
      StrLessTotal(x, xs[0]);
      var rest := Insert(xs[1..], x);
      assert forall y :: y in rest ==> StrLess(xs[0], y);
      [xs[0]] + rest
  }

  /** A set has exactly one sorted listing. */
  lemma TailMember(xs: seq<string>, ys: seq<string>, s: set<string>, x: string)
    requires IsListing(xs, s) && IsListing(ys, s)
    requires |xs| > 0 && |ys| > 0 && xs[0] == ys[0]
    requires x in xs[1..]
    ensures x in ys[1..]
  {
    var i :| 1 <= i < |xs| && xs[i] == x;
    assert StrLess(xs[0], x);
    StrLessIrreflexive(x);
    assert x in ys;
    var k :| 0 <= k < |ys| && ys[k] == x;
    assert k != 0;
    assert ys[1..][k - 1] == x;
  }

  lemma {:induction false} ListingUnique(xs: seq<string>, ys: seq<string>, s: set<string>)
    requires IsListing(xs, s) && IsListing(ys, s)
    ensures xs == ys
    decreases |xs|
  {
    assert |ys| > 0 ==> ys[0] in xs;
    if |xs| > 0 {
      assert xs[0] in ys;
      assert |ys| > 0;
      if xs[0] != ys[0] {
        assert ys[0] in xs;
        var i :| 0 <= i < |xs| && xs[i] == ys[0];
        var j :| 0 <= j < |ys| && ys[j] == xs[0];
        assert StrLess(xs[0], ys[0]);
        assert StrLess(ys[0], xs[0]);
        StrLessAsymmetric(xs[0], ys[0]);
      }
      forall x ensures x in xs[1..] <==> x in ys[1..] {
        if x in xs[1..] {
          TailMember(xs, ys, s, x);
        }
        if x in ys[1..] {
          TailMember(ys, xs, s, x);
        }
      }
      var s' := set x | x in xs[1..];
      ListingUnique(xs[1..], ys[1..], s');
      assert xs == [xs[0]] + xs[1..];
      assert ys == [ys[0]] + ys[1..];
    }
  }

  /** `sorted(s)`: the ascending listing of a set, built by insertion.  It
      is unique (ListingUnique), so the choice of element does not matter. */
  ghost function SortedListing(s: set<string>): (xs: seq<string>)
    ensures IsListing(xs, s)
    ensures |xs| == |s|
    decreases |s|
  {
    if s == {} then []
    else
      var x :| x in s;
      Insert(SortedListing(s - {x}), x)
  }

  /** The text the source returns for a given sorted list of names. */
  function ImportBlock(sorted: seq<string>): string {
    Join(ImportLines(sorted), "\n")
  }

  /** `sorted(self.jsx_components_used)`: repeated insertion into a sorted
      list. */
  method SortComponents(components: set<string>) returns (xs: seq<string>)
    ensures IsListing(xs, components)
    ensures |xs| == |components|
  {
    xs := [];
    var rest := components;
    while rest != {}
      invariant rest <= components
      invariant StrictlySorted(xs)
      invariant forall y :: y in xs <==> y in components && y !in rest
      invariant |xs| + |rest| == |components|
      decreases |rest|
    {
      var x :| x in rest;
      xs := Insert(xs, x);
      rest := rest - {x};
    }
  }

  /** `get_jsx_imports()`: the empty string when no component was used,
      otherwise one import line per component in ascending order, joined
      by newlines with no trailing newline. */
  method GetJsxImports(components: set<string>) returns (imports: string)
    ensures imports == ImportBlock(SortedListing(components))
    ensures components == {} <==> imports == ""
  {
    if components == {} {
      return "";
    }
    var sorted := SortComponents(components);
    ListingUnique(sorted, SortedListing(components), components);
    imports := Join(ImportLines(sorted), "\n");
    JoinLast(ImportLines(sorted), "\n");
  }

  /** The block splits back into exactly one line per component, in sorted
      order, when no component name holds a newline; a non-empty block ends
      with the closing `;` of its last line. */
  lemma ImportBlockLines(components: set<string>, block: string)
    requires components != {}
    requires forall c :: c in components ==> '\n' !in c
    requires block == ImportBlock(SortedListing(components))
    ensures Split(block, '\n') == ImportLines(SortedListing(components))
    ensures |Split(block, '\n')| == |components|
    ensures |block| > 0 && block[|block| - 1] == ';'
  {
    var xs := SortedListing(components);
    var lines := ImportLines(xs);
    assert forall i :: 0 <= i < |xs| ==> xs[i] in components;
    ImportLinesFree(xs);
    SplitJoin(lines, '\n');
    LastLineEnds(xs);
    JoinLast(lines, "\n");
  }

  /** Import lines of newline-free names hold no newline. */
  lemma ImportLinesFree(xs: seq<string>)
    requires forall i :: 0 <= i < |xs| ==> '\n' !in xs[i]
    ensures forall i :: 0 <= i < |ImportLines(xs)| ==> '\n' !in ImportLines(xs)[i]
  {
    forall i | 0 <= i < |xs| ensures '\n' !in ImportLines(xs)[i] {
      assert ImportLines(xs)[i] == "import { " + xs[i] + " } from '../components/" + xs[i] + "';";
    }
  }

  /** Every import line ends with `;`. */
  lemma LastLineEnds(xs: seq<string>)
    requires |xs| > 0
    ensures var lines := ImportLines(xs);
      |lines| >= 1 && |lines[|lines| - 1]| >= 1 && lines[|lines| - 1][|lines[|lines| - 1]| - 1] == ';'
  {
    var line := ImportLines(xs)[|xs| - 1];
    assert line == "import { " + xs[|xs| - 1] + " } from '../components/" + xs[|xs| - 1] + "';";
  }
}
