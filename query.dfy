/** The path query of src/Main.kt:64-72 and XPathQueryVisitor
    (src/Main.kt:360-403): the expression is split on `/` with the empty
    pieces dropped; the search walks each root with a current segment index
    that advances only at a matching entity, and an entity matching the last
    segment is collected with its whole subtree in pre-order. */
module PathQuery {
  import opened Wrappers
  import opened Tree
  import Seqs

  // ---------------------------------------------------------------------
  // Segments of an expression
  // ---------------------------------------------------------------------

  /** Kotlin's `split(sep)`: the pieces between separators, with an empty
      piece before a leading, after a trailing and between two adjacent
      separators; never an empty list. */
  function Split(s: string, sep: char): (r: seq<string>)
    ensures |r| >= 1
    ensures forall i | 0 <= i < |r| :: sep !in r[i]
    decreases |s|
  {
    if s == [] then [""]
    else
      var rest := Split(s[1..], sep);
      if s[0] == sep then [""] + rest
      else [[s[0]] + rest[0]] + rest[1..]
  }

  /** The pieces glued back together with the separator between them. */
  function Join(parts: seq<string>, sep: char): string
    requires |parts| >= 1
    decreases |parts|
  {
    if |parts| == 1 then parts[0] else parts[0] + [sep] + Join(parts[1..], sep)
  }

  /** Splitting loses nothing: joining the pieces gives the string back. */
  lemma {:induction false} JoinSplit(s: string, sep: char)
    ensures Join(Split(s, sep), sep) == s
    decreases |s|
  {
    if s != [] {
      var rest := Split(s[1..], sep);
      JoinSplit(s[1..], sep);
      if s[0] == sep {
        assert Split(s, sep)[1..] == rest;
      } else {
        var r := Split(s, sep);
        if |rest| == 1 {
          assert r == [[s[0]] + rest[0]];
        } else {
          assert r[1..] == rest[1..];
          assert Join(rest, sep) == rest[0] + [sep] + Join(rest[1..], sep);
        }
      }
    }
  }

  /** Pieces without the separator are exactly what splitting their join
      gives back. */
  lemma {:induction false} SplitJoin(parts: seq<string>, sep: char)
    requires |parts| >= 1
    requires forall i | 0 <= i < |parts| :: sep !in parts[i]
    ensures Split(Join(parts, sep), sep) == parts
    decreases |parts|, |parts[0]|
  {
    var p := parts[0];
    if p == [] {
      if |parts| > 1 {
        SplitJoin(parts[1..], sep);
        assert Join(parts, sep) == [sep] + Join(parts[1..], sep);
        assert ([sep] + Join(parts[1..], sep))[1..] == Join(parts[1..], sep);
        assert [""] + parts[1..] == parts;
      }
    } else {
      var s := Join(parts, sep);
      var shorter := [p[1..]] + parts[1..];
      assert shorter[1..] == parts[1..];
      SplitJoin(shorter, sep);
      if |parts| == 1 {
        assert s[1..] == p[1..] == Join(shorter, sep);
      } else {
        assert s == [p[0]] + (p[1..] + [sep] + Join(parts[1..], sep));
        assert s[1..] == Join(shorter, sep);
      }
      assert p[0] in p;
      var rest := Split(s[1..], sep);
      assert rest == shorter;
      assert s[0] == p[0] != sep;
      assert rest[0] == p[1..] && [p[0]] + p[1..] == p;
      assert [[p[0]] + rest[0]] + rest[1..] == [p] + parts[1..];
      assert [p] + parts[1..] == parts;
    }
  }

  predicate NonEmpty(s: string) { s != [] }

  /** `expression.split("/").filter { it.isNotEmpty() }`: every segment is a
      non-empty name free of `/`. */
  function Segments(expr: string): (r: seq<string>)
    ensures forall i | 0 <= i < |r| :: r[i] != "" && '/' !in r[i]
  {
    var pieces := Split(expr, '/');
    Seqs.FilterSatisfies(pieces, NonEmpty);
    SegmentsInPieces(pieces);
    Seqs.Filter(pieces, NonEmpty)
  }

  /** Dropping the empty pieces keeps every piece free of `/`. */
  lemma {:induction false} SegmentsInPieces(pieces: seq<string>)
    requires forall i | 0 <= i < |pieces| :: '/' !in pieces[i]
    ensures forall i | 0 <= i < |Seqs.Filter(pieces, NonEmpty)| :: '/' !in Seqs.Filter(pieces, NonEmpty)[i]
  {
    if pieces != [] {
      assert forall i | 0 <= i < |pieces[1..]| :: pieces[1..][i] == pieces[i + 1];
      SegmentsInPieces(pieces[1..]);
    }
  }

  /** Non-empty names without `/`, joined by `/`, come back as the
      segments. */
  lemma SegmentsOfJoin(parts: seq<string>)
    requires |parts| >= 1
    requires forall i | 0 <= i < |parts| :: parts[i] != "" && '/' !in parts[i]
    ensures Segments(Join(parts, '/')) == parts
  {
    SplitJoin(parts, '/');
    Seqs.FilterAll(parts, NonEmpty);
  }

  // ---------------------------------------------------------------------
  // The search, as functions
  // ---------------------------------------------------------------------

  /** searchPath(entity, i) (src/Main.kt:373-395). */
  function PathMatches(e: Element, parts: seq<string>, i: nat): (r: seq<Element>)
    ensures i >= |parts| ==> r == []
    ensures forall x | x in r :: x in Subtree(e)
    decreases e, 1
  {
    if i >= |parts| then []
    else if e.name == parts[i] then
      if i == |parts| - 1 then Subtree(e) else PathMatchesForest(e.daughters, parts, i + 1)
    else PathMatchesForest(e.daughters, parts, i)
  }

  /** searchPath on each entity of `f` in order, all with the same index. */
  function PathMatchesForest(f: seq<Element>, parts: seq<string>, i: nat): (r: seq<Element>)
    ensures forall x | x in r :: x in SubtreeForest(f)
    decreases f
  {
    if f == [] then []
    else PathMatchesForest(f[..|f| - 1], parts, i) + PathMatches(f[|f| - 1], parts, i)
  }

  /** collectDescendants (src/Main.kt:398-403): the entity, then its
      descendants in pre-order. */
  function Subtree(e: Element): (r: seq<Element>)
    ensures |r| >= 1 && r[0] == e
    decreases e, 1
  {
    [e] + SubtreeForest(e.daughters)
  }

  function SubtreeForest(f: seq<Element>): seq<Element>
    decreases f
  {
    if f == [] then [] else SubtreeForest(f[..|f| - 1]) + Subtree(f[|f| - 1])
  }

  /** The collected entities are the pre-order listing of the subtree: one
      per entity, each with the data and the daughter count the listing
      records at its place. */
  lemma {:induction false} SubtreeIsPreorder(e: Element)
    ensures |Subtree(e)| == |Preorder(e)|
    ensures forall k | 0 <= k < |Subtree(e)| :: Info(Subtree(e)[k]) == Preorder(e)[k]
    decreases e, 1
  {
    SubtreeForestIsPreorder(e.daughters);
  }

  lemma {:induction false} SubtreeForestIsPreorder(f: seq<Element>)
    ensures |SubtreeForest(f)| == |PreorderForest(f)|
    ensures forall k | 0 <= k < |SubtreeForest(f)| :: Info(SubtreeForest(f)[k]) == PreorderForest(f)[k]
    decreases f
  {
    if f != [] {
      PreorderForestSnoc(f);
      SubtreeForestIsPreorder(f[..|f| - 1]);
      SubtreeIsPreorder(f[|f| - 1]);
    }
  }

  /** queryXPath (src/Main.kt:64-72). */
  function Query(roots: seq<Element>, expr: string): (r: seq<Element>)
    ensures Segments(expr) == [] ==> r == []
    ensures forall x | x in r :: x in SubtreeForest(roots)
  {
    var parts := Segments(expr);
    if parts == [] then [] else PathMatchesForest(roots, parts, 0)
  }

  // ---------------------------------------------------------------------
  // What the search computes: a filter of the pre-order walk
  // ---------------------------------------------------------------------

  /** One step of the walk: an entity with the names from its root down to
      itself. */
  datatype Visit = Visit(path: seq<string>, entity: Element)

  /** The pre-order walk of `e`, whose ancestors are named `above`. */
  function Walk(e: Element, above: seq<string>): seq<Visit>
    decreases e, 1
  {
    [Visit(above + [e.name], e)] + WalkForest(e.daughters, above + [e.name])
  }

  function WalkForest(f: seq<Element>, above: seq<string>): seq<Visit>
    decreases f
  {
    if f == [] then [] else WalkForest(f[..|f| - 1], above) + Walk(f[|f| - 1], above)
  }

  function Entities(w: seq<Visit>): (r: seq<Element>)
    ensures |r| == |w| && forall k | 0 <= k < |w| :: r[k] == w[k].entity
  {
    seq(|w|, k requires 0 <= k < |w| => w[k].entity)
  }

  /** The index the search holds after the names `names`, starting from `i`:
      it moves on by one exactly at a name equal to the current segment. */
  function Advance(parts: seq<string>, i: nat, name: string): nat {
    if i < |parts| && parts[i] == name then i + 1 else i
  }

  function Run(parts: seq<string>, i: nat, names: seq<string>): nat
    decreases |names|
  {
    if names == [] then i else Run(parts, Advance(parts, i, names[0]), names[1..])
  }

  lemma {:induction false} RunConcat(parts: seq<string>, i: nat, a: seq<string>, b: seq<string>)
    ensures Run(parts, i, a + b) == Run(parts, Run(parts, i, a), b)
    decreases |a|
  {
    if a == [] {
      assert a + b == b;
    } else {
      assert (a + b)[0] == a[0];
      assert (a + b)[1..] == a[1..] + b;
      RunConcat(parts, Advance(parts, i, a[0]), a[1..], b);
    }
  }

  /** The greedy scan is a subsequence test: from segment `i` it reaches
      the end of the segments exactly when they occur, in order, among the
      names. */
  lemma {:induction false} RunIsSubsequenceTest(parts: seq<string>, i: nat, names: seq<string>)
    requires i <= |parts|
    ensures Run(parts, i, names) <= |parts|
    ensures Run(parts, i, names) == |parts| <==> Seqs.IsSubsequence(parts[i..], names)
    decreases |names|
  {
    if names != [] {
      var j := Advance(parts, i, names[0]);
      RunIsSubsequenceTest(parts, j, names[1..]);
      if i < |parts| && parts[i] == names[0] {
        assert parts[i..][1..] == parts[j..];
      }
    }
  }

  function Full(parts: seq<string>): Visit -> bool {
    (v: Visit) => Run(parts, 0, v.path) == |parts|
  }

  lemma EntitiesConcat(a: seq<Visit>, b: seq<Visit>)
    ensures Entities(a + b) == Entities(a) + Entities(b)
  {
  }

  lemma {:induction false} WalkIsSubtree(e: Element, above: seq<string>)
    ensures Entities(Walk(e, above)) == Subtree(e)
    decreases e, 1
  {
    WalkForestIsSubtreeForest(e.daughters, above + [e.name]);
    EntitiesConcat([Visit(above + [e.name], e)], WalkForest(e.daughters, above + [e.name]));
  }

  lemma {:induction false} WalkForestIsSubtreeForest(f: seq<Element>, above: seq<string>)
    ensures Entities(WalkForest(f, above)) == SubtreeForest(f)
    decreases f
  {
    if f != [] {
      var last := f[|f| - 1];
      assert last in f;
      WalkForestIsSubtreeForest(f[..|f| - 1], above);
      WalkIsSubtree(last, above);
      EntitiesConcat(WalkForest(f[..|f| - 1], above), Walk(last, above));
    }
  }

  /** Below a full match every visit is kept. */
  lemma {:induction false} AllFull(e: Element, parts: seq<string>, above: seq<string>)
    requires Run(parts, 0, above + [e.name]) == |parts|
    ensures Seqs.Filter(Walk(e, above), Full(parts)) == Walk(e, above)
    decreases e, 1
  {
    var here := Visit(above + [e.name], e);
    AllFullForest(e.daughters, parts, above + [e.name]);
    Seqs.FilterConcat([here], WalkForest(e.daughters, above + [e.name]), Full(parts));
  }

  lemma {:induction false} AllFullForest(f: seq<Element>, parts: seq<string>, above: seq<string>)
    requires Run(parts, 0, above) == |parts|
    ensures Seqs.Filter(WalkForest(f, above), Full(parts)) == WalkForest(f, above)
    decreases f
  {
    if f != [] {
      var last := f[|f| - 1];
      assert last in f;
      RunConcat(parts, 0, above, [last.name]);
      AllFullForest(f[..|f| - 1], parts, above);
      AllFull(last, parts, above);
      Seqs.FilterConcat(WalkForest(f[..|f| - 1], above), Walk(last, above), Full(parts));
    }
  }

  /** The search from the index the ancestors leave returns the visits of
      the subtree whose names complete the segments. */
  lemma {:induction false} PathMatchesIsFilter(e: Element, parts: seq<string>, above: seq<string>)
    requires Run(parts, 0, above) < |parts|
    ensures PathMatches(e, parts, Run(parts, 0, above))
         == Entities(Seqs.Filter(Walk(e, above), Full(parts)))
    decreases e, 1
  {
    var i := Run(parts, 0, above);
    var below := above + [e.name];
    var here := Visit(below, e);
    RunConcat(parts, 0, above, [e.name]);
    assert Run(parts, 0, below) == Advance(parts, i, e.name);
    Seqs.FilterConcat([here], WalkForest(e.daughters, below), Full(parts));
    if e.name == parts[i] && i == |parts| - 1 {
      AllFull(e, parts, above);
      WalkIsSubtree(e, above);
    } else {
      assert Seqs.Filter([here], Full(parts)) == [];
      PathMatchesForestIsFilter(e.daughters, parts, below);
    }
  }

  lemma {:induction false} PathMatchesForestIsFilter(f: seq<Element>, parts: seq<string>, above: seq<string>)
    requires Run(parts, 0, above) < |parts|
    ensures PathMatchesForest(f, parts, Run(parts, 0, above))
         == Entities(Seqs.Filter(WalkForest(f, above), Full(parts)))
    decreases f
  {
    if f != [] {
      var last := f[|f| - 1];
      assert last in f;
      PathMatchesForestIsFilter(f[..|f| - 1], parts, above);
      PathMatchesIsFilter(last, parts, above);
      Seqs.FilterConcat(WalkForest(f[..|f| - 1], above), Walk(last, above), Full(parts));
      EntitiesConcat(Seqs.Filter(WalkForest(f[..|f| - 1], above), Full(parts)),
                     Seqs.Filter(Walk(last, above), Full(parts)));
    }
  }

  lemma {:induction false} FilterSame<T>(s: seq<T>, p: T -> bool, q: T -> bool)
    requires forall i | 0 <= i < |s| :: p(s[i]) == q(s[i])
    ensures Seqs.Filter(s, p) == Seqs.Filter(s, q)
  {
    if s != [] {
      assert forall i | 0 <= i < |s[1..]| :: s[1..][i] == s[i + 1];
      FilterSame(s[1..], p, q);
    }
  }

  /** The query returns, in document pre-order, every entity whose names
      from its root down to itself contain the segments in order (not
      necessarily adjacent, and not necessarily starting at the root); a
      query without segments returns nothing. */
  lemma QueryIsFilteredWalk(roots: seq<Element>, expr: string)
    ensures Segments(expr) == [] ==> Query(roots, expr) == []
    ensures Segments(expr) != [] ==>
      Query(roots, expr)
      == Entities(Seqs.Filter(WalkForest(roots, []),
                              (v: Visit) => Seqs.IsSubsequence(Segments(expr), v.path)))
  {
    var parts := Segments(expr);
    if parts != [] {
      PathMatchesForestIsFilter(roots, parts, []);
      var w := WalkForest(roots, []);
      forall i | 0 <= i < |w|
        ensures Full(parts)(w[i]) == Seqs.IsSubsequence(parts, w[i].path)
      {
        RunIsSubsequenceTest(parts, 0, w[i].path);
        assert parts[0..] == parts;
      }
      FilterSame(w, Full(parts), (v: Visit) => Seqs.IsSubsequence(parts, v.path));
    }
  }

  // ---------------------------------------------------------------------
  // XPathQueryVisitor
  // ---------------------------------------------------------------------

  class XPathQueryVisitor {
    const parts: seq<string>
    /** The entities matched so far, in the order found. */
    var matchingEntities: seq<Element>

    constructor (parts: seq<string>)
      ensures this.parts == parts && matchingEntities == []
    {
      this.parts := parts;
      matchingEntities := [];
    }

    /** visit(Document): searches each root from the first segment. */
    method VisitDocument(roots: seq<Element>)
      modifies this
      ensures matchingEntities == old(matchingEntities) + PathMatchesForest(roots, parts, 0)
    {
      ghost var start := matchingEntities;
      var i := 0;
      while i < |roots|
        invariant 0 <= i <= |roots|
        invariant matchingEntities == start + PathMatchesForest(roots[..i], parts, 0)
      {
        SearchPath(roots[i], 0);
        assert roots[..i + 1][..i] == roots[..i];
        i := i + 1;
      }
      assert roots[..|roots|] == roots;
    }

    /** searchPath (src/Main.kt:373-395). */
    method SearchPath(e: Element, i: nat)
      modifies this
      ensures matchingEntities == old(matchingEntities) + PathMatches(e, parts, i)
      decreases e, 1
    {
      if i >= |parts| {
        return;
      }
      if e.name == parts[i] {
        if i == |parts| - 1 {
          CollectDescendants(e);
        } else {
          SearchDaughters(e, i + 1);
        }
      } else {
        SearchDaughters(e, i);
      }
    }

    /** The loops of searchPath over the daughters, with index `i`. */
    method SearchDaughters(e: Element, i: nat)
      modifies this
      ensures matchingEntities == old(matchingEntities) + PathMatchesForest(e.daughters, parts, i)
      decreases e, 0
    {
      ghost var start := matchingEntities;
      var k := 0;
      while k < |e.daughters|
        invariant 0 <= k <= |e.daughters|
        invariant matchingEntities == start + PathMatchesForest(e.daughters[..k], parts, i)
      {
        assert e.daughters[k] in e.daughters;
        SearchPath(e.daughters[k], i);
        assert e.daughters[..k + 1][..k] == e.daughters[..k];
        k := k + 1;
      }
      assert e.daughters[..|e.daughters|] == e.daughters;
    }

    /** collectDescendants (src/Main.kt:398-403). */
    method CollectDescendants(e: Element)
      modifies this
      ensures matchingEntities == old(matchingEntities) + Subtree(e)
      decreases e, 1
    {
      ghost var start := matchingEntities;
      matchingEntities := matchingEntities + [e];
      CollectDaughters(e);
    }

    method CollectDaughters(e: Element)
      modifies this
      ensures matchingEntities == old(matchingEntities) + SubtreeForest(e.daughters)
      decreases e, 0
    {
      ghost var start := matchingEntities;
      var k := 0;
      while k < |e.daughters|
        invariant 0 <= k <= |e.daughters|
        invariant matchingEntities == start + SubtreeForest(e.daughters[..k])
      {
        assert e.daughters[k] in e.daughters;
        CollectDescendants(e.daughters[k]);
        assert e.daughters[..k + 1][..k] == e.daughters[..k];
        k := k + 1;
      }
      assert e.daughters[..|e.daughters|] == e.daughters;
    }
  }
}
