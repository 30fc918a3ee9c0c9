/** The tree model of src/Main.kt:9-195: entities with a name, optional text,
    an ordered attribute list and an ordered list of daughters, the
    entity-local mutations as functions from the old entity to the new one,
    and the mother back-reference and depth of src/Main.kt:505-527, stated on
    positions in a forest. */
module Tree {
  import opened Wrappers
  import opened Names
  import Seqs

  /** An attribute of an entity (src/Main.kt:189). */
  datatype Attribute = Attribute(name: string, value: string)

  /** An entity (src/Main.kt:99-113). `text` is Kotlin's `String?`. */
  datatype Element = Element(
    name: string,
    text: Option<string>,
    attributes: seq<Attribute>,
    daughters: seq<Element>)

  /** The exceptions the core raises. */
  datatype Error =
    | EntityNotFound                  // EntityNotFoundException
    | InvalidEntityName(name: string) // IllegalArgumentException from the name check
    | UnnamedClass                    // IllegalArgumentException "Class must have a name"
    | NotAList(field: string)         // the failing `value as List<*>` cast of the mapper

  /** `Entity(name, text)`: the constructor runs the name check before the
      entity exists (src/Main.kt:99-104). */
  function NewEntity(name: string, text: Option<string>): (r: Result<Element, Error>)
    ensures r.Ok? <==> ValidName(name)
    ensures r.Ok? ==> r.value == Element(name, text, [], [])
    ensures r.Err? ==> r.error == InvalidEntityName(name)
  {
    match ValidateEntityName(name)
    case Pass => Ok(Element(name, text, [], []))
    case Fail(n) => Err(InvalidEntityName(n))
  }

  // ---------------------------------------------------------------------
  // Entity-local mutations (src/Main.kt:116-145)
  // ---------------------------------------------------------------------

  predicate NamedAttribute(n: string, a: Attribute) { a.name == n }

  predicate Named(n: string, e: Element) { e.name == n }

  predicate HasAttribute(e: Element, n: string) {
    exists i | 0 <= i < |e.attributes| :: e.attributes[i].name == n
  }

  /** addAttribute: appends, with no check for an existing name. */
  function WithAttribute(e: Element, n: string, v: string): (r: Element)
    ensures r.name == e.name && r.text == e.text && r.daughters == e.daughters
    ensures |r.attributes| == |e.attributes| + 1 && r.attributes[..|e.attributes|] == e.attributes
    ensures r.attributes[|e.attributes|] == Attribute(n, v) && HasAttribute(r, n)
  {
    e.(attributes := e.attributes + [Attribute(n, v)])
  }

  /** The test that keeps an attribute through `removeAttribute(n)`. */
  function NotNamed(n: string): Attribute -> bool {
    (a: Attribute) => !NamedAttribute(n, a)
  }

  /** The test that keeps a root through `removeEntity(n)`. */
  function NotCalled(n: string): Element -> bool {
    (e: Element) => !Named(n, e)
  }

  /** The attribute list left by `removeAttribute(n)`: filter, then removeAll. */
  function AttributesWithout(attrs: seq<Attribute>, n: string): seq<Attribute> {
    Seqs.Filter(attrs, NotNamed(n))
  }

  /** removeAttribute (src/Main.kt:121-127): every attribute with the name
      goes, the others stay in order; with no match the entity is unchanged
      and EntityNotFoundException is raised. */
  function RemoveAttribute(e: Element, n: string): (r: Result<Element, Error>)
    ensures r.Err? <==> !HasAttribute(e, n)
    ensures r.Err? ==> r.error == EntityNotFound
    ensures r.Ok? ==>
      && r.value.name == e.name && r.value.text == e.text && r.value.daughters == e.daughters
      && (forall i | 0 <= i < |r.value.attributes| :: r.value.attributes[i].name != n)
      && (forall a: Attribute | a.name != n ::
            multiset(r.value.attributes)[a] == multiset(e.attributes)[a])
      && Seqs.IsSubsequence(r.value.attributes, e.attributes)
  {
    if !HasAttribute(e, n) then Err(EntityNotFound)
    else
      var keep := NotNamed(n);
      Seqs.FilterSatisfies(e.attributes, keep);
      Seqs.FilterCounts(e.attributes, keep);
      Seqs.FilterIsSubsequence(e.attributes, keep);
      Ok(e.(attributes := AttributesWithout(e.attributes, n)))
  }

  /** The attribute list after `editAttribute(o, nn, nv)`: each attribute
      named `o` is replaced at its own index by a fresh (nn, nv) attribute. */
  function EditedAttributes(attrs: seq<Attribute>, o: string, nn: string, nv: string): seq<Attribute> {
    seq(|attrs|, i requires 0 <= i < |attrs| =>
      if attrs[i].name == o then Attribute(nn, nv) else attrs[i])
  }

  /** editAttribute (src/Main.kt:130-139). */
  function EditAttribute(e: Element, o: string, nn: string, nv: string): (r: Result<Element, Error>)
    ensures r.Err? <==> !HasAttribute(e, o)
    ensures r.Err? ==> r.error == EntityNotFound
    ensures r.Ok? ==>
      && r.value.name == e.name && r.value.text == e.text && r.value.daughters == e.daughters
      && |r.value.attributes| == |e.attributes|
      && (forall i | 0 <= i < |e.attributes| ::
            r.value.attributes[i] == if e.attributes[i].name == o then Attribute(nn, nv) else e.attributes[i])
  {
    if !HasAttribute(e, o) then Err(EntityNotFound)
    else Ok(e.(attributes := EditedAttributes(e.attributes, o, nn, nv)))
  }

  /** addDaughterEntity (src/Main.kt:142-145): appends at the end. */
  function AddDaughter(e: Element, d: Element): (r: Element)
    ensures r.name == e.name && r.text == e.text && r.attributes == e.attributes
    ensures |r.daughters| == |e.daughters| + 1 && r.daughters[..|e.daughters|] == e.daughters
    ensures r.daughters[|e.daughters|] == d
  {
    e.(daughters := e.daughters + [d])
  }

  /** Removing `n` undoes adding `n` to an entity that had no attribute `n`. */
  lemma RemoveUndoesAdd(e: Element, n: string, v: string)
    requires !HasAttribute(e, n)
    ensures RemoveAttribute(WithAttribute(e, n, v), n) == Ok(e)
  {
    var added := WithAttribute(e, n, v);
    assert added.attributes[|e.attributes|].name == n;
    assert HasAttribute(added, n);
    var keep := NotNamed(n);
    Seqs.FilterConcat(e.attributes, [Attribute(n, v)], keep);
    Seqs.FilterAll(e.attributes, keep);
    assert Seqs.Filter([Attribute(n, v)], keep) == [];
    assert AttributesWithout(added.attributes, n) == e.attributes;
  }

  /** After a successful edit the old name survives only if it was also the
      new one, and the new pair is present. */
  lemma EditReplacesName(e: Element, o: string, nn: string, nv: string)
    requires HasAttribute(e, o)
    ensures EditAttribute(e, o, nn, nv).Ok?
    ensures var r := EditAttribute(e, o, nn, nv).value;
            HasAttribute(r, o) <==> nn == o
    ensures var r := EditAttribute(e, o, nn, nv).value;
            Attribute(nn, nv) in r.attributes
  {
    var r := EditAttribute(e, o, nn, nv).value;
    var i :| 0 <= i < |e.attributes| && e.attributes[i].name == o;
    assert r.attributes[i] == Attribute(nn, nv);
  }

  // ---------------------------------------------------------------------
  // Mother back-reference and depth (src/Main.kt:154-160, 505-527)
  // ---------------------------------------------------------------------

  /** A position in a forest: the index of a root, then daughter indices. */
  type Path = seq<nat>

  function Descend(e: Element, q: Path): Option<Element>
    decreases q
  {
    if q == [] then Some(e)
    else if q[0] < |e.daughters| then Descend(e.daughters[q[0]], q[1..])
    else None
  }

  /** The entity at position `p`, if any. */
  function EntityAt(roots: seq<Element>, p: Path): Option<Element> {
    if p == [] || p[0] >= |roots| then None else Descend(roots[p[0]], p[1..])
  }

  /** The position of the mother: the entity whose daughter list holds the
      one at `p`. A root has none. */
  function MotherPath(p: Path): Option<Path> {
    if |p| <= 1 then None else Some(p[..|p| - 1])
  }

  /** `Entity.depth`: 0 without a mother, otherwise 1 + the mother's depth;
      that is the nesting level, one less than the length of the position. */
  function Depth(p: Path): (r: nat)
    ensures p != [] ==> r == |p| - 1
    decreases |p|
  {
    match MotherPath(p)
    case None => 0
    case Some(m) => 1 + Depth(m)
  }

  /** `Attribute.depth`: 0 without an owner, otherwise 1 + the owner's depth,
      which is the length of the owner's position. */
  function AttributeDepth(owner: Option<Path>): (r: nat)
    ensures owner.None? ==> r == 0
    ensures owner.Some? && owner.value != [] ==> r == |owner.value|
  {
    match owner
    case None => 0
    case Some(p) => 1 + Depth(p)
  }

  /** How many times `accessMotherEntity` succeeds when followed upwards
      from the entity at `p` until it throws at a root. */
  function MotherChainLength(roots: seq<Element>, p: Path): nat
    requires EntityAt(roots, p).Some?
    decreases |p|
  {
    var mother := AccessMotherEntity(roots, p);
    if mother.Err? then 0 else 1 + MotherChainLength(roots, p[..|p| - 1])
  }

  /** `Entity.depth` counts the mother chain: the depth of the entity at `p`
      is the number of mothers reached before a root. */
  lemma {:induction false} DepthIsMotherChainLength(roots: seq<Element>, p: Path)
    requires EntityAt(roots, p).Some?
    ensures Depth(p) == MotherChainLength(roots, p)
    decreases |p|
  {
    if |p| > 1 {
      var mother := AccessMotherEntity(roots, p);
      DepthIsMotherChainLength(roots, p[..|p| - 1]);
    }
  }

  lemma {:induction false} DescendAppend(e: Element, q: Path, k: nat)
    ensures Descend(e, q + [k]) ==
      match Descend(e, q)
      case None => None
      case Some(m) => if k < |m.daughters| then Some(m.daughters[k]) else None
    decreases q
  {
    if q != [] {
      assert (q + [k])[1..] == q[1..] + [k];
      if q[0] < |e.daughters| {
        DescendAppend(e.daughters[q[0]], q[1..], k);
      }
    }
  }

  /** accessMotherEntity (src/Main.kt:154-160): EntityNotFoundException for a
      root; otherwise the entity whose daughter list holds this one, at the
      index the position names. */
  function AccessMotherEntity(roots: seq<Element>, p: Path): (r: Result<Element, Error>)
    requires EntityAt(roots, p).Some?
    ensures r.Err? <==> |p| == 1
    ensures r.Err? ==> r.error == EntityNotFound
    ensures r.Ok? ==>
      && EntityAt(roots, p[..|p| - 1]) == Some(r.value)
      && p[|p| - 1] < |r.value.daughters|
      && r.value.daughters[p[|p| - 1]] == EntityAt(roots, p).value
  {
    match MotherPath(p)
    case None => Err(EntityNotFound)
    case Some(m) =>
      var k := p[|p| - 1];
      assert p == m + [k];
      assert p[1..] == m[1..] + [k];
      DescendAppend(roots[p[0]], m[1..], k);
      Ok(EntityAt(roots, m).value)
  }

  /** The forest with the entity at `p` replaced by `x`. */
  function ReplaceAt(roots: seq<Element>, p: Path, x: Element): seq<Element>
    decreases p
  {
    if p == [] || p[0] >= |roots| then roots
    else roots[p[0] := ReplaceIn(roots[p[0]], p[1..], x)]
  }

  function ReplaceIn(e: Element, q: Path, x: Element): Element
    decreases q
  {
    if q == [] then x
    else if q[0] < |e.daughters| then
      e.(daughters := e.daughters[q[0] := ReplaceIn(e.daughters[q[0]], q[1..], x)])
    else e
  }

  lemma {:induction false} DescendReplaceIn(e: Element, q: Path, x: Element, r: Path)
    requires Descend(e, q).Some?
    ensures Descend(ReplaceIn(e, q, x), q + r) == Descend(x, r)
    decreases q
  {
    if q == [] {
      assert q + r == r;
    } else {
      assert (q + r)[1..] == q[1..] + r;
      DescendReplaceIn(e.daughters[q[0]], q[1..], x, r);
    }
  }

  /** addDaughterEntity sets the daughter's mother: once the entity at `p`
      has `d` appended, `d` sits at the next daughter index below `p`, its
      mother is the updated entity, and its depth is one more. */
  lemma AddDaughterSetsMother(roots: seq<Element>, p: Path, d: Element)
    requires EntityAt(roots, p).Some?
    ensures var m := AddDaughter(EntityAt(roots, p).value, d);
            var roots' := ReplaceAt(roots, p, m);
            var q := p + [|m.daughters| - 1];
            && EntityAt(roots', q) == Some(d)
            && EntityAt(roots', p) == Some(m)
            && AccessMotherEntity(roots', q) == Ok(m)
            && Depth(q) == 1 + Depth(p)
  {
    var m := AddDaughter(EntityAt(roots, p).value, d);
    var roots' := ReplaceAt(roots, p, m);
    var k := |m.daughters| - 1;
    var q := p + [k];
    DescendReplaceIn(roots[p[0]], p[1..], m, []);
    assert p[1..] + [] == p[1..];
    DescendReplaceIn(roots[p[0]], p[1..], m, [k]);
    assert q[1..] == p[1..] + [k];
    assert Descend(m, [k]) == Some(d);
    assert q[..|q| - 1] == p;
  }

  // ---------------------------------------------------------------------
  // Pre-order view of a forest
  // ---------------------------------------------------------------------

  /** What one entity contributes to the pre-order listing: its own data and
      how many daughters follow it. */
  datatype NodeInfo = NodeInfo(name: string, text: Option<string>, attributes: seq<Attribute>, arity: nat)

  function Info(e: Element): NodeInfo {
    NodeInfo(e.name, e.text, e.attributes, |e.daughters|)
  }

  function Preorder(e: Element): seq<NodeInfo>
    decreases e
  {
    [Info(e)] + PreorderForest(e.daughters)
  }

  function PreorderForest(f: seq<Element>): seq<NodeInfo>
    decreases f
  {
    if f == [] then [] else Preorder(f[0]) + PreorderForest(f[1..])
  }

  /** The listing of a forest is the listing of all but its last tree,
      followed by the listing of the last one. */
  lemma {:induction false} PreorderForestSnoc(f: seq<Element>)
    requires f != []
    ensures PreorderForest(f) == PreorderForest(f[..|f| - 1]) + Preorder(f[|f| - 1])
    decreases |f|
  {
    if |f| > 1 {
      var init := f[..|f| - 1];
      PreorderForestSnoc(f[1..]);
      assert f[1..][..|f[1..]| - 1] == init[1..];
      assert init[0] == f[0];
      assert f[1..][|f[1..]| - 1] == f[|f| - 1];
      Seqs.Assoc(Preorder(f[0]), PreorderForest(init[1..]), Preorder(f[|f| - 1]));
    } else {
      assert f[1..] == [] && f[..0] == [];
    }
  }

  /** Rebuilds `n` trees from the front of a pre-order listing, returning
      them with the unread rest. */
  function DecodeForest(s: seq<NodeInfo>, n: nat): (r: Option<(seq<Element>, seq<NodeInfo>)>)
    ensures r.Some? ==> |r.value.1| <= |s| && |r.value.0| == n
    decreases |s|, n
  {
    if n == 0 then Some(([], s))
    else if s == [] then None
    else
      match DecodeForest(s[1..], s[0].arity)
      case None => None
      case Some(kidsRest) =>
        var (kids, rest) := kidsRest;
        match DecodeForest(rest, n - 1)
        case None => None
        case Some(moreRest) =>
          Some(([Element(s[0].name, s[0].text, s[0].attributes, kids)] + moreRest.0, moreRest.1))
  }

  /** The pre-order listing loses nothing: decoding it gives the forest back. */
  lemma {:induction false} DecodePreorder(f: seq<Element>, rest: seq<NodeInfo>)
    ensures DecodeForest(PreorderForest(f) + rest, |f|) == Some((f, rest))
    decreases f
  {
    if f != [] {
      var e := f[0];
      assert e in f;
      var tail := PreorderForest(f[1..]) + rest;
      var s := PreorderForest(f) + rest;
      calc {
        s;
        Preorder(e) + PreorderForest(f[1..]) + rest;
        [Info(e)] + PreorderForest(e.daughters) + PreorderForest(f[1..]) + rest;
        [Info(e)] + (PreorderForest(e.daughters) + tail);
      }
      assert s[0] == Info(e);
      assert s[1..] == PreorderForest(e.daughters) + tail;
      DecodePreorder(e.daughters, tail);
      DecodePreorder(f[1..], rest);
      assert DecodeForest(s[1..], s[0].arity) == Some((e.daughters, tail));
      assert DecodeForest(tail, |f| - 1) == Some((f[1..], rest));
      assert Element(e.name, e.text, e.attributes, e.daughters) == e;
      assert [e] + f[1..] == f;
      assert DecodeForest(s, |f|) == Some(([e] + f[1..], rest));
    } else {
      assert PreorderForest(f) + rest == rest;
    }
  }

  /** Two forests with the same number of trees and the same pre-order
      listing are equal. */
  lemma PreorderInjective(f: seq<Element>, g: seq<Element>)
    requires |f| == |g| && PreorderForest(f) == PreorderForest(g)
    ensures f == g
  {
    DecodePreorder(f, []);
    DecodePreorder(g, []);
    assert PreorderForest(f) + [] == PreorderForest(f);
    assert PreorderForest(g) + [] == PreorderForest(g);
  }
}
