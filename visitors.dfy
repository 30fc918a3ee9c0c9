/** The four global visitors of src/Main.kt:267-357. Each keeps its own
    traversal: entity rename and attribute rename/removal walk the whole
    tree (every match, resp. the first matching attribute of each owner),
    entity removal looks at the root list only and removes its first match.
    Every one of them is a no-op when nothing matches. */
module Visitors {
  import opened Wrappers
  import opened Tree
  import Seqs

  // ---------------------------------------------------------------------
  // Relabelling: the pre-order listing changes node by node, shape kept
  // ---------------------------------------------------------------------

  /** `after` is `before` with `g` applied to each node's data. Because the
      listing carries every node's number of daughters, this also says that
      the tree shape is unchanged. */
  ghost predicate Relabels(before: seq<NodeInfo>, after: seq<NodeInfo>, g: NodeInfo -> NodeInfo) {
    |after| == |before| && forall k | 0 <= k < |before| :: after[k] == g(before[k])
  }

  lemma RelabelsConcat(a1: seq<NodeInfo>, a2: seq<NodeInfo>, b1: seq<NodeInfo>, b2: seq<NodeInfo>,
                       g: NodeInfo -> NodeInfo)
    requires Relabels(a1, b1, g) && Relabels(a2, b2, g)
    ensures Relabels(a1 + a2, b1 + b2, g)
  {
    forall k | 0 <= k < |a1 + a2| ensures (b1 + b2)[k] == g((a1 + a2)[k]) {
      if k >= |a1| {
        assert (b1 + b2)[k] == b2[k - |a1|];
        assert (a1 + a2)[k] == a2[k - |a1|];
      }
    }
  }

  /** A listing that `g` leaves untouched node by node belongs to a forest
      the operation leaves untouched. */
  lemma RelabelIdentity(f: seq<Element>, f': seq<Element>, g: NodeInfo -> NodeInfo)
    requires |f'| == |f|
    requires Relabels(PreorderForest(f), PreorderForest(f'), g)
    requires forall k | 0 <= k < |PreorderForest(f)| :: g(PreorderForest(f)[k]) == PreorderForest(f)[k]
    ensures f' == f
  {
    assert PreorderForest(f') == PreorderForest(f);
    PreorderInjective(f, f');
  }

  // ---------------------------------------------------------------------
  // EntityRenamingVisitor (src/Main.kt:268-285)
  // ---------------------------------------------------------------------

  function RenamedEntity(e: Element, o: string, n: string): (r: Element)
    ensures r.name == (if e.name == o then n else e.name)
    ensures r.text == e.text && r.attributes == e.attributes && |r.daughters| == |e.daughters|
    ensures forall k | 0 <= k < |e.daughters| :: r.daughters[k] == RenamedEntity(e.daughters[k], o, n)
    decreases e
  {
    Element(if e.name == o then n else e.name, e.text, e.attributes, RenamedForest(e.daughters, o, n))
  }

  function RenamedForest(f: seq<Element>, o: string, n: string): (r: seq<Element>)
    ensures |r| == |f|
    ensures forall i | 0 <= i < |f| :: r[i] == RenamedEntity(f[i], o, n)
    decreases f
  {
    if f == [] then [] else [RenamedEntity(f[0], o, n)] + RenamedForest(f[1..], o, n)
  }

  function RenameInfo(x: NodeInfo, o: string, n: string): NodeInfo {
    x.(name := if x.name == o then n else x.name)
  }

  lemma {:induction false} RenamedEntityPreorder(e: Element, o: string, n: string)
    ensures Relabels(Preorder(e), Preorder(RenamedEntity(e, o, n)), x => RenameInfo(x, o, n))
    decreases e
  {
    RenamedForestPreorder(e.daughters, o, n);
    RelabelsConcat([Info(e)], PreorderForest(e.daughters),
                   [Info(RenamedEntity(e, o, n))], PreorderForest(RenamedForest(e.daughters, o, n)),
                   x => RenameInfo(x, o, n));
  }

  lemma {:induction false} RenamedForestPreorder(f: seq<Element>, o: string, n: string)
    ensures Relabels(PreorderForest(f), PreorderForest(RenamedForest(f, o, n)), x => RenameInfo(x, o, n))
    decreases f
  {
    if f != [] {
      var r := RenamedForest(f, o, n);
      assert r[1..] == RenamedForest(f[1..], o, n);
      RenamedEntityPreorder(f[0], o, n);
      RenamedForestPreorder(f[1..], o, n);
      RelabelsConcat(Preorder(f[0]), PreorderForest(f[1..]),
                     Preorder(r[0]), PreorderForest(r[1..]), x => RenameInfo(x, o, n));
    }
  }

  /** renameEntity: every entity anywhere in the tree called `o` is now
      called `n`; every other name, every text, every attribute list and the
      shape of the tree are unchanged. */
  lemma RenameEntityEffect(roots: seq<Element>, o: string, n: string)
    ensures var before, after := PreorderForest(roots), PreorderForest(RenamedForest(roots, o, n));
      && |after| == |before|
      && forall k | 0 <= k < |before| ::
           && after[k].name == (if before[k].name == o then n else before[k].name)
           && after[k].text == before[k].text
           && after[k].attributes == before[k].attributes
           && after[k].arity == before[k].arity
  {
    RenamedForestPreorder(roots, o, n);
  }

  /** renameEntity with a name that occurs nowhere changes nothing. */
  lemma RenameEntityMissIsNoOp(roots: seq<Element>, o: string, n: string)
    requires forall k | 0 <= k < |PreorderForest(roots)| :: PreorderForest(roots)[k].name != o
    ensures RenamedForest(roots, o, n) == roots
  {
    RenamedForestPreorder(roots, o, n);
    RelabelIdentity(roots, RenamedForest(roots, o, n), x => RenameInfo(x, o, n));
  }

  /** The rename does not re-run the constructor's name check: a tree whose
      names are all valid can be renamed into one that has an invalid name. */
  lemma RenameSkipsNameCheck()
    ensures var roots := [Element("entity1", None, [], [])];
      && Names.ValidName(roots[0].name)
      && !Names.ValidName(RenamedForest(roots, "entity1", "1-bad name")[0].name)
  {
    assert "1-bad name"[0] == '1';
  }

  class EntityRenamingVisitor {
    const oldName: string
    const newName: string

    constructor (oldName: string, newName: string)
      ensures this.oldName == oldName && this.newName == newName
    {
      this.oldName := oldName;
      this.newName := newName;
    }

    /** visit(Document): visits every root in order. */
    method VisitDocument(roots: seq<Element>) returns (r: seq<Element>)
      ensures r == RenamedForest(roots, oldName, newName)
    {
      r := roots;
      var i := 0;
      while i < |r|
        invariant 0 <= i <= |r| == |roots|
        invariant forall j | 0 <= j < i :: r[j] == RenamedEntity(roots[j], oldName, newName)
        invariant forall j | i <= j < |r| :: r[j] == roots[j]
      {
        var d := VisitEntity(r[i]);
        r := r[i := d];
        i := i + 1;
      }
    }

    /** visit(Entity): renames this entity if it matches, then visits each
        daughter. */
    method VisitEntity(e: Element) returns (r: Element)
      ensures r == RenamedEntity(e, oldName, newName)
      decreases e
    {
      var name := if e.name == oldName then newName else e.name;
      var kids := e.daughters;
      var i := 0;
      while i < |kids|
        invariant 0 <= i <= |kids| == |e.daughters|
        invariant forall j | 0 <= j < i :: kids[j] == RenamedEntity(e.daughters[j], oldName, newName)
        invariant forall j | i <= j < |kids| :: kids[j] == e.daughters[j]
      {
        assert kids[i] in e.daughters;
        var d := VisitEntity(kids[i]);
        kids := kids[i := d];
        i := i + 1;
      }
      assert kids == RenamedForest(e.daughters, oldName, newName);
      r := Element(name, e.text, e.attributes, kids);
    }
  }

  // ---------------------------------------------------------------------
  // AttributeRenamingVisitor (src/Main.kt:290-315)
  // ---------------------------------------------------------------------

  /** The owner's attribute list with each attribute named `o` renamed to
      `n` in place; values and positions are kept. */
  function RenamedAttributes(attrs: seq<Attribute>, o: string, n: string): seq<Attribute> {
    seq(|attrs|, i requires 0 <= i < |attrs| =>
      if attrs[i].name == o then attrs[i].(name := n) else attrs[i])
  }

  function AttrRenamedEntity(e: Element, m: string, o: string, n: string): Element
    decreases e
  {
    Element(e.name, e.text,
            if e.name == m then RenamedAttributes(e.attributes, o, n) else e.attributes,
            AttrRenamedForest(e.daughters, m, o, n))
  }

  function AttrRenamedForest(f: seq<Element>, m: string, o: string, n: string): (r: seq<Element>)
    ensures |r| == |f|
    ensures forall i | 0 <= i < |f| :: r[i] == AttrRenamedEntity(f[i], m, o, n)
    decreases f
  {
    if f == [] then [] else [AttrRenamedEntity(f[0], m, o, n)] + AttrRenamedForest(f[1..], m, o, n)
  }

  function RenameAttrInfo(x: NodeInfo, m: string, o: string, n: string): NodeInfo {
    x.(attributes := if x.name == m then RenamedAttributes(x.attributes, o, n) else x.attributes)
  }

  lemma {:induction false} AttrRenamedEntityPreorder(e: Element, m: string, o: string, n: string)
    ensures Relabels(Preorder(e), Preorder(AttrRenamedEntity(e, m, o, n)), x => RenameAttrInfo(x, m, o, n))
    decreases e
  {
    AttrRenamedForestPreorder(e.daughters, m, o, n);
    RelabelsConcat([Info(e)], PreorderForest(e.daughters),
                   [Info(AttrRenamedEntity(e, m, o, n))], PreorderForest(AttrRenamedForest(e.daughters, m, o, n)),
                   x => RenameAttrInfo(x, m, o, n));
  }

  lemma {:induction false} AttrRenamedForestPreorder(f: seq<Element>, m: string, o: string, n: string)
    ensures Relabels(PreorderForest(f), PreorderForest(AttrRenamedForest(f, m, o, n)), x => RenameAttrInfo(x, m, o, n))
    decreases f
  {
    if f != [] {
      var r := AttrRenamedForest(f, m, o, n);
      assert r[1..] == AttrRenamedForest(f[1..], m, o, n);
      AttrRenamedEntityPreorder(f[0], m, o, n);
      AttrRenamedForestPreorder(f[1..], m, o, n);
      RelabelsConcat(Preorder(f[0]), PreorderForest(f[1..]),
                     Preorder(r[0]), PreorderForest(r[1..]), x => RenameAttrInfo(x, m, o, n));
    }
  }

  /** renameAttribute: in every entity called `m`, anywhere in the tree,
      every attribute called `o` is renamed to `n` at its own position with
      its value; all other entities, names, texts and the shape are kept. */
  lemma RenameAttributeEffect(roots: seq<Element>, m: string, o: string, n: string)
    ensures var before, after := PreorderForest(roots), PreorderForest(AttrRenamedForest(roots, m, o, n));
      && |after| == |before|
      && forall k | 0 <= k < |before| ::
           && after[k].name == before[k].name
           && after[k].text == before[k].text
           && after[k].arity == before[k].arity
           && |after[k].attributes| == |before[k].attributes|
           && forall j | 0 <= j < |before[k].attributes| ::
                after[k].attributes[j] ==
                  if before[k].name == m && before[k].attributes[j].name == o
                  then Attribute(n, before[k].attributes[j].value)
                  else before[k].attributes[j]
  {
    AttrRenamedForestPreorder(roots, m, o, n);
  }

  /** renameAttribute changes nothing when no entity called `m` has an
      attribute called `o`. */
  lemma RenameAttributeMissIsNoOp(roots: seq<Element>, m: string, o: string, n: string)
    requires forall k | 0 <= k < |PreorderForest(roots)| ::
      PreorderForest(roots)[k].name == m ==>
        forall j | 0 <= j < |PreorderForest(roots)[k].attributes| :: PreorderForest(roots)[k].attributes[j].name != o
    ensures AttrRenamedForest(roots, m, o, n) == roots
  {
    var g := x => RenameAttrInfo(x, m, o, n);
    AttrRenamedForestPreorder(roots, m, o, n);
    forall k | 0 <= k < |PreorderForest(roots)| ensures g(PreorderForest(roots)[k]) == PreorderForest(roots)[k] {
      var x := PreorderForest(roots)[k];
      if x.name == m {
        assert RenamedAttributes(x.attributes, o, n) == x.attributes;
      }
    }
    RelabelIdentity(roots, AttrRenamedForest(roots, m, o, n), g);
  }

  class AttributeRenamingVisitor {
    const motherEntityName: string
    const oldAttributeName: string
    const newAttributeName: string

    constructor (motherEntityName: string, oldAttributeName: string, newAttributeName: string)
      ensures this.motherEntityName == motherEntityName
      ensures this.oldAttributeName == oldAttributeName
      ensures this.newAttributeName == newAttributeName
    {
      this.motherEntityName := motherEntityName;
      this.oldAttributeName := oldAttributeName;
      this.newAttributeName := newAttributeName;
    }

    method VisitDocument(roots: seq<Element>) returns (r: seq<Element>)
      ensures r == AttrRenamedForest(roots, motherEntityName, oldAttributeName, newAttributeName)
    {
      r := roots;
      var i := 0;
      while i < |r|
        invariant 0 <= i <= |r| == |roots|
        invariant forall j | 0 <= j < i ::
          r[j] == AttrRenamedEntity(roots[j], motherEntityName, oldAttributeName, newAttributeName)
        invariant forall j | i <= j < |r| :: r[j] == roots[j]
      {
        var d := VisitEntity(r[i]);
        r := r[i := d];
        i := i + 1;
      }
    }

    /** visit(Entity): at a matching owner, renames each matching attribute
        in place; then visits each daughter. */
    method VisitEntity(e: Element) returns (r: Element)
      ensures r == AttrRenamedEntity(e, motherEntityName, oldAttributeName, newAttributeName)
      decreases e
    {
      var attrs := e.attributes;
      if e.name == motherEntityName {
        var j := 0;
        while j < |attrs|
          invariant 0 <= j <= |attrs| == |e.attributes|
          invariant forall k | 0 <= k < j ::
            attrs[k] == if e.attributes[k].name == oldAttributeName
                        then e.attributes[k].(name := newAttributeName) else e.attributes[k]
          invariant forall k | j <= k < |attrs| :: attrs[k] == e.attributes[k]
        {
          if attrs[j].name == oldAttributeName {
            attrs := attrs[j := attrs[j].(name := newAttributeName)];
          }
          j := j + 1;
        }
      }
      var kids := e.daughters;
      var i := 0;
      while i < |kids|
        invariant 0 <= i <= |kids| == |e.daughters|
        invariant forall j | 0 <= j < i ::
          kids[j] == AttrRenamedEntity(e.daughters[j], motherEntityName, oldAttributeName, newAttributeName)
        invariant forall j | i <= j < |kids| :: kids[j] == e.daughters[j]
      {
        assert kids[i] in e.daughters;
        var d := VisitEntity(kids[i]);
        kids := kids[i := d];
        i := i + 1;
      }
      r := Element(e.name, e.text, attrs, kids);
    }
  }

  // ---------------------------------------------------------------------
  // EntityRemovalVisitor (src/Main.kt:319-332)
  // ---------------------------------------------------------------------

  /** The root list after removeEntityGlobally(n). The visitor never
      overrides visit(Entity), so its visits of the remaining roots do
      nothing and no daughter is ever looked at. */
  function RootRemoved(roots: seq<Element>, n: string): (r: seq<Element>)
    ensures |r| == if exists i | 0 <= i < |roots| :: roots[i].name == n then |roots| - 1 else |roots|
    ensures forall k | 0 <= k < |r| :: r[k] in roots
  {
    var p := (e: Element) => Named(n, e);
    Seqs.RemoveFirstSpec(roots, p);
    Seqs.RemoveFirst(roots, p)
  }

  /** removeEntityGlobally: only the first root called `n` goes, the other
      roots are kept in order and untouched; with no root called `n` the
      document is unchanged (matches below the roots are never removed). */
  lemma RemoveEntityGloballyEffect(roots: seq<Element>, n: string)
    ensures (forall i | 0 <= i < |roots| :: roots[i].name != n) ==> RootRemoved(roots, n) == roots
    ensures forall j | 0 <= j < |roots| && roots[j].name == n && (forall i | 0 <= i < j :: roots[i].name != n) ::
      RootRemoved(roots, n) == roots[..j] + roots[j + 1..]
  {
    var p := (e: Element) => Named(n, e);
    Seqs.RemoveFirstSpec(roots, p);
    var fi := Seqs.FirstIndex(roots, p);
    forall j | 0 <= j < |roots| && roots[j].name == n && (forall i | 0 <= i < j :: roots[i].name != n)
      ensures RootRemoved(roots, n) == roots[..j] + roots[j + 1..]
    {
      assert fi.Some?;
      assert fi.value == j;
    }
  }

  class EntityRemovalVisitor {
    const entityNameToRemove: string

    constructor (entityNameToRemove: string)
      ensures this.entityNameToRemove == entityNameToRemove
    {
      this.entityNameToRemove := entityNameToRemove;
    }

    /** visit(Document): firstOrNull over the roots, then remove. */
    method VisitDocument(roots: seq<Element>) returns (r: seq<Element>)
      ensures r == RootRemoved(roots, entityNameToRemove)
    {
      var p := (e: Element) => Named(entityNameToRemove, e);
      Seqs.RemoveFirstSpec(roots, p);
      var i := 0;
      while i < |roots| && roots[i].name != entityNameToRemove
        invariant 0 <= i <= |roots|
        invariant forall k | 0 <= k < i :: !p(roots[k])
      {
        i := i + 1;
      }
      var fi := Seqs.FirstIndex(roots, p);
      if i < |roots| {
        assert p(roots[i]);
        assert fi.Some? && fi.value == i;
        r := roots[..i] + roots[i + 1..];
      } else {
        assert fi.None?;
        r := roots;
      }
    }
  }

  // ---------------------------------------------------------------------
  // AttributeRemovalVisitor (src/Main.kt:337-357)
  // ---------------------------------------------------------------------

  /** The owner's attribute list after removing its first attribute `a`. */
  function FirstAttributeRemoved(attrs: seq<Attribute>, a: string): (r: seq<Attribute>)
    ensures |r| == if exists i | 0 <= i < |attrs| :: attrs[i].name == a then |attrs| - 1 else |attrs|
    ensures forall k | 0 <= k < |r| :: r[k] in attrs
  {
    var p := (x: Attribute) => NamedAttribute(a, x);
    Seqs.RemoveFirstSpec(attrs, p);
    Seqs.RemoveFirst(attrs, p)
  }

  function AttrRemovedEntity(e: Element, m: string, a: string): Element
    decreases e
  {
    Element(e.name, e.text,
            if e.name == m then FirstAttributeRemoved(e.attributes, a) else e.attributes,
            AttrRemovedForest(e.daughters, m, a))
  }

  function AttrRemovedForest(f: seq<Element>, m: string, a: string): (r: seq<Element>)
    ensures |r| == |f|
    ensures forall i | 0 <= i < |f| :: r[i] == AttrRemovedEntity(f[i], m, a)
    decreases f
  {
    if f == [] then [] else [AttrRemovedEntity(f[0], m, a)] + AttrRemovedForest(f[1..], m, a)
  }

  function RemoveAttrInfo(x: NodeInfo, m: string, a: string): NodeInfo {
    x.(attributes := if x.name == m then FirstAttributeRemoved(x.attributes, a) else x.attributes)
  }

  lemma {:induction false} AttrRemovedEntityPreorder(e: Element, m: string, a: string)
    ensures Relabels(Preorder(e), Preorder(AttrRemovedEntity(e, m, a)), x => RemoveAttrInfo(x, m, a))
    decreases e
  {
    AttrRemovedForestPreorder(e.daughters, m, a);
    RelabelsConcat([Info(e)], PreorderForest(e.daughters),
                   [Info(AttrRemovedEntity(e, m, a))], PreorderForest(AttrRemovedForest(e.daughters, m, a)),
                   x => RemoveAttrInfo(x, m, a));
  }

  lemma {:induction false} AttrRemovedForestPreorder(f: seq<Element>, m: string, a: string)
    ensures Relabels(PreorderForest(f), PreorderForest(AttrRemovedForest(f, m, a)), x => RemoveAttrInfo(x, m, a))
    decreases f
  {
    if f != [] {
      var r := AttrRemovedForest(f, m, a);
      assert r[1..] == AttrRemovedForest(f[1..], m, a);
      AttrRemovedEntityPreorder(f[0], m, a);
      AttrRemovedForestPreorder(f[1..], m, a);
      RelabelsConcat(Preorder(f[0]), PreorderForest(f[1..]),
                     Preorder(r[0]), PreorderForest(r[1..]), x => RemoveAttrInfo(x, m, a));
    }
  }

  /** The first-match rule on one attribute list. */
  lemma FirstAttributeRemovedSpec(attrs: seq<Attribute>, a: string)
    ensures (forall i | 0 <= i < |attrs| :: attrs[i].name != a) ==> FirstAttributeRemoved(attrs, a) == attrs
    ensures forall j | 0 <= j < |attrs| && attrs[j].name == a && (forall i | 0 <= i < j :: attrs[i].name != a) ::
      FirstAttributeRemoved(attrs, a) == attrs[..j] + attrs[j + 1..]
  {
    var p := (x: Attribute) => NamedAttribute(a, x);
    Seqs.RemoveFirstSpec(attrs, p);
    var fi := Seqs.FirstIndex(attrs, p);
    forall j | 0 <= j < |attrs| && attrs[j].name == a && (forall i | 0 <= i < j :: attrs[i].name != a)
      ensures FirstAttributeRemoved(attrs, a) == attrs[..j] + attrs[j + 1..]
    {
      assert fi.Some?;
      assert fi.value == j;
    }
  }

  /** removeAttributeGlobally: every entity called `m`, anywhere in the
      tree, loses its first attribute called `a` (and only that one); all
      other entities and all names, texts and the shape are kept. */
  lemma RemoveAttributeGloballyEffect(roots: seq<Element>, m: string, a: string)
    ensures var before, after := PreorderForest(roots), PreorderForest(AttrRemovedForest(roots, m, a));
      && |after| == |before|
      && forall k | 0 <= k < |before| ::
           && after[k].name == before[k].name
           && after[k].text == before[k].text
           && after[k].arity == before[k].arity
           && (before[k].name != m ==> after[k].attributes == before[k].attributes)
           && (before[k].name == m ==> after[k].attributes == FirstAttributeRemoved(before[k].attributes, a))
  {
    AttrRemovedForestPreorder(roots, m, a);
  }

  /** removeAttributeGlobally changes nothing when no entity called `m` has
      an attribute called `a`. */
  lemma RemoveAttributeGloballyMissIsNoOp(roots: seq<Element>, m: string, a: string)
    requires forall k | 0 <= k < |PreorderForest(roots)| ::
      PreorderForest(roots)[k].name == m ==>
        forall j | 0 <= j < |PreorderForest(roots)[k].attributes| :: PreorderForest(roots)[k].attributes[j].name != a
    ensures AttrRemovedForest(roots, m, a) == roots
  {
    var g := x => RemoveAttrInfo(x, m, a);
    AttrRemovedForestPreorder(roots, m, a);
    forall k | 0 <= k < |PreorderForest(roots)| ensures g(PreorderForest(roots)[k]) == PreorderForest(roots)[k] {
      var x := PreorderForest(roots)[k];
      if x.name == m {
        FirstAttributeRemovedSpec(x.attributes, a);
      }
    }
    RelabelIdentity(roots, AttrRemovedForest(roots, m, a), g);
  }

  class AttributeRemovalVisitor {
    const motherEntityName: string
    const attributeName: string

    constructor (motherEntityName: string, attributeName: string)
      ensures this.motherEntityName == motherEntityName && this.attributeName == attributeName
    {
      this.motherEntityName := motherEntityName;
      this.attributeName := attributeName;
    }

    method VisitDocument(roots: seq<Element>) returns (r: seq<Element>)
      ensures r == AttrRemovedForest(roots, motherEntityName, attributeName)
    {
      r := roots;
      var i := 0;
      while i < |r|
        invariant 0 <= i <= |r| == |roots|
        invariant forall j | 0 <= j < i :: r[j] == AttrRemovedEntity(roots[j], motherEntityName, attributeName)
        invariant forall j | i <= j < |r| :: r[j] == roots[j]
      {
        var d := VisitEntity(r[i]);
        r := r[i := d];
        i := i + 1;
      }
    }

    /** visit(Entity): at a matching owner, firstOrNull over its attributes
        and remove that one; then visit each daughter. */
    method VisitEntity(e: Element) returns (r: Element)
      ensures r == AttrRemovedEntity(e, motherEntityName, attributeName)
      decreases e
    {
      var attrs := e.attributes;
      if e.name == motherEntityName {
        var j := 0;
        while j < |attrs| && attrs[j].name != attributeName
          invariant 0 <= j <= |attrs|
          invariant forall k | 0 <= k < j :: attrs[k].name != attributeName
        {
          j := j + 1;
        }
        FirstAttributeRemovedSpec(attrs, attributeName);
        if j < |attrs| {
          attrs := attrs[..j] + attrs[j + 1..];
        }
      }
      var kids := e.daughters;
      var i := 0;
      while i < |kids|
        invariant 0 <= i <= |kids| == |e.daughters|
        invariant forall k | 0 <= k < i :: kids[k] == AttrRemovedEntity(e.daughters[k], motherEntityName, attributeName)
        invariant forall k | i <= k < |kids| :: kids[k] == e.daughters[k]
      {
        assert kids[i] in e.daughters;
        var d := VisitEntity(kids[i]);
        kids := kids[i := d];
        i := i + 1;
      }
      r := Element(e.name, e.text, attrs, kids);
    }
  }
}
