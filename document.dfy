/** The Document of src/Main.kt:9-95: a header (version and encoding, each
    possibly null) and the ordered list of root entities. The local
    operations touch the roots only; the global ones run a visitor over the
    whole tree; the query and the serializer leave the document as it is. */
module Documents {
  import opened Wrappers
  import opened Tree
  import Seqs
  import Visitors
  import PathQuery
  import Serializer

  predicate HasRoot(roots: seq<Element>, n: string) {
    exists i | 0 <= i < |roots| :: roots[i].name == n
  }

  /** removeEntity (src/Main.kt:20-26): every root called `n` goes, the
      others stay in order; with none, EntityNotFoundException and nothing
      changes. Daughters are never looked at. */
  function RemovedRoots(roots: seq<Element>, n: string): (r: Result<seq<Element>, Error>)
    ensures r.Err? <==> !HasRoot(roots, n)
    ensures r.Err? ==> r.error == EntityNotFound
    ensures r.Ok? ==>
      && (forall i | 0 <= i < |r.value| :: r.value[i].name != n)
      && (forall e: Element | e.name != n :: multiset(r.value)[e] == multiset(roots)[e])
      && Seqs.IsSubsequence(r.value, roots)
  {
    if !HasRoot(roots, n) then Err(EntityNotFound)
    else
      Seqs.FilterSatisfies(roots, NotCalled(n));
      Seqs.FilterCounts(roots, NotCalled(n));
      Seqs.FilterIsSubsequence(roots, NotCalled(n));
      Ok(Seqs.Filter(roots, NotCalled(n)))
  }

  /** The root list after `addAttributeToEntity(m, n, v)` has found a root `m`. */
  function AttributeAppended(roots: seq<Element>, m: string, n: string, v: string): (r: seq<Element>)
    ensures |r| == |roots|
    ensures forall i | 0 <= i < |roots| ::
      && r[i].name == roots[i].name && r[i].text == roots[i].text && r[i].daughters == roots[i].daughters
      && r[i].attributes == roots[i].attributes + (if roots[i].name == m then [Attribute(n, v)] else [])
  {
    seq(|roots|, i requires 0 <= i < |roots| =>
      if roots[i].name == m then WithAttribute(roots[i], n, v) else roots[i])
  }

  /** addAttributeToEntity (src/Main.kt:29-37): every root called `m` gets
      the attribute appended, every other root is untouched, and daughters
      are never looked at; with no root `m`, EntityNotFoundException. */
  function RootsWithAttribute(roots: seq<Element>, m: string, n: string, v: string)
    : (r: Result<seq<Element>, Error>)
    ensures r.Err? <==> !HasRoot(roots, m)
    ensures r.Err? ==> r.error == EntityNotFound
    ensures r.Ok? ==>
      && |r.value| == |roots|
      && forall i | 0 <= i < |roots| ::
           && r.value[i].name == roots[i].name
           && r.value[i].text == roots[i].text
           && r.value[i].daughters == roots[i].daughters
           && r.value[i].attributes
              == roots[i].attributes + (if roots[i].name == m then [Attribute(n, v)] else [])
  {
    if !HasRoot(roots, m) then Err(EntityNotFound)
    else Ok(AttributeAppended(roots, m, n, v))
  }

  /** A second removal of the same name finds no root left to remove and
      fails. */
  lemma RemoveEntityTwiceFails(roots: seq<Element>, n: string)
    requires HasRoot(roots, n)
    ensures RemovedRoots(roots, n).Ok?
    ensures RemovedRoots(RemovedRoots(roots, n).value, n) == Err(EntityNotFound)
  {
    var r := RemovedRoots(roots, n).value;
    assert !HasRoot(r, n);
  }

  class Document {
    var version: Option<string>
    var encoding: Option<string>
    /** documentList: the root entities in order. */
    var roots: seq<Element>

    constructor (version: Option<string>, encoding: Option<string>)
      ensures this.version == version && this.encoding == encoding && roots == []
    {
      this.version := version;
      this.encoding := encoding;
      roots := [];
    }

    /** addEntity (src/Main.kt:15-17). */
    method AddEntity(entity: Element)
      modifies this
      ensures roots == old(roots) + [entity]
      ensures version == old(version) && encoding == old(encoding)
    {
      roots := roots + [entity];
    }

    /** removeEntity (src/Main.kt:20-26): removeAll of the filtered roots,
        then the exception when there were none. */
    method RemoveEntity(entityName: string) returns (r: Outcome<Error>)
      modifies this
      ensures version == old(version) && encoding == old(encoding)
      ensures r.Fail? <==> RemovedRoots(old(roots), entityName).Err?
      ensures r.Fail? ==> r.error == EntityNotFound && roots == old(roots)
      ensures r.Pass? ==> Ok(roots) == RemovedRoots(old(roots), entityName)
    {
      var kept, found := Seqs.FilterLoop(roots, NotCalled(entityName));
      if !found {
        Seqs.FilterAll(roots, NotCalled(entityName));
      }
      roots := kept;
      if !found {
        r := Fail(EntityNotFound);
      } else {
        r := Pass;
      }
    }

    /** addAttributeToEntity (src/Main.kt:29-37): the check comes first,
        then each root called `m` gets the attribute. */
    method AddAttributeToEntity(motherEntityName: string, attributeName: string, attributeValue: string)
      returns (r: Outcome<Error>)
      modifies this
      ensures version == old(version) && encoding == old(encoding)
      ensures r.Fail? <==> !HasRoot(old(roots), motherEntityName)
      ensures r.Fail? ==> r.error == EntityNotFound && roots == old(roots)
      ensures r.Pass? ==>
        Ok(roots) == RootsWithAttribute(old(roots), motherEntityName, attributeName, attributeValue)
    {
      var list := roots;
      var i := 0;
      while i < |list| && list[i].name != motherEntityName
        invariant 0 <= i <= |list|
        invariant forall k | 0 <= k < i :: list[k].name != motherEntityName
      {
        i := i + 1;
      }
      if i == |list| {
        return Fail(EntityNotFound);
      }
      assert HasRoot(list, motherEntityName);
      var j := 0;
      while j < |list|
        invariant 0 <= j <= |list| == |roots|
        invariant unchanged(this)
        invariant forall k | 0 <= k < j ::
          list[k] == if roots[k].name == motherEntityName
                     then WithAttribute(roots[k], attributeName, attributeValue) else roots[k]
        invariant forall k | j <= k < |list| :: list[k] == roots[k]
      {
        if list[j].name == motherEntityName {
          list := list[j := WithAttribute(list[j], attributeName, attributeValue)];
        }
        j := j + 1;
      }
      assert list == AttributeAppended(roots, motherEntityName, attributeName, attributeValue);
      roots := list;
      r := Pass;
    }

    /** renameEntity (src/Main.kt:40-43). */
    method RenameEntity(oldName: string, newName: string)
      modifies this
      ensures version == old(version) && encoding == old(encoding)
      ensures roots == Visitors.RenamedForest(old(roots), oldName, newName)
    {
      var visitor := new Visitors.EntityRenamingVisitor(oldName, newName);
      roots := visitor.VisitDocument(roots);
    }

    /** renameAttribute (src/Main.kt:46-49). */
    method RenameAttribute(motherEntityName: string, oldAttributeName: string, newAttributeName: string)
      modifies this
      ensures version == old(version) && encoding == old(encoding)
      ensures roots == Visitors.AttrRenamedForest(old(roots), motherEntityName, oldAttributeName, newAttributeName)
    {
      var visitor := new Visitors.AttributeRenamingVisitor(motherEntityName, oldAttributeName, newAttributeName);
      roots := visitor.VisitDocument(roots);
    }

    /** removeEntityGlobally (src/Main.kt:52-55). */
    method RemoveEntityGlobally(entityName: string)
      modifies this
      ensures version == old(version) && encoding == old(encoding)
      ensures roots == Visitors.RootRemoved(old(roots), entityName)
    {
      var visitor := new Visitors.EntityRemovalVisitor(entityName);
      roots := visitor.VisitDocument(roots);
    }

    /** removeAttributeGlobally (src/Main.kt:58-61). */
    method RemoveAttributeGlobally(motherEntityName: string, attributeName: string)
      modifies this
      ensures version == old(version) && encoding == old(encoding)
      ensures roots == Visitors.AttrRemovedForest(old(roots), motherEntityName, attributeName)
    {
      var visitor := new Visitors.AttributeRemovalVisitor(motherEntityName, attributeName);
      roots := visitor.VisitDocument(roots);
    }

    /** queryXPath (src/Main.kt:64-72): no segments, no visit. */
    method QueryXPath(expression: string) returns (r: seq<Element>)
      ensures r == PathQuery.Query(roots, expression)
    {
      var parts := PathQuery.Segments(expression);
      if parts == [] {
        return [];
      }
      var visitor := new PathQuery.XPathQueryVisitor(parts);
      visitor.VisitDocument(roots);
      r := visitor.matchingEntities;
    }

    /** toXmlString (src/Main.kt:82-93), without the optional file write. */
    method ToXmlString() returns (s: string)
      ensures s == Serializer.RenderDocument(version, encoding, roots)
    {
      var visitor := new Serializer.XmlGenerationVisitor();
      visitor.VisitDocument(version, encoding, roots);
      s := visitor.GetXmlString();
    }
  }
}
