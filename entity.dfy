/** The mutable Entity of src/Main.kt:99-183. Its lists are fields the
    methods reassign; each method is proved to leave exactly the entity the
    matching function of `Tree` computes from the old one. Daughters are
    held as values, and the mother is the position in the tree (see
    `Tree.AccessMotherEntity`). */
module Entities {
  import opened Wrappers
  import opened Names
  import opened Tree
  import Seqs
  import Serializer

  class Entity {
    var name: string
    var text: Option<string>
    var attributes: seq<Attribute>
    var daughters: seq<Element>

    /** The entity's current contents as a tree value. */
    function Value(): Element
      reads this
    {
      Element(name, text, attributes, daughters)
    }

    /** `Entity(name, text)` once the name check has passed. */
    constructor (name: string, text: Option<string>)
      requires ValidName(name)
      ensures Value() == Element(name, text, [], [])
    {
      this.name := name;
      this.text := text;
      attributes := [];
      daughters := [];
    }

    /** `Entity(name, text)` with the init block's name check
        (src/Main.kt:102-104): IllegalArgumentException for a bad name. */
    static method Create(name: string, text: Option<string>) returns (r: Result<Entity, Error>)
      ensures r.Ok? <==> ValidName(name)
      ensures r.Ok? ==> fresh(r.value) && Ok(r.value.Value()) == NewEntity(name, text)
      ensures r.Err? ==> r.error == InvalidEntityName(name)
    {
      match ValidateEntityName(name)
      case Fail(n) =>
        r := Err(InvalidEntityName(n));
      case Pass =>
        var e := new Entity(name, text);
        r := Ok(e);
    }

    /** addAttribute (src/Main.kt:116-118). */
    method AddAttribute(attributeName: string, attributeValue: string)
      modifies this
      ensures Value() == WithAttribute(old(Value()), attributeName, attributeValue)
    {
      attributes := attributes + [Attribute(attributeName, attributeValue)];
    }

    /** removeAttribute (src/Main.kt:121-127): filter the matches, remove
        them all, and fail when there were none. */
    method RemoveAttribute(attributeName: string) returns (r: Outcome<Error>)
      modifies this
      ensures r.Fail? <==> !HasAttribute(old(Value()), attributeName)
      ensures r.Fail? ==> r.error == EntityNotFound && Value() == old(Value())
      ensures r.Pass? ==> Ok(Value()) == Tree.RemoveAttribute(old(Value()), attributeName)
    {
      var kept, found := Seqs.FilterLoop(attributes, NotNamed(attributeName));
      if !found {
        Seqs.FilterAll(attributes, NotNamed(attributeName));
      }
      attributes := kept;
      if !found {
        r := Fail(EntityNotFound);
      } else {
        r := Pass;
      }
    }

    /** editAttribute (src/Main.kt:130-139): fail when nothing has the old
        name; otherwise overwrite each match at its own index. */
    method EditAttribute(oldAttributeName: string, newAttributeName: string, newAttributeValue: string)
      returns (r: Outcome<Error>)
      modifies this
      ensures r.Fail? <==> !HasAttribute(old(Value()), oldAttributeName)
      ensures r.Fail? ==> r.error == EntityNotFound && Value() == old(Value())
      ensures r.Pass? ==>
        Ok(Value()) == Tree.EditAttribute(old(Value()), oldAttributeName, newAttributeName, newAttributeValue)
    {
      var attrs := attributes;
      var i := 0;
      while i < |attrs| && attrs[i].name != oldAttributeName
        invariant 0 <= i <= |attrs|
        invariant unchanged(this)
        invariant forall k | 0 <= k < i :: attrs[k].name != oldAttributeName
      {
        i := i + 1;
      }
      if i == |attrs| {
        return Fail(EntityNotFound);
      }
      assert HasAttribute(Value(), oldAttributeName);
      var index := 0;
      while index < |attrs|
        invariant 0 <= index <= |attrs| == |attributes|
        invariant unchanged(this)
        invariant forall k | 0 <= k < index ::
          attrs[k] == if attributes[k].name == oldAttributeName then Attribute(newAttributeName, newAttributeValue) else attributes[k]
        invariant forall k | index <= k < |attrs| :: attrs[k] == attributes[k]
      {
        if attrs[index].name == oldAttributeName {
          attrs := attrs[index := Attribute(newAttributeName, newAttributeValue)];
        }
        index := index + 1;
      }
      assert attrs == EditedAttributes(attributes, oldAttributeName, newAttributeName, newAttributeValue);
      attributes := attrs;
      r := Pass;
    }

    /** addDaughterEntity (src/Main.kt:141-145): the daughter goes at the
        end; its mother is this entity by position (`Tree.AddDaughterSetsMother`). */
    method AddDaughterEntity(daughter: Element)
      modifies this
      ensures Value() == AddDaughter(old(Value()), daughter)
    {
      daughters := daughters + [daughter];
    }

    /** accessDaughterEntities (src/Main.kt:163-165): the daughters in
        order, each the entity one step down from this one. */
    function AccessDaughterEntities(): (r: seq<Element>)
      reads this
      ensures |r| == |Value().daughters|
      ensures forall k: nat | k < |r| :: Descend(Value(), [k]) == Some(r[k])
      ensures forall k: nat | k >= |r| :: Descend(Value(), [k]).None?
    {
      daughters
    }

    /** toXmlString (src/Main.kt:168-172): the serializer run on this entity
        alone, at the depth its mother chain gives it. */
    method ToXmlString(depth: nat) returns (s: string)
      ensures s == Serializer.RenderEntity(Value(), depth)
    {
      var visitor := new Serializer.XmlGenerationVisitor();
      visitor.VisitEntity(Value(), depth);
      s := visitor.GetXmlString();
    }
  }
}
