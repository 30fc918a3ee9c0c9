/** mapObjectToXmlEntity (src/Main.kt:434-502). Reflection is replaced by
    an explicit descriptor of the object: its class name and class
    annotations, and one descriptor per property with its annotations,
    whether it is declared as a List, and its value. The string
    transformers and post-processors are user classes; they are given as
    functions from the annotation's class (a number naming it) and the
    value or entity. */
module Mapper {
  import opened Wrappers
  import opened Names
  import opened Tree
  import Seqs
  import Entities

  /** A property value as the mapper sees it. `text` is its `toString()`. */
  datatype Value =
    | Null
    | Scalar(text: string)
    | ListValue(text: string, items: seq<Option<Obj>>)

  /** One member property: its name, its annotations (@XmlIgnore,
      @XmlAttribute, @XmlEntity, the class of @XmlString), whether its
      declared type is List, and its value. */
  datatype Field = Field(
    name: string,
    ignored: bool,
    attribute: bool,
    entity: bool,
    transformer: Option<nat>,
    listTyped: bool,
    value: Value)

  /** An object: the class's simple name (absent for an anonymous class),
      its @XmlEntityName, the class of its @XmlAdapter, and its properties
      in the order reflection lists them. */
  datatype Obj = Obj(
    className: Option<string>,
    entityName: Option<string>,
    adapter: Option<nat>,
    fields: seq<Field>)

  /** `value.toString()`; a null value prints as "null". */
  function ToText(v: Value): string {
    match v
    case Null => "null"
    case Scalar(t) => t
    case ListValue(t, _) => t
  }

  /** `lowercase()` on the letters A to Z. */
  function Lower(s: string): (r: string)
    ensures |r| == |s|
    ensures forall i | 0 <= i < |s| :: r[i] == if 'A' <= s[i] <= 'Z' then (s[i] as int + 32) as char else s[i]
  {
    seq(|s|, i requires 0 <= i < |s| => if 'A' <= s[i] <= 'Z' then (s[i] as int + 32) as char else s[i])
  }

  /** The entity name: the class's @XmlEntityName as written, else the
      class name lower-cased; an anonymous class has neither. */
  function EntityNameOf(o: Obj): (r: Result<string, Error>)
    ensures r.Err? <==> o.entityName.None? && o.className.None?
    ensures r.Err? ==> r.error == UnnamedClass
    ensures o.entityName.Some? ==> r == Ok(o.entityName.value)
    ensures o.entityName.None? && o.className.Some? ==> r == Ok(Lower(o.className.value))
  {
    if o.entityName.Some? then Ok(o.entityName.value)
    else if o.className.Some? then Ok(Lower(o.className.value))
    else Err(UnnamedClass)
  }

  /** `stringValue`: the transformer's output when the property has one and
      a non-null value, `toString()` otherwise. */
  function FieldString(f: Field, transform: (nat, Value) -> string): (r: string)
    ensures f.transformer.Some? && f.value != Null ==> r == transform(f.transformer.value, f.value)
    ensures f.transformer.None? || f.value == Null ==> r == ToText(f.value)
    ensures f.value == Null ==> r == "null"
  {
    if f.transformer.Some? && f.value != Null then transform(f.transformer.value, f.value)
    else ToText(f.value)
  }

  /** Whether a list item is non-null. */
  predicate IsPresent(x: Option<Obj>) {
    x.Some?
  }

  /** The non-null items of a list, in order. */
  function Present(items: seq<Option<Obj>>): (r: seq<Obj>)
    ensures |r| <= |items|
    ensures forall k | 0 <= k < |r| :: Some(r[k]) in items
  {
    if items == [] then []
    else
      var init := items[..|items| - 1];
      var x := items[|items| - 1];
      assert items == init + [x];
      Present(init) + (if x.Some? then [x.value] else [])
  }

  /** The non-null items are exactly what the non-null filter keeps, one
      for one and in order. */
  lemma {:induction false} PresentIsFilter(items: seq<Option<Obj>>)
    ensures |Present(items)| == |Seqs.Filter(items, IsPresent)|
    ensures forall k | 0 <= k < |Present(items)| :: Seqs.Filter(items, IsPresent)[k] == Some(Present(items)[k])
  {
    if items != [] {
      var init := items[..|items| - 1];
      var x := items[|items| - 1];
      assert items == init + [x];
      Seqs.FilterConcat(init, [x], IsPresent);
      PresentIsFilter(init);
    }
  }

  /** The object mapped: the entity built from its fields, then the class's
      post-processor, if any, applied once to the finished entity. */
  function MapObject(o: Obj, transform: (nat, Value) -> string, process: (nat, Element) -> Element)
    : (r: Result<Element, Error>)
    ensures r.Ok? <==> BuildEntity(o, transform, process).Ok?
    ensures o.adapter.None? ==> r == BuildEntity(o, transform, process)
    ensures o.adapter.Some? && r.Ok? ==> r.value == process(o.adapter.value, BuildEntity(o, transform, process).value)
    decreases o, 1
  {
    var built :- BuildEntity(o, transform, process);
    Ok(if o.adapter.Some? then process(o.adapter.value, built) else built)
  }

  /** The entity before post-processing: `Entity(entityName)`, then every
      field in order. It carries the class rule's name and no text, and fails
      with the name check's error on a bad name. */
  function BuildEntity(o: Obj, transform: (nat, Value) -> string, process: (nat, Element) -> Element)
    : (r: Result<Element, Error>)
    ensures o.entityName.None? && o.className.None? ==> r == Err(UnnamedClass)
    ensures EntityNameOf(o).Ok? && !ValidName(EntityNameOf(o).value) ==>
      r == Err(InvalidEntityName(EntityNameOf(o).value))
    ensures r.Ok? ==> EntityNameOf(o).Ok? && r.value.name == EntityNameOf(o).value && r.value.text.None?
    decreases o, 0
  {
    var name :- EntityNameOf(o);
    var base :- NewEntity(name, None);
    MapFields(base, o.fields, transform, process)
  }

  /** The fields applied in order to the entity under construction; the
      first failure ends the mapping. The entity keeps its name and text, and
      its attributes and daughters only grow. */
  function MapFields(acc: Element, fs: seq<Field>, transform: (nat, Value) -> string,
                     process: (nat, Element) -> Element): (r: Result<Element, Error>)
    ensures r.Ok? ==> r.value.name == acc.name && r.value.text == acc.text
    decreases fs
  {
    if fs == [] then Ok(acc)
    else
      var prev :- MapFields(acc, fs[..|fs| - 1], transform, process);
      MapField(prev, fs[|fs| - 1], transform, process)
  }

  /** One iteration of the forEach (src/Main.kt:447-494): @XmlIgnore first,
      then @XmlAttribute, then @XmlEntity or List, then the default. The
      entity keeps its name and text and gains at most one attribute or one
      daughter, keeping the ones it had in front. */
  function MapField(acc: Element, f: Field, transform: (nat, Value) -> string,
                    process: (nat, Element) -> Element): (r: Result<Element, Error>)
    ensures r.Ok? ==> r.value.name == acc.name && r.value.text == acc.text
    decreases f
  {
    if f.ignored then Ok(acc)
    else if f.attribute then Ok(WithAttribute(acc, f.name, FieldString(f, transform)))
    else if f.listTyped then
      var wrapper :- NewEntity(f.name, None);
      if !f.value.ListValue? then Err(NotAList(f.name))
      else
        var kids :- MapItems(f.value.items, transform, process);
        Ok(AddDaughter(acc, AddDaughters(wrapper, kids)))
    else
      var sub :- NewEntity(f.name, Some(ToText(f.value)));
      Ok(AddDaughter(acc, sub))
  }

  function AddDaughters(e: Element, kids: seq<Element>): Element {
    e.(daughters := e.daughters + kids)
  }

  /** The non-null items mapped in order: one entity per non-null item. */
  function MapItems(items: seq<Option<Obj>>, transform: (nat, Value) -> string,
                    process: (nat, Element) -> Element): (r: Result<seq<Element>, Error>)
    ensures r.Ok? ==> |r.value| == |Present(items)|
    decreases items
  {
    if items == [] then Ok([])
    else
      var prev :- MapItems(items[..|items| - 1], transform, process);
      assert items[|items| - 1] in items;
      var m :- MapItem(items[|items| - 1], transform, process);
      Ok(prev + m)
  }

  /** A null item gives nothing, any other item its mapped entity. */
  function MapItem(x: Option<Obj>, transform: (nat, Value) -> string,
                   process: (nat, Element) -> Element): Result<seq<Element>, Error>
    decreases x
  {
    match x
    case None => Ok([])
    case Some(item) =>
      var m :- MapObject(item, transform, process);
      Ok([m])
  }

  // ---------------------------------------------------------------------
  // What the mapping produces
  // ---------------------------------------------------------------------

  /** The attribute of one field, if it emits one. */
  function FieldAttributes(f: Field, transform: (nat, Value) -> string): seq<Attribute> {
    if !f.ignored && f.attribute then [Attribute(f.name, FieldString(f, transform))] else []
  }

  /** The attributes the fields emit, in field order. */
  function AttributesOf(fs: seq<Field>, transform: (nat, Value) -> string): seq<Attribute> {
    if fs == [] then []
    else AttributesOf(fs[..|fs| - 1], transform) + FieldAttributes(fs[|fs| - 1], transform)
  }

  /** The name of the daughter of one field, if it emits one. */
  function FieldDaughterNames(f: Field): seq<string> {
    if !f.ignored && !f.attribute then [f.name] else []
  }

  /** The names of the daughters the fields emit, in field order. */
  function DaughterNamesOf(fs: seq<Field>): seq<string> {
    if fs == [] then [] else DaughterNamesOf(fs[..|fs| - 1]) + FieldDaughterNames(fs[|fs| - 1])
  }

  function NamesOf(es: seq<Element>): (r: seq<string>)
    ensures |r| == |es| && forall k | 0 <= k < |es| :: r[k] == es[k].name
  {
    seq(|es|, k requires 0 <= k < |es| => es[k].name)
  }

  /** A List field's wrapper holds one daughter per non-null item, each the
      item mapped on its own; null items are skipped. */
  lemma {:induction false} MapItemsSpec(items: seq<Option<Obj>>, transform: (nat, Value) -> string,
                                        process: (nat, Element) -> Element)
    ensures var r := MapItems(items, transform, process);
      r.Ok? ==>
        && |r.value| == |Present(items)|
        && forall j | 0 <= j < |r.value| :: MapObject(Present(items)[j], transform, process) == Ok(r.value[j])
    ensures (forall j | 0 <= j < |Present(items)| :: MapObject(Present(items)[j], transform, process).Ok?)
            ==> MapItems(items, transform, process).Ok?
  {
    if items != [] {
      var init := items[..|items| - 1];
      MapItemsSpec(init, transform, process);
      var p := Present(items);
      assert Present(init) == p[..|Present(init)|];
      if items[|items| - 1].Some? {
        assert p[|p| - 1] == items[|items| - 1].value;
      }
    }
  }

  /** One field keeps the entity's name and text and appends its own
      attribute or daughter, if any. */
  lemma MapFieldShape(acc: Element, f: Field, transform: (nat, Value) -> string,
                      process: (nat, Element) -> Element)
    ensures var r := MapField(acc, f, transform, process);
      r.Ok? ==>
        && r.value.name == acc.name && r.value.text == acc.text
        && r.value.attributes == acc.attributes + FieldAttributes(f, transform)
        && NamesOf(r.value.daughters) == NamesOf(acc.daughters) + FieldDaughterNames(f)
  {
    var r := MapField(acc, f, transform, process);
    if r.Ok? && !f.ignored && !f.attribute {
      assert r.value.daughters == acc.daughters + [r.value.daughters[|acc.daughters|]];
    }
  }

  /** Once the fields are mapped, the entity keeps its name and text, has
      every attribute field's (name, string value) appended in order and one
      daughter per other non-ignored field, named after the field. */
  lemma {:induction false} MapFieldsShape(acc: Element, fs: seq<Field>, transform: (nat, Value) -> string,
                                          process: (nat, Element) -> Element)
    ensures var r := MapFields(acc, fs, transform, process);
      r.Ok? ==>
        && r.value.name == acc.name && r.value.text == acc.text
        && r.value.attributes == acc.attributes + AttributesOf(fs, transform)
        && NamesOf(r.value.daughters) == NamesOf(acc.daughters) + DaughterNamesOf(fs)
  {
    if fs != [] {
      var init := fs[..|fs| - 1];
      var f := fs[|fs| - 1];
      MapFieldsShape(acc, init, transform, process);
      var prev := MapFields(acc, init, transform, process);
      if prev.Ok? {
        MapFieldShape(prev.value, f, transform, process);
        Seqs.Assoc(acc.attributes, AttributesOf(init, transform), FieldAttributes(f, transform));
        Seqs.Assoc(NamesOf(acc.daughters), DaughterNamesOf(init), FieldDaughterNames(f));
      }
    }
  }

  /** The built entity carries, in field order, the attribute of every
      attribute field and one daughter per other non-ignored field, named
      after the field. */
  lemma BuildEntityContents(o: Obj, transform: (nat, Value) -> string, process: (nat, Element) -> Element)
    ensures BuildEntity(o, transform, process).Ok? ==>
      && BuildEntity(o, transform, process).value.attributes == AttributesOf(o.fields, transform)
      && NamesOf(BuildEntity(o, transform, process).value.daughters) == DaughterNamesOf(o.fields)
  {
    var n := EntityNameOf(o);
    if n.Ok? && ValidName(n.value) {
      MapFieldsShape(Element(n.value, None, [], []), o.fields, transform, process);
    }
  }

  /** Whether a property lacks @XmlIgnore. */
  predicate NotIgnored(f: Field) {
    !f.ignored
  }

  /** @XmlIgnore properties emit nothing: mapping the fields is the same as
      mapping the fields without them. */
  lemma {:induction false} IgnoredFieldsEmitNothing(acc: Element, fs: seq<Field>,
                                                    transform: (nat, Value) -> string,
                                                    process: (nat, Element) -> Element)
    ensures MapFields(acc, fs, transform, process)
         == MapFields(acc, Seqs.Filter(fs, NotIgnored), transform, process)
  {
    var keep := NotIgnored;
    if fs != [] {
      var init := fs[..|fs| - 1];
      var f := fs[|fs| - 1];
      IgnoredFieldsEmitNothing(acc, init, transform, process);
      assert fs == init + [f];
      MapFieldsSnoc(acc, init, f, transform, process);
      Seqs.FilterConcat(init, [f], keep);
      var kept := Seqs.Filter(init, keep);
      if !f.ignored {
        assert Seqs.Filter(fs, keep) == kept + [f];
        MapFieldsSnoc(acc, kept, f, transform, process);
      } else {
        assert Seqs.Filter(fs, keep) == kept;
      }
    }
  }

  /** One more field: mapping it after the others, unless they failed. */
  lemma MapFieldsSnoc(acc: Element, fs: seq<Field>, f: Field, transform: (nat, Value) -> string,
                      process: (nat, Element) -> Element)
    ensures var prev := MapFields(acc, fs, transform, process);
      MapFields(acc, fs + [f], transform, process)
        == if prev.Err? then prev else MapField(prev.value, f, transform, process)
  {
    assert (fs + [f])[..|fs + [f]| - 1] == fs;
  }

  /** A property that is neither an attribute nor List-typed becomes a
      daughter holding only its `toString()` as text: the transformer is
      never applied to it, and nothing inside its value is mapped. */
  lemma SingularFieldIsTextOnly(acc: Element, f: Field, transform: (nat, Value) -> string,
                                process: (nat, Element) -> Element)
    requires !f.ignored && !f.attribute && !f.listTyped
    ensures MapField(acc, f, transform, process).Ok? <==> ValidName(f.name)
    ensures MapField(acc, f, transform, process).Err? ==>
      MapField(acc, f, transform, process).error == InvalidEntityName(f.name)
    ensures MapField(acc, f, transform, process).Ok? ==>
      MapField(acc, f, transform, process).value
      == acc.(daughters := acc.daughters + [Element(f.name, Some(ToText(f.value)), [], [])])
    ensures MapField(acc, f, transform, process) == MapField(acc, f.(transformer := None), transform, process)
  {
  }

  /** @XmlEntity changes nothing: a property that is not an attribute
      becomes a daughter whether it carries the annotation or not, and its
      declared type alone decides between the wrapper and the text daughter. */
  lemma EntityAnnotationIsRedundant(acc: Element, f: Field, transform: (nat, Value) -> string,
                                    process: (nat, Element) -> Element)
    ensures MapField(acc, f, transform, process) == MapField(acc, f.(entity := !f.entity), transform, process)
  {
  }

  /** An attribute property adds `(name, stringValue)` and nothing else. */
  lemma AttributeFieldAddsAttribute(acc: Element, f: Field, transform: (nat, Value) -> string,
                                    process: (nat, Element) -> Element)
    requires !f.ignored && f.attribute
    ensures MapField(acc, f, transform, process)
         == Ok(acc.(attributes := acc.attributes + [Attribute(f.name, FieldString(f, transform))]))
  {
  }

  /** A List property becomes one wrapper named after the property, with
      one mapped daughter per non-null item; a value that is not a list
      fails the cast once the wrapper name has passed the name check. */
  lemma ListFieldWrapsItems(acc: Element, f: Field, transform: (nat, Value) -> string,
                            process: (nat, Element) -> Element)
    requires !f.ignored && !f.attribute && f.listTyped
    ensures !ValidName(f.name) ==> MapField(acc, f, transform, process) == Err(InvalidEntityName(f.name))
    ensures ValidName(f.name) && !f.value.ListValue? ==> MapField(acc, f, transform, process) == Err(NotAList(f.name))
    ensures var r := MapField(acc, f, transform, process);
      r.Ok? ==>
        && f.value.ListValue?
        && r.value.name == acc.name && r.value.attributes == acc.attributes
        && |r.value.daughters| == |acc.daughters| + 1
        && r.value.daughters[..|acc.daughters|] == acc.daughters
        && var w := r.value.daughters[|acc.daughters|];
           && w.name == f.name && w.text.None? && w.attributes == []
           && |w.daughters| == |Present(f.value.items)|
           && forall j | 0 <= j < |w.daughters| ::
                MapObject(Present(f.value.items)[j], transform, process) == Ok(w.daughters[j])
  {
    if f.value.ListValue? {
      MapItemsSpec(f.value.items, transform, process);
    }
  }


  // ---------------------------------------------------------------------
  // The imperative mapping
  // ---------------------------------------------------------------------

  /** Once a prefix of the fields fails, the whole list fails the same way. */
  lemma {:induction false} MapFieldsFailureSticks(acc: Element, fs: seq<Field>, k: nat,
                                                  transform: (nat, Value) -> string,
                                                  process: (nat, Element) -> Element)
    requires k <= |fs| && MapFields(acc, fs[..k], transform, process).Err?
    ensures MapFields(acc, fs, transform, process) == MapFields(acc, fs[..k], transform, process)
    decreases |fs| - k
  {
    if k < |fs| {
      var init := fs[..|fs| - 1];
      assert init[..k] == fs[..k];
      MapFieldsFailureSticks(acc, init, k, transform, process);
    } else {
      assert fs[..k] == fs;
    }
  }

  lemma {:induction false} MapItemsFailureSticks(items: seq<Option<Obj>>, k: nat,
                                                 transform: (nat, Value) -> string,
                                                 process: (nat, Element) -> Element)
    requires k <= |items| && MapItems(items[..k], transform, process).Err?
    ensures MapItems(items, transform, process) == MapItems(items[..k], transform, process)
    decreases |items| - k
  {
    if k < |items| {
      var init := items[..|items| - 1];
      assert init[..k] == items[..k];
      MapItemsFailureSticks(init, k, transform, process);
    } else {
      assert items[..k] == items;
    }
  }

  /** mapObjectToXmlEntity: creates the entity, runs the forEach over the
      fields, then the post-processor. */
  method MapObjectToXmlEntity(o: Obj, transform: (nat, Value) -> string, process: (nat, Element) -> Element)
    returns (r: Result<Element, Error>)
    ensures r == MapObject(o, transform, process)
    decreases o, 1
  {
    var name := EntityNameOf(o);
    if name.Err? {
      return Err(name.error);
    }
    var created := Entities.Entity.Create(name.value, None);
    if created.Err? {
      return Err(created.error);
    }
    var entity := created.value;
    ghost var base := entity.Value();
    var i := 0;
    while i < |o.fields|
      invariant 0 <= i <= |o.fields|
      invariant MapFields(base, o.fields[..i], transform, process) == Ok(entity.Value())
    {
      assert o.fields[i] in o.fields;
      var out := MapFieldInto(entity, o.fields[i], transform, process);
      assert o.fields[..i + 1][..i] == o.fields[..i];
      if out.Fail? {
        MapFieldsFailureSticks(base, o.fields, i + 1, transform, process);
        return Err(out.error);
      }
      i := i + 1;
    }
    assert o.fields[..|o.fields|] == o.fields;
    var built := entity.Value();
    if o.adapter.Some? {
      r := Ok(process(o.adapter.value, built));
    } else {
      r := Ok(built);
    }
  }

  /** One property, applied to the entity under construction. */
  method MapFieldInto(entity: Entities.Entity, f: Field, transform: (nat, Value) -> string,
                      process: (nat, Element) -> Element) returns (r: Outcome<Error>)
    modifies entity
    ensures r.Pass? ==> MapField(old(entity.Value()), f, transform, process) == Ok(entity.Value())
    ensures r.Fail? ==> MapField(old(entity.Value()), f, transform, process) == Err(r.error)
    decreases f, 0
  {
    if f.ignored {
      return Pass;
    }
    var xmlName := f.name;
    var stringValue := FieldString(f, transform);
    if f.attribute {
      entity.AddAttribute(xmlName, stringValue);
      return Pass;
    }
    if f.listTyped {
      var created := Entities.Entity.Create(xmlName, None);
      if created.Err? {
        return Fail(created.error);
      }
      var listEntity := created.value;
      if !f.value.ListValue? {
        return Fail(NotAList(xmlName));
      }
      var items := AddItemsInto(listEntity, f.value.items, transform, process);
      if items.Fail? {
        return Fail(items.error);
      }
      entity.AddDaughterEntity(listEntity.Value());
      return Pass;
    }
    var created := Entities.Entity.Create(xmlName, Some(ToText(f.value)));
    if created.Err? {
      return Fail(created.error);
    }
    entity.AddDaughterEntity(created.value.Value());
    r := Pass;
  }

  /** One more item: a null one adds nothing, a mapped one adds its entity,
      and a failing one fails the list. */
  lemma MapItemsStep(list: seq<Option<Obj>>, k: nat, transform: (nat, Value) -> string,
                     process: (nat, Element) -> Element)
    requires k < |list| && MapItems(list[..k], transform, process).Ok?
    ensures list[k].None? ==> MapItems(list[..k + 1], transform, process) == MapItems(list[..k], transform, process)
    ensures list[k].Some? && MapObject(list[k].value, transform, process).Ok? ==>
      MapItems(list[..k + 1], transform, process)
        == Ok(MapItems(list[..k], transform, process).value + [MapObject(list[k].value, transform, process).value])
    ensures list[k].Some? && MapObject(list[k].value, transform, process).Err? ==>
      MapItems(list[..k + 1], transform, process) == Err(MapObject(list[k].value, transform, process).error)
  {
    assert list[..k + 1][..k] == list[..k];
    assert list[..k + 1][k] == list[k];
    var prev := MapItems(list[..k], transform, process).value;
    assert prev + [] == prev;
  }

  /** The list's forEach (src/Main.kt:478-480): every non-null item, mapped,
      is appended to the wrapper in order; the first failure ends it. */
  method AddItemsInto(listEntity: Entities.Entity, list: seq<Option<Obj>>, transform: (nat, Value) -> string,
                      process: (nat, Element) -> Element) returns (r: Outcome<Error>)
    modifies listEntity
    ensures r.Pass? ==>
      && MapItems(list, transform, process).Ok?
      && listEntity.Value() == AddDaughters(old(listEntity.Value()), MapItems(list, transform, process).value)
    ensures r.Fail? ==> MapItems(list, transform, process) == Err(r.error)
    decreases list
  {
    ghost var start := listEntity.Value();
    var k := 0;
    while k < |list|
      invariant 0 <= k <= |list|
      invariant MapItems(list[..k], transform, process).Ok?
      invariant listEntity.Value() == AddDaughters(start, MapItems(list[..k], transform, process).value)
    {
      MapItemsStep(list, k, transform, process);
      if list[k].Some? {
        assert list[k] in list;
        assert list[k].value < list[k];
        var mapped := MapObjectToXmlEntity(list[k].value, transform, process);
        if mapped.Err? {
          MapItemsFailureSticks(list, k + 1, transform, process);
          return Fail(mapped.error);
        }
        listEntity.AddDaughterEntity(mapped.value);
      }
      k := k + 1;
    }
    assert list[..|list|] == list;
    r := Pass;
  }
}
