# An XML document model, verified

This project models the core of a small Kotlin XML library, `src/Main.kt`. It covers five parts:

- **`Document`:** an optional version and encoding, plus an ordered list of root entities.
- **`Entity`:** a name checked against `^[a-zA-Z][a-zA-Z0-9_-]{0,63}$`, an optional text, an ordered attribute list, daughter entities and a back-reference to its mother.
- **Visitors:**
  - one that renders the document as indented XML text;
  - four that rename or remove entities and attributes across the tree;
  - one that answers path queries such as `plano/fuc/avaliacao`.
- **`mapObjectToXmlEntity`:** turns an annotated object into an entity.
- **Depth:** the extension properties that compute the depth of an entity or an attribute from its mother chain.

## Module layout

| Module | File | Contents |
|---|---|---|
| `Names` | `names.dfy` | The entity name rule. A left-to-right matcher is proved equal to a declarative predicate. |
| `Tree` | `tree.dfy` | Entities as values: constructor check, attribute edits, positions, mother, depth, and a pre-order listing that is proved lossless. |
| `Entities` | `entity.dfy` | The mutable `Entity` class. Each method is proved to leave the entity that the matching `Tree` function computes. |
| `Serializer` | `serializer.dfy` | `XmlGenerationVisitor`, a class over a string builder, proved equal to a recursive rendering function. |
| `Visitors` | `visitors.dfy` | The renaming and removal visitors, as classes. |
| `PathQuery` | `query.dfy` | `XPathQueryVisitor` and the splitting of the expression. |
| `Documents` | `document.dfy` | The `Document` class. Each operation is tied to a function of the old roots. |
| `Mapper` | `mapper.dfy` | `mapObjectToXmlEntity` over explicit object descriptors. |
| `Fixtures` and `MapperFixtures` | `fixtures.dfy` | The documents and objects of `src/tests.kt` with the outcomes those tests expect. This includes the exact XML text. |
| `Wrappers` and `Seqs` | `wrappers.dfy`, `seqs.dfy` | The `Result` and `Outcome` types, plus filter and first-match helpers with their lemmas. |

## Where each operation's properties are proved

| Operation | Proof |
|---|---|
| Visitors | Each visitor's effect is stated over the pre-order listing of the whole forest. Renamed names, attributes renamed or removed at their own positions, and the tree shape and everything else is unchanged. |
| Query | The search is proved to be a filter of the pre-order walk: an entity is returned exactly when the query segments occur, in order, among the names from its root down to it. |
| Mapper | The order in which properties are applied is the order of the descriptor. |

## Model

| member | source | states |
|---|---|---|
| Names.ValidateEntityName | src/Main.kt:177-182 | Passes exactly for names of 1 to 64 characters that start with an ASCII letter and continue with letters, digits, `_` or `-`. Otherwise it fails, carrying the rejected name. |
| Names.MatchesNamePatternIsValidName | src/Main.kt:178-179 | The anchored left-to-right matcher for the pattern accepts exactly the names the declarative rule describes. |
| Names.MatchesTailSpec | src/Main.kt:178 | The matcher for `[a-zA-Z0-9_-]{0,n}` accepts exactly the strings of at most n name characters. |
| Names.NameRuleExamples | src/Main.kt:177-182 | The names the tests use are accepted. `invalid-entity-name-!@#`, the empty name, and names starting with a digit or an underscore are rejected. |
| Tree.NewEntity | src/Main.kt:99-104 | Construction succeeds exactly for a valid name, giving an entity with the given name and text and no attributes or daughters. Otherwise it fails with the invalid-name error. |
| Tree.WithAttribute | src/Main.kt:116-118 | `addAttribute` on a value: the pair (name, value) is appended after the existing attributes, which keep their order. Name, text and daughters are kept, and the entity then has an attribute with that name. |
| Tree.RemoveAttribute | src/Main.kt:121-127 | Fails with EntityNotFound exactly when no attribute has the name. Otherwise no attribute with that name is left, every other attribute keeps its count and its order, and name, text and daughters are kept. |
| Tree.EditAttribute | src/Main.kt:130-139 | Fails with EntityNotFound exactly when no attribute has the old name. Otherwise every attribute with the old name is replaced at its own index by the new pair, the others stay, and the length, name, text and daughters are kept. |
| Tree.RemoveUndoesAdd | src/Main.kt:116-127 | Removing a name undoes adding an attribute with that name to an entity that had none. |
| Tree.EditReplacesName | src/Main.kt:130-139 | After an edit, the old name is still present exactly when it equals the new name, and the new pair is present. |
| Tree.AccessMotherEntity | src/Main.kt:154-160 | Fails with EntityNotFound exactly for a root. Otherwise it returns the entity at the parent position, whose daughter list holds this entity at the last index of the position. |
| Tree.AddDaughter | src/Main.kt:142-145 | `addDaughterEntity` on a value: the daughter is appended after the existing daughters, which keep their order. Name, text and attributes are kept. |
| Tree.AddDaughterSetsMother | src/Main.kt:142-145 | After a daughter is appended, it sits at the next daughter index, its mother is the updated entity, and its depth is one more than the mother's. |
| Tree.Depth | src/Main.kt:505-514 | The depth of the entity at a position is its nesting level: 0 for a root, one less than the length of the position in general. |
| Tree.DepthIsMotherChainLength | src/Main.kt:505-514 | The depth of an entity equals the number of times `accessMotherEntity` succeeds when followed upwards from it until it throws at a root. |
| Tree.AttributeDepth | src/Main.kt:519-527 | An attribute without an owner has depth 0. An attribute owned by the entity at a position has depth one more than that entity's, which is the length of the position. |
| Tree.DecodePreorder | src/Main.kt:99-113 | Decoding the pre-order listing of a forest gives the forest back, with the rest of the listing unread. |
| Tree.PreorderInjective | src/Main.kt:99-113 | Two forests with the same number of trees and the same pre-order listing are equal. |
| Entities.Entity.constructor | src/Main.kt:99-113 | A new entity has the given name and text and empty lists. |
| Entities.Entity.Create | src/Main.kt:99-104 | Succeeds exactly for a valid name, with a fresh entity equal to the value Tree.NewEntity gives. Otherwise it fails with the invalid-name error. |
| Entities.Entity.AddAttribute | src/Main.kt:116-118 | The new attribute is appended after the existing ones, and nothing else changes. |
| Entities.Entity.RemoveAttribute | src/Main.kt:121-127 | Fails, leaving the entity unchanged, exactly when no attribute has the name. Otherwise the entity becomes what Tree.RemoveAttribute gives. |
| Entities.Entity.EditAttribute | src/Main.kt:130-139 | Fails, leaving the entity unchanged, exactly when no attribute has the old name. Otherwise the entity becomes what Tree.EditAttribute gives. |
| Entities.Entity.AddDaughterEntity | src/Main.kt:142-145 | The daughter is appended after the existing ones, and nothing else changes. |
| Entities.Entity.AccessDaughterEntities | src/Main.kt:163-165 | Returns the daughters in order: one per daughter index, each the entity one step down from this one at that index. There is nothing at any other index. |
| Entities.Entity.ToXmlString | src/Main.kt:169-173 | The text is the serializer's rendering of this entity alone, at the given depth. The Kotlin code takes that depth from the mother chain. |
| Serializer.Tabs | src/Main.kt:226 | The indent is exactly n tab characters. |
| Serializer.RenderEntityFraming | src/Main.kt:224-260 | An entity's text starts with its indent, `<name` and its attributes. It ends with a line break exactly when the entity is self-closing or is not a root. |
| Serializer.RenderEntityKeepsText | src/Main.kt:242-246 | When an entity is not self-closing, its text is copied verbatim right after the `>` of the opening tag. |
| Serializer.BlankTextIsDropped | src/Main.kt:239-240 | A blank or missing text on an entity without daughters renders the same as no text: a self-closing tag. |
| Serializer.EmptyTextIsNoText | src/Main.kt:242-252 | For an entity with daughters, an empty text renders the same as no text. |
| Serializer.Header | src/Main.kt:220 | The header begins with `<?xml ` and ends with a line break. When neither the version nor the encoding contains a line break, it has no other. |
| Serializer.RenderDocument | src/Main.kt:218-222 | The document text begins with the header. The rendering of every entity at every position of the forest, at that position's depth, occurs in it. |
| Serializer.EntityRenderedAtItsDepth | src/Main.kt:224-260 | For the entity at any position, its rendering at that position's depth occurs in the document text. That rendering starts with depth tabs, `<` and the entity's name. It ends with a line break exactly when the entity is self-closing or is not a root. |
| Serializer.XmlGenerationVisitor.constructor | src/Main.kt:209-216 | The builder starts empty. |
| Serializer.XmlGenerationVisitor.VisitDocument | src/Main.kt:218-222 | Appends the header line, with null printed as `null`, and then every root rendered at depth 0. |
| Serializer.XmlGenerationVisitor.AppendOpenTag | src/Main.kt:226-235 | Appends the indent, `<name` and each attribute as ` name="value"`, in order. |
| Serializer.XmlGenerationVisitor.AppendDaughters | src/Main.kt:250 | Appends every daughter, in order, rendered one level deeper. |
| Serializer.XmlGenerationVisitor.AppendInner | src/Main.kt:248-252 | With daughters, appends a line break, the daughters and the closing indent. Without daughters, it appends nothing. |
| Serializer.XmlGenerationVisitor.AppendBody | src/Main.kt:238-259 | Appends `/>` and a line break for a self-closing entity. Otherwise it appends `>`, the text, the daughters and `</name>`, with a line break only below the root. |
| Serializer.XmlGenerationVisitor.VisitEntity | src/Main.kt:224-260 | Appends exactly the entity's recursive rendering at the given depth. |
| Visitors.RenameEntityEffect | src/Main.kt:268-285 | At every position in pre-order, an entity called the old name now has the new name. Every other name, every text, attribute list and daughter count, and the size of the tree are unchanged. |
| Visitors.RenameEntityMissIsNoOp | src/Main.kt:276-279 | Renaming a name that occurs nowhere leaves the forest unchanged. |
| Visitors.RenameSkipsNameCheck | src/Main.kt:276-279 | Renaming does not re-run the name check, so an entity with a valid name can be renamed to an invalid one. |
| Visitors.RenamedForest | src/Main.kt:270-283 | The forest keeps its number of roots, and each root is renamed on its own, recursively. |
| Visitors.RenamedEntity | src/Main.kt:276-283 | An entity is renamed exactly when its name is the old name. Its text and attributes are kept, and each of its daughters is renamed recursively at its own index. |
| Visitors.EntityRenamingVisitor.constructor | src/Main.kt:268 | Stores the old and new names. |
| Visitors.EntityRenamingVisitor.VisitDocument | src/Main.kt:270-274 | Returns every root renamed recursively, as Visitors.RenamedForest specifies. |
| Visitors.EntityRenamingVisitor.VisitEntity | src/Main.kt:276-283 | Returns the entity renamed if its name matches, with every daughter renamed recursively. |
| Visitors.RenameAttributeEffect | src/Main.kt:290-315 | In every entity with the mother name, at any depth, each attribute with the old name is renamed at its own index and keeps its value. All other entities, names, texts and the shape are kept. |
| Visitors.RenameAttributeMissIsNoOp | src/Main.kt:302-309 | When no entity with the mother name has an attribute with the old name, the forest is unchanged. |
| Visitors.AttrRenamedForest | src/Main.kt:296-313 | The forest keeps its number of roots, and each root is processed on its own, recursively. |
| Visitors.AttributeRenamingVisitor.constructor | src/Main.kt:290-294 | Stores the three names. |
| Visitors.AttributeRenamingVisitor.VisitDocument | src/Main.kt:296-300 | Returns every root with attributes renamed recursively, as Visitors.AttrRenamedForest specifies. |
| Visitors.AttributeRenamingVisitor.VisitEntity | src/Main.kt:302-313 | Returns the entity with its matching attributes renamed, with every daughter processed recursively. |
| Visitors.RemoveEntityGloballyEffect | src/Main.kt:319-332 | Only the first root with the name is removed, and the other roots are kept in order. With no such root, the document is unchanged. Entities below the roots are never removed. |
| Visitors.RootRemoved | src/Main.kt:321-329 | The root list loses exactly one entry when some root has the name and none otherwise. Every remaining root is one of the original roots. |
| Visitors.EntityRemovalVisitor.constructor | src/Main.kt:319 | Stores the name. |
| Visitors.EntityRemovalVisitor.VisitDocument | src/Main.kt:321-329 | Returns the roots with the first match removed, as Visitors.RootRemoved specifies. |
| Visitors.FirstAttributeRemoved | src/Main.kt:347-350 | An attribute list loses exactly one entry when some attribute has the name and none otherwise. Every remaining attribute is one of the original attributes. |
| Visitors.FirstAttributeRemovedSpec | src/Main.kt:347-350 | An attribute list loses exactly its first attribute with the name, or is unchanged when none has it. |
| Visitors.RemoveAttributeGloballyEffect | src/Main.kt:337-357 | Every entity with the mother name, at any depth, loses its first attribute with the name and only that one. All other entities, names, texts and the shape are kept. |
| Visitors.RemoveAttributeGloballyMissIsNoOp | src/Main.kt:345-351 | When no entity with the mother name has such an attribute, the forest is unchanged. |
| Visitors.AttrRemovedForest | src/Main.kt:339-355 | The forest keeps its number of roots, and each root is processed on its own, recursively. |
| Visitors.AttributeRemovalVisitor.constructor | src/Main.kt:337 | Stores the two names. |
| Visitors.AttributeRemovalVisitor.VisitDocument | src/Main.kt:339-343 | Returns every root processed recursively, as Visitors.AttrRemovedForest specifies. |
| Visitors.AttributeRemovalVisitor.VisitEntity | src/Main.kt:345-355 | Returns the entity with its first matching attribute removed if its name matches, with every daughter processed recursively. |
| PathQuery.Split | src/Main.kt:66 | `split("/")` returns at least one piece, and no piece contains the separator. |
| PathQuery.JoinSplit | src/Main.kt:66 | Joining the pieces with the separator gives the expression back. |
| PathQuery.SplitJoin | src/Main.kt:66 | Pieces free of the separator are exactly what splitting their join returns. |
| PathQuery.Segments | src/Main.kt:66 | Every segment of the expression is non-empty and contains no `/`. |
| PathQuery.SegmentsOfJoin | src/Main.kt:66 | Non-empty names without `/`, joined with `/`, come back as the segments. |
| PathQuery.RunIsSubsequenceTest | src/Main.kt:372-394 | The index the search carries down a path reaches the end of the segments exactly when the segments occur, in order, among the path's names. |
| PathQuery.PathMatches | src/Main.kt:372-394 | A search that starts past the last segment finds nothing. Every entity found lies in the subtree that was searched. |
| PathQuery.Subtree | src/Main.kt:397-402 | `collectDescendants` collects the entity first and then the rest of its subtree. |
| PathQuery.SubtreeIsPreorder | src/Main.kt:397-402 | The entities collected are, one for one and in order, the entries of the entity's pre-order listing. |
| PathQuery.Query | src/Main.kt:64-72 | A query with no segments returns nothing. Every entity returned lies in the forest. |
| PathQuery.QueryIsFilteredWalk | src/Main.kt:64-72 | A query with no segments returns nothing. Otherwise it returns, in document pre-order, every entity whose names from its root down to itself contain the segments in order. |
| PathQuery.XPathQueryVisitor.constructor | src/Main.kt:360-363 | Stores the segments, with no matches yet. |
| PathQuery.XPathQueryVisitor.VisitDocument | src/Main.kt:365-369 | Appends the matches of each root, searched from the first segment. |
| PathQuery.XPathQueryVisitor.SearchPath | src/Main.kt:372-394 | Appends exactly the search function's matches for the entity and the index. |
| PathQuery.XPathQueryVisitor.SearchDaughters | src/Main.kt:384-392 | Appends the matches of each daughter, in order, at the given index. |
| PathQuery.XPathQueryVisitor.CollectDescendants | src/Main.kt:397-402 | Appends the entity and then all its descendants in pre-order. |
| PathQuery.XPathQueryVisitor.CollectDaughters | src/Main.kt:399-401 | Appends each daughter's subtree, in order. |
| PathQuery.Entities | src/Main.kt:363 | The entities of a walk, one per visit, in order. |
| Documents.RemovedRoots | src/Main.kt:20-26 | Fails with EntityNotFound exactly when no root has the name. Otherwise no root with the name is left, every other root keeps its count and order, and daughters are never looked at. |
| Documents.RootsWithAttribute | src/Main.kt:29-37 | Fails with EntityNotFound exactly when no root has the mother name. Otherwise each root with the mother name has the attribute appended and every other root is untouched. |
| Documents.AttributeAppended | src/Main.kt:29-37 | Keeps the number of roots. Each root called the mother name has the pair appended after its attributes, and every other root keeps its attributes. Names, texts and daughters are kept. |
| Documents.RemoveEntityTwiceFails | src/Main.kt:20-26 | A second removal of the same name fails. |
| Documents.Document.constructor | src/Main.kt:9-12 | A new document has the given header and no roots. |
| Documents.Document.AddEntity | src/Main.kt:15-17 | The entity is appended after the existing roots, and the header is kept. |
| Documents.Document.RemoveEntity | src/Main.kt:20-26 | Fails, leaving the roots unchanged, exactly when no root has the name. Otherwise the roots become what Documents.RemovedRoots gives. |
| Seqs.FilterLoop | src/Main.kt:21-22 | The loop keeps exactly the elements the filter keeps, in order, and reports whether any element was dropped. |
| Documents.Document.AddAttributeToEntity | src/Main.kt:29-37 | Fails, leaving the roots unchanged, exactly when no root has the mother name. Otherwise the roots become what Documents.RootsWithAttribute gives. |
| Documents.Document.RenameEntity | src/Main.kt:40-43 | The roots become the renamed forest (Visitors.RenameEntityEffect). |
| Documents.Document.RenameAttribute | src/Main.kt:46-49 | The roots become the attribute-renamed forest (Visitors.RenameAttributeEffect). |
| Documents.Document.RemoveEntityGlobally | src/Main.kt:52-55 | The roots lose their first root with the name (Visitors.RemoveEntityGloballyEffect). |
| Documents.Document.RemoveAttributeGlobally | src/Main.kt:58-61 | The roots become the forest with attributes removed (Visitors.RemoveAttributeGloballyEffect). |
| Documents.Document.QueryXPath | src/Main.kt:64-72 | Returns the query result, characterised by PathQuery.QueryIsFilteredWalk. |
| Documents.Document.ToXmlString | src/Main.kt:82-93 | Returns the header followed by every root rendered at depth 0. |
| Mapper.Lower | src/Main.kt:440 | Same length as the input. `A` to `Z` become lower case, and every other character is kept. |
| Mapper.EntityNameOf | src/Main.kt:440-441 | The class's `@XmlEntityName` if present, else the lower-cased simple name. Fails for an anonymous class. |
| Mapper.FieldString | src/Main.kt:461-465 | `stringValue` is the transformer's output when the property has a transformer and a non-null value. Otherwise it is `toString()`, so a null value gives `null`. |
| Mapper.Present | src/Main.kt:478-479 | The non-null items of the list: each one is an item of the list, and there are no more of them than items. |
| Mapper.PresentIsFilter | src/Main.kt:478-479 | The non-null items are exactly what the non-null filter keeps from the list, element for element and in order. |
| Mapper.MapObject | src/Main.kt:434-502 | Succeeds exactly when building the entity from its properties succeeds. Without an adapter the result is the built entity. With one, it is the post-processor applied once to the finished entity. |
| Mapper.BuildEntity | src/Main.kt:440-494 | An anonymous class fails with the unnamed-class error, and a bad entity name fails with the name check's error. A built entity carries the class rule's name and no text. |
| Mapper.BuildEntityContents | src/Main.kt:444-494 | A built entity's attributes are those of the attribute properties, in order. Its daughters are named after the other non-ignored properties, in order. |
| Mapper.MapFields | src/Main.kt:447-494 | Mapping the properties keeps the entity's name and text. |
| Mapper.MapField | src/Main.kt:447-494 | Mapping one property keeps the entity's name and text. |
| Mapper.MapItems | src/Main.kt:477-480 | When the items map successfully, there is exactly one entity per non-null item. |
| Mapper.MapItemsSpec | src/Main.kt:477-480 | A list wrapper holds one daughter per non-null item, each mapped on its own, in order. The items map successfully when every non-null item does. |
| Mapper.MapFieldShape | src/Main.kt:447-494 | One property keeps the entity's name and text, and appends its own attribute or one daughter named after it. |
| Mapper.MapFieldsShape | src/Main.kt:444-494 | After all properties, the attributes are those of the attribute properties, in order. There is one daughter per other non-ignored property, named after it, in order. |
| Mapper.IgnoredFieldsEmitNothing | src/Main.kt:450 | Mapping the properties gives the same result as mapping them with the `@XmlIgnore` ones taken out. |
| Mapper.SingularFieldIsTextOnly | src/Main.kt:484-493 | A property that is neither an attribute nor a List becomes one daughter whose text is its `toString()`. The transformer is never used, and the property's name is checked. |
| Mapper.EntityAnnotationIsRedundant | src/Main.kt:472-493 | `@XmlEntity` changes nothing: with or without it, a property maps the same way. |
| Mapper.AttributeFieldAddsAttribute | src/Main.kt:461-470 | An attribute property always succeeds and appends exactly one attribute, (property name, stringValue), leaving everything else as it was. |
| Mapper.ListFieldWrapsItems | src/Main.kt:475-481 | A List property appends one wrapper named after it, holding the mapped non-null items. A bad wrapper name fails first, and a value that is not a list fails next. |
| Mapper.MapFieldsFailureSticks | src/Main.kt:447-494 | Once mapping a prefix of the properties fails, the whole mapping fails with that error. |
| Mapper.MapItemsFailureSticks | src/Main.kt:478-480 | Once mapping a prefix of the items fails, the whole list fails with that error. |
| Mapper.MapObjectToXmlEntity | src/Main.kt:434-502 | The imperative mapping returns exactly the mapping function's result, including its errors. |
| Mapper.MapFieldInto | src/Main.kt:447-494 | One property applied to the entity under construction leaves exactly what Mapper.MapField gives, or fails with its error. |
| Mapper.AddItemsInto | src/Main.kt:478-480 | The list's forEach leaves the wrapper with exactly the daughters Mapper.MapItems gives appended, or fails with its error. |
| Fixtures.PlanoDepths | src/tests.kt:199-248 | In the test document, plano is at depth 0, curso and fuc at 1, avaliacao at 2, and the componentes at 3. |
| Fixtures.PlanoRendering | src/tests.kt:253-317 | The test document renders to exactly the expected text, line by line. |
| Fixtures.QueryFromRoot | src/tests.kt:514-576 | `plano/fuc/avaliacao` returns avaliacao and its two componentes. |
| Fixtures.QueryBelowRoot | src/tests.kt:514-576 | `fuc/avaliacao` returns the same three entities. |
| Fixtures.QueryComponentes | src/tests.kt:514-576 | `fuc/avaliacao/componente` returns the two componentes. |
| Fixtures.QueryOfSlash | src/Main.kt:66-67 | `/` has no segments, and the query returns nothing. |
| Fixtures.LocalRemovalTakesEveryRoot | src/Main.kt:20-26 | removeEntity takes every root with the name and leaves a daughter with that name in place. |
| Fixtures.GlobalRemovalTakesFirstRoot | src/Main.kt:321-325 | removeEntityGlobally takes only the first root with the name. |
| Fixtures.GlobalRenameReachesDaughters | src/Main.kt:276-283 | renameEntity reaches a daughter that both removals leave alone. |
| Fixtures.LocalRemovalOfMissingRootFails | src/Main.kt:23-25 | removeEntity of a name no root has fails with EntityNotFound. |
| MapperFixtures.SingleComponentMapping | src/tests.kt:600-623 | A componente object maps to `componente` with attributes nome and peso. |
| MapperFixtures.StringTransformation | src/tests.kt:717-739 | With the percentage transformer, peso becomes `20%`. |
| MapperFixtures.AdapterMapping | src/tests.kt:762-785 | With the adapter, `id` is appended after the properties' attributes. |
| MapperFixtures.FucMapping | src/tests.kt:627-680 | The fuc object maps to: codigo as an attribute; an avaliacao wrapper of the two mapped componentes; ects and nome as text daughters; observacoes left out. |

## Left out

- **Update in place:** entities are held in the tree as values, so the model has no aliasing.
  - An entity that is a daughter of two mothers, or is reachable from an old reference and mutated later, is not modelled.
  - The mother back-reference is the position in the tree (`Tree.AccessMotherEntity`), not a stored reference.
  - Entities.Entity.AddDaughterEntity: the daughter's `motherEntity` field is not set in place. Its effect on the mother and on depth is stated over positions in `Tree.AddDaughterSetsMother`.
- **`Attribute.motherEntity`:** the owner of an attribute is the position of the entity that holds it.
- **`accept` and the `XmlVisitor` interface:** these are double dispatch only, and each visitor's `visit` overloads are modelled directly.
- **`Document.toXmlString`:** writing the text to a file when a path is given is not modelled, because it is I/O.
- **Entities.Entity.ToXmlString:**
  - The Kotlin parameter `depth` is never read, and the rendering uses the entity's mother-chain depth.
  - In the model, that depth is the parameter, because mothers are positions.
- **Entities.Entity.AccessDaughterEntities:** returns the daughter list as a value, not the live mutable list.
- **Reflection in `mapObjectToXmlEntity`:** replaced by descriptors (`Mapper.Obj`, `Mapper.Field`) listing the class name, the annotations, whether the property is declared as List, and its value.
  - **Property order:** the order of the descriptor's fields stands for the order of `memberProperties`. The Kotlin code iterates `memberProperties`, which does not promise declaration order. The fixtures list the properties in alphabetical order, the order Kotlin reflection produces in practice. `testXmlMapping` compares attributes and daughters without regard to order.
  - **Callbacks:**
    - `toString()`, the `@XmlString` transformers and the `@XmlAdapter` post-processors are user code. They are given as a text and as functions of the annotation's class.
    - Instantiating them through `primaryConstructor`, and any exception they throw, is not modelled.
  - **Post-processor:** the test post-processor is modelled for the case the test uses, where it only appends an `id` attribute (`MapperFixtures.AddFirstId`).
  - **`findAnnotation<XmlEntityName>()` on a property:** it can never succeed, because the annotation targets classes only, so a property is always named by its own name.
- **Mapper.Lower:** lower-cases ASCII `A`–`Z` only, not the full Unicode case mapping of `lowercase()`.
- **Errors:** errors are kinds (`EntityNotFound`, `InvalidEntityName`, `UnnamedClass`, `NotAList`); the exception message texts are not modelled.
- **Regular expression engine:** `Regex(...).matches` is replaced by the character-class matcher `Names.MatchesNamePattern`, proved equal to the rule.

## Notes on the code as written

- **`removeEntityGlobally`:** `EntityRemovalVisitor` does not override `visit(Entity)`. Only the first root with the name is removed, and daughters are never visited. The model follows this (`Visitors.RemoveEntityGloballyEffect`).
- **Path search:** when an entity does not match, the search continues into its daughters with the same segment index, not with the first segment as the comment says (src/Main.kt:388-393). The model follows the code. That is why a query matches any in-order subsequence of the names along a path (`PathQuery.QueryIsFilteredWalk`).
- **List properties:** the wrapper entity is created, and its name checked, before the `as List<*>` cast (src/Main.kt:476-477).
