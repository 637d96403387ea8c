# redux-json-api-schema, modelled in Dafny

This project models `src/schema.js` of redux-json-api-schema. It is a small
ORM facade over the normalized, JSON:API-shaped state kept by a Redux store,
and it has three parts:

- `Schema` is the registry. `initialize` binds the store and declares the
  entity types, `createItem` builds new unsaved items, and `fromArray` builds
  views scoped to a list of ids.
- `SchemaEntity` is a read-only view of one type. It offers `items`, `all`,
  `first`, `count`, and the equality filters `findById` and `where`.
- `SchemaItem` wraps one record. It keeps a `diff` buffer of pending edits.
  A new item (falsy id) owns a placeholder record; a persisted item looks its
  record up in the store on every access. It offers `update`, `sanitize`,
  `save`, `countRelated` and `getRelated`.

Files:

- `js_value.dfy` (module `JsValue`) holds the JavaScript values and the
  language semantics the code relies on:
  - truthiness;
  - property access, which throws a TypeError on null and undefined;
  - `toString`, and `Number()` on decimal numerals;
  - strict `===` (`SameValue`) and loose `==` (`LooseEq`).
- `lodash_merge.dfy` (module `LodashMerge`) holds lodash's deep `merge` as
  `_.merge({}, a, b)` uses it.
- `orm.dfy` (module `Orm`) holds the store, the three parts and their
  operations:
  - the store's state is `map<string, seq<Record>>`, keyed by type;
  - `SchemaEntity` and the read-only item operations are functions over a
    store snapshot;
  - `Schema` and `SchemaItem` are classes;
  - `SchemaItem.Update` writes through `ref`, into the item's own placeholder
    or into the live `Store` record, and is proved equal to the pure step
    `UpdateSpec`.
- `orm_properties.dfy` (module `OrmProperties`) holds the properties of the
  model.

Every call that JavaScript can make throw returns a `Result`: `Ok`, or `Throw`
of a `SchemaError` with its message or of the runtime's `TypeError`.

Where the code and its documentation disagree, the model follows the code:

- `fromArray` never throws: its guard is always false (see Findings).
- `getRelated` never collapses its result through `result[0] ? result : []`.
  Every resolved element is an object, so the fallback only applies to an
  empty result. A link that matches no sibling reaches `new
  SchemaItem(undefined)`, which throws a TypeError. So `getRelated` throws on
  a dangling link; it does not return `[]`.
- The `relationships` getter returns `[]`, not `{}`, when `ref` is absent.
- `ref` answers null when the store has no collection for the type and
  undefined when no record matches. Both make the setters throw a TypeError.
- `ref` and `items` match ids strictly. `findById`, `where` and `getRelated`
  match loosely.
- "New" means a falsy id, so an id of 0 is new.

## Model

| member | source | states |
|---|---|---|
| JsValue.Prop | src/schema.js:183 | reading a property throws exactly on null/undefined; an object answers its own key, an array its length |
| JsValue.PropIndex | src/schema.js:214 | `data[0]` on an array reads its first element |
| JsValue.IntToStringRoundTrip | src/schema.js:198 | reading back the numeral `toString` prints gives the same integer |
| JsValue.LooseEqNumeral | src/schema.js:123 | an integer and its numeral are loosely equal, in both orders |
| JsValue.LooseEqSymmetric | src/schema.js:123 | `==` is symmetric |
| JsValue.SameValueIsLooseEq | src/schema.js:163 | strict equality implies loose equality |
| JsValue.LooseEqNotTransitive | src/schema.js:133 | `==` is not transitive (`""==0`, `0=="0"`, `""!="0"`) |
| LodashMerge.MergeCopiesFirst | src/schema.js:234 | `_.merge({}, x, d)` on an object `x` equals merging `d` into `x` |
| LodashMerge.MergePropsKeeps | src/schema.js:234 | a merge has the keys of both sides; keys the source does not mention keep their values |
| LodashMerge.MergeValueReflects | src/schema.js:235 | every value a source sets can be read back at the same path of the merge |
| LodashMerge.MergeIntoReflects | src/schema.js:234 | merging an object source reflects the whole source |
| LodashMerge.MergeValueIdempotent | src/schema.js:235-236 | merging the same source into a slot twice equals merging it once |
| LodashMerge.MergeIntoIdempotent | src/schema.js:234 | merging the same source twice equals merging it once |
| LodashMerge.MergeValueIntoNothing | src/schema.js:173 | merging into an absent slot copies the source |
| Orm.IndexOfId | src/schema.js:97 | the first record whose id is strictly equal to the id, or none |
| Orm.IndexOfLooseId | src/schema.js:122-125 | the first record whose id is loosely equal to the id, or none |
| Orm.SchemaEntity.Items | src/schema.js:93-102 | no store throws; an empty id list gives the stored sequence; a non-empty one gives the records found for each id |
| Orm.SchemaEntity.All | src/schema.js:105-107 | wraps the items one to one, in order |
| Orm.SchemaEntity.First | src/schema.js:110-112 | undefined exactly when there are no items, else the first item wrapped |
| Orm.SchemaEntity.Count | src/schema.js:115-117 | the number of items |
| Orm.SchemaEntity.FindById | src/schema.js:121-126 | null exactly when no item's id is loosely equal to the id; otherwise the first loosely matching item, wrapped |
| Orm.SchemaEntity.Where | src/schema.js:130-138 | throws when the items or a field read throw; otherwise wraps the records that the filter keeps |
| Orm.ReadPart | src/schema.js:178-189 | the getters throw only for a persisted item with no store; a new item reads its placeholder; a missing ref reads `{}` for attributes and `[]` for relationships; a persisted item reads its first strictly matching record |
| Orm.RefOf | src/schema.js:158-169 | throws only for a persisted item with no store; a new item gets its placeholder; a persisted one gets the first strictly matching record with its index, null for a missing type, undefined for a missing id |
| Orm.CountRelated | src/schema.js:226-229 | the length of an array linkage, 0 for absent linkage |
| Orm.ResolveLinks | src/schema.js:216-218 | succeeds exactly when every link resolves, one loosely matching sibling per link in order; a dangling link throws a TypeError |
| Orm.GetRelated | src/schema.js:211-223 | a throwing linkage read throws; absent or empty linkage gives `[]`; a non-empty result has one item per link |
| Orm.LinkagesOnly | src/schema.js:201-205 | throws exactly when a relationship is null/undefined; keeps the keys and reduces each to `{data}` |
| Orm.Sanitize | src/schema.js:196-207 | id as a string when truthy else undefined; type unchanged; attributes from the diff or `{}`; no relationships gives `{}`; otherwise it throws exactly when reducing the relationships to their linkage throws, and sends that reduction |
| Orm.Save | src/schema.js:240-243 | the sanitized payload, as an update exactly when the item is persisted |
| Orm.FromArray | src/schema.js:41-45 | the view echoes type and ids, whatever ids is, undefined ids taking the default `[]` of src/schema.js:85 |
| Orm.FromArrayChecked | src/schema.js:41-45 | succeeds exactly when ids is an array; otherwise throws the fromArray SchemaError |
| Orm.SchemaItem.constructor | src/schema.js:143-155 | the item's state wraps the record: diff seeded, placeholder exactly for a falsy id |
| Orm.SchemaItem.SetRef | src/schema.js:171-174 | a new item deep-merges into its placeholder; a persisted item changes nothing |
| Orm.SchemaItem.SetPart | src/schema.js:182-193 | the write through `ref` as `WritePart`: placeholder, live store record, or TypeError |
| Orm.SchemaItem.AssignPart | src/schema.js:235-236 | one part merged with the patch's part and written back, as `MergePart` |
| Orm.SchemaItem.Update | src/schema.js:231-237 | result, item and store after `update` are those of `UpdateSpec` |
| Orm.Schema.constructor | src/schema.js:32-37 | a fresh registry: no store, nothing declared |
| Orm.DeclareNext | src/schema.js:70-73 | declaring one more element adds its key to the names and the entity map unless already declared; names stay distinct |
| Orm.Schema.Initialize | src/schema.js:64-74 | a bad list throws the SchemaError and changes nothing declared; a null store throws a TypeError after the reset; otherwise the declared names in order, each an unscoped view |
| Orm.Schema.CreateItem | src/schema.js:48-61 | not initialized or undeclared type throws the matching SchemaError; otherwise a fresh new item wrapping `{id: null, type, attributes, relationships}`, relationships defaulting to `{}` |
| OrmProperties.FindEachBounded | src/schema.js:95-98 | at most one record per id, each from the type's data with a requested id; no data gives `[]` |
| OrmProperties.FindEachPresentFound | src/schema.js:95-98 | every requested id that has a record contributes its first strict match |
| OrmProperties.FindEachAllFound | src/schema.js:95-98 | when every id has a record, one record per id in id order |
| OrmProperties.ItemsScoped | src/schema.js:93-102 | a scoped view never throws on a store, holds at most one item per id, only requested ids, and the first strict match of every id that has one |
| OrmProperties.ItemsOfAbsentType | src/schema.js:94 | a type missing from the store has no items |
| OrmProperties.FindByIdAcrossNumeral | src/schema.js:121-126 | a number finds a record no later than the one whose id is its numeral, and exactly that record when no earlier item matches |
| OrmProperties.RefIsStrictFindByIdIsLoose | src/schema.js:163 | `ref` of id 5 misses record "5", which `findById(5)` finds |
| OrmProperties.MatchesFromMeaning | src/schema.js:132-134 | the reduce answers "every entry loosely matches" when it does not throw |
| OrmProperties.MatchesFromTotal | src/schema.js:133 | a record with attributes never makes the reduce throw |
| OrmProperties.FilterWhereMeaning | src/schema.js:131-134 | the filter keeps exactly the satisfying records, in order |
| OrmProperties.FilterWhereTotal | src/schema.js:131-134 | the filter does not throw when all records have attributes |
| OrmProperties.KeptMembers | src/schema.js:131-134 | a record is kept exactly when it is an item satisfying the filter |
| OrmProperties.FilterWhereEmpty | src/schema.js:131-134 | the empty filter keeps every record |
| OrmProperties.WhereKeepsSatisfying | src/schema.js:130-138 | `where` wraps exactly the satisfying items; the empty filter wraps all items |
| OrmProperties.WhereById | src/schema.js:133 | an "id" entry compares the record's own id loosely |
| OrmProperties.UpdateBuffersDiff | src/schema.js:234 | the diff becomes the old diff deep-merged with the patch, whatever the write-back does |
| OrmProperties.UpdateKeepsEarlierEdits | src/schema.js:234 | buffered edits the patch does not mention survive; the patch reads back from the diff |
| OrmProperties.UpdateTwiceBuffersOnce | src/schema.js:234 | the same patch twice buffers the same diff as once |
| OrmProperties.UpdateNewItem | src/schema.js:231-237 | a new item's update leaves the store alone and merges both parts into its placeholder; a nullish patch throws |
| OrmProperties.RefAfterPatch | src/schema.js:163 | after its record is replaced by one with the same id, `ref` finds the new record at the same index |
| OrmProperties.UpdatePersistedItem | src/schema.js:231-237 | a persisted item's update merges both parts into its live store record; nothing else in the store changes |
| OrmProperties.UpdateWithoutRecordThrows | src/schema.js:183 | without a record, update throws a TypeError; the store is untouched; the diff already took the patch |
| OrmProperties.UpdateReadsBack | src/schema.js:231-237 | after a successful update both getters read the old value merged with the patch |
| OrmProperties.SanitizeIdLooselyEqual | src/schema.js:198 | the wire id is loosely equal to the id |
| OrmProperties.SaveCarriesAttributeEdits | src/schema.js:240-243 | what update sets in attributes is in the saved payload |
| OrmProperties.SaveCarriesRelationshipKeys | src/schema.js:240-243 | every relationship update names is in the saved payload |
| OrmProperties.CreatedItemOwnsSeed | src/schema.js:48-61 | a created item is new, seeded, reads back through its placeholder, saves as a create with no id |
| OrmProperties.ZeroIdIsNew | src/schema.js:150 | id 0 counts as new and saves as a create |
| OrmProperties.CountRelatedCountsRelated | src/schema.js:211-229 | when getRelated returns items, countRelated counts exactly them |
| OrmProperties.GetRelatedEmptyMeansNoSiblings | src/schema.js:211-223 | non-empty linkage gives `[]` only when the sibling type has no items |
| OrmProperties.GetRelatedResolves | src/schema.js:211-219 | with sibling items and every link resolving, the result is the links resolved in order, each the loosely matching sibling |
| OrmProperties.GetRelatedDanglingLinkThrows | src/schema.js:216-218 | a link no sibling matches makes getRelated throw |
| OrmProperties.GetRelatedOfDeclaredType | src/schema.js:214-218 | over a well-typed store, related items are all of the declared type the first link names |
| OrmProperties.DeclaredNamesKeys | src/schema.js:70-73 | the declared names are distinct and are exactly the elements' keys |
| OrmProperties.DeclaredNamesInOrder | src/schema.js:70-73 | with distinct keys, the names are the keys in list order |
| OrmProperties.InitializeListCheck | src/schema.js:66 | undefined, a string and `[]` are refused; a non-empty array passes |
| OrmProperties.FromArrayAcceptsNonArrays | src/schema.js:42 | the guard as written lets a number, a string, null and undefined through (undefined becomes `[]`); the corrected guard refuses them |

## Left out

- Singleton enforcement through symbols (src/schema.js:7-8, 26-29). It is runtime plumbing, so the registry is one explicit `Schema` object.
- The stack-trace capture of `SchemaError` (src/schema.js:10-21). Only the message of what is thrown is modelled.
- `Schema.dispatch` and the store's `getState`/`dispatch` plumbing. The store is a snapshot map held by a `Store` object; the unused `getState()` call in `initialize` shows up only as the TypeError on a null store.
- `src/actions.js` is not part of this model. It forwards to redux-json-api, whose code is not visible. `save` returns an `Action` value naming the action and its payload.
- Numbers are integers. `Number()` on strings covers only the empty string and an optional sign followed by decimal digits. Whitespace, hexadecimal, exponents, fractions and Infinity are not modelled.
- Object identity is modelled by structural equality, both for `===` and for `==` between two objects.
- `_.find(data, {id})` with an object or array id does a partial deep match in lodash. The model compares the whole id.
- `MergeValue` starts from a fresh object when an object source meets an array destination. lodash would keep the array's indices as keys. Top-level array or string sources of `_.merge` contribute no keys in the model.
- `LinkagesOnly` gives `{}` for an array or string relationships value. `_.mapValues` would map its indices.
- Prototype properties such as `toString`, `constructor` or `map` read as undefined.
- Key order is modelled only for `where` filters, as an entry sequence, and for the declared names. JavaScript's reordering of integer-like keys is not modelled. A `where` argument other than an object is not modelled.
- A declared entity's `type` is kept as the property key, the string form of the list element, rather than the element itself.
- A store argument that is not a store object is treated as null. Each stored type has a `data` sequence, and each record has an `id` member.
- `items` and `all` return record values and item states, not allocated objects, so `all` returning fresh objects on each read is not captured.
- Orm.LinkTarget: only states that the index is in range. Its meaning is stated through `ResolveLinks`.

## Findings

| source | as written | input that shows it | evidently intended | confidence | as-written member | corrected member |
|---|---|---|---|---|---|---|
| src/schema.js:42 | `!ids instanceof Array` parses as `(!ids) instanceof Array`, which is always false, so the SchemaError is never thrown | `fromArray('project', 3)` returns a view whose `items` are every project record; `fromArray('project', '12')` and `fromArray('project', null)` return views whose `items` throw a TypeError | `!(ids instanceof Array)`: throw the SchemaError unless ids is an array | high, not executed | OrmProperties.FromArrayAcceptsNonArrays | Orm.FromArrayChecked |
