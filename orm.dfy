/**
 * The ORM facade of src/schema.js over a normalized, JSON:API-shaped store
 * snapshot: the registry `Schema`, the read-only entity view `SchemaEntity`
 * and the record wrapper `SchemaItem`.
 *
 * The store is the map from type name to that type's ordered `data` records.
 * Reads take the snapshot (`Option<Api>`, None when no store is bound, where
 * `store.getState()` throws); `SchemaItem.update` writes into a `Store` object
 * because for a persisted item it assigns into the live store record.
 */
module Orm {
  import opened JsValue
  import opened LodashMerge

  const InitializeMessage: string := "Schema should receive a list of entity names as a parameter."
  const NotInitializedMessage: string := "The schema was not initialized properly. Run initialize() first."
  const FromArrayMessage: string := "Schema.fromArray() should receive a type and an array of IDs."

  /** `${type} is not a valid entity.` */
  function InvalidEntityMessage(typeName: string): string {
    typeName + " is not a valid entity."
  }

  // ---------------------------------------------------------------------
  // The store

  /** A normalized record `{id, type, attributes, relationships}`; a member the
      record lacks is Undefined. */
  datatype Record = Record(id: Value, typeName: string, attributes: Value, relationships: Value)

  /** The store state's `api` slice: each type's `data` records, in order. */
  type Api = map<string, seq<Record>>

  /** The store the registry is bound to, reduced to its current state. */
  class Store {
    var api: Api

    constructor (api: Api)
      ensures this.api == api
    {
      this.api := api;
    }
  }

  /** `store.getState().api`; None when no store is bound. */
  function Snapshot(store: Store?): Option<Api>
    reads store
  {
    if store == null then None else Some(store.api)
  }

  /** Reading the state throws when there is no store to read it from. */
  function ApiOf(state: Option<Api>): Result<Api> {
    if state.Some? then Ok(state.value) else Throw(TypeError)
  }

  /** `(api[type] || {data: []}).data` */
  function DataOf(api: Api, typeName: string): seq<Record> {
    if typeName in api then api[typeName] else []
  }

  /** The index of the first record whose id is strictly equal (`===`) to
      `id`, or `|rs|` when there is none. */
  function IndexOfId(rs: seq<Record>, id: Value): (i: nat)
    ensures i <= |rs|
    ensures forall j :: 0 <= j < i ==> !SameValue(rs[j].id, id)
    ensures i < |rs| ==> SameValue(rs[i].id, id)
  {
    if rs == [] then 0 else if SameValue(rs[0].id, id) then 0 else 1 + IndexOfId(rs[1..], id)
  }

  /** The index of the first record whose id is loosely equal (`==`) to `id`,
      or `|rs|` when there is none. */
  function IndexOfLooseId(rs: seq<Record>, id: Value): (i: nat)
    ensures i <= |rs|
    ensures forall j :: 0 <= j < i ==> !LooseEq(rs[j].id, id)
    ensures i < |rs| ==> LooseEq(rs[i].id, id)
  {
    if rs == [] then 0 else if LooseEq(rs[0].id, id) then 0 else 1 + IndexOfLooseId(rs[1..], id)
  }

  /** `ids.map(id => _.find(data, {id: id})).filter(item => item)`: for each id
      in turn, the first record whose id is strictly equal to it; ids without
      a match are dropped. */
  function FindEach(data: seq<Record>, ids: seq<Value>): seq<Record> {
    if ids == [] then []
    else
      var i := IndexOfId(data, ids[0]);
      (if i < |data| then [data[i]] else []) + FindEach(data, ids[1..])
  }

  // ---------------------------------------------------------------------
  // SchemaEntity: a read-only, optionally id-scoped view of one type

  /** The value `where` compares under the filter key `key`: the record's own
      id for "id", otherwise the attribute of that name. */
  function FilterField(rec: Record, key: string): Result<Value> {
    if key == "id" then Ok(rec.id) else Prop(rec.attributes, key)
  }

  /** `_.reduce(params, (result, value, key) => result && field(key) == value, acc)`
      over the filter's entries in enumeration order: once the accumulator is
      false no further field is read. */
  function MatchesFrom(rec: Record, params: seq<(string, Value)>, acc: bool): Result<bool>
    decreases |params|
  {
    if params == [] then Ok(acc)
    else if !acc then MatchesFrom(rec, params[1..], false)
    else
      var field :- FilterField(rec, params[0].0);
      MatchesFrom(rec, params[1..], LooseEq(field, params[0].1))
  }

  /** `_.filter(items, item => matches(item))`; the first record whose test
      throws makes the whole call throw. */
  function FilterWhere(items: seq<Record>, params: seq<(string, Value)>): Result<seq<Record>> {
    if items == [] then Ok([])
    else
      var keep :- MatchesFrom(items[0], params, true);
      var rest :- FilterWhere(items[1..], params);
      Ok((if keep then [items[0]] else []) + rest)
  }

  /** `new SchemaEntity(type, ids)`: a type name and the ids it is scoped to
      (an empty list meaning all records of the type). */
  datatype SchemaEntity = SchemaEntity(typeName: string, ids: Value) {

    /** `get items()`: the raw records of the view. */
    function Items(state: Option<Api>): (r: Result<seq<Record>>)
      ensures state.None? ==> r == Throw(TypeError)
      ensures state.Some? && ids == Arr([]) ==> r == Ok(DataOf(state.value, typeName))
      ensures state.Some? && ids.Arr? && ids.elems != [] ==> r == Ok(FindEach(DataOf(state.value, typeName), ids.elems))
    {
      var api :- ApiOf(state);
      var data := DataOf(api, typeName);
      var length :- Prop(ids, "length");
      if !Truthy(length) then Ok(data)
      else if ids.Arr? then Ok(FindEach(data, ids.elems))
      else Throw(TypeError)
    }

    /** `get all()` */
    function All(state: Option<Api>): (r: Result<seq<ItemState>>)
      ensures r.Ok? <==> Items(state).Ok?
      ensures r.Ok? ==> |r.value| == |Items(state).value|
      ensures r.Ok? ==> forall k :: 0 <= k < |r.value| ==> r.value[k] == Wrap(Items(state).value[k])
    {
      var items :- Items(state);
      Ok(WrapAll(items))
    }

    /** `get first()`: None is `undefined`. */
    function First(state: Option<Api>): (r: Result<Option<ItemState>>)
      ensures r.Ok? <==> Items(state).Ok?
      ensures r.Ok? ==> (r.value.None? <==> Items(state).value == [])
      ensures r.Ok? && r.value.Some? ==> r.value.value == Wrap(Items(state).value[0])
    {
      var items :- Items(state);
      Ok(if |items| > 0 then Some(Wrap(items[0])) else None)
    }

    /** `get count()` */
    function Count(state: Option<Api>): (r: Result<nat>)
      ensures r.Ok? <==> Items(state).Ok?
      ensures r.Ok? ==> r.value == |Items(state).value|
    {
      var items :- Items(state);
      Ok(|items|)
    }

    /** `findById(id)`: the first item whose id is loosely equal to `id`; None
        is `null`. */
    function FindById(state: Option<Api>, id: Value): (r: Result<Option<ItemState>>)
      ensures r.Ok? <==> Items(state).Ok?
      ensures r.Ok? ==> (r.value.None? <==>
        forall k :: 0 <= k < |Items(state).value| ==> !LooseEq(Items(state).value[k].id, id))
      ensures r.Ok? && r.value.Some? ==> LooseEq(r.value.value.id, id)
      ensures r.Ok? && r.value.Some? ==>
        && IndexOfLooseId(Items(state).value, id) < |Items(state).value|
        && r.value.value == Wrap(Items(state).value[IndexOfLooseId(Items(state).value, id)])
    {
      var items :- Items(state);
      var i := IndexOfLooseId(items, id);
      Ok(if i < |items| then Some(Wrap(items[i])) else None)
    }

    /** `where(params)`, the filter given as its entries in enumeration order. */
    function Where(state: Option<Api>, params: seq<(string, Value)>): (r: Result<seq<ItemState>>)
      ensures Items(state).Throw? ==> r.Throw?
      ensures r.Ok? ==> Items(state).Ok? && FilterWhere(Items(state).value, params).Ok?
      ensures r.Ok? ==> r.value == WrapAll(FilterWhere(Items(state).value, params).value)
    {
      var items :- Items(state);
      var kept :- FilterWhere(items, params);
      Ok(WrapAll(kept))
    }
  }

  // ---------------------------------------------------------------------
  // SchemaItem: the state of one wrapped record and what reads it

  /** The fields of a SchemaItem: `id`, `type`, the buffered `diff`, and the
      placeholder `_ref` a new item owns (None when it has none). */
  datatype ItemState = ItemState(id: Value, typeName: string, diff: map<string, Value>, ownedRef: Option<map<string, Value>>)

  /** An item is new (unsaved) exactly when its id is falsy: null, undefined,
      0, "" or false. */
  predicate IsNew(id: Value) { !Truthy(id) }

  /** `{attributes: item.attributes || {}, relationships: item.relationships || {}}` */
  function Seed(rec: Record): map<string, Value> {
    map["attributes" := OrEmpty(rec.attributes), "relationships" := OrEmpty(rec.relationships)]
  }

  /** `new SchemaItem(record)` */
  function Wrap(rec: Record): ItemState {
    ItemState(rec.id, rec.typeName, Seed(rec), if IsNew(rec.id) then Some(Seed(rec)) else None)
  }

  function WrapAll(rs: seq<Record>): seq<ItemState> {
    seq(|rs|, k requires 0 <= k < |rs| => Wrap(rs[k]))
  }

  /** The record `createItem(type, attributes, relationships)` wraps. */
  function NewRecord(typeName: string, attributes: Value, relationships: Value): Record {
    Record(Null, typeName, attributes, OrEmpty(relationships))
  }

  /** The two members of a record an item reads and writes through `ref`. */
  datatype Part = Attributes | Relationships

  function PartKey(part: Part): string {
    match part
    case Attributes => "attributes"
    case Relationships => "relationships"
  }

  function WithPart(rec: Record, part: Part, v: Value): Record {
    match part
    case Attributes => rec.(attributes := v)
    case Relationships => rec.(relationships := v)
  }

  /** What `get ref()` returns: null (the store has no collection for the
      type) or undefined (no record has the id), the live store record at its
      index, or the placeholder a new item owns. */
  datatype Ref =
    | Missing(isNull: bool)
    | Stored(index: nat, rec: Record)
    | Owned(props: map<string, Value>)

  /** `get ref()`: a persisted item looks itself up in the current snapshot by
      type and strict id; a new item returns its own placeholder. */
  function RefOf(item: ItemState, state: Option<Api>): (r: Result<Ref>)
    ensures r.Throw? <==> !IsNew(item.id) && state.None?
    ensures IsNew(item.id) ==> r.Ok? && (r.value.Owned? <==> item.ownedRef.Some?)
    ensures r.Ok? && r.value.Owned? ==> IsNew(item.id) && item.ownedRef == Some(r.value.props)
    ensures r.Ok? && r.value.Stored? ==>
      && !IsNew(item.id) && state.Some? && item.typeName in state.value
      && r.value.index < |state.value[item.typeName]|
      && state.value[item.typeName][r.value.index] == r.value.rec
      && r.value.rec.id == item.id
      && forall j :: 0 <= j < r.value.index ==> state.value[item.typeName][j].id != item.id
    ensures r == Ok(Missing(true)) <==> !IsNew(item.id) && state.Some? && item.typeName !in state.value
    ensures r == Ok(Missing(false)) && !IsNew(item.id) ==>
      && state.Some? && item.typeName in state.value
      && forall j :: 0 <= j < |state.value[item.typeName]| ==> state.value[item.typeName][j].id != item.id
  {
    if IsNew(item.id) then
      Ok(if item.ownedRef.Some? then Owned(item.ownedRef.value) else Missing(false))
    else
      var api :- ApiOf(state);
      if item.typeName !in api then Ok(Missing(true))
      else
        var data := api[item.typeName];
        var i := IndexOfId(data, item.id);
        Ok(if i < |data| then Stored(i, data[i]) else Missing(false))
  }

  /** `get attributes()` / `get relationships()` once `ref` is known: a missing
      ref reads as `{}` for attributes but as `[]` for relationships. */
  function Read(ref: Ref, part: Part): Value {
    match ref
    case Missing(_) => if part == Attributes then Obj(map[]) else Arr([])
    case Stored(_, rec) => if part == Attributes then rec.attributes else rec.relationships
    case Owned(p) => Lookup(p, PartKey(part))
  }

  /** The `attributes` or `relationships` getter. */
  function ReadPart(item: ItemState, state: Option<Api>, part: Part): (r: Result<Value>)
    ensures r.Throw? <==> !IsNew(item.id) && state.None?
    ensures IsNew(item.id) && item.ownedRef.Some? ==> r == Ok(Lookup(item.ownedRef.value, PartKey(part)))
    ensures r.Ok? && RefOf(item, state).value.Missing? ==>
      r.value == (if part == Attributes then Obj(map[]) else Arr([]))
    ensures !IsNew(item.id) && state.Some? && item.typeName in state.value ==>
      var data := state.value[item.typeName];
      var i := IndexOfId(data, item.id);
      i < |data| ==> r == Ok(if part == Attributes then data[i].attributes else data[i].relationships)
  {
    var ref :- RefOf(item, state);
    Ok(Read(ref, part))
  }

  /** `related.data` for `related = this.relationships[relation]`, or undefined
      when `related` is falsy. */
  function LinkageData(item: ItemState, state: Option<Api>, relation: string): Result<Value> {
    var rels :- ReadPart(item, state, Relationships);
    var related :- Prop(rels, relation);
    if Truthy(related) then Prop(related, "data") else Ok(Undefined)
  }

  /** `countRelated(relation)`: `related.data.length` when every step of that
      chain is truthy, else 0. */
  function CountRelated(item: ItemState, state: Option<Api>, relation: string): (r: Result<Value>)
    ensures r.Ok? <==> LinkageData(item, state, relation).Ok?
    ensures r.Ok? && LinkageData(item, state, relation).value.Arr? ==>
      r.value == Num(|LinkageData(item, state, relation).value.elems|)
    ensures r.Ok? && !Truthy(LinkageData(item, state, relation).value) ==> r.value == Num(0)
  {
    var data :- LinkageData(item, state, relation);
    if !Truthy(data) then Ok(Num(0))
    else
      var length := Prop(data, "length").value;
      Ok(if Truthy(length) then length else Num(0))
  }

  /** The sibling record a link `{id, type}` resolves to: the first whose id is
      loosely equal to the link's id (`|siblings|` when there is none). */
  function LinkTarget(siblings: seq<Record>, link: Value): (i: nat)
    requires !IsNullish(link)
    ensures i <= |siblings|
  {
    var linkId := Prop(link, "id").value;
    IndexOfLooseId(siblings, linkId)
  }

  /** A link resolves when it can be read and some sibling matches it. */
  predicate Resolves(siblings: seq<Record>, link: Value) {
    !IsNullish(link) && LinkTarget(siblings, link) < |siblings|
  }

  /** `links.map(item => new SchemaItem(_.find(siblings, res => res.id == item.id)))`:
      a link without a match reaches `new SchemaItem(undefined)`, which throws. */
  function ResolveLinks(siblings: seq<Record>, links: seq<Value>): (r: Result<seq<ItemState>>)
    ensures r.Ok? <==> forall k :: 0 <= k < |links| ==> Resolves(siblings, links[k])
    ensures r.Ok? ==> |r.value| == |links|
    ensures r.Ok? ==> forall k :: 0 <= k < |links| ==>
      r.value[k] == Wrap(siblings[LinkTarget(siblings, links[k])])
    ensures r.Throw? ==> r.error == TypeError
  {
    if links == [] then Ok([])
    else
      var linkId :- Prop(links[0], "id");
      var i := IndexOfLooseId(siblings, linkId);
      if i == |siblings| then Throw(TypeError)
      else
        var rest :- ResolveLinks(siblings, links[1..]);
        Ok([Wrap(siblings[i])] + rest)
  }

  /** `getRelated(relation)`: the sibling type is read from the first link's
      `type`, looked up among the registry's `entities`, and each link is
      resolved against that type's items. */
  function GetRelated(item: ItemState, state: Option<Api>, entities: Option<map<string, SchemaEntity>>, relation: string): (r: Result<seq<ItemState>>)
    ensures LinkageData(item, state, relation).Throw? ==> r.Throw?
    ensures LinkageData(item, state, relation).Ok? && !Truthy(LinkageData(item, state, relation).value) ==> r == Ok([])
    ensures LinkageData(item, state, relation) == Ok(Arr([])) ==> r == Ok([])
    ensures r.Ok? && r.value != [] ==>
      && LinkageData(item, state, relation).Ok?
      && LinkageData(item, state, relation).value.Arr?
      && |r.value| == |LinkageData(item, state, relation).value.elems|
  {
    var data :- LinkageData(item, state, relation);
    if !Truthy(data) then Ok([])
    else
      var length := Prop(data, "length").value;
      if !Truthy(length) then Ok([])
      else
        var firstType :- Prop(Prop(data, "0").value, "type");
        var registry :- if entities.Some? then Ok(entities.value) else Throw(TypeError);
        var key := ToString(firstType);
        var sibling :- if key in registry then Ok(registry[key]) else Throw(TypeError);
        var siblings :- sibling.Items(state);
        if |siblings| == 0 then Ok([])
        else if !data.Arr? then Throw(TypeError)
        else
          var result :- ResolveLinks(siblings, data.elems);
          Ok(if |result| > 0 then result else [])
  }

  /** `_.mapValues(rels, rel => ({data: rel.data}))`: each relationship reduced
      to its linkage; a null or undefined relationship makes `rel.data` throw. */
  function LinkagesOnly(rels: Value): (r: Result<Value>)
    ensures rels.Obj? ==> (r.Throw? <==> exists k :: k in rels.props && IsNullish(rels.props[k]))
    ensures r.Ok? ==> r.value.Obj?
    ensures r.Ok? && rels.Obj? ==> r.value.props.Keys == rels.props.Keys
    ensures r.Ok? && rels.Obj? ==> forall k :: k in rels.props ==>
      r.value.props[k] == Obj(map["data" := Prop(rels.props[k], "data").value])
  {
    if rels.Obj? then
      if exists k :: k in rels.props && IsNullish(rels.props[k]) then Throw(TypeError)
      else Ok(Obj(map k | k in rels.props :: Obj(map["data" := Prop(rels.props[k], "data").value])))
    else Ok(Obj(map[]))
  }

  /** `sanitize()`: the wire-ready record built from the buffered diff. */
  function Sanitize(item: ItemState): (r: Result<Record>)
    ensures r.Ok? ==> r.value.typeName == item.typeName
    ensures r.Ok? ==> r.value.id == (if Truthy(item.id) then Str(ToString(item.id)) else Undefined)
    ensures r.Ok? ==> r.value.attributes == OrEmpty(Lookup(item.diff, "attributes"))
    ensures !Truthy(Lookup(item.diff, "relationships")) ==> r.Ok? && r.value.relationships == Obj(map[])
    ensures Truthy(Lookup(item.diff, "relationships")) ==>
      && (r.Ok? <==> LinkagesOnly(Lookup(item.diff, "relationships")).Ok?)
      && (r.Ok? ==> r.value.relationships == LinkagesOnly(Lookup(item.diff, "relationships")).value)
  {
    var rels := Lookup(item.diff, "relationships");
    var wire :- if Truthy(rels) then LinkagesOnly(rels) else Ok(Obj(map[]));
    Ok(Record(
      if Truthy(item.id) then Str(ToString(item.id)) else Undefined,
      item.typeName,
      OrEmpty(Lookup(item.diff, "attributes")),
      wire))
  }

  /** The persistence action `save()` hands its payload to. */
  datatype Action = CreateEntity(payload: Record) | UpdateEntity(payload: Record)

  /** `save()`: `update(this.sanitize())` for a persisted item,
      `create(this.sanitize())` for a new one. */
  function Save(item: ItemState): (r: Result<Action>)
    ensures r.Ok? <==> Sanitize(item).Ok?
    ensures r.Ok? ==> r.value.payload == Sanitize(item).value
    ensures r.Ok? ==> (r.value.UpdateEntity? <==> !IsNew(item.id))
  {
    var wire :- Sanitize(item);
    Ok(if Truthy(item.id) then UpdateEntity(wire) else CreateEntity(wire))
  }

  // ---------------------------------------------------------------------
  // SchemaItem: writes

  /** The result of a write together with the item and store state after it. */
  datatype Step = Step(result: Result<()>, item: ItemState, state: Option<Api>)

  /** `this.ref.<part> = v`: assigns into the owned placeholder or into the live
      store record; a missing ref throws. */
  function WritePart(item: ItemState, state: Option<Api>, part: Part, v: Value): Step {
    match RefOf(item, state)
    case Throw(e) => Step(Throw(e), item, state)
    case Ok(ref) =>
      match ref
      case Missing(_) => Step(Throw(TypeError), item, state)
      case Owned(p) => Step(Ok(()), item.(ownedRef := Some(p[PartKey(part) := v])), state)
      case Stored(i, rec) =>
        var api := state.value;
        Step(Ok(()), item, Some(api[item.typeName := api[item.typeName][i := WithPart(rec, part, v)]]))
  }

  /** `this.<part> = _.merge({}, this.<part>, data.<part> || {})` */
  function MergePart(item: ItemState, state: Option<Api>, data: Value, part: Part): Step {
    match RefOf(item, state)
    case Throw(e) => Step(Throw(e), item, state)
    case Ok(ref) =>
      match Prop(data, PartKey(part))
      case Throw(e) => Step(Throw(e), item, state)
      case Ok(patch) => WritePart(item, state, part, Obj(Merge(Read(ref, part), OrEmpty(patch))))
  }

  /** `update(data)`: the diff takes the deep merge first; then attributes and
      relationships are merged and written back through `ref`. */
  function UpdateSpec(item: ItemState, state: Option<Api>, data: Value): Step {
    var buffered := item.(diff := Merge(Obj(item.diff), data));
    var afterAttributes := MergePart(buffered, state, data, Attributes);
    if afterAttributes.result.Throw? then afterAttributes
    else MergePart(afterAttributes.item, afterAttributes.state, data, Relationships)
  }

  /** `class SchemaItem`: a record wrapper with a buffer of pending edits. */
  class SchemaItem {
    const id: Value
    const typeName: string
    var diff: map<string, Value>
    var ownedRef: Option<map<string, Value>>

    function State(): ItemState
      reads this
    {
      ItemState(id, typeName, diff, ownedRef)
    }

    /** A new item owns its placeholder; a persisted one has none. */
    ghost predicate Valid()
      reads this
    {
      ownedRef.Some? <==> IsNew(id)
    }

    /** `new SchemaItem(record)` */
    constructor (rec: Record)
      ensures State() == Wrap(rec) && Valid()
    {
      id := rec.id;
      typeName := rec.typeName;
      diff := Seed(rec);
      ownedRef := if IsNew(rec.id) then Some(Seed(rec)) else None;
    }

    /** `set ref(data)`: a new item deep-merges `data` into its placeholder; a
        persisted item ignores the assignment. */
    method SetRef(data: Value)
      modifies this
      ensures diff == old(diff)
      ensures IsNew(id) ==> ownedRef == Some(Merge(if old(ownedRef).Some? then Obj(old(ownedRef).value) else Undefined, data))
      ensures !IsNew(id) ==> ownedRef == old(ownedRef)
      ensures old(Valid()) ==> Valid()
    {
      if IsNew(id) {
        ownedRef := Some(Merge(if ownedRef.Some? then Obj(ownedRef.value) else Undefined, data));
      }
    }

    /** `set attributes(v)` / `set relationships(v)`: `this.ref.<part> = v`. */
    method SetPart(store: Store?, part: Part, v: Value) returns (r: Result<()>)
      modifies this, store
      ensures Step(r, State(), Snapshot(store)) == WritePart(old(State()), old(Snapshot(store)), part, v)
    {
      var ref :- RefOf(State(), Snapshot(store));
      match ref {
        case Missing(_) =>
          r := Throw(TypeError);
        case Owned(p) =>
          ownedRef := Some(p[PartKey(part) := v]);
          r := Ok(());
        case Stored(i, rec) =>
          store.api := store.api[typeName := store.api[typeName][i := WithPart(rec, part, v)]];
          r := Ok(());
      }
    }

    /** `this.<part> = _.merge({}, this.<part>, data.<part> || {})` */
    method AssignPart(store: Store?, data: Value, part: Part) returns (r: Result<()>)
      modifies this, store
      ensures Step(r, State(), Snapshot(store)) == MergePart(old(State()), old(Snapshot(store)), data, part)
    {
      var ref :- RefOf(State(), Snapshot(store));
      var patch :- Prop(data, PartKey(part));
      r := SetPart(store, part, Obj(Merge(Read(ref, part), OrEmpty(patch))));
    }

    /** `update(data)` */
    method Update(store: Store?, data: Value) returns (r: Result<()>)
      modifies this, store
      ensures Step(r, State(), Snapshot(store)) == UpdateSpec(old(State()), old(Snapshot(store)), data)
    {
      diff := Merge(Obj(diff), data);
      r := AssignPart(store, data, Attributes);
      if r.Ok? {
        r := AssignPart(store, data, Relationships);
      }
    }
  }

  // ---------------------------------------------------------------------
  // Schema: the registry

  predicate Distinct(names: seq<string>) {
    forall i, j :: 0 <= i < j < |names| ==> names[i] != names[j]
  }

  /** The keys `initialize` gives `this.entities`, in order: each element's
      property key, a repeated key keeping its first position. */
  function DeclaredNames(elems: seq<Value>): seq<string> {
    if elems == [] then []
    else
      var prefix := DeclaredNames(elems[..|elems| - 1]);
      var key := ToString(elems[|elems| - 1]);
      if key in prefix then prefix else prefix + [key]
  }

  /** One unscoped entity view per declared name. */
  function EntityMap(names: seq<string>): map<string, SchemaEntity> {
    map n | n in names :: SchemaEntity(n, Arr([]))
  }

  /** Declaring one more element: the names and the entity map grow by its
      key unless the key is already declared. */
  lemma DeclareNext(elems: seq<Value>, i: nat)
    requires i < |elems| && Distinct(DeclaredNames(elems[..i]))
    ensures var names, key := DeclaredNames(elems[..i]), ToString(elems[i]);
      && DeclaredNames(elems[..i + 1]) == (if key in names then names else names + [key])
      && Distinct(DeclaredNames(elems[..i + 1]))
      && EntityMap(DeclaredNames(elems[..i + 1])) == EntityMap(names)[key := SchemaEntity(key, Arr([]))]
  {
    var names, key := DeclaredNames(elems[..i]), ToString(elems[i]);
    assert elems[..i + 1][..i] == elems[..i];
    if key !in names {
      assert EntityMap(names + [key]) == EntityMap(names)[key := SchemaEntity(key, Arr([]))];
    } else {
      assert EntityMap(names)[key := SchemaEntity(key, Arr([]))] == EntityMap(names);
    }
  }

  /** The check `initialize` makes of its list: truthy, of type "object" (an
      array or an object) and with a truthy `length`. */
  predicate IsNameList(list: Value) {
    Truthy(list) && (list.Arr? || list.Obj?) && Truthy(Prop(list, "length").value)
  }

  /** `Schema.fromArray(type, ids)` as written. Its guard `!ids instanceof Array`
      parses as `(!ids) instanceof Array`, which is never true, so every `ids`
      is accepted; the entity's default parameter `ids = []` replaces an
      undefined one. */
  function FromArray(typeName: string, ids: Value): (r: SchemaEntity)
    ensures r.typeName == typeName
    ensures r.ids == (if ids.Undefined? then Arr([]) else ids)
  {
    SchemaEntity(typeName, if ids.Undefined? then Arr([]) else ids)
  }

  /** `Schema.fromArray(type, ids)` with the guard it evidently intends:
      `!(ids instanceof Array)`. */
  function FromArrayChecked(typeName: string, ids: Value): (r: Result<SchemaEntity>)
    ensures r.Ok? <==> ids.Arr?
    ensures r.Ok? ==> r.value.typeName == typeName && r.value.ids == ids
    ensures r.Throw? ==> r.error == SchemaError(FromArrayMessage)
  {
    if !ids.Arr? then Throw(SchemaError(FromArrayMessage)) else Ok(FromArray(typeName, ids))
  }

  /** `class Schema`, the registry: the bound store and the declared entities
      (`names` is the key order of `this.entities`). */
  class Schema {
    var store: Store?
    var names: seq<string>
    var entities: Option<map<string, SchemaEntity>>

    ghost predicate Valid()
      reads this
    {
      && Distinct(names)
      && (entities.None? ==> names == [])
      && (entities.Some? ==> entities.value == EntityMap(names))
    }

    /** `Schema.instance` on first access: nothing bound, nothing declared. */
    constructor ()
      ensures Valid() && store == null && names == [] && entities == None
    {
      store := null;
      names := [];
      entities := None;
    }

    /** `initialize(store, entities)`. The store is bound before the list is
        checked; `this.entities` is reset before the store is read. */
    method Initialize(store: Store?, list: Value) returns (r: Result<()>)
      requires Valid()
      modifies this
      ensures Valid() && this.store == store
      ensures !IsNameList(list) ==>
        r == Throw(SchemaError(InitializeMessage)) && names == old(names) && entities == old(entities)
      ensures IsNameList(list) && (store == null || !list.Arr?) ==>
        r == Throw(TypeError) && names == [] && entities == Some(map[])
      ensures IsNameList(list) && store != null && list.Arr? ==>
        r == Ok(()) && names == DeclaredNames(list.elems) && entities == Some(EntityMap(names))
    {
      this.store := store;
      if !IsNameList(list) {
        r := Throw(SchemaError(InitializeMessage));
        return;
      }
      names := [];
      entities := Some(map[]);
      assert EntityMap([]) == map[];
      if store == null || !list.Arr? {
        r := Throw(TypeError);
        return;
      }
      var elems := list.elems;
      var i := 0;
      while i < |elems|
        invariant 0 <= i <= |elems|
        invariant this.store == store
        invariant names == DeclaredNames(elems[..i])
        invariant Distinct(names)
        invariant entities == Some(EntityMap(names))
      {
        DeclareNext(elems, i);
        var key := ToString(elems[i]);
        if key !in entities.value {
          names := names + [key];
        }
        entities := Some(entities.value[key := SchemaEntity(key, Arr([]))]);
        i := i + 1;
      }
      assert elems[..i] == elems;
      r := Ok(());
    }

    /** `createItem(type, attributes, relationships)` */
    method CreateItem(typeName: string, attributes: Value, relationships: Value) returns (r: Result<SchemaItem>)
      ensures entities.None? ==> r == Throw(SchemaError(NotInitializedMessage))
      ensures entities.Some? && typeName !in entities.value ==>
        r == Throw(SchemaError(InvalidEntityMessage(typeName)))
      ensures entities.Some? && typeName in entities.value ==>
        r.Ok? && fresh(r.value) && r.value.State() == Wrap(NewRecord(typeName, attributes, relationships))
    {
      if entities.None? {
        return Throw(SchemaError(NotInitializedMessage));
      }
      if typeName !in entities.value {
        return Throw(SchemaError(InvalidEntityMessage(typeName)));
      }
      var item := new SchemaItem(NewRecord(typeName, attributes, relationships));
      r := Ok(item);
    }
  }
}
