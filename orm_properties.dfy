/**
 * Properties of the ORM model: what the entity views return, what `where`
 * keeps, what `update` does to the buffer, the placeholder and the store,
 * what `sanitize`/`save` send, how `getRelated` resolves links, and what
 * `initialize` declares.
 */
module OrmProperties {
  import opened JsValue
  import opened LodashMerge
  import opened Orm

  // ---------------------------------------------------------------------
  // Id-scoped views

  /** Some record of `data` carries exactly this id. */
  predicate HasRecord(data: seq<Record>, id: Value) {
    exists r :: r in data && r.id == id
  }

  /** Scoping by ids never invents records: at most one record per id, each
      taken from the type's data and carrying one of the requested ids. */
  lemma {:induction false} FindEachBounded(data: seq<Record>, ids: seq<Value>)
    ensures |FindEach(data, ids)| <= |ids|
    ensures forall r :: r in FindEach(data, ids) ==> r in data && r.id in ids
    ensures data == [] ==> FindEach(data, ids) == []
  {
    if ids != [] {
      FindEachBounded(data, ids[1..]);
      var rest := FindEach(data, ids[1..]);
      var i := IndexOfId(data, ids[0]);
      assert FindEach(data, ids) == (if i < |data| then [data[i]] else []) + rest;
      forall r | r in rest ensures r.id in ids {
        assert r.id in ids[1..];
      }
    }
  }

  /** An id that has a record contributes its first strict match, whatever
      the other ids find. */
  lemma {:induction false} FindEachPresentFound(data: seq<Record>, ids: seq<Value>, k: nat)
    requires k < |ids| && IndexOfId(data, ids[k]) < |data|
    ensures data[IndexOfId(data, ids[k])] in FindEach(data, ids)
  {
    if k > 0 {
      FindEachPresentFound(data, ids[1..], k - 1);
    }
  }

  /** When every requested id has a record, the view holds one record per id,
      in the order of the ids. */
  lemma {:induction false} FindEachAllFound(data: seq<Record>, ids: seq<Value>)
    requires forall k :: 0 <= k < |ids| ==> HasRecord(data, ids[k])
    ensures |FindEach(data, ids)| == |ids|
    ensures forall k :: 0 <= k < |ids| ==> FindEach(data, ids)[k].id == ids[k]
  {
    if ids != [] {
      FindEachAllFound(data, ids[1..]);
      var i := IndexOfId(data, ids[0]);
      assert HasRecord(data, ids[0]);
      var r :| r in data && r.id == ids[0];
      var j :| 0 <= j < |data| && data[j] == r;
      assert i < |data|;
      var rest := FindEach(data, ids[1..]);
      assert FindEach(data, ids) == [data[i]] + rest;
      forall k | 0 <= k < |ids| ensures FindEach(data, ids)[k].id == ids[k] {
        if k > 0 {
          assert FindEach(data, ids)[k] == rest[k - 1];
        }
      }
    }
  }

  /** `items` of a view scoped to a non-empty id list. */
  lemma ItemsScoped(e: SchemaEntity, api: Api)
    requires e.ids.Arr? && e.ids.elems != []
    ensures e.Items(Some(api)).Ok?
    ensures |e.Items(Some(api)).value| <= |e.ids.elems|
    ensures forall r :: r in e.Items(Some(api)).value ==> r in DataOf(api, e.typeName) && r.id in e.ids.elems
    ensures forall k :: 0 <= k < |e.ids.elems| && IndexOfId(DataOf(api, e.typeName), e.ids.elems[k]) < |DataOf(api, e.typeName)| ==>
      DataOf(api, e.typeName)[IndexOfId(DataOf(api, e.typeName), e.ids.elems[k])] in e.Items(Some(api)).value
    ensures (forall k :: 0 <= k < |e.ids.elems| ==> HasRecord(DataOf(api, e.typeName), e.ids.elems[k])) ==>
      |e.Items(Some(api)).value| == |e.ids.elems| &&
      forall k :: 0 <= k < |e.ids.elems| ==> e.Items(Some(api)).value[k].id == e.ids.elems[k]
  {
    FindEachBounded(DataOf(api, e.typeName), e.ids.elems);
    forall k | 0 <= k < |e.ids.elems| && IndexOfId(DataOf(api, e.typeName), e.ids.elems[k]) < |DataOf(api, e.typeName)|
      ensures DataOf(api, e.typeName)[IndexOfId(DataOf(api, e.typeName), e.ids.elems[k])] in e.Items(Some(api)).value
    {
      FindEachPresentFound(DataOf(api, e.typeName), e.ids.elems, k);
    }
    if forall k :: 0 <= k < |e.ids.elems| ==> HasRecord(DataOf(api, e.typeName), e.ids.elems[k]) {
      FindEachAllFound(DataOf(api, e.typeName), e.ids.elems);
    }
  }

  /** A type the store does not hold has no items, scoped or not. */
  lemma ItemsOfAbsentType(e: SchemaEntity, api: Api)
    requires e.ids.Arr? && e.typeName !in api
    ensures e.Items(Some(api)) == Ok([])
  {
    FindEachBounded([], e.ids.elems);
  }

  /** `findById` compares loosely: a number finds the record whose id is that
      number's numeral. */
  lemma FindByIdAcrossNumeral(e: SchemaEntity, state: Option<Api>, n: int, k: nat)
    requires e.Items(state).Ok? && k < |e.Items(state).value|
    requires e.Items(state).value[k].id == Str(IntToString(n))
    ensures e.FindById(state, Num(n)).Ok? && e.FindById(state, Num(n)).value.Some?
    ensures LooseEq(e.FindById(state, Num(n)).value.value.id, Num(n))
    ensures IndexOfLooseId(e.Items(state).value, Num(n)) <= k
    ensures (forall j :: 0 <= j < k ==> !LooseEq(e.Items(state).value[j].id, Num(n))) ==>
      e.FindById(state, Num(n)) == Ok(Some(Wrap(e.Items(state).value[k])))
  {
    LooseEqNumeral(n);
    var items := e.Items(state).value;
    if forall j :: 0 <= j < k ==> !LooseEq(items[j].id, Num(n)) {
      assert IndexOfLooseId(items, Num(n)) == k;
    }
  }

  /** `ref` compares strictly: a persisted item with numeric id 5 does not see
      the stored record whose id is "5", though `findById(5)` finds it. */
  lemma RefIsStrictFindByIdIsLoose(t: string, rec: Record)
    requires rec.id == Str("5")
    ensures RefOf(ItemState(Num(5), t, map[], None), Some(map[t := [rec]])) == Ok(Missing(false))
    ensures SchemaEntity(t, Arr([])).FindById(Some(map[t := [rec]]), Num(5)) == Ok(Some(Wrap(rec)))
  {
    LooseEqNumeral(5);
    assert IntToString(5) == "5";
  }

  // ---------------------------------------------------------------------
  // where

  /** A record satisfies a filter when every entry's field can be read and is
      loosely equal to the entry's value. */
  ghost predicate Satisfies(rec: Record, params: seq<(string, Value)>) {
    forall j :: 0 <= j < |params| ==>
      FilterField(rec, params[j].0).Ok? && LooseEq(FilterField(rec, params[j].0).value, params[j].1)
  }

  /** The records a filter keeps, in order. */
  ghost function Kept(items: seq<Record>, params: seq<(string, Value)>): seq<Record> {
    if items == [] then []
    else (if Satisfies(items[0], params) then [items[0]] else []) + Kept(items[1..], params)
  }

  lemma SatisfiesCons(rec: Record, params: seq<(string, Value)>)
    requires params != []
    ensures Satisfies(rec, params) <==>
      && FilterField(rec, params[0].0).Ok?
      && LooseEq(FilterField(rec, params[0].0).value, params[0].1)
      && Satisfies(rec, params[1..])
  {
    if Satisfies(rec, params[1..]) && FilterField(rec, params[0].0).Ok?
      && LooseEq(FilterField(rec, params[0].0).value, params[0].1)
    {
      forall j | 0 <= j < |params|
        ensures FilterField(rec, params[j].0).Ok? && LooseEq(FilterField(rec, params[j].0).value, params[j].1)
      {
        if j > 0 {
          assert params[j] == params[1..][j - 1];
        }
      }
    }
  }

  /** The short-circuiting reduce answers the declarative test whenever it
      does not throw. */
  lemma {:induction false} MatchesFromMeaning(rec: Record, params: seq<(string, Value)>, acc: bool)
    ensures MatchesFrom(rec, params, acc).Ok? ==>
      (MatchesFrom(rec, params, acc).value <==> acc && Satisfies(rec, params))
    decreases |params|
  {
    if params != [] {
      if !acc {
        MatchesFromMeaning(rec, params[1..], false);
      } else {
        var f := FilterField(rec, params[0].0);
        if f.Ok? {
          MatchesFromMeaning(rec, params[1..], LooseEq(f.value, params[0].1));
          SatisfiesCons(rec, params);
        }
      }
    }
  }

  /** Reading a filter's fields cannot throw on a record with attributes. */
  lemma {:induction false} MatchesFromTotal(rec: Record, params: seq<(string, Value)>, acc: bool)
    requires !IsNullish(rec.attributes)
    ensures MatchesFrom(rec, params, acc).Ok?
    decreases |params|
  {
    if params != [] {
      MatchesFromTotal(rec, params[1..], false);
      MatchesFromTotal(rec, params[1..], true);
    }
  }

  /** `where` keeps exactly the records satisfying the filter, in order. */
  lemma {:induction false} FilterWhereMeaning(items: seq<Record>, params: seq<(string, Value)>)
    ensures FilterWhere(items, params).Ok? ==> FilterWhere(items, params).value == Kept(items, params)
  {
    if items != [] {
      FilterWhereMeaning(items[1..], params);
      MatchesFromMeaning(items[0], params, true);
    }
  }

  /** `where` throws only on a record without attributes. */
  lemma {:induction false} FilterWhereTotal(items: seq<Record>, params: seq<(string, Value)>)
    requires forall k :: 0 <= k < |items| ==> !IsNullish(items[k].attributes)
    ensures FilterWhere(items, params).Ok?
  {
    if items != [] {
      MatchesFromTotal(items[0], params, true);
      FilterWhereTotal(items[1..], params);
    }
  }

  lemma {:induction false} KeptMembers(items: seq<Record>, params: seq<(string, Value)>)
    ensures |Kept(items, params)| <= |items|
    ensures forall r :: r in Kept(items, params) <==> r in items && Satisfies(r, params)
  {
    if items != [] {
      KeptMembers(items[1..], params);
      assert items == [items[0]] + items[1..];
    }
  }

  /** The empty filter keeps everything. */
  lemma {:induction false} FilterWhereEmpty(items: seq<Record>)
    ensures FilterWhere(items, []) == Ok(items)
  {
    if items != [] {
      FilterWhereEmpty(items[1..]);
      assert items == [items[0]] + items[1..];
    }
  }

  /** `where(params)` on an entity view: exactly the view's items that satisfy
      every entry, and all of them when the filter is empty. */
  lemma WhereKeepsSatisfying(e: SchemaEntity, state: Option<Api>, params: seq<(string, Value)>)
    ensures e.Where(state, params).Ok? ==>
      && e.Items(state).Ok?
      && e.Where(state, params).value == WrapAll(Kept(e.Items(state).value, params))
      && (forall r :: r in Kept(e.Items(state).value, params) <==> r in e.Items(state).value && Satisfies(r, params))
    ensures e.Items(state).Ok? && params == [] ==> e.Where(state, params) == Ok(WrapAll(e.Items(state).value))
  {
    if e.Items(state).Ok? {
      FilterWhereMeaning(e.Items(state).value, params);
      KeptMembers(e.Items(state).value, params);
      FilterWhereEmpty(e.Items(state).value);
    }
  }

  /** A filter on "id" compares the record's own id, loosely. */
  lemma WhereById(items: seq<Record>, v: Value)
    ensures forall r :: r in Kept(items, [("id", v)]) <==> r in items && LooseEq(r.id, v)
  {
    KeptMembers(items, [("id", v)]);
    forall r ensures Satisfies(r, [("id", v)]) <==> LooseEq(r.id, v) {
      assert [("id", v)][0] == ("id", v);
    }
  }

  // ---------------------------------------------------------------------
  // update: the buffered diff

  /** The buffer takes the whole patch, whatever happens to the write-back. */
  lemma UpdateBuffersDiff(item: ItemState, state: Option<Api>, data: Value)
    ensures UpdateSpec(item, state, data).item.diff == MergeInto(item.diff, data)
    ensures UpdateSpec(item, state, data).item.id == item.id
    ensures UpdateSpec(item, state, data).item.typeName == item.typeName
  {
    MergeCopiesFirst(item.diff, data);
  }

  /** Edits buffered earlier survive a patch that does not mention them, and
      everything the patch sets can be read back from the buffer. */
  lemma UpdateKeepsEarlierEdits(item: ItemState, state: Option<Api>, data: Value)
    requires data.Obj?
    ensures var d := UpdateSpec(item, state, data).item.diff;
      && (forall k :: k in item.diff && k !in data.props ==> k in d && d[k] == item.diff[k])
      && Reflects(Obj(d), data)
  {
    UpdateBuffersDiff(item, state, data);
    MergePropsKeeps(item.diff, data.props);
    MergeIntoReflects(item.diff, data);
  }

  /** Applying the same patch twice buffers the same diff as applying it once. */
  lemma UpdateTwiceBuffersOnce(item: ItemState, state: Option<Api>, later: Option<Api>, data: Value)
    ensures var once := UpdateSpec(item, state, data).item;
      UpdateSpec(once, later, data).item.diff == once.diff
  {
    var once := UpdateSpec(item, state, data).item;
    UpdateBuffersDiff(item, state, data);
    UpdateBuffersDiff(once, later, data);
    MergeIntoIdempotent(item.diff, data);
  }

  // ---------------------------------------------------------------------
  // update: the write-back through ref

  /** A new item's placeholder after a patch: each part deep-merged with the
      patch's part (or `{}`). */
  function PlaceholderAfter(p: map<string, Value>, data: Value): map<string, Value>
    requires !IsNullish(data)
  {
    p["attributes" := Obj(Merge(Lookup(p, "attributes"), OrEmpty(Prop(data, "attributes").value)))]
     ["relationships" := Obj(Merge(Lookup(p, "relationships"), OrEmpty(Prop(data, "relationships").value)))]
  }

  /** A stored record after a patch: each part deep-merged with the patch's
      part (or `{}`). */
  function Patched(rec: Record, data: Value): Record
    requires !IsNullish(data)
  {
    rec.(attributes := Obj(Merge(rec.attributes, OrEmpty(Prop(data, "attributes").value))),
         relationships := Obj(Merge(rec.relationships, OrEmpty(Prop(data, "relationships").value))))
  }

  /** Updating a new item writes into its own placeholder and leaves the
      store alone; a null or undefined patch throws before any write. */
  lemma UpdateNewItem(item: ItemState, state: Option<Api>, data: Value)
    requires IsNew(item.id) && item.ownedRef.Some?
    ensures var s := UpdateSpec(item, state, data);
      && s.state == state
      && s.item.diff == MergeInto(item.diff, data)
      && s.item.id == item.id && s.item.typeName == item.typeName
      && (s.result.Ok? <==> !IsNullish(data))
      && (IsNullish(data) ==> s.result == Throw(TypeError) && s.item.ownedRef == item.ownedRef)
      && (!IsNullish(data) ==> s.item.ownedRef == Some(PlaceholderAfter(item.ownedRef.value, data)))
  {
    MergeCopiesFirst(item.diff, data);
  }

  /** Once a persisted item's record has been replaced by one with the same
      id, `ref` still finds it at the same index. */
  lemma RefAfterPatch(item: ItemState, api: Api, i: nat, rec: Record, rec': Record, item': ItemState)
    requires RefOf(item, Some(api)) == Ok(Stored(i, rec))
    requires rec'.id == rec.id
    requires item'.id == item.id && item'.typeName == item.typeName
    ensures RefOf(item', Some(api[item.typeName := api[item.typeName][i := rec']])) == Ok(Stored(i, rec'))
  {
    var data := api[item.typeName];
    var data' := data[i := rec'];
    assert SameValue(data'[i].id, item.id);
    forall j | 0 <= j < i ensures !SameValue(data'[j].id, item.id) {
      assert data'[j] == data[j];
    }
    assert IndexOfId(data', item.id) == i;
  }

  /** Updating a persisted item merges the patch into its live store record,
      both parts, at the record's index; nothing else in the store changes. */
  lemma UpdatePersistedItem(item: ItemState, api: Api, data: Value, i: nat, rec: Record)
    requires RefOf(item, Some(api)) == Ok(Stored(i, rec))
    ensures var s := UpdateSpec(item, Some(api), data);
      && s.item == item.(diff := MergeInto(item.diff, data))
      && (s.result.Ok? <==> !IsNullish(data))
      && (IsNullish(data) ==> s.result == Throw(TypeError) && s.state == Some(api))
      && (!IsNullish(data) ==> s.state == Some(api[item.typeName := api[item.typeName][i := Patched(rec, data)]]))
  {
    MergeCopiesFirst(item.diff, data);
    var buffered := item.(diff := Merge(Obj(item.diff), data));
    assert RefOf(buffered, Some(api)) == Ok(Stored(i, rec));
    if !IsNullish(data) {
      var recA := rec.(attributes := Obj(Merge(rec.attributes, OrEmpty(Prop(data, "attributes").value))));
      var api1 := api[item.typeName := api[item.typeName][i := recA]];
      assert MergePart(buffered, Some(api), data, Attributes) == Step(Ok(()), buffered, Some(api1));
      RefAfterPatch(item, api, i, rec, recA, buffered);
      var rels := Obj(Merge(rec.relationships, OrEmpty(Prop(data, "relationships").value)));
      assert Read(Stored(i, recA), Relationships) == rec.relationships;
      assert WithPart(recA, Relationships, rels) == Patched(rec, data);
      assert api1[item.typeName][i := Patched(rec, data)] == api[item.typeName][i := Patched(rec, data)];
      assert MergePart(buffered, Some(api1), data, Relationships) ==
        Step(Ok(()), buffered, Some(api1[item.typeName := api1[item.typeName][i := Patched(rec, data)]]));
      assert api1[item.typeName := api1[item.typeName][i := Patched(rec, data)]] ==
        api[item.typeName := api[item.typeName][i := Patched(rec, data)]];
    }
  }

  /** Without a record to write to, `update` throws a TypeError; the store is
      untouched but the diff has already taken the patch. */
  lemma UpdateWithoutRecordThrows(item: ItemState, state: Option<Api>, data: Value)
    requires RefOf(item, state).Throw? || RefOf(item, state).value.Missing?
    ensures var s := UpdateSpec(item, state, data);
      && s.result == Throw(TypeError)
      && s.state == state
      && s.item == item.(diff := MergeInto(item.diff, data))
  {
    MergeCopiesFirst(item.diff, data);
    var buffered := item.(diff := Merge(Obj(item.diff), data));
    assert RefOf(buffered, state) == RefOf(item, state);
  }

  /** After a successful update both getters read the old value deep-merged
      with the patch. */
  lemma UpdateReadsBack(item: ItemState, state: Option<Api>, data: Value)
    requires UpdateSpec(item, state, data).result.Ok?
    ensures !IsNullish(data)
    ensures ReadPart(item, state, Attributes).Ok? && ReadPart(item, state, Relationships).Ok?
    ensures var s := UpdateSpec(item, state, data);
      && ReadPart(s.item, s.state, Attributes) ==
           Ok(Obj(Merge(ReadPart(item, state, Attributes).value, OrEmpty(Prop(data, "attributes").value))))
      && ReadPart(s.item, s.state, Relationships) ==
           Ok(Obj(Merge(ReadPart(item, state, Relationships).value, OrEmpty(Prop(data, "relationships").value))))
  {
    if RefOf(item, state).Throw? || RefOf(item, state).value.Missing? {
      UpdateWithoutRecordThrows(item, state, data);
    } else if RefOf(item, state).value.Owned? {
      UpdateNewItem(item, state, data);
    } else {
      var i, rec := RefOf(item, state).value.index, RefOf(item, state).value.rec;
      UpdatePersistedItem(item, state.value, data, i, rec);
      var s := UpdateSpec(item, state, data);
      RefAfterPatch(item, state.value, i, rec, Patched(rec, data), s.item);
    }
  }

  // ---------------------------------------------------------------------
  // sanitize and save

  /** The wire id is the id as a string, loosely equal to the id itself. */
  lemma SanitizeIdLooselyEqual(item: ItemState)
    requires Truthy(item.id) && (item.id.Num? || item.id.Str?)
    ensures Sanitize(item).Ok? ==> LooseEq(Sanitize(item).value.id, item.id)
  {
    if item.id.Num? {
      LooseEqNumeral(item.id.n);
    }
  }

  /** What `update` sets in the attributes is in the payload `save` sends. */
  lemma SaveCarriesAttributeEdits(item: ItemState, state: Option<Api>, data: Value)
    requires data.Obj? && "attributes" in data.props && data.props["attributes"].Obj?
    ensures var w := Save(UpdateSpec(item, state, data).item);
      w.Ok? ==> Reflects(w.value.payload.attributes, data.props["attributes"])
  {
    UpdateBuffersDiff(item, state, data);
    var dest := if "attributes" in item.diff then Some(item.diff["attributes"]) else None;
    assert MergeInto(item.diff, data)["attributes"] == MergeValue(dest, data.props["attributes"]);
    MergeValueReflects(dest, data.props["attributes"]);
  }

  /** Every relationship `update` names is in the payload `save` sends. */
  lemma SaveCarriesRelationshipKeys(item: ItemState, state: Option<Api>, data: Value)
    requires data.Obj? && "relationships" in data.props && data.props["relationships"].Obj?
    ensures var w := Save(UpdateSpec(item, state, data).item);
      w.Ok? ==> (w.value.payload.relationships.Obj? &&
        forall k :: k in data.props["relationships"].props ==> k in w.value.payload.relationships.props)
  {
    UpdateBuffersDiff(item, state, data);
    var dest := if "relationships" in item.diff then Some(item.diff["relationships"]) else None;
    var base := if dest.Some? && dest.value.Obj? then dest.value.props else map[];
    assert MergeInto(item.diff, data)["relationships"] == MergeValue(dest, data.props["relationships"]);
    assert MergeValue(dest, data.props["relationships"]) == Obj(MergeProps(base, data.props["relationships"].props));
    MergePropsKeeps(base, data.props["relationships"].props);
  }

  /** `createItem`'s item: new, seeded with `{attributes, relationships}` in
      both its diff and its placeholder, read back through `ref` whatever the
      store holds, and saved with a create action. */
  lemma CreatedItemOwnsSeed(t: string, a: Value, rels: Value, state: Option<Api>)
    ensures var item := Wrap(NewRecord(t, a, rels));
      && IsNew(item.id) && item.typeName == t
      && item.diff == map["attributes" := OrEmpty(a), "relationships" := OrEmpty(rels)]
      && item.ownedRef == Some(item.diff)
      && RefOf(item, state) == Ok(Owned(item.diff))
      && ReadPart(item, state, Attributes) == Ok(OrEmpty(a))
      && ReadPart(item, state, Relationships) == Ok(OrEmpty(rels))
      && (Save(item).Ok? ==> Save(item).value.CreateEntity? && Save(item).value.payload.id == Undefined)
  {
  }

  /** A record whose id is 0 counts as new: it owns a placeholder and is
      saved with a create action. */
  lemma ZeroIdIsNew(t: string, a: Value, rels: Value)
    ensures Wrap(Record(Num(0), t, a, rels)).ownedRef.Some?
    ensures Save(Wrap(Record(Num(0), t, a, rels))).Ok? ==>
      Save(Wrap(Record(Num(0), t, a, rels))).value.CreateEntity?
  {
  }

  // ---------------------------------------------------------------------
  // Related items

  /** When `getRelated` returns items, `countRelated` counts exactly them. */
  lemma CountRelatedCountsRelated(item: ItemState, state: Option<Api>, entities: Option<map<string, SchemaEntity>>, relation: string)
    requires GetRelated(item, state, entities, relation).Ok?
    requires GetRelated(item, state, entities, relation).value != []
    ensures CountRelated(item, state, relation) == Ok(Num(|GetRelated(item, state, entities, relation).value|))
  {
  }

  lemma FirstLink(links: seq<Value>)
    requires links != []
    ensures Prop(Arr(links), "0") == Ok(links[0])
  {
    PropIndex(links, 0);
    assert IntToString(0) == "0";
  }

  /** Non-empty linkage never yields `[]` through the final fallback: an empty
      result means the sibling type had no items. */
  lemma GetRelatedEmptyMeansNoSiblings(item: ItemState, state: Option<Api>, entities: Option<map<string, SchemaEntity>>, relation: string, links: seq<Value>)
    requires LinkageData(item, state, relation) == Ok(Arr(links)) && links != []
    requires GetRelated(item, state, entities, relation) == Ok([])
    ensures !IsNullish(links[0]) && entities.Some?
    ensures ToString(Prop(links[0], "type").value) in entities.value
    ensures entities.value[ToString(Prop(links[0], "type").value)].Items(state) == Ok([])
  {
    FirstLink(links);
  }

  /** A link no sibling matches makes `getRelated` throw. */
  lemma GetRelatedDanglingLinkThrows(item: ItemState, state: Option<Api>, entities: Option<map<string, SchemaEntity>>,
                                     relation: string, links: seq<Value>, siblings: seq<Record>, k: nat)
    requires LinkageData(item, state, relation) == Ok(Arr(links))
    requires k < |links| && !IsNullish(links[0])
    requires entities.Some? && ToString(Prop(links[0], "type").value) in entities.value
    requires entities.value[ToString(Prop(links[0], "type").value)].Items(state) == Ok(siblings)
    requires siblings != [] && !Resolves(siblings, links[k])
    ensures GetRelated(item, state, entities, relation) == Throw(TypeError)
  {
    FirstLink(links);
  }

  /** When the sibling type has items and every link resolves, `getRelated`
      is the links resolved in order: each the sibling whose id loosely
      equals the link's id. */
  lemma GetRelatedResolves(item: ItemState, state: Option<Api>, entities: Option<map<string, SchemaEntity>>,
                           relation: string, links: seq<Value>, siblings: seq<Record>)
    requires LinkageData(item, state, relation) == Ok(Arr(links))
    requires links != [] && !IsNullish(links[0])
    requires entities.Some? && ToString(Prop(links[0], "type").value) in entities.value
    requires entities.value[ToString(Prop(links[0], "type").value)].Items(state) == Ok(siblings)
    requires siblings != [] && forall k :: 0 <= k < |links| ==> Resolves(siblings, links[k])
    ensures GetRelated(item, state, entities, relation) == ResolveLinks(siblings, links)
    ensures GetRelated(item, state, entities, relation).Ok?
    ensures forall k :: 0 <= k < |links| ==>
      GetRelated(item, state, entities, relation).value[k] == Wrap(siblings[LinkTarget(siblings, links[k])])
  {
    FirstLink(links);
  }

  /** Every record of the store sits under its own type. */
  predicate WellTyped(api: Api) {
    forall t, j :: t in api && 0 <= j < |api[t]| ==> api[t][j].typeName == t
  }

  /** With an initialized registry over a well-typed store, the related items
      are all of one declared type. */
  lemma GetRelatedOfDeclaredType(item: ItemState, api: Api, names: seq<string>, relation: string)
    requires WellTyped(api)
    requires GetRelated(item, Some(api), Some(EntityMap(names)), relation).Ok?
    ensures var r := GetRelated(item, Some(api), Some(EntityMap(names)), relation).value;
      forall k :: 0 <= k < |r| ==> r[k].typeName in names && r[k].typeName == r[0].typeName
    ensures var r := GetRelated(item, Some(api), Some(EntityMap(names)), relation).value;
      var linkage := LinkageData(item, Some(api), relation);
      r != [] ==>
        && linkage.Ok? && linkage.value.Arr? && linkage.value.elems != []
        && !IsNullish(linkage.value.elems[0])
        && forall k :: 0 <= k < |r| ==> r[k].typeName == ToString(Prop(linkage.value.elems[0], "type").value)
  {
    var r := GetRelated(item, Some(api), Some(EntityMap(names)), relation).value;
    if r != [] {
      var data := LinkageData(item, Some(api), relation).value;
      var links := data.elems;
      FirstLink(links);
      var key := ToString(Prop(links[0], "type").value);
      var siblings := DataOf(api, key);
      assert SchemaEntity(key, Arr([])).Items(Some(api)) == Ok(siblings);
      assert ResolveLinks(siblings, links) == Ok(r);
      forall k | 0 <= k < |r| ensures r[k].typeName == key {
        assert r[k] == Wrap(siblings[LinkTarget(siblings, links[k])]);
      }
    }
  }

  // ---------------------------------------------------------------------
  // initialize and fromArray

  /** The declared names are distinct and are exactly the elements' keys. */
  lemma {:induction false} DeclaredNamesKeys(elems: seq<Value>)
    ensures Distinct(DeclaredNames(elems))
    ensures forall n :: n in DeclaredNames(elems) <==> exists i :: 0 <= i < |elems| && ToString(elems[i]) == n
  {
    if elems != [] {
      var init := elems[..|elems| - 1];
      DeclaredNamesKeys(init);
      forall n | n in DeclaredNames(elems) ensures exists i :: 0 <= i < |elems| && ToString(elems[i]) == n {
        if n in DeclaredNames(init) {
          var i :| 0 <= i < |init| && ToString(init[i]) == n;
          assert elems[i] == init[i];
        } else {
          assert ToString(elems[|elems| - 1]) == n;
        }
      }
      forall i | 0 <= i < |elems| ensures ToString(elems[i]) in DeclaredNames(elems) {
        if i < |init| {
          assert init[i] == elems[i];
        }
      }
    }
  }

  /** With distinct keys, the names are the keys in the list's order. */
  lemma {:induction false} DeclaredNamesInOrder(elems: seq<Value>)
    requires forall i, j :: 0 <= i < j < |elems| ==> ToString(elems[i]) != ToString(elems[j])
    ensures |DeclaredNames(elems)| == |elems|
    ensures forall i :: 0 <= i < |elems| ==> DeclaredNames(elems)[i] == ToString(elems[i])
  {
    if elems != [] {
      var init := elems[..|elems| - 1];
      var key := ToString(elems[|elems| - 1]);
      DeclaredNamesInOrder(init);
      DeclaredNamesKeys(init);
    }
  }

  /** The list checks `initialize` makes: undefined, a string and an empty
      array are refused; a non-empty array and an object with a truthy length
      pass. */
  lemma InitializeListCheck(elems: seq<Value>)
    ensures !IsNameList(Undefined) && !IsNameList(Str("aaaaa")) && !IsNameList(Arr([]))
    ensures IsNameList(Arr(elems)) <==> elems != []
    ensures IsNameList(Obj(map["length" := Num(1)]))
  {
  }

  /** `fromArray` as written accepts what its guard means to refuse: a number
      for ids yields a view of every record of the type, a string or null one
      whose items throw, and undefined (through the default `ids = []`) an
      unscoped view; the corrected guard refuses all of them. */
  lemma FromArrayAcceptsNonArrays(api: Api, t: string)
    ensures FromArray(t, Num(3)).Items(Some(api)) == Ok(DataOf(api, t))
    ensures FromArray(t, Str("12")).Items(Some(api)) == Throw(TypeError)
    ensures FromArray(t, Null).Items(Some(api)) == Throw(TypeError)
    ensures FromArray(t, Undefined).Items(Some(api)) == Ok(DataOf(api, t))
    ensures FromArrayChecked(t, Num(3)) == Throw(SchemaError(FromArrayMessage))
    ensures FromArrayChecked(t, Str("12")) == Throw(SchemaError(FromArrayMessage))
    ensures FromArrayChecked(t, Undefined) == Throw(SchemaError(FromArrayMessage))
    ensures FromArrayChecked(t, Null) == Throw(SchemaError(FromArrayMessage))
  {
  }
}
