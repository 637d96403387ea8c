/**
 * lodash's `merge` as the ORM uses it: `_.merge({}, a, b)` deep-merges `a` and
 * then `b` into a fresh object. A source object or array is merged key by key
 * (index by index) into the destination's object or array at that key, or
 * into a fresh one when the destination holds something else; an undefined
 * source value never overwrites a present key; any other source value
 * replaces what was there.
 */
module LodashMerge {
  import opened JsValue

  function Max(a: nat, b: nat): nat { if a < b then b else a }

  /** Merges the source value `src` into a destination slot holding `dest`
      (None when the key is absent from the destination). */
  function MergeValue(dest: Option<Value>, src: Value): Value
    decreases src, 1
  {
    match src
    case Obj(m) =>
      Obj(MergeProps(if dest.Some? && dest.value.Obj? then dest.value.props else map[], m))
    case Arr(s) =>
      Arr(MergeElems(if dest.Some? && dest.value.Arr? then dest.value.elems else [], s))
    case Undefined => if dest.Some? then dest.value else Undefined
    case _ => src
  }

  /** Merges the properties `m` of a source object into `base`. */
  function MergeProps(base: map<string, Value>, m: map<string, Value>): map<string, Value>
    decreases Obj(m), 0
  {
    map k | k in base.Keys + m.Keys ::
      if k in m then MergeValue(if k in base then Some(base[k]) else None, m[k]) else base[k]
  }

  /** Merges the elements `s` of a source array into `base`, index by index. */
  function MergeElems(base: seq<Value>, s: seq<Value>): seq<Value>
    decreases Arr(s), 0
  {
    seq(Max(|base|, |s|), i requires 0 <= i < Max(|base|, |s|) =>
      if i < |s| then MergeValue(if i < |base| then Some(base[i]) else None, s[i]) else base[i])
  }

  /** `_.merge(base, src)` for a destination object `base`: a source object is
      merged in; any other source contributes no keys. */
  function MergeInto(base: map<string, Value>, src: Value): map<string, Value> {
    if src.Obj? then MergeProps(base, src.props) else base
  }

  /** `_.merge({}, a, b)` */
  function Merge(a: Value, b: Value): map<string, Value> {
    MergeInto(MergeInto(map[], a), b)
  }

  /** `src` is reflected in `r`: every value the source sets can be read back at
      the same path in `r` (undefined source values set nothing). */
  ghost predicate Reflects(r: Value, src: Value)
    decreases src
  {
    match src
    case Undefined => true
    case Obj(m) => r.Obj? && forall k :: k in m ==> k in r.props && Reflects(r.props[k], m[k])
    case Arr(s) => r.Arr? && |s| <= |r.elems| && forall i :: 0 <= i < |s| ==> Reflects(r.elems[i], s[i])
    case _ => r == src
  }

  // ---------------------------------------------------------------------
  // Merging into nothing copies

  lemma {:induction false} MergeValueIntoNothing(src: Value)
    ensures MergeValue(None, src) == src
    decreases src, 1
  {
    match src
    case Obj(m) => MergePropsIntoNothing(m);
    case Arr(s) => MergeElemsIntoNothing(s);
    case _ =>
  }

  lemma {:induction false} MergePropsIntoNothing(m: map<string, Value>)
    ensures MergeProps(map[], m) == m
    decreases Obj(m), 0
  {
    forall k | k in m ensures MergeProps(map[], m)[k] == m[k] {
      MergeValueIntoNothing(m[k]);
    }
  }

  lemma {:induction false} MergeElemsIntoNothing(s: seq<Value>)
    ensures MergeElems([], s) == s
    decreases Arr(s), 0
  {
    forall i | 0 <= i < |s| ensures MergeElems([], s)[i] == s[i] {
      MergeValueIntoNothing(s[i]);
    }
  }

  /** `_.merge({}, x, d)` on an object `x` is `x` merged with `d`: the copy of
      `x` into the fresh object changes nothing. */
  lemma MergeCopiesFirst(x: map<string, Value>, d: Value)
    ensures Merge(Obj(x), d) == MergeInto(x, d)
  {
    MergePropsIntoNothing(x);
  }

  // ---------------------------------------------------------------------
  // What a merge keeps and what it sets

  /** The merged object has the keys of both sides; a key the source does not
      mention keeps its value. */
  lemma MergePropsKeeps(base: map<string, Value>, m: map<string, Value>)
    ensures MergeProps(base, m).Keys == base.Keys + m.Keys
    ensures forall k :: k in base && k !in m ==> MergeProps(base, m)[k] == base[k]
  {
  }

  /** Every value the source sets is reflected in the merge. */
  lemma {:induction false} MergeValueReflects(dest: Option<Value>, src: Value)
    ensures Reflects(MergeValue(dest, src), src)
    decreases src, 1
  {
    match src
    case Obj(m) =>
      var base := if dest.Some? && dest.value.Obj? then dest.value.props else map[];
      MergePropsReflects(base, m);
    case Arr(s) =>
      var base := if dest.Some? && dest.value.Arr? then dest.value.elems else [];
      MergeElemsReflects(base, s);
    case _ =>
  }

  lemma {:induction false} MergePropsReflects(base: map<string, Value>, m: map<string, Value>)
    ensures Reflects(Obj(MergeProps(base, m)), Obj(m))
    decreases Obj(m), 0
  {
    forall k | k in m ensures Reflects(MergeProps(base, m)[k], m[k]) {
      MergeValueReflects(if k in base then Some(base[k]) else None, m[k]);
    }
  }

  lemma {:induction false} MergeElemsReflects(base: seq<Value>, s: seq<Value>)
    ensures Reflects(Arr(MergeElems(base, s)), Arr(s))
    decreases Arr(s), 0
  {
    forall i | 0 <= i < |s| ensures Reflects(MergeElems(base, s)[i], s[i]) {
      MergeValueReflects(if i < |base| then Some(base[i]) else None, s[i]);
    }
  }

  /** Merging an object source into `base` reflects the whole source. */
  lemma MergeIntoReflects(base: map<string, Value>, src: Value)
    requires src.Obj?
    ensures Reflects(Obj(MergeInto(base, src)), src)
  {
    MergePropsReflects(base, src.props);
  }

  // ---------------------------------------------------------------------
  // Merging the same source twice

  lemma {:induction false} MergeValueIdempotent(dest: Option<Value>, src: Value)
    ensures MergeValue(Some(MergeValue(dest, src)), src) == MergeValue(dest, src)
    decreases src, 1
  {
    match src
    case Obj(m) =>
      var base := if dest.Some? && dest.value.Obj? then dest.value.props else map[];
      MergePropsIdempotent(base, m);
    case Arr(s) =>
      var base := if dest.Some? && dest.value.Arr? then dest.value.elems else [];
      MergeElemsIdempotent(base, s);
    case _ =>
  }

  lemma {:induction false} MergePropsIdempotent(base: map<string, Value>, m: map<string, Value>)
    ensures MergeProps(MergeProps(base, m), m) == MergeProps(base, m)
    decreases Obj(m), 0
  {
    var once := MergeProps(base, m);
    forall k | k in m ensures MergeProps(once, m)[k] == once[k] {
      MergeValueIdempotent(if k in base then Some(base[k]) else None, m[k]);
    }
  }

  lemma {:induction false} MergeElemsIdempotent(base: seq<Value>, s: seq<Value>)
    ensures MergeElems(MergeElems(base, s), s) == MergeElems(base, s)
    decreases Arr(s), 0
  {
    var once := MergeElems(base, s);
    forall i | 0 <= i < |s| ensures MergeElems(once, s)[i] == once[i] {
      MergeValueIdempotent(if i < |base| then Some(base[i]) else None, s[i]);
    }
  }

  /** Merging the same source a second time changes nothing. */
  lemma MergeIntoIdempotent(base: map<string, Value>, src: Value)
    ensures MergeInto(MergeInto(base, src), src) == MergeInto(base, src)
  {
    if src.Obj? {
      MergePropsIdempotent(base, src.props);
    }
  }
}
