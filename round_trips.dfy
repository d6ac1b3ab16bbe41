/** What the table-building pushes leave, read back: an AnyLuaValue or AnyHashableLuaValue
    array of plain pairs decodes from its table as itself, a Vec of 2-tuples becomes a table
    of key/value pairs, and a HashMap's table is traversed back into its own entries. */
module RoundTrips {
  import opened Base
  import opened Values
  import opened LuaApi
  import opened Host
  import opened Pushes
  import PushFacts
  import Reads
  import Tables
  import Any
  import AnyHashable

  // ---------------------------------------------------------------------
  // AnyLuaValue arrays (any.rs, push_to_lua of LuaArray)
  // ---------------------------------------------------------------------

  /** A plain AnyLuaValue in the form the decoder gives back: a LuaString holds UTF-8 and a
      LuaAnyString does not. */
  predicate AnyPlain(a: Any.AnyLuaValue)
  {
    (a.LuaString? && ValidUtf8(a.s)) || (a.LuaAnyString? && !ValidUtf8(a.bytes))
    || a.LuaNumber? || a.LuaBoolean?
  }

  /** The Lua value a plain AnyLuaValue is pushed as. */
  function AnyVal(a: Any.AnyLuaValue): (r: LuaVal)
    requires AnyPlain(a)
    ensures r != Nil
  {
    match a
    case LuaString(s) => Str(s)
    case LuaAnyString(b) => Str(b)
    case LuaNumber(n) => Num(n)
    case LuaBoolean(b) => Bool(b)
  }

  /** The pairs of a LuaArray of plain keys and values whose keys are distinct. */
  predicate AnyFlat(pairs: seq<(Any.AnyLuaValue, Any.AnyLuaValue)>)
  {
    (forall e <- pairs :: AnyPlain(e.0) && AnyPlain(e.1))
    && forall x, y :: 0 <= x < y < |pairs| ==> AnyVal(pairs[x].0) != AnyVal(pairs[y].0)
  }

  /** The entries of the table built for the first `j` pairs, in order. */
  function AnyAssoc(pairs: seq<(Any.AnyLuaValue, Any.AnyLuaValue)>, j: nat): (r: Entries)
    requires j <= |pairs| && AnyFlat(pairs)
    ensures |r| == j
    ensures forall k :: 0 <= k < j ==> r[k] == (AnyVal(pairs[k].0), AnyVal(pairs[k].1))
  {
    if j == 0 then []
    else
      assert pairs[j - 1] in pairs;
      AnyAssoc(pairs, j - 1) + [(AnyVal(pairs[j - 1].0), AnyVal(pairs[j - 1].1))]
  }

  /** A plain pair is pushed as its key and its value and stored. */
  lemma AnyPairStepPlain(s: State, e: (Any.AnyLuaValue, Any.AnyLuaValue))
    requires AnyPlain(e.0) && AnyPlain(e.1) && Building(s)
    ensures AnyPairStep(s, e) == Some(PushFacts.PairStored(s, AnyVal(e.0), AnyVal(e.1)))
  {
    assert AnyPush(s, e.0) == Some(Push(s, AnyVal(e.0)));
    var sk := Push(s, AnyVal(e.0));
    assert AnyPush(sk, e.1) == Some(Push(sk, AnyVal(e.1)));
  }

  /** One step of the array fold: storing pair `i` keeps the table on top and extends its
      entries to the first i + 1 pairs. */
  lemma AnyFoldEntriesStep(s: State, a: Any.AnyLuaValue, i: nat)
    requires a.LuaArray? && AnyFlat(a.pairs) && i < |a.pairs| && Building(s)
    requires EntriesOf(s, Top(s).id) == AnyAssoc(a.pairs, i)
    ensures AnyPlain(a.pairs[i].0) && AnyPlain(a.pairs[i].1)
    ensures var e := a.pairs[i]; var n := PushFacts.PairStored(s, AnyVal(e.0), AnyVal(e.1));
      Building(n) && Top(n) == Top(s) && EntriesOf(n, Top(n).id) == AnyAssoc(a.pairs, i + 1)
      && AnyArrayFold(s, a, i) == AnyArrayFold(n, a, i + 1)
  {
    var e := a.pairs[i];
    assert e in a.pairs;
    AnyPairStepPlain(s, e);
    var n := PushFacts.PairStored(s, AnyVal(e.0), AnyVal(e.1));
    KeepsTable(s, n);
    StoreFresh(AnyAssoc(a.pairs, i), AnyVal(e.0), AnyVal(e.1));
  }

  /** From a table holding the first `i` pairs, the fold leaves all of them. */
  lemma {:induction false} AnyFoldEntries(s: State, a: Any.AnyLuaValue, i: nat)
    requires a.LuaArray? && AnyFlat(a.pairs) && i <= |a.pairs| && Building(s)
    requires EntriesOf(s, Top(s).id) == AnyAssoc(a.pairs, i)
    ensures AnyArrayFold(s, a, i).Some?
    ensures EntriesOf(AnyArrayFold(s, a, i).value, Top(s).id) == AnyAssoc(a.pairs, |a.pairs|)
    decreases |a.pairs| - i
  {
    if i < |a.pairs| {
      AnyFoldEntriesStep(s, a, i);
      var e := a.pairs[i];
      AnyFoldEntries(PushFacts.PairStored(s, AnyVal(e.0), AnyVal(e.1)), a, i + 1);
    }
  }

  /** Pushing a LuaArray of plain pairs leaves one fresh table holding exactly its pairs, in
      order. */
  lemma AnyArrayPush(st: State, a: Any.AnyLuaValue)
    requires a.LuaArray? && AnyFlat(a.pairs)
    ensures var r := AnyPush(st, a); var n := st.nextId;
      r.Some? && r.value.stack == st.stack + [Table(n)] && n in r.value.heap
      && EntriesOf(r.value, n) == AnyAssoc(a.pairs, |a.pairs|)
  {
    AnyFoldEntries(NewTable(st), a, 0);
  }

  /** A plain value decodes as itself, whatever tables are on the decode path. */
  lemma AnyPlainDecodes(st: State, x: Any.AnyLuaValue, seen: set<nat>)
    requires AnyPlain(x)
    ensures Reads.AnyOf(st, Some(AnyVal(x)), seen) == x
  {
    Reads.AnyByType(st, AnyVal(x), seen);
  }

  /** The decoded entries of a table holding the pairs are the pairs. */
  lemma {:induction false} AnyPairsBack(st: State, id: nat, seen: set<nat>, pairs: seq<(Any.AnyLuaValue, Any.AnyLuaValue)>, i: nat)
    requires AnyFlat(pairs) && id in seen && i <= |pairs|
    requires EntriesOf(st, id) == AnyAssoc(pairs, |pairs|)
    ensures Reads.AnyPairs(st, id, seen, i) == pairs[i..]
    decreases |pairs| - i
  {
    if i < |pairs| {
      AnyPairsBack(st, id, seen, pairs, i + 1);
      AnyPairDecodes(st, id, seen, pairs, i);
      assert pairs[i..] == [pairs[i]] + pairs[i + 1..];
    }
  }

  /** Entry i of a table holding the pairs decodes as pair i. */
  lemma AnyPairDecodes(st: State, id: nat, seen: set<nat>, pairs: seq<(Any.AnyLuaValue, Any.AnyLuaValue)>, i: nat)
    requires AnyFlat(pairs) && i < |pairs| && EntriesOf(st, id) == AnyAssoc(pairs, |pairs|)
    ensures var e := EntriesOf(st, id)[i];
      (Reads.AnyOf(st, Some(e.0), seen), Reads.AnyOf(st, Some(e.1), seen)) == pairs[i]
  {
    assert pairs[i] in pairs;
    AnyPlainDecodes(st, pairs[i].0, seen);
    AnyPlainDecodes(st, pairs[i].1, seen);
  }

  /** An AnyLuaValue array of plain pairs, pushed and decoded from the top of the stack, is
      the array pushed. */
  lemma AnyArrayRoundTrip(st: State, a: Any.AnyLuaValue)
    requires a.LuaArray? && AnyFlat(a.pairs)
    ensures var r := AnyPush(st, a);
      r.Some? && Reads.AnyOf(r.value, Some(Top(r.value)), {}) == a
  {
    AnyArrayPush(st, a);
    var r := AnyPush(st, a).value;
    var n := st.nextId;
    assert Top(r) == Table(n);
    assert {} + {n} == {n};
    AnyPairsBack(r, n, {n}, a.pairs, 0);
    assert a.pairs[0..] == a.pairs;
    assert Reads.AnyOf(r, Some(Table(n)), {}) == Any.LuaArray(Reads.AnyPairs(r, n, {n}, 0));
  }

  // ---------------------------------------------------------------------
  // AnyHashableLuaValue arrays
  // ---------------------------------------------------------------------

  /** A plain AnyHashableLuaValue in the form the decoder gives back. */
  predicate HashPlain(h: AnyHashable.AnyHashableLuaValue)
  {
    (h.LuaString? && ValidUtf8(h.s)) || (h.LuaAnyString? && !ValidUtf8(h.bytes))
    || h.LuaNumber? || h.LuaBoolean?
  }

  /** The Lua value a plain AnyHashableLuaValue is pushed as: an integer becomes a number. */
  function HashVal(h: AnyHashable.AnyHashableLuaValue): (r: LuaVal)
    requires HashPlain(h)
    ensures r != Nil
  {
    match h
    case LuaString(s) => Str(s)
    case LuaAnyString(b) => Str(b)
    case LuaNumber(i) => Num(i as real)
    case LuaBoolean(b) => Bool(b)
  }

  predicate HashFlat(pairs: seq<(AnyHashable.AnyHashableLuaValue, AnyHashable.AnyHashableLuaValue)>)
  {
    (forall e <- pairs :: HashPlain(e.0) && HashPlain(e.1))
    && forall x, y :: 0 <= x < y < |pairs| ==> HashVal(pairs[x].0) != HashVal(pairs[y].0)
  }

  function HashAssoc(pairs: seq<(AnyHashable.AnyHashableLuaValue, AnyHashable.AnyHashableLuaValue)>, j: nat): (r: Entries)
    requires j <= |pairs| && HashFlat(pairs)
    ensures |r| == j
    ensures forall k :: 0 <= k < j ==> r[k] == (HashVal(pairs[k].0), HashVal(pairs[k].1))
  {
    if j == 0 then []
    else
      assert pairs[j - 1] in pairs;
      HashAssoc(pairs, j - 1) + [(HashVal(pairs[j - 1].0), HashVal(pairs[j - 1].1))]
  }

  lemma HashPairStepPlain(s: State, e: (AnyHashable.AnyHashableLuaValue, AnyHashable.AnyHashableLuaValue))
    requires HashPlain(e.0) && HashPlain(e.1) && Building(s)
    ensures HashPairStep(s, e) == Some(PushFacts.PairStored(s, HashVal(e.0), HashVal(e.1)))
  {
    assert HashPush(s, e.0) == Some(Push(s, HashVal(e.0)));
    var sk := Push(s, HashVal(e.0));
    assert HashPush(sk, e.1) == Some(Push(sk, HashVal(e.1)));
  }

  lemma HashFoldEntriesStep(s: State, h: AnyHashable.AnyHashableLuaValue, i: nat)
    requires h.LuaArray? && HashFlat(h.pairs) && i < |h.pairs| && Building(s)
    requires EntriesOf(s, Top(s).id) == HashAssoc(h.pairs, i)
    ensures HashPlain(h.pairs[i].0) && HashPlain(h.pairs[i].1)
    ensures var e := h.pairs[i]; var n := PushFacts.PairStored(s, HashVal(e.0), HashVal(e.1));
      Building(n) && Top(n) == Top(s) && EntriesOf(n, Top(n).id) == HashAssoc(h.pairs, i + 1)
      && HashArrayFold(s, h, i) == HashArrayFold(n, h, i + 1)
  {
    var e := h.pairs[i];
    assert e in h.pairs;
    HashPairStepPlain(s, e);
    var n := PushFacts.PairStored(s, HashVal(e.0), HashVal(e.1));
    KeepsTable(s, n);
    StoreFresh(HashAssoc(h.pairs, i), HashVal(e.0), HashVal(e.1));
  }

  lemma {:induction false} HashFoldEntries(s: State, h: AnyHashable.AnyHashableLuaValue, i: nat)
    requires h.LuaArray? && HashFlat(h.pairs) && i <= |h.pairs| && Building(s)
    requires EntriesOf(s, Top(s).id) == HashAssoc(h.pairs, i)
    ensures HashArrayFold(s, h, i).Some?
    ensures EntriesOf(HashArrayFold(s, h, i).value, Top(s).id) == HashAssoc(h.pairs, |h.pairs|)
    decreases |h.pairs| - i
  {
    if i < |h.pairs| {
      HashFoldEntriesStep(s, h, i);
      var e := h.pairs[i];
      HashFoldEntries(PushFacts.PairStored(s, HashVal(e.0), HashVal(e.1)), h, i + 1);
    }
  }

  /** Pushing an AnyHashableLuaValue array of plain pairs leaves one fresh table holding
      exactly its pairs, integers as numbers. */
  lemma HashArrayPush(st: State, h: AnyHashable.AnyHashableLuaValue)
    requires h.LuaArray? && HashFlat(h.pairs)
    ensures var r := HashPush(st, h); var n := st.nextId;
      r.Some? && r.value.stack == st.stack + [Table(n)] && n in r.value.heap
      && EntriesOf(r.value, n) == HashAssoc(h.pairs, |h.pairs|)
  {
    HashFoldEntries(NewTable(st), h, 0);
  }

  /** A plain hashable value decodes as itself: an integer number is read back as the
      32-bit integer it was. */
  lemma HashPlainDecodes(st: State, x: AnyHashable.AnyHashableLuaValue, seen: set<nat>)
    requires HashPlain(x)
    ensures Reads.HashableOf(st, Some(HashVal(x)), seen) == x
  {
    if x.LuaNumber? {
      WrapInRange(I32, x.i);
      assert Trunc(x.i as real) == x.i;
    }
  }

  lemma {:induction false} HashPairsBack(st: State, id: nat, seen: set<nat>,
                                         pairs: seq<(AnyHashable.AnyHashableLuaValue, AnyHashable.AnyHashableLuaValue)>, i: nat)
    requires HashFlat(pairs) && id in seen && i <= |pairs|
    requires EntriesOf(st, id) == HashAssoc(pairs, |pairs|)
    ensures Reads.HashablePairs(st, id, seen, i) == pairs[i..]
    decreases |pairs| - i
  {
    if i < |pairs| {
      HashPairsBack(st, id, seen, pairs, i + 1);
      assert pairs[i] in pairs;
      HashPlainDecodes(st, pairs[i].0, seen);
      HashPlainDecodes(st, pairs[i].1, seen);
      assert pairs[i..] == [pairs[i]] + pairs[i + 1..];
    }
  }

  /** An AnyHashableLuaValue array of plain pairs, pushed and decoded from the top of the
      stack, is the array pushed. */
  lemma HashArrayRoundTrip(st: State, h: AnyHashable.AnyHashableLuaValue)
    requires h.LuaArray? && HashFlat(h.pairs)
    ensures var r := HashPush(st, h);
      r.Some? && Reads.HashableOf(r.value, Some(Top(r.value)), {}) == h
  {
    HashArrayPush(st, h);
    var r := HashPush(st, h).value;
    var n := st.nextId;
    assert Top(r) == Table(n);
    assert {} + {n} == {n};
    HashPairsBack(r, n, {n}, h.pairs, 0);
    assert h.pairs[0..] == h.pairs;
    assert Reads.HashableOf(r, Some(Table(n)), {}) == AnyHashable.LuaArray(Reads.HashablePairs(r, n, {n}, 0));
  }

  // ---------------------------------------------------------------------
  // Vec of 2-tuples (push_iter, an element that pushes two slots)
  // ---------------------------------------------------------------------

  /** A 2-tuple of plain values. */
  predicate PlainPair(x: HostVal)
  {
    x.Tuple? && |x.parts| == 2 && PushFacts.Scalar(x.parts[0]) && PushFacts.Scalar(x.parts[1])
  }

  /** The Lua values a plain 2-tuple pushes: its key and its value. */
  function PairKey(x: HostVal): (r: LuaVal)
    requires PlainPair(x)
    ensures r != Nil
  {
    PushFacts.ScalarVal(x.parts[0])
  }

  function PairValue(x: HostVal): (r: LuaVal)
    requires PlainPair(x)
    ensures r != Nil
  {
    PushFacts.ScalarVal(x.parts[1])
  }

  /** The items of a Vec of plain 2-tuples whose first components are distinct once pushed. */
  predicate PairItems(items: seq<HostVal>)
  {
    (forall i :: 0 <= i < |items| ==> PlainPair(items[i]))
    && forall a, b :: 0 <= a < b < |items| ==> PairKey(items[a]) != PairKey(items[b])
  }

  /** The entries of the table built for the first `j` items: each tuple's first component
      mapped to its second, in order. */
  function PairAssoc(items: seq<HostVal>, j: nat): (r: Entries)
    requires j <= |items| && PairItems(items)
    ensures |r| == j
    ensures forall k :: 0 <= k < j ==> r[k] == (PairKey(items[k]), PairValue(items[k]))
  {
    if j == 0 then []
    else PairAssoc(items, j - 1) + [(PairKey(items[j - 1]), PairValue(items[j - 1]))]
  }

  /** A 2-tuple of plain values pushes its two components, in order. */
  lemma PlainPairPush(s: State, x: HostVal)
    requires PlainPair(x) && Pushable(x)
    ensures var k := PairKey(x); var v := PairValue(x);
      PushSpec(s, x) == PushRes(Push(Push(s, k), v), Pushed(2))
  {
    assert x.parts[0] in x.parts && x.parts[1] in x.parts;
    assert PushSpec(s, x) == PartsFrom(s, x, 0);
    PushFacts.ScalarPush(s, x.parts[0]);
    var s1 := Push(s, PairKey(x));
    PushFacts.ScalarPush(s1, x.parts[1]);
    assert PartsFrom(s1, x, 1) == PushRes(Push(s1, PairValue(x)), Pushed(1));
  }

  /** An element that leaves two slots is stored as a key and a value, not under its
      index. */
  lemma PairSlots(s: State, x: HostVal, index: nat)
    requires PlainPair(x) && Pushable(x) && Building(s)
    ensures StoreSlots(s, PushSpec(s, x), index)
      == Some(PushFacts.PairStored(s, PairKey(x), PairValue(x)))
  {
    PlainPairPush(s, x);
  }

  /** One step of the fold over a Vec of pairs: storing item `i` keeps the table on top and
      extends its entries to the first i + 1 items. */
  lemma PairFoldEntriesStep(s: State, v: HostVal, i: nat)
    requires v.Seq? && Pushable(v) && PairItems(v.items) && i < |v.items| && Building(s)
    requires EntriesOf(s, Top(s).id) == PairAssoc(v.items, i)
    ensures PlainPair(v.items[i])
    ensures var x := v.items[i];
      var n := PushFacts.PairStored(s, PairKey(x), PairValue(x));
      Building(n) && Top(n) == Top(s) && EntriesOf(n, Top(n).id) == PairAssoc(v.items, i + 1)
      && SeqFold(s, v, i) == SeqFold(n, v, i + 1)
  {
    var x := v.items[i];
    assert x in v.items;
    PairSlots(s, x, i + 1);
    var k := PairKey(x);
    var val := PairValue(x);
    var n := PushFacts.PairStored(s, k, val);
    KeepsTable(s, n);
    StoreFresh(PairAssoc(v.items, i), k, val);
  }

  lemma {:induction false} PairFoldEntries(s: State, v: HostVal, i: nat)
    requires v.Seq? && Pushable(v) && PairItems(v.items) && i <= |v.items| && Building(s)
    requires EntriesOf(s, Top(s).id) == PairAssoc(v.items, i)
    ensures SeqFold(s, v, i).Some?
    ensures EntriesOf(SeqFold(s, v, i).value, Top(s).id) == PairAssoc(v.items, |v.items|)
    decreases |v.items| - i
  {
    if i < |v.items| {
      PairFoldEntriesStep(s, v, i);
      var x := v.items[i];
      PairFoldEntries(PushFacts.PairStored(s, PairKey(x), PairValue(x)), v, i + 1);
    }
  }

  /** Pushing a Vec of plain 2-tuples leaves one fresh table mapping each tuple's first
      component to its second and holding nothing else; no item is stored under its index. */
  lemma VecOfPairsPush(st: State, v: HostVal)
    requires v.Seq? && Pushable(v) && PairItems(v.items)
    ensures var r := PushSpec(st, v); var n := st.nextId;
      r.out == Pushed(1) && r.st.stack == st.stack + [Table(n)]
      && EntriesOf(r.st, n) == PairAssoc(v.items, |v.items|)
      && forall i :: 0 <= i < |v.items| ==>
        Lookup(EntriesOf(r.st, n), PairKey(v.items[i]))
          == PairValue(v.items[i])
  {
    var items := v.items;
    PushFacts.ObjectPush(st, v);
    PairFoldEntries(NewTable(st), v, 0);
    var t := PairAssoc(items, |items|);
    forall i | 0 <= i < |items|
      ensures Lookup(t, PairKey(items[i])) == PairValue(items[i])
    {
      KeyIndexIs(t, PairKey(items[i]), i);
    }
  }

  // ---------------------------------------------------------------------
  // HashMap pushed, then traversed (push_rec_iter, then LuaTable::iter)
  // ---------------------------------------------------------------------

  /** A HashMap<K, V> of plain keys and values: every key has the type `kty` and every
      value the type `vty`. */
  predicate TypedDict(es: seq<(HostVal, HostVal)>, kty: HostTy, vty: HostTy)
  {
    PushFacts.PlainDict(es)
    && forall e <- es ::
         Pushable(e.0) && Pushable(e.1) && PushFacts.ScalarTy(e.0) == kty && PushFacts.ScalarTy(e.1) == vty
  }

  /** Pushing a HashMap of plain keys and values leaves one fresh table whose entries are the
      map's entries, in iteration order. */
  lemma DictPushEntries(st: State, v: HostVal)
    requires v.Dict? && Pushable(v) && PushFacts.PlainDict(v.entries)
    ensures var r := PushSpec(st, v); var n := st.nextId;
      r.out == Pushed(1) && r.st.stack == st.stack + [Table(n)]
      && EntriesOf(r.st, n) == PushFacts.Assoc(v.entries, |v.entries|)
  {
    PushFacts.ObjectPush(st, v);
    PushFacts.DictFoldEntries(NewTable(st), v, 0);
  }

  /** A plain value pushed on any state reads back from the top as itself. */
  lemma ScalarReadsBack(s: State, x: HostVal)
    requires PushFacts.Scalar(x) && Pushable(x)
    ensures Reads.Read(Push(s, PushFacts.ScalarVal(x)), PushFacts.ScalarTy(x), -1) == Some(x)
  {
    PushFacts.PushThenRead(s, x);
    PushFacts.ScalarPush(s, x);
  }

  /** The table of a plain HashMap is well formed: distinct non-nil keys, non-nil values. */
  lemma AssocWellFormed(es: seq<(HostVal, HostVal)>)
    requires PushFacts.PlainDict(es)
    ensures WfEntries(PushFacts.Assoc(es, |es|))
  {
    var t := PushFacts.Assoc(es, |es|);
    forall i | 0 <= i < |t|
      ensures t[i].0 != Nil && t[i].1 != Nil
    {
      assert es[i] in es;
    }
  }

  /** Entry `i` of the table built for a HashMap<K, V> of plain entries, read as K and V,
      is entry `i` of the map. */
  lemma DictItemBack(base: State, es: seq<(HostVal, HostVal)>, kty: HostTy, vty: HostTy, i: nat)
    requires TypedDict(es, kty, vty) && i < |es|
    ensures Tables.ItemAt(base, PushFacts.Assoc(es, |es|), i, kty, vty) == Some(es[i])
  {
    var t := PushFacts.Assoc(es, |es|);
    var e := es[i];
    assert e in es;
    assert t[i] == (PushFacts.ScalarVal(e.0), PushFacts.ScalarVal(e.1));
    var s := Push(Push(base, t[i].0), t[i].1);
    ScalarReadsBack(s, e.0);
    ScalarReadsBack(Push(base, t[i].0), e.1);
  }

  /** A traversal of the table built for a HashMap<K, V> of plain entries, reading keys as
      K and values as V, yields every entry of the map, in order, and nothing else: the map
      read back is the map pushed. */
  lemma DictTraversedBack(base: State, es: seq<(HostVal, HostVal)>, kty: HostTy, vty: HostTy)
    requires TypedDict(es, kty, vty)
    ensures var t := PushFacts.Assoc(es, |es|);
      WfEntries(t) && Tables.Items(base, t, |t|, kty, vty) == seq(|es|, i requires 0 <= i < |es| => Some(es[i]))
  {
    var t := PushFacts.Assoc(es, |es|);
    AssocWellFormed(es);
    var got := Tables.Items(base, t, |t|, kty, vty);
    var want := seq(|es|, i requires 0 <= i < |es| => Some(es[i]));
    forall i | 0 <= i < |es|
      ensures got[i] == want[i]
    {
      DictItemBack(base, es, kty, vty, i);
    }
  }

  /** The HashMap round trip: a plain HashMap<K, V> pushed, then traversed from the table
      it left on top, gives back its entries. */
  lemma HashMapRoundTrip(st: State, v: HostVal, kty: HostTy, vty: HostTy)
    requires v.Dict? && Pushable(v) && TypedDict(v.entries, kty, vty)
    ensures var r := PushSpec(st, v); var t := EntriesOf(r.st, st.nextId);
      r.out == Pushed(1) && Top(r.st) == Table(st.nextId) && WfEntries(t)
      && Tables.Items(r.st, t, |t|, kty, vty) == seq(|v.entries|, i requires 0 <= i < |v.entries| => Some(v.entries[i]))
  {
    DictPushEntries(st, v);
    DictTraversedBack(PushSpec(st, v).st, v.entries, kty, vty);
  }
}
