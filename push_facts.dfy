/** What the pushes of Pushes promise: the number of slots a value takes, the contents of
    the tables built for Vec, HashMap and HashSet, and the values a read gives back. */
module PushFacts {
  import opened Base
  import opened Values
  import opened LuaApi
  import opened Host
  import opened Pushes
  import Reads
  import ChunkReader

  // ---------------------------------------------------------------------
  // Slot counts
  // ---------------------------------------------------------------------

  /** The number of slots a value takes on the stack: none for (), two for an error
      result, the sum of its parts for a tuple, one for everything else. */
  function Arity(v: HostVal): nat
    decreases v, 1
  {
    match v
    case Unit => 0
    case Tuple(_) => PartsArity(v, 0)
    case ResOk(x) => Arity(x)
    case ResErr(_) => 2
    case _ => 1
  }

  /** The slots of the parts of a tuple from `i` on. */
  function PartsArity(v: HostVal, i: nat): nat
    requires v.Tuple? && i <= |v.parts|
    decreases v, 0, |v.parts| - i
  {
    if i == |v.parts| then 0
    else
      assert v.parts[i] in v.parts;
      Arity(v.parts[i]) + PartsArity(v, i + 1)
  }

  /** A push that succeeds leaves exactly Arity(v) slots, the size of its PushGuard. */
  lemma {:induction false} PushCount(st: State, v: HostVal)
    requires Pushable(v)
    ensures PushSpec(st, v).out.Pushed? ==> PushSpec(st, v).out.n == Arity(v)
    decreases v, 1
  {
    match v
    case Tuple(parts) => PartsCount(st, v, 0);
    case ResOk(x) => PushCount(st, x);
    case _ =>
  }

  lemma {:induction false} PartsCount(st: State, v: HostVal, i: nat)
    requires v.Tuple? && Pushable(v) && i <= |v.parts|
    ensures PartsFrom(st, v, i).out.Pushed? ==> PartsFrom(st, v, i).out.n == PartsArity(v, i)
    decreases v, 0, |v.parts| - i
  {
    if i < |v.parts| {
      assert v.parts[i] in v.parts;
      PushCount(st, v.parts[i]);
      var p := PushSpec(st, v.parts[i]);
      if i < |v.parts| - 1 && p.out.Pushed? {
        PartsCount(p.st, v, i + 1);
      }
    }
  }

  // ---------------------------------------------------------------------
  // Plain values and the read back
  // ---------------------------------------------------------------------

  /** The host values that push one plain Lua value. */
  predicate Scalar(x: HostVal)
  {
    x.Int? || x.Float? || x.Text? || x.AnyString? || x.Boolean?
  }

  /** The Lua value a plain host value becomes. */
  function ScalarVal(x: HostVal): (r: LuaVal)
    requires Scalar(x)
    ensures r != Nil
  {
    match x
    case Int(_, i) => Num(i as real)
    case Float(y) => Num(y)
    case Text(s) => Str(s)
    case AnyString(b) => Str(b)
    case Boolean(b) => Bool(b)
  }

  /** The Rust type of a plain host value. */
  function ScalarTy(x: HostVal): HostTy
    requires Scalar(x)
  {
    match x
    case Int(k, _) => TInt(k)
    case Float(_) => TFloat
    case Text(_) => TText
    case AnyString(_) => TAnyString
    case Boolean(_) => TBool
  }

  lemma ScalarPush(st: State, x: HostVal)
    requires Scalar(x) && Pushable(x)
    ensures PushSpec(st, x) == PushRes(Push(st, ScalarVal(x)), Pushed(1))
  {
  }

  /** A plain value pushed and read back from the top as its own type is the value pushed:
      integers keep their value (no wrap-around within their range), strings their bytes. */
  lemma PushThenRead(st: State, x: HostVal)
    requires Scalar(x) && Pushable(x)
    ensures var r := PushSpec(st, x);
      r.out == Pushed(1) && Reads.Read(r.st, ScalarTy(x), -1) == Some(x)
  {
    ScalarPush(st, x);
    var s := Push(st, ScalarVal(x));
    assert Slot(s, -1) == Some(ScalarVal(x));
    match x
    case Int(k, i) =>
      assert NumberOf(Slot(s, -1)) == Some(i as real);
      assert Trunc(i as real) == i;
      if !Reads.Signed(k) {
        assert i % 0x1_0000_0000 == i;
      }
      WrapInRange(k, i);
      assert Reads.IntOf(k, Slot(s, -1)) == Some(i);
    case _ =>
  }

  /** () pushes nothing and reads back anywhere. */
  lemma UnitRoundTrip(st: State, idx: int)
    ensures PushSpec(st, Unit) == PushRes(st, Pushed(0))
    ensures Reads.Read(PushSpec(st, Unit).st, TUnit, idx) == Some(Unit)
  {
  }

  // ---------------------------------------------------------------------
  // Vec and slices (push_iter)
  // ---------------------------------------------------------------------

  predicate PlainOrUnit(items: seq<HostVal>)
  {
    forall x <- items :: Scalar(x) || x.Unit?
  }

  /** The entries push_iter stores for the first `j` items: item i under the key i
      (counted from 1); an item that pushes nothing is skipped but uses up its index. */
  function Indexed(items: seq<HostVal>, j: nat): (r: Entries)
    requires j <= |items| && PlainOrUnit(items)
    ensures forall k :: 0 <= k < |r| ==> r[k].0.Num? && r[k].0.n <= j as real
  {
    if j == 0 then []
    else
      var x := items[j - 1];
      assert x in items;
      if x.Unit? then Indexed(items, j - 1)
      else Indexed(items, j - 1) + [(Num(j as real), ScalarVal(x))]
  }

  /** The entries for one item more: the item under its index, unless it is (). */
  lemma IndexedStep(items: seq<HostVal>, j: nat)
    requires 0 < j <= |items| && PlainOrUnit(items)
    ensures Scalar(items[j - 1]) || items[j - 1].Unit?
    ensures Indexed(items, j) == if items[j - 1].Unit? then Indexed(items, j - 1)
      else Indexed(items, j - 1) + [(Num(j as real), ScalarVal(items[j - 1]))]
  {
    assert items[j - 1] in items;
  }

  /** Storing item `j` under its index, or skipping it when it is (), extends the entries
      for the items before it to the entries for the first `j`. */
  lemma IndexedNext(items: seq<HostVal>, j: nat, before: Entries, after: Entries)
    requires 0 < j <= |items| && PlainOrUnit(items) && before == Indexed(items, j - 1)
    requires Scalar(items[j - 1]) || items[j - 1].Unit?
    requires after == if items[j - 1].Unit? then before
      else Store(before, Num(j as real), ScalarVal(items[j - 1]))
    ensures after == Indexed(items, j)
  {
    IndexedStep(items, j);
    if !items[j - 1].Unit? {
      StoreFresh(before, Num(j as real), ScalarVal(items[j - 1]));
    }
  }

  /** In the table push_iter builds, key i holds item i, and nil when item i is (). */
  lemma {:induction false} IndexedLookup(items: seq<HostVal>, j: nat, i: nat)
    requires j <= |items| && PlainOrUnit(items) && 1 <= i
    ensures Lookup(Indexed(items, j), Num(i as real))
      == if i <= j && !items[i - 1].Unit? then ScalarVal(items[i - 1]) else Nil
  {
    if j > 0 {
      IndexedLookup(items, j - 1, i);
      var x := items[j - 1];
      assert x in items;
      if !x.Unit? {
        var t := Indexed(items, j - 1);
        KeyIndexIs(t, Num(j as real), |t|);
        AppendedLookup(t, Num(j as real), ScalarVal(x), Num(i as real));
      }
    }
  }

  /** The table on top of `s` once a plain item is stored under `index`, or skipped when it
      is (). */
  function PlainStored(s: State, x: HostVal, index: nat): (r: State)
    requires Building(s) && (Scalar(x) || x.Unit?)
    ensures r.stack == s.stack
    ensures EntriesOf(r, Top(s).id) == if x.Unit? then EntriesOf(s, Top(s).id)
      else Store(EntriesOf(s, Top(s).id), Num(index as real), ScalarVal(x))
  {
    if x.Unit? then s
    else
      var p := Push(s, ScalarVal(x));
      assert p.stack[|p.stack| - 2] == Top(s);
      StoreAt(p, index)
  }

  /** The table on top of `s` once a key and a value are pushed and stored. */
  function PairStored(s: State, key: LuaVal, val: LuaVal): (r: State)
    requires Building(s) && key != Nil
    ensures r.stack == s.stack
    ensures EntriesOf(r, Top(s).id) == Store(EntriesOf(s, Top(s).id), key, val)
  {
    var p := Push(Push(s, key), val);
    assert p.stack[|p.stack| - 3] == Top(s);
    assert p.stack[|p.stack| - 2] == key;
    StorePair(p).value
  }

  /** push_iter stores one plain item under its index and skips (). */
  lemma SlotsPlain(s: State, x: HostVal, index: nat)
    requires (Scalar(x) || x.Unit?) && Pushable(x) && Building(s)
    ensures StoreSlots(s, PushSpec(s, x), index) == Some(PlainStored(s, x, index))
  {
    if x.Unit? {
      assert PushSpec(s, x) == PushRes(s, Pushed(0));
    } else {
      ScalarPush(s, x);
    }
  }

  /** Item `i` of a Vec of plain values is a scalar or (). */
  lemma SeqItem(v: HostVal, i: nat)
    requires v.Seq? && Pushable(v) && PlainOrUnit(v.items) && i < |v.items|
    ensures (Scalar(v.items[i]) || v.items[i].Unit?) && Pushable(v.items[i])
  {
    assert v.items[i] in v.items;
  }

  /** The fold from a plain item `i` on: the item stored, then the fold from i + 1 on. */
  lemma SeqFoldStep(s: State, v: HostVal, i: nat)
    requires v.Seq? && Pushable(v) && PlainOrUnit(v.items) && i < |v.items| && Building(s)
    ensures Scalar(v.items[i]) || v.items[i].Unit?
    ensures SeqFold(s, v, i) == SeqFold(PlainStored(s, v.items[i], i + 1), v, i + 1)
  {
    SeqItem(v, i);
    SlotsPlain(s, v.items[i], i + 1);
  }

  /** From a table holding the entries for the first `i` items, the fold leaves the entries
      for all of them. */
  lemma {:induction false} SeqFoldEntries(s: State, v: HostVal, i: nat)
    requires v.Seq? && Pushable(v) && PlainOrUnit(v.items) && i <= |v.items| && Building(s)
    requires EntriesOf(s, Top(s).id) == Indexed(v.items, i)
    ensures SeqFold(s, v, i).Some?
    ensures EntriesOf(SeqFold(s, v, i).value, Top(s).id) == Indexed(v.items, |v.items|)
    decreases |v.items| - i
  {
    if i < |v.items| {
      SeqFoldEntriesStep(s, v, i);
      SeqFoldEntries(PlainStored(s, v.items[i], i + 1), v, i + 1);
    }
  }

  /** One step of SeqFoldEntries: storing item `i` keeps the table on top and extends
      its entries to those of the first i + 1 items. */
  lemma SeqFoldEntriesStep(s: State, v: HostVal, i: nat)
    requires v.Seq? && Pushable(v) && PlainOrUnit(v.items) && i < |v.items| && Building(s)
    requires EntriesOf(s, Top(s).id) == Indexed(v.items, i)
    ensures Scalar(v.items[i]) || v.items[i].Unit?
    ensures var n := PlainStored(s, v.items[i], i + 1);
      Building(n) && Top(n) == Top(s) && EntriesOf(n, Top(n).id) == Indexed(v.items, i + 1)
      && SeqFold(s, v, i) == SeqFold(n, v, i + 1)
  {
    SeqFoldStep(s, v, i);
    var n := PlainStored(s, v.items[i], i + 1);
    KeepsTable(s, n);
    IndexedNext(v.items, i + 1, EntriesOf(s, Top(s).id), EntriesOf(n, Top(s).id));
  }

  /** A Vec, HashMap or HashSet push builds its table on a fresh one. */
  lemma ObjectPush(st: State, v: HostVal)
    requires Pushable(v) && (v.Seq? || v.Dict? || v.Set?)
    ensures v.Seq? ==> PushSpec(st, v) == OneOrPanic(st, SeqFold(NewTable(st), v, 0))
    ensures v.Dict? ==> PushSpec(st, v) == OneOrPanic(st, DictFold(NewTable(st), v, 0))
    ensures v.Set? ==> PushSpec(st, v) == OneOrPanic(st, SetFold(NewTable(st), v, 0))
  {
    assert PushSpec(st, v) == PushNested(st, v) == OneOrPanic(st, PushObject(st, v));
  }

  /** Pushing a Vec of plain values leaves one fresh table holding item i under key i. */
  lemma VecPush(st: State, v: HostVal)
    requires v.Seq? && Pushable(v) && PlainOrUnit(v.items)
    ensures var r := PushSpec(st, v); var n := st.nextId;
      r.out == Pushed(1) && r.st.stack == st.stack + [Table(n)]
      && EntriesOf(r.st, n) == Indexed(v.items, |v.items|)
  {
    ObjectPush(st, v);
    SeqFoldEntries(NewTable(st), v, 0);
  }

  // ---------------------------------------------------------------------
  // HashMap and HashSet (push_rec_iter)
  // ---------------------------------------------------------------------

  /** A HashMap of plain keys and values: its keys are distinct once pushed. */
  predicate PlainDict(es: seq<(HostVal, HostVal)>)
  {
    (forall e <- es :: Scalar(e.0) && Scalar(e.1))
    && forall a, b :: 0 <= a < b < |es| ==> ScalarVal(es[a].0) != ScalarVal(es[b].0)
  }

  /** The entries of the table built for the first `j` entries of a HashMap: each
      entry's key and value, in iteration order. */
  function Assoc(es: seq<(HostVal, HostVal)>, j: nat): (r: Entries)
    requires j <= |es| && PlainDict(es)
    ensures |r| == j
    ensures forall k :: 0 <= k < j ==> r[k] == (ScalarVal(es[k].0), ScalarVal(es[k].1))
  {
    if j == 0 then []
    else
      assert es[j - 1] in es;
      Assoc(es, j - 1) + [(ScalarVal(es[j - 1].0), ScalarVal(es[j - 1].1))]
  }

  /** One plain entry of a HashMap is stored. */
  lemma PairStepPlain(s: State, e: (HostVal, HostVal))
    requires Scalar(e.0) && Pushable(e.0) && Scalar(e.1) && Pushable(e.1) && Building(s)
    ensures PairStep(s, e) == Some(PairStored(s, ScalarVal(e.0), ScalarVal(e.1)))
  {
    ScalarPush(s, e.0);
    ScalarPush(Push(s, ScalarVal(e.0)), e.1);
  }

  /** Entry `i` of a HashMap of plain keys and values holds two scalars. */
  lemma DictEntry(v: HostVal, i: nat)
    requires v.Dict? && Pushable(v) && PlainDict(v.entries) && i < |v.entries|
    ensures var e := v.entries[i]; Scalar(e.0) && Pushable(e.0) && Scalar(e.1) && Pushable(e.1)
  {
    assert v.entries[i] in v.entries;
  }

  /** The fold from a plain entry `i` on: the entry stored, then the fold from i + 1 on. */
  lemma DictFoldStep(s: State, v: HostVal, i: nat)
    requires v.Dict? && Pushable(v) && PlainDict(v.entries) && i < |v.entries| && Building(s)
    ensures Scalar(v.entries[i].0) && Scalar(v.entries[i].1)
    ensures var e := v.entries[i];
      DictFold(s, v, i) == DictFold(PairStored(s, ScalarVal(e.0), ScalarVal(e.1)), v, i + 1)
  {
    DictEntry(v, i);
    PairStepPlain(s, v.entries[i]);
  }

  /** From a table holding the first `i` entries, the fold leaves all of them. */
  lemma {:induction false} DictFoldEntries(s: State, v: HostVal, i: nat)
    requires v.Dict? && Pushable(v) && PlainDict(v.entries) && i <= |v.entries| && Building(s)
    requires EntriesOf(s, Top(s).id) == Assoc(v.entries, i)
    ensures DictFold(s, v, i).Some?
    ensures EntriesOf(DictFold(s, v, i).value, Top(s).id) == Assoc(v.entries, |v.entries|)
    decreases |v.entries| - i
  {
    if i < |v.entries| {
      DictFoldEntriesStep(s, v, i);
      var e := v.entries[i];
      DictFoldEntries(PairStored(s, ScalarVal(e.0), ScalarVal(e.1)), v, i + 1);
    }
  }

  /** One step of DictFoldEntries: storing entry `i` keeps the table on top and extends
      its entries to the first i + 1. */
  lemma DictFoldEntriesStep(s: State, v: HostVal, i: nat)
    requires v.Dict? && Pushable(v) && PlainDict(v.entries) && i < |v.entries| && Building(s)
    requires EntriesOf(s, Top(s).id) == Assoc(v.entries, i)
    ensures Scalar(v.entries[i].0) && Scalar(v.entries[i].1)
    ensures var e := v.entries[i]; var n := PairStored(s, ScalarVal(e.0), ScalarVal(e.1));
      Building(n) && Top(n) == Top(s) && EntriesOf(n, Top(n).id) == Assoc(v.entries, i + 1)
      && DictFold(s, v, i) == DictFold(n, v, i + 1)
  {
    DictFoldStep(s, v, i);
    var e := v.entries[i];
    var n := PairStored(s, ScalarVal(e.0), ScalarVal(e.1));
    KeepsTable(s, n);
    StoreFresh(Assoc(v.entries, i), ScalarVal(e.0), ScalarVal(e.1));
  }

  /** Pushing a HashMap of plain keys and values leaves one fresh table that maps each key
      to its value and holds nothing else. */
  lemma DictPush(st: State, v: HostVal)
    requires v.Dict? && Pushable(v) && PlainDict(v.entries)
    ensures var r := PushSpec(st, v); var n := st.nextId;
      r.out == Pushed(1) && r.st.stack == st.stack + [Table(n)]
      && |EntriesOf(r.st, n)| == |v.entries|
      && forall i :: 0 <= i < |v.entries| ==>
        Lookup(EntriesOf(r.st, n), ScalarVal(v.entries[i].0)) == ScalarVal(v.entries[i].1)
  {
    var es := v.entries;
    ObjectPush(st, v);
    DictFoldEntries(NewTable(st), v, 0);
    var t := Assoc(es, |es|);
    forall i | 0 <= i < |es|
      ensures Lookup(t, ScalarVal(es[i].0)) == ScalarVal(es[i].1)
    {
      KeyIndexIs(t, ScalarVal(es[i].0), i);
    }
  }

  /** A HashSet of plain members: distinct once pushed. */
  predicate PlainSet(ms: seq<HostVal>)
  {
    (forall x <- ms :: Scalar(x))
    && forall a, b :: 0 <= a < b < |ms| ==> ScalarVal(ms[a]) != ScalarVal(ms[b])
  }

  /** The entries of the table built for the first `j` members of a HashSet: each member
      mapped to true. */
  function Members(ms: seq<HostVal>, j: nat): (r: Entries)
    requires j <= |ms| && PlainSet(ms)
    ensures |r| == j
    ensures forall k :: 0 <= k < j ==> r[k] == (ScalarVal(ms[k]), Bool(true))
  {
    if j == 0 then []
    else
      assert ms[j - 1] in ms;
      Members(ms, j - 1) + [(ScalarVal(ms[j - 1]), Bool(true))]
  }

  /** One plain member of a HashSet is stored with the value true. */
  lemma MemberSlotsPlain(s: State, x: HostVal)
    requires Scalar(x) && Pushable(x) && Building(s)
    ensures MemberSlots(s, PushSpec(s, x)) == Some(PairStored(s, ScalarVal(x), Bool(true)))
  {
    ScalarPush(s, x);
  }

  /** Member `i` of a HashSet of plain members is a scalar. */
  lemma SetMember(v: HostVal, i: nat)
    requires v.Set? && Pushable(v) && PlainSet(v.members) && i < |v.members|
    ensures Scalar(v.members[i]) && Pushable(v.members[i])
  {
    assert v.members[i] in v.members;
  }

  /** The fold from a plain member `i` on: the member stored, then the fold from i + 1 on. */
  lemma SetFoldStep(s: State, v: HostVal, i: nat)
    requires v.Set? && Pushable(v) && PlainSet(v.members) && i < |v.members| && Building(s)
    ensures Scalar(v.members[i])
      && SetFold(s, v, i) == SetFold(PairStored(s, ScalarVal(v.members[i]), Bool(true)), v, i + 1)
  {
    SetMember(v, i);
    MemberSlotsPlain(s, v.members[i]);
  }

  /** From a table holding the first `i` members, the fold leaves all of them. */
  lemma {:induction false} SetFoldEntries(s: State, v: HostVal, i: nat)
    requires v.Set? && Pushable(v) && PlainSet(v.members) && i <= |v.members| && Building(s)
    requires EntriesOf(s, Top(s).id) == Members(v.members, i)
    ensures SetFold(s, v, i).Some?
    ensures EntriesOf(SetFold(s, v, i).value, Top(s).id) == Members(v.members, |v.members|)
    decreases |v.members| - i
  {
    if i < |v.members| {
      SetFoldEntriesStep(s, v, i);
      SetFoldEntries(PairStored(s, ScalarVal(v.members[i]), Bool(true)), v, i + 1);
    }
  }

  /** One step of SetFoldEntries: storing member `i` keeps the table on top and extends
      its entries to the first i + 1. */
  lemma SetFoldEntriesStep(s: State, v: HostVal, i: nat)
    requires v.Set? && Pushable(v) && PlainSet(v.members) && i < |v.members| && Building(s)
    requires EntriesOf(s, Top(s).id) == Members(v.members, i)
    ensures Scalar(v.members[i])
    ensures var n := PairStored(s, ScalarVal(v.members[i]), Bool(true));
      Building(n) && Top(n) == Top(s) && EntriesOf(n, Top(n).id) == Members(v.members, i + 1)
      && SetFold(s, v, i) == SetFold(n, v, i + 1)
  {
    SetFoldStep(s, v, i);
    var x := v.members[i];
    var n := PairStored(s, ScalarVal(x), Bool(true));
    KeepsTable(s, n);
    StoreFresh(Members(v.members, i), ScalarVal(x), Bool(true));
  }

  /** Pushing a HashSet of plain members leaves one fresh table mapping each member to
      true and holding nothing else. */
  lemma SetPush(st: State, v: HostVal)
    requires v.Set? && Pushable(v) && PlainSet(v.members)
    ensures var r := PushSpec(st, v); var n := st.nextId;
      r.out == Pushed(1) && r.st.stack == st.stack + [Table(n)]
      && |EntriesOf(r.st, n)| == |v.members|
      && forall i :: 0 <= i < |v.members| ==>
        Lookup(EntriesOf(r.st, n), ScalarVal(v.members[i])) == Bool(true)
  {
    var ms := v.members;
    ObjectPush(st, v);
    SetFoldEntries(NewTable(st), v, 0);
    var t := Members(ms, |ms|);
    forall i | 0 <= i < |ms|
      ensures Lookup(t, ScalarVal(ms[i])) == Bool(true)
    {
      KeyIndexIs(t, ScalarVal(ms[i]), i);
    }
  }

  // ---------------------------------------------------------------------
  // Tuples as written (tuples.rs)
  // ---------------------------------------------------------------------

  /** The tuple push as it is written: when a part after the first fails, the error is
      reported but the slots of the parts before it stay on the stack. */
  function PartsFromAsWritten(st: State, v: HostVal, i: nat): (r: PushRes)
    requires v.Tuple? && Pushable(v) && i <= |v.parts|
    ensures r.out.Pushed? ==> Grown(st, r.st, r.out.n)
    ensures r.out.Failed? ==> |r.st.stack| >= |st.stack| && r.st.stack[..|st.stack|] == st.stack
    ensures Keeps(st, r.st)
    decreases |v.parts| - i
  {
    if i == |v.parts| then PushRes(st, Pushed(0))
    else
      assert v.parts[i] in v.parts;
      var p := PushSpec(st, v.parts[i]);
      if i == |v.parts| - 1 then p
      else
        match p.out
        case Failed(e) => PushRes(p.st, Failed(TupleFirst(e)))
        case Panicked => PushRes(st, Panicked)
        case Pushed(n) =>
          var rest := PartsFromAsWritten(p.st, v, i + 1);
          GrownThen(st, p.st, n, rest);
          match rest.out
          case Pushed(m) => PushRes(rest.st, Pushed(n + m))
          case Failed(e) =>
            assert rest.st.stack[..|st.stack|] == rest.st.stack[..|p.st.stack|][..|st.stack|];
            PushRes(rest.st, Failed(TupleOther(e)))
          case Panicked => PushRes(st, Panicked)
  }

  /** The written push and the corrected one report the same outcome and, unless the push
      fails, leave the same state; they differ only in the stack a failure leaves. */
  lemma {:induction false} AsWrittenSameOutcome(st: State, v: HostVal, i: nat)
    requires v.Tuple? && Pushable(v) && i <= |v.parts|
    ensures PartsFromAsWritten(st, v, i).out == PartsFrom(st, v, i).out
    ensures !PartsFrom(st, v, i).out.Failed? ==> PartsFromAsWritten(st, v, i) == PartsFrom(st, v, i)
    decreases |v.parts| - i
  {
    if i < |v.parts| - 1 {
      assert v.parts[i] in v.parts;
      var p := PushSpec(st, v.parts[i]);
      if p.out.Pushed? {
        AsWrittenSameOutcome(p.st, v, i + 1);
      }
    }
  }

  /** The tuple (1, code with a syntax error): the written push reports the error of its
      second part and leaves the 1 on the stack; the corrected push leaves the stack as it
      found it. */
  lemma TupleLeak(st: State)
    ensures var v := Tuple([Int(I32, 1), Code(ChunkReader.Cursor([]), LoadVerdict(LUA_ERRSYNTAX, []))]);
      var e := TupleOther(LoadFailed(SyntaxError([])));
      PartsFromAsWritten(st, v, 0) == PushRes(Push(st, Num(1.0)), Failed(e))
      && PartsFrom(st, v, 0).out == Failed(e) && PartsFrom(st, v, 0).st.stack == st.stack
  {
    var code := Code(ChunkReader.Cursor([]), LoadVerdict(LUA_ERRSYNTAX, []));
    var v := Tuple([Int(I32, 1), code]);
    assert InRange(I32, 1);
    var s1 := Push(st, Num(1.0));
    assert PushSpec(st, Int(I32, 1)) == PushRes(s1, Pushed(1));
    assert ChunkReader.ReadAll(ChunkReader.Cursor([]), None) == ([], None);
    var loaded := Load(s1, [], LoadVerdict(LUA_ERRSYNTAX, []));
    assert Slot(loaded, -1) == Some(Str([]));
    assert ValidUtf8([]);
    assert Reads.TextOf(Slot(loaded, -1)) == Some([]);
    assert PushSpec(s1, code) == PushRes(Pop(loaded, 1), Failed(LoadFailed(SyntaxError([]))));
    assert Pop(loaded, 1) == s1;
    assert PartsFrom(s1, v, 1) == PushRes(s1, Failed(LoadFailed(SyntaxError([]))));
    assert PartsFromAsWritten(s1, v, 1) == PartsFrom(s1, v, 1);
  }
}
