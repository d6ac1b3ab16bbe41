/** LuaTable (lua_tables.rs): a proxy for a table at a known index of the stack, and the
    iterator over its entries.  A proxy owns nothing but the table's slot: its operations
    push what they need above it, reach the table through `Offset`, and pop what they
    pushed, so that an operation that does not panic leaves the stack as deep as it found
    it. */
module Tables {
  import opened Base
  import opened Numerals
  import opened Values
  import opened LuaApi
  import opened Host
  import opened Pushes
  import opened Stack
  import Reads
  import Marshal
  import PushFacts

  // ---------------------------------------------------------------------
  // Addressing the table
  // ---------------------------------------------------------------------

  /** LuaTable::offset: the index of the table once -k more slots are on the stack.  An
      index counted from the bottom and the registry pseudo-index do not move; an index
      counted from the top moves down with every push. */
  function Offset(index: int, k: int): int
  {
    if index >= 0 || index == REGISTRYINDEX then index else index + k
  }

  /** `index` names a table a proxy can hold: a stack slot or the registry. */
  predicate TableIndex(st: State, index: int)
  {
    (IsStackIndex(st, index) || index == REGISTRYINDEX) && TableAt(st, index)
  }

  /** The id of the table a proxy names. */
  function TableId(st: State, index: int): nat
    requires TableIndex(st, index)
  {
    Slot(st, index).value.id
  }

  /** Once n slots are pushed, the shifted index still names the same table. */
  lemma OffsetTracks(before: State, after: State, index: int, n: nat)
    requires Grown(before, after, n) && after.env == before.env
    requires TableIndex(before, index) && |after.stack| <= LUAI_MAXSTACK
    ensures Slot(after, Offset(index, -(n as int))) == Slot(before, index)
    ensures TableIndex(after, Offset(index, -(n as int)))
  {
    if index != REGISTRYINDEX {
      var p := Pos(before, index);
      assert IsStackIndex(after, Offset(index, -(n as int))) && Pos(after, Offset(index, -(n as int))) == p;
      assert after.stack[..|before.stack|][p] == after.stack[p];
    }
  }

  /** A proxy over the same stack and environment names the same table. */
  lemma SameSlots(a: State, b: State, index: int)
    requires TableIndex(a, index) && b.stack == a.stack && b.env == a.env
    ensures TableIndex(b, index) && Slot(b, index) == Slot(a, index)
  {
  }

  // ---------------------------------------------------------------------
  // get and into_get
  // ---------------------------------------------------------------------

  /** The first steps of `get` and `into_get`: the key is pushed, and must push exactly one
      slot (the code asserts it), then lua_gettable replaces it with the value the table
      holds under it.  None stands for the panic. */
  function Fetch(st: State, index: int, key: HostVal): (r: Option<State>)
    requires Pushable(key) && Infallible(key)
    requires TableIndex(st, index) && |st.stack| + 1 <= LUAI_MAXSTACK
    ensures r.Some? ==> Grown(st, r.value, 1) && Keeps(st, r.value)
  {
    var pk := PushSpec(st, key);
    if pk.out != Pushed(1) then None
    else
      OffsetTracks(st, pk.st, index, 1);
      Some(GetTable(pk.st, Offset(index, -1)))
  }

  /** A plain key is looked up as the Lua value it pushes; nothing else changes. */
  lemma FetchPlain(st: State, index: int, key: HostVal)
    requires PushFacts.Scalar(key) && Pushable(key)
    requires TableIndex(st, index) && |st.stack| + 1 <= LUAI_MAXSTACK
    ensures Fetch(st, index, key)
      == Some(Push(st, Lookup(EntriesOf(st, TableId(st, index)), PushFacts.ScalarVal(key))))
  {
    PushFacts.ScalarPush(st, key);
    OffsetTracks(st, Push(st, PushFacts.ScalarVal(key)), index, 1);
  }

  /** `get`: a nil value gives nothing; otherwise the value is read as `ty`, a failed read
      giving nothing too; the guard over the value pops it in both cases. */
  function GetSpec(st: State, index: int, key: HostVal, ty: HostTy): (r: (State, Reads.Checked<HostVal>))
    requires Pushable(key) && Infallible(key)
    requires TableIndex(st, index) && |st.stack| + 1 <= LUAI_MAXSTACK
    ensures !r.1.Panic? ==> |r.0.stack| == |st.stack| && Keeps(st, r.0)
    ensures !r.1.Panic? && !Reads.Converts(ty) ==> r.0.stack == st.stack
  {
    match Fetch(st, index, key)
    case None => (st, Reads.Panic)
    case Some(s1) => GetFetched(s1, ty)
  }

  /** The rest of `get` once lua_gettable has left the value on top of `s1`: a nil value
      gives nothing; otherwise the value is read as `ty`, a failed read giving nothing too;
      the guard over the value pops it in both cases. */
  function GetFetched(s1: State, ty: HostTy): (r: (State, Reads.Checked<HostVal>))
    requires |s1.stack| >= 1
    ensures !r.1.Panic?
    ensures |r.0.stack| == |s1.stack| - 1 && r.0.heap == s1.heap && r.0.nextId == s1.nextId && r.0.env == s1.env
    ensures !Reads.Converts(ty) ==> r.0 == Pop(s1, 1)
  {
    if IsNil(s1, -1) then (Pop(s1, 1), Reads.Nothing)
    else
      var read := Reads.ReadAt(s1, ty, -1);
      Reads.ReadKeeps(s1, ty, -1);
      (Pop(read.0, 1), if read.1.Some? then Reads.Value(read.1.value) else Reads.Nothing)
  }

  /** A key the table does not hold reads as nothing, and the stack is as before. */
  lemma GetMissing(st: State, index: int, key: HostVal, ty: HostTy)
    requires PushFacts.Scalar(key) && Pushable(key)
    requires TableIndex(st, index) && |st.stack| + 1 <= LUAI_MAXSTACK
    requires Lookup(EntriesOf(st, TableId(st, index)), PushFacts.ScalarVal(key)) == Nil
    ensures GetSpec(st, index, key, ty) == (st, Reads.Nothing)
  {
    FetchPlain(st, index, key);
    assert Pop(Push(st, Nil), 1) == st;
  }

  /** The value on top is the plain value `x` pushes: reading it as x's type gives `x`. */
  lemma ReadPlainTop(s: State, x: HostVal)
    requires PushFacts.Scalar(x) && Pushable(x) && |s.stack| >= 1 && Top(s) == PushFacts.ScalarVal(x)
    ensures Reads.Read(s, PushFacts.ScalarTy(x), -1) == Some(x)
  {
    var below := Pop(s, 1);
    assert Push(below, PushFacts.ScalarVal(x)) == s;
    PushFacts.ScalarPush(below, x);
    PushFacts.PushThenRead(below, x);
  }

  // ---------------------------------------------------------------------
  // set and checked_set
  // ---------------------------------------------------------------------

  /** What `checked_set` answers (CheckedSetError), with the panics of its assertions: a key
      or a value that pushes other than one slot, or a nil key, which lua_settable raises
      outside protected mode. */
  datatype SetResult = SetDone | KeyPushError(e: PushErr) | ValuePushError(e: PushErr) | SetPanic

  /** `checked_set`: the key, then the value, pushed above the table; lua_settable at the
      table's offset from before the pushes stores the pair and pops both.  A key that fails
      to push reports it; a value that fails reports it once the key is popped again. */
  function CheckedSetSpec(st: State, index: int, key: HostVal, value: HostVal): (r: (State, SetResult))
    requires Pushable(key) && Pushable(value)
    requires TableIndex(st, index) && |st.stack| + 2 <= LUAI_MAXSTACK
    ensures !r.1.SetPanic? ==> r.0.stack == st.stack && Keeps(st, r.0)
    ensures Infallible(key) ==> !r.1.KeyPushError?
    ensures Infallible(value) ==> !r.1.ValuePushError?
  {
    var pk := PushSpec(st, key);
    match pk.out
    case Failed(e) => (pk.st, KeyPushError(e))
    case Panicked => (st, SetPanic)
    case Pushed(n) => if n != 1 then (st, SetPanic) else SetAboveKey(st, pk.st, index, value)
  }

  /** The rest of `checked_set` once the key is pushed (`s1` is `st` with the key on top):
      the value pushed above the key, then lua_settable; a value that fails to push reports
      it once the key is popped. */
  function SetAboveKey(st: State, s1: State, index: int, value: HostVal): (r: (State, SetResult))
    requires Pushable(value) && TableIndex(st, index) && |st.stack| + 2 <= LUAI_MAXSTACK
    requires Grown(st, s1, 1) && Keeps(st, s1)
    ensures !r.1.SetPanic? ==> r.0.stack == st.stack && Keeps(st, r.0)
    ensures !r.1.KeyPushError?
    ensures Infallible(value) ==> !r.1.ValuePushError?
  {
    var pv := PushSpec(s1, value);
    match pv.out
    case Failed(e) => (Pop(pv.st, 1), ValuePushError(e))
    case Panicked => (st, SetPanic)
    case Pushed(m) =>
      if m != 1 then (st, SetPanic)
      else
        GrownThen(st, s1, 1, pv);
        if pv.st.stack[|st.stack|] == Nil then (st, SetPanic)
        else
          OffsetTracks(st, pv.st, index, 2);
          (SetTable(pv.st, Offset(index, -2)), SetDone)
  }

  /** SetAboveKey by what pushing the value gives. */
  lemma SetAboveKeyCases(st: State, s1: State, index: int, value: HostVal, pv: PushRes)
    requires Pushable(value) && TableIndex(st, index) && |st.stack| + 2 <= LUAI_MAXSTACK
    requires Grown(st, s1, 1) && Keeps(st, s1) && pv == PushSpec(s1, value)
    ensures pv.out.Failed? ==> |pv.st.stack| >= 1 && SetAboveKey(st, s1, index, value) == (Pop(pv.st, 1), ValuePushError(pv.out.e))
    ensures pv.out.Panicked? || (pv.out.Pushed? && pv.out.n != 1) ==> SetAboveKey(st, s1, index, value) == (st, SetPanic)
    ensures pv.out == Pushed(1) ==> Grown(st, pv.st, 2) && pv.st.env == st.env
    ensures pv.out == Pushed(1) && pv.st.stack[|st.stack|] == Nil ==> SetAboveKey(st, s1, index, value) == (st, SetPanic)
    ensures pv.out == Pushed(1) && pv.st.stack[|st.stack|] != Nil && TableAt(pv.st, Offset(index, -2)) ==>
      SetAboveKey(st, s1, index, value) == (SetTable(pv.st, Offset(index, -2)), SetDone)
  {
    GrownThen(st, s1, 1, pv);
  }

  /** `set` of plain values pushes the two Lua values they stand for and stores them. */
  lemma SetPlain(st: State, index: int, k: HostVal, v: HostVal)
    requires PushFacts.Scalar(k) && Pushable(k) && PushFacts.Scalar(v) && Pushable(v)
    requires TableIndex(st, index) && |st.stack| + 2 <= LUAI_MAXSTACK
    ensures var s2 := Push(Push(st, PushFacts.ScalarVal(k)), PushFacts.ScalarVal(v));
      TableIndex(s2, Offset(index, -2)) && Slot(s2, Offset(index, -2)) == Slot(st, index)
      && CheckedSetSpec(st, index, k, v) == (SetTable(s2, Offset(index, -2)), SetDone)
  {
    PushFacts.ScalarPush(st, k);
    PushFacts.ScalarPush(Push(st, PushFacts.ScalarVal(k)), v);
    OffsetTracks(st, Push(Push(st, PushFacts.ScalarVal(k)), PushFacts.ScalarVal(v)), index, 2);
  }

  /** `get(k)` of a plain key the table maps to the plain value `v` pushes, read as v's
      type, gives v and leaves the interpreter as it was. */
  lemma GetPlain(st: State, index: int, k: HostVal, v: HostVal)
    requires PushFacts.Scalar(k) && Pushable(k) && PushFacts.Scalar(v) && Pushable(v)
    requires TableIndex(st, index) && |st.stack| + 1 <= LUAI_MAXSTACK
    requires Lookup(EntriesOf(st, TableId(st, index)), PushFacts.ScalarVal(k)) == PushFacts.ScalarVal(v)
    ensures GetSpec(st, index, k, PushFacts.ScalarTy(v)) == (st, Reads.Value(v))
  {
    FetchPlain(st, index, k);
    var top := Push(st, PushFacts.ScalarVal(v));
    ReadPlainTop(top, v);
    Reads.ReadKeeps(top, PushFacts.ScalarTy(v), -1);
    assert Slot(top, -1) == Some(PushFacts.ScalarVal(v));
    assert Reads.ReadAt(top, PushFacts.ScalarTy(v), -1).0 == top;
    assert Pop(top, 1) == st;
  }

  /** After `set(k, v)` of plain values the table maps k to v and every other key as before;
      `get(k)` read as v's type then gives v back (the get_set test). */
  lemma SetThenGet(st: State, index: int, k: HostVal, v: HostVal)
    requires PushFacts.Scalar(k) && Pushable(k) && PushFacts.Scalar(v) && Pushable(v)
    requires TableIndex(st, index) && |st.stack| + 2 <= LUAI_MAXSTACK
    requires WfEntries(EntriesOf(st, TableId(st, index)))
    ensures var (s1, res) := CheckedSetSpec(st, index, k, v);
      var id := TableId(st, index);
      res == SetDone && s1.stack == st.stack && TableIndex(s1, index) && TableId(s1, index) == id
      && (forall q :: Lookup(EntriesOf(s1, id), q)
            == if q == PushFacts.ScalarVal(k) then PushFacts.ScalarVal(v) else Lookup(EntriesOf(st, id), q))
      && GetSpec(s1, index, k, PushFacts.ScalarTy(v)) == (s1, Reads.Value(v))
  {
    var id := TableId(st, index);
    var K := PushFacts.ScalarVal(k);
    var V := PushFacts.ScalarVal(v);
    SetPlain(st, index, k, v);
    var s2 := Push(Push(st, K), V);
    var s1 := SetTable(s2, Offset(index, -2));
    assert EntriesOf(s1, id) == Store(EntriesOf(st, id), K, V);
    forall q
      ensures Lookup(EntriesOf(s1, id), q) == if q == K then V else Lookup(EntriesOf(st, id), q)
    {
      StoreLookup(EntriesOf(st, id), K, V, q);
    }
    SameSlots(st, s1, index);
    GetPlain(s1, index, k, v);
  }

  // ---------------------------------------------------------------------
  // empty_array and get_or_create_metatable
  // ---------------------------------------------------------------------

  /** The first half of `empty_array`: the key pushed (it must leave one slot), an empty
      Vec pushed above it, and the pair stored with lua_settable, which leaves the stack as
      it found it.  None is a panic: a key of another size, or a nil key. */
  function StoreEmptyArray(st: State, index: int, key: HostVal): (r: Option<State>)
    requires Pushable(key) && Infallible(key)
    requires TableIndex(st, index) && |st.stack| + 2 <= LUAI_MAXSTACK
    ensures r.Some? ==>
      r.value.stack == st.stack && Keeps(st, r.value)
      && TableIndex(r.value, index) && TableId(r.value, index) == TableId(st, index)
  {
    var pk := PushSpec(st, key);
    if pk.out != Pushed(1) then None
    else
      EmptyVecPush(pk.st);
      var pv := NewTable(pk.st);
      if Top(pk.st) == Nil then None
      else
        OffsetTracks(st, pv, index, 2);
        var s3 := SetTable(pv, Offset(index, -2));
        SameSlots(st, s3, index);
        Some(s3)
  }

  /** The first half of `empty_array` by what pushing the key gives. */
  lemma StoreEmptyCases(st: State, index: int, key: HostVal, pk: PushRes)
    requires Pushable(key) && Infallible(key)
    requires TableIndex(st, index) && |st.stack| + 2 <= LUAI_MAXSTACK && pk == PushSpec(st, key)
    ensures pk.out != Pushed(1) ==> StoreEmptyArray(st, index, key) == None
    ensures pk.out == Pushed(1) ==> Grown(st, NewTable(pk.st), 2) && NewTable(pk.st).env == st.env
    ensures pk.out == Pushed(1) && Top(pk.st) == Nil ==> StoreEmptyArray(st, index, key) == None
    ensures pk.out == Pushed(1) && Top(pk.st) != Nil && TableAt(NewTable(pk.st), Offset(index, -2)) ==>
      StoreEmptyArray(st, index, key) == Some(SetTable(NewTable(pk.st), Offset(index, -2)))
  {
    if pk.out == Pushed(1) {
      assert NewTable(pk.st).stack == pk.st.stack + [Table(pk.st.nextId)];
    }
  }

  /** `get` of a key whose value is read as a table proxy: the value fetched stays at -1
      under a guard of one slot when it is a table; None otherwise (nil, or not a table). */
  function SubtableSpec(st: State, index: int, key: HostVal): (r: Option<State>)
    requires Pushable(key) && Infallible(key)
    requires TableIndex(st, index) && |st.stack| + 1 <= LUAI_MAXSTACK
    ensures r.Some? ==> Grown(st, r.value, 1) && TableAt(r.value, -1) && Keeps(st, r.value)
  {
    match Fetch(st, index, key)
    case None => None
    case Some(s4) => if TableAt(s4, -1) then Some(s4) else None
  }

  /** `empty_array`: the key and an empty Vec (a fresh table) are pushed and stored with
      lua_settable, then `get(key)` reads the new entry back as a table proxy at -1 over a
      guard of one slot; a read that is not a table is the `unwrap` panic.  None stands for
      a panic. */
  function EmptyArraySpec(st: State, index: int, key: HostVal): (r: Option<State>)
    requires Pushable(key) && Infallible(key)
    requires TableIndex(st, index) && |st.stack| + 2 <= LUAI_MAXSTACK
    ensures r.Some? ==> Grown(st, r.value, 1) && TableAt(r.value, -1) && Keeps(st, r.value)
  {
    match StoreEmptyArray(st, index, key)
    case None => None
    case Some(s3) => SubtableSpec(s3, index, key)
  }


  /** An empty Vec pushes one fresh, empty table. */
  lemma EmptyVecPush(st: State)
    ensures PushSpec(st, Seq([])) == PushRes(NewTable(st), Pushed(1))
  {
    assert PushObject(st, Seq([])) == Some(NewTable(st));
  }

  /** Under a plain key, `empty_array` stores a fresh empty table and leaves it on top. */
  lemma EmptyArrayPlain(st: State, index: int, key: HostVal)
    requires PushFacts.Scalar(key) && Pushable(key)
    requires TableIndex(st, index) && |st.stack| + 2 <= LUAI_MAXSTACK
    requires Fresh(st) && TableId(st, index) in st.heap && WfEntries(EntriesOf(st, TableId(st, index)))
    ensures var r := EmptyArraySpec(st, index, key);
      var id := TableId(st, index);
      var n := st.nextId;
      r.Some? && r.value.stack == st.stack + [Table(n)] && EntriesOf(r.value, n) == []
      && Lookup(EntriesOf(r.value, id), PushFacts.ScalarVal(key)) == Table(n)
  {
    var id := TableId(st, index);
    var K := PushFacts.ScalarVal(key);
    var n := st.nextId;
    StoreEmptyPlain(st, index, key);
    var s3 := StoreEmptyArray(st, index, key).value;
    SubtablePlain(s3, index, key, n);
  }

  /** `get` of a plain key that maps to a table reads that table back onto the stack. */
  lemma SubtablePlain(st: State, index: int, key: HostVal, n: nat)
    requires PushFacts.Scalar(key) && Pushable(key)
    requires TableIndex(st, index) && |st.stack| + 1 <= LUAI_MAXSTACK
    requires Lookup(EntriesOf(st, TableId(st, index)), PushFacts.ScalarVal(key)) == Table(n)
    ensures SubtableSpec(st, index, key) == Some(Push(st, Table(n)))
  {
    FetchPlain(st, index, key);
  }

  /** Under a plain key, the first half of `empty_array` maps the key to a fresh empty table
      and leaves the stack as it was. */
  lemma StoreEmptyPlain(st: State, index: int, key: HostVal)
    requires PushFacts.Scalar(key) && Pushable(key)
    requires TableIndex(st, index) && |st.stack| + 2 <= LUAI_MAXSTACK
    requires Fresh(st) && TableId(st, index) in st.heap && WfEntries(EntriesOf(st, TableId(st, index)))
    ensures var r := StoreEmptyArray(st, index, key);
      var id := TableId(st, index);
      var n := st.nextId;
      r.Some? && r.value.stack == st.stack && EntriesOf(r.value, n) == [] && TableId(r.value, index) == id
      && Lookup(EntriesOf(r.value, id), PushFacts.ScalarVal(key)) == Table(n)
  {
    var id := TableId(st, index);
    var K := PushFacts.ScalarVal(key);
    var n := st.nextId;
    var s2 := NewTable(Push(st, K));
    StoreEmptyPlainState(st, index, key);
    var s3 := SetTable(s2, Offset(index, -2));
    assert id != n;
    assert EntriesOf(s3, n) == [];
    StoreLookup(EntriesOf(s2, id), K, Table(n), K);
  }

  /** Under a plain key, the first half of `empty_array` is lua_settable on the key and a
      new table pushed above the stack. */
  lemma StoreEmptyPlainState(st: State, index: int, key: HostVal)
    requires PushFacts.Scalar(key) && Pushable(key)
    requires TableIndex(st, index) && |st.stack| + 2 <= LUAI_MAXSTACK
    ensures var s2 := NewTable(Push(st, PushFacts.ScalarVal(key)));
      |s2.stack| >= 2 && s2.stack[|s2.stack| - 2] != Nil && TableAt(s2, Offset(index, -2))
      && Slot(s2, Offset(index, -2)) == Slot(st, index)
      && StoreEmptyArray(st, index, key) == Some(SetTable(s2, Offset(index, -2)))
  {
    PushFacts.ScalarPush(st, key);
    var s2 := NewTable(Push(st, PushFacts.ScalarVal(key)));
    OffsetTracks(st, s2, index, 2);
  }


  /** `get_or_create_metatable`: the table's metatable pushed on top; a table without one
      first receives a fresh table as its metatable (lua_newtable, lua_setmetatable at the
      shifted index, lua_getmetatable again). */
  function MetatableSpec(st: State, index: int): (r: State)
    requires TableIndex(st, index) && |st.stack| + 1 <= LUAI_MAXSTACK
    requires TableId(st, index) in st.heap && st.heap[TableId(st, index)].TableObj?
    ensures var id := TableId(st, index);
      Grown(st, r, 1) && Top(r).Table? && MetaOf(r, id) == Some(Top(r).id) && r.env == st.env
    ensures var m := MetaOf(st, TableId(st, index));
      m.Some? ==> r == Push(st, Table(m.value))
    ensures var id := TableId(st, index);
      MetaOf(st, id).None? ==> Top(r) == Table(st.nextId)
  {
    var got := GetMetatable(st, index);
    if got.1 then got.0 else CreateMetatable(st, index)
  }

  /** The branch of `get_or_create_metatable` for a table without a metatable: a fresh table
      becomes its metatable and is pushed. */
  function CreateMetatable(st: State, index: int): (r: State)
    requires TableIndex(st, index) && |st.stack| + 1 <= LUAI_MAXSTACK
    requires TableId(st, index) in st.heap && st.heap[TableId(st, index)].TableObj?
    ensures var id := TableId(st, index);
      Grown(st, r, 1) && Top(r) == Table(st.nextId) && MetaOf(r, id) == Some(st.nextId) && r.env == st.env
  {
    var s1 := NewTable(st);
    OffsetTracks(st, s1, index, 1);
    var s2 := SetMetatable(s1, Offset(index, -1));
    SameSlots(st, s2, index);
    GetMetatable(s2, index).0
  }

  /** The metatable a table receives is fresh and empty, and the table keeps its entries. */
  lemma CreatedMetatable(st: State, index: int)
    requires TableIndex(st, index) && |st.stack| + 1 <= LUAI_MAXSTACK
    requires Fresh(st) && TableId(st, index) in st.heap && st.heap[TableId(st, index)].TableObj?
    requires MetaOf(st, TableId(st, index)).None?
    ensures var r := MetatableSpec(st, index);
      var id := TableId(st, index);
      Top(r) == Table(st.nextId) && st.nextId !in st.heap
      && r.heap == st.heap[st.nextId := TableObj([], None)][id := TableObj(EntriesOf(st, id), Some(st.nextId))]
  {
    assert TableId(st, index) != st.nextId;
  }

  // ---------------------------------------------------------------------
  // The proxy
  // ---------------------------------------------------------------------

  /** LuaTable: the interpreter and the index of the table. */
  class LuaTable {
    const lua: Interp
    const index: int

    constructor (lua: Interp, index: int)
      ensures this.lua == lua && this.index == index
    {
      this.lua := lua;
      this.index := index;
    }

    /** The proxy names a table, with room for the two slots a `set` pushes above it. */
    predicate Valid()
      reads lua
    {
      TableIndex(lua.st, index) && |lua.st.stack| + 2 <= LUAI_MAXSTACK
    }

    /** The start of `get` and `into_get`: the key pushed (it must leave one slot) and
        replaced by the value the table holds under it (lua_gettable); false on a panic. */
    method FetchKey(key: HostVal) returns (ok: bool)
      requires Pushable(key) && Infallible(key)
      requires TableIndex(lua.st, index) && |lua.st.stack| + 1 <= LUAI_MAXSTACK
      modifies lua
      ensures ok <==> Fetch(old(lua.st), index, key).Some?
      ensures ok ==> lua.st == Fetch(old(lua.st), index, key).value
    {
      ghost var st0 := lua.st;
      var out := Marshal.PushValue(lua, key);
      if out != Pushed(1) {
        return false;
      }
      OffsetTracks(st0, lua.st, index, 1);
      lua.st := GetTable(lua.st, Offset(index, -1));
      ok := true;
    }

    method Get(key: HostVal, ty: HostTy) returns (r: Reads.Checked<HostVal>)
      requires Valid() && Pushable(key) && Infallible(key)
      modifies lua
      ensures r == GetSpec(old(lua.st), index, key, ty).1
      ensures !r.Panic? ==> lua.st == GetSpec(old(lua.st), index, key, ty).0
    {
      var ok := FetchKey(key);
      if !ok {
        return Reads.Panic;
      }
      r := ReadAndPop(ty);
    }

    /** The rest of `get` with the value on top: read as `ty` unless nil, then popped by
        its guard. */
    method ReadAndPop(ty: HostTy) returns (r: Reads.Checked<HostVal>)
      requires |lua.st.stack| >= 1
      modifies lua
      ensures (lua.st, r) == GetFetched(old(lua.st), ty)
    {
      var guard := new PushGuard(lua, 1);
      if IsNil(lua.st, -1) {
        guard.Drop();
        return Reads.Nothing;
      }
      var read := Reads.ReadAt(lua.st, ty, -1);
      lua.st := read.0;
      guard.Drop();
      r := if read.1.Some? then Reads.Value(read.1.value) else Reads.Nothing;
    }

    /** `into_get`: the answers of `get`, but when there is no value (nil, or a failed read)
        the slot is not popped: the guard over it is handed back (the Err case). */
    method IntoGet(key: HostVal, ty: HostTy) returns (r: Reads.Checked<HostVal>, kept: PushGuard?)
      requires Valid() && Pushable(key) && Infallible(key)
      modifies lua
      ensures r == GetSpec(old(lua.st), index, key, ty).1
      ensures r.Value? ==> lua.st == GetSpec(old(lua.st), index, key, ty).0 && kept == null
      ensures r.Nothing? ==>
        |lua.st.stack| == |old(lua.st.stack)| + 1
        && Pop(lua.st, 1) == GetSpec(old(lua.st), index, key, ty).0
        && kept != null && kept.lua == lua && kept.size == 1
    {
      var ok := FetchKey(key);
      if !ok {
        return Reads.Panic, null;
      }
      r, kept := KeepUnlessRead(ty);
    }

    /** The rest of `into_get` with the value on top: read as `ty` and popped, or left on
        the stack under a guard handed back when it is nil or the read fails. */
    method KeepUnlessRead(ty: HostTy) returns (r: Reads.Checked<HostVal>, kept: PushGuard?)
      requires |lua.st.stack| >= 1
      modifies lua
      ensures r == GetFetched(old(lua.st), ty).1
      ensures r.Value? ==> lua.st == GetFetched(old(lua.st), ty).0 && kept == null
      ensures r.Nothing? ==>
        |lua.st.stack| == |old(lua.st.stack)| && Pop(lua.st, 1) == GetFetched(old(lua.st), ty).0
        && kept != null && kept.lua == lua && kept.size == 1
    {
      var guard := new PushGuard(lua, 1);
      if IsNil(lua.st, -1) {
        return Reads.Nothing, guard;
      }
      var read := Reads.ReadAt(lua.st, ty, -1);
      lua.st := read.0;
      if read.1.None? {
        return Reads.Nothing, guard;
      }
      guard.Drop();
      r, kept := Reads.Value(read.1.value), null;
    }

    method CheckedSet(key: HostVal, value: HostVal) returns (r: SetResult)
      requires Valid() && Pushable(key) && Pushable(value)
      modifies lua
      ensures r == CheckedSetSpec(old(lua.st), index, key, value).1
      ensures !r.SetPanic? ==> lua.st == CheckedSetSpec(old(lua.st), index, key, value).0
    {
      ghost var st0 := lua.st;
      var myOffset := Offset(index, -2);
      var out := Marshal.PushValue(lua, key);
      if out.Failed? {
        return KeyPushError(out.e);
      }
      if out != Pushed(1) {
        return SetPanic;
      }
      r := StoreAboveKey(st0, value, myOffset);
    }

    /** The rest of `checked_set` with the key on top: the key's guard, the value pushed
        under it (the guard pops the key when the value fails), both guards forgotten, and
        lua_settable at the offset taken before the key was pushed. */
    method StoreAboveKey(ghost st0: State, value: HostVal, myOffset: int) returns (r: SetResult)
      requires Pushable(value) && TableIndex(st0, index) && |st0.stack| + 2 <= LUAI_MAXSTACK
      requires Grown(st0, lua.st, 1) && Keeps(st0, lua.st) && myOffset == Offset(index, -2)
      modifies lua
      ensures r == SetAboveKey(st0, old(lua.st), index, value).1
      ensures !r.SetPanic? ==> lua.st == SetAboveKey(st0, old(lua.st), index, value).0
    {
      ghost var st1 := lua.st;
      var guard := new PushGuard(lua, 1);
      var vout := Marshal.PushValue(lua, value);
      SetAboveKeyCases(st0, st1, index, value, PushSpec(st1, value));
      if vout.Failed? {
        guard.Drop();
        return ValuePushError(vout.e);
      }
      if vout != Pushed(1) {
        return SetPanic;
      }
      var _ := guard.Forget();
      r := StoreKeyValue(st0, myOffset);
    }

    /** lua_settable at the offset taken before the key was pushed, with the key and the
        value on top; a nil key raises a Lua error outside protected mode (the panic). */
    method StoreKeyValue(ghost st0: State, myOffset: int) returns (r: SetResult)
      requires TableIndex(st0, index) && |st0.stack| + 2 <= LUAI_MAXSTACK && myOffset == Offset(index, -2)
      requires Grown(st0, lua.st, 2) && lua.st.env == st0.env
      modifies lua
      ensures r == (if old(lua.st).stack[|st0.stack|] == Nil then SetPanic else SetDone)
      ensures r == SetDone ==> TableAt(old(lua.st), myOffset) && lua.st == SetTable(old(lua.st), myOffset)
    {
      if lua.st.stack[|lua.st.stack| - 2] == Nil {
        return SetPanic;
      }
      OffsetTracks(st0, lua.st, index, 2);
      lua.st := SetTable(lua.st, myOffset);
      r := SetDone;
    }

    /** `set`: `checked_set` for a key and a value whose pushes cannot fail, so that its
        errors cannot happen; `ok` is false on a panic. */
    method Set(key: HostVal, value: HostVal) returns (ok: bool)
      requires Valid() && Pushable(key) && Infallible(key) && Pushable(value) && Infallible(value)
      modifies lua
      ensures ok <==> CheckedSetSpec(old(lua.st), index, key, value).1 == SetDone
      ensures ok ==> lua.st == CheckedSetSpec(old(lua.st), index, key, value).0
    {
      var r := CheckedSet(key, value);
      match r
      case SetDone => ok := true;
      case SetPanic => ok := false;
    }

    /** `get` read as a LuaTable: the proxy over the value at -1 and the guard over its
        slot, or null when the value is nil or not a table, after which the guard has popped
        it. */
    method GetSubtable(key: HostVal) returns (t: LuaTable?, guard: PushGuard?)
      requires Pushable(key) && Infallible(key)
      requires TableIndex(lua.st, index) && |lua.st.stack| + 1 <= LUAI_MAXSTACK
      modifies lua
      ensures t != null <==> SubtableSpec(old(lua.st), index, key).Some?
      ensures t != null ==>
        lua.st == SubtableSpec(old(lua.st), index, key).value
        && t.lua == lua && t.index == -1 && TableAt(lua.st, t.index)
        && guard != null && guard.lua == lua && guard.size == 1
      ensures t == null && Fetch(old(lua.st), index, key).Some? ==>
        lua.st == Pop(Fetch(old(lua.st), index, key).value, 1) && lua.st.stack == old(lua.st.stack)
    {
      var ok := FetchKey(key);
      if !ok {
        return null, null;
      }
      guard := new PushGuard(lua, 1);
      if !TableAt(lua.st, -1) {
        guard.Drop();
        return null, null;
      }
      t := new LuaTable(lua, -1);
    }

    /** The first half of `empty_array`: the key and an empty table stored; false on a
        panic. */
    method StoreEmpty(key: HostVal) returns (ok: bool)
      requires Valid() && Pushable(key) && Infallible(key)
      modifies lua
      ensures ok <==> StoreEmptyArray(old(lua.st), index, key).Some?
      ensures ok ==> lua.st == StoreEmptyArray(old(lua.st), index, key).value && Valid()
    {
      ghost var st0 := lua.st;
      var out := Marshal.PushValue(lua, key);
      StoreEmptyCases(st0, index, key, PushSpec(st0, key));
      if out != Pushed(1) {
        return false;
      }
      lua.st := NewTable(lua.st);  // Vec::with_capacity(0) pushed: a new empty table (EmptyVecPush)
      var r := StoreKeyValue(st0, Offset(index, -2));
      ok := r == SetDone;
    }

    /** `empty_array`: the proxy over the new table, at -1, and the guard over its slot; null
        on a panic. */
    method EmptyArray(key: HostVal) returns (t: LuaTable?, guard: PushGuard?)
      requires Valid() && Pushable(key) && Infallible(key)
      modifies lua
      ensures t != null <==> EmptyArraySpec(old(lua.st), index, key).Some?
      ensures t != null ==>
        lua.st == EmptyArraySpec(old(lua.st), index, key).value
        && t.lua == lua && t.index == -1 && TableAt(lua.st, t.index)
        && guard != null && guard.lua == lua && guard.size == 1
    {
      var ok := StoreEmpty(key);
      if !ok {
        return null, null;
      }
      t, guard := GetSubtable(key);
    }

    /** `get_or_create_metatable`: the proxy over the metatable, at -1, and the guard over
        its slot. */
    method GetOrCreateMetatable() returns (t: LuaTable, guard: PushGuard)
      requires Valid() && TableId(lua.st, index) in lua.st.heap && lua.st.heap[TableId(lua.st, index)].TableObj?
      modifies lua
      ensures lua.st == MetatableSpec(old(lua.st), index)
      ensures t.lua == lua && t.index == -1 && guard.lua == lua && guard.size == 1
    {
      ghost var st0 := lua.st;
      var got := GetMetatable(lua.st, index);
      lua.st := got.0;
      if !got.1 {
        lua.st := NewTable(lua.st);
        OffsetTracks(st0, lua.st, index, 1);
        lua.st := SetMetatable(lua.st, Offset(index, -1));
        SameSlots(st0, lua.st, index);
        lua.st := GetMetatable(lua.st, index).0;
      }
      guard := new PushGuard(lua, 1);
      t := new LuaTable(lua, -1);
    }

    /** `iter`: a nil key pushed above the table starts a traversal. */
    method Iter() returns (it: LuaTableIterator)
      requires Valid()
      modifies lua
      ensures lua.st == Push(old(lua.st), Nil)
      ensures fresh(it) && it.table == this && !it.finished && it.depth == |old(lua.st.stack)| && it.Valid()
    {
      ghost var depth := |lua.st.stack|;
      lua.st := Push(lua.st, Nil);
      it := new LuaTableIterator(this, depth);
      assert Pop(lua.st, 1) == old(lua.st);
    }
  }

  /** LuaRead for LuaTable: a proxy over `index` when lua_istable holds there. */
  method ReadTable(lua: Interp, index: int) returns (t: LuaTable?)
    ensures t != null <==> TypeAt(lua.st, index) == TTABLE
    ensures t != null ==> t.lua == lua && t.index == index
  {
    if TableAt(lua.st, index) {
      t := new LuaTable(lua, index);
    } else {
      t := null;
    }
  }

  /** LuaTable::registry: a proxy over the registry pseudo-index. */
  method Registry(lua: Interp) returns (t: LuaTable)
    ensures t.lua == lua && t.index == REGISTRYINDEX
    ensures |lua.st.stack| + 2 <= LUAI_MAXSTACK ==> t.Valid() && TableId(lua.st, t.index) == lua.st.env.registry
  {
    t := new LuaTable(lua, REGISTRYINDEX);
  }

  // ---------------------------------------------------------------------
  // Traversal
  // ---------------------------------------------------------------------

  /** What `next` yields: the end, an entry (None when the key or the value did not read
      as the iterator's types), or a panic (lua_next's error on a key that is not in the
      table, raised outside protected mode). */
  datatype IterStep = Finished | Item(entry: Option<(HostVal, HostVal)>) | IterPanic

  /** The traversal state: the current key on top, the table below it at `index`. */
  predicate Walking(st: State, index: int)
  {
    |st.stack| >= 1 && TableIndex(Pop(st, 1), index) && |st.stack| <= LUAI_MAXSTACK
  }

  /** A state that agrees with `a` on every slot that does not hold a number, with the
      same environment, still has the table at `index`. */
  lemma TableIndexKept(a: State, b: State, index: int)
    requires TableIndex(a, index) && |b.stack| == |a.stack| && b.env == a.env
    requires forall i :: 0 <= i < |a.stack| && !a.stack[i].Num? ==> b.stack[i] == a.stack[i]
    ensures TableIndex(b, index) && TableId(b, index) == TableId(a, index)
  {
    if index != REGISTRYINDEX {
      assert Slot(b, index) == Slot(a, index);
    }
  }

  /** lua_next with the current key on top and the table at offset -1: the key is popped
      and the entry after it pushed, or nothing at the end; a key the table does not hold
      is a Lua error outside protected mode (None). */
  function Advance(st: State, index: int): (r: Option<(State, bool)>)
    requires Walking(st, index)
    ensures var base := Pop(st, 1);
      var nx := Values.Next(EntriesOf(st, TableId(base, index)), Top(st));
      r == if nx.BadKey? then None
        else if nx.End? then Some((base, false))
        else Some((Push(Push(base, nx.key), nx.value), true))
  {
    assert Grown(Pop(st, 1), st, 1);
    OffsetTracks(Pop(st, 1), st, index, 1);
    var t := Offset(index, -1);
    if Values.Next(EntriesOf(st, Slot(st, t).value.id), Top(st)).BadKey? then None
    else Some(LuaApi.Next(st, t))
  }

  /** The items a step yields: nothing when the key or the value did not read. */
  function Pair(k: Option<HostVal>, v: Option<HostVal>): (r: Option<(HostVal, HostVal)>)
    ensures r.Some? <==> k.Some? && v.Some?
  {
    if k.Some? && v.Some? then Some((k.value, v.value)) else None
  }

  /** The reads of `next` as written, once lua_next has pushed a key and a value: the key
      read at -2 in place, then the value at -1, then the value popped. */
  function ReadEntryAsWritten(s1: State, kty: HostTy, vty: HostTy): (r: (State, Option<(HostVal, HostVal)>))
    requires |s1.stack| >= 2
  {
    var (s2, k) := Reads.ReadAt(s1, kty, -2);
    var (s3, v) := Reads.ReadAt(s2, vty, -1);
    (Pop(s3, 1), Pair(k, v))
  }

  /** The reads with the key read from a copy (lua_pushvalue(-2), read at -1, pop), so that
      the slot lua_next reads back keeps the key it pushed.  No slot holding a table or a
      string changes. */
  function ReadEntry(s1: State, kty: HostTy, vty: HostTy): (r: (State, Option<(HostVal, HostVal)>))
    requires |s1.stack| >= 2
    ensures |r.0.stack| == |s1.stack| - 1 && r.0.heap == s1.heap && r.0.nextId == s1.nextId && r.0.env == s1.env
    ensures forall i :: 0 <= i < |s1.stack| - 1 && !s1.stack[i].Num? ==> r.0.stack[i] == s1.stack[i]
  {
    var c := PushCopy(s1, -2);
    var (s2, k) := Reads.ReadAt(c, kty, -1);
    assert forall i :: 0 <= i < |s1.stack| ==> c.stack[i] == s1.stack[i];
    var (s3, v) := Reads.ReadAt(Pop(s2, 1), vty, -1);
    (Pop(s3, 1), Pair(k, v))
  }

  /** On one-slot types the reads leave the key alone and yield the key's and the value's
      reads. */
  lemma ReadEntryOneSlot(s1: State, kty: HostTy, vty: HostTy)
    requires |s1.stack| >= 2 && Reads.OneSlot(kty) && Reads.OneSlot(vty)
    ensures ReadEntry(s1, kty, vty)
      == (Pop(s1, 1), Pair(Reads.Read(Push(s1, s1.stack[|s1.stack| - 2]), kty, -1), Reads.Read(s1, vty, -1)))
  {
    var c := PushCopy(s1, -2);
    assert c == Push(s1, s1.stack[|s1.stack| - 2]);
    var key := Reads.ReadAt(c, kty, -1);
    Reads.ReadTopThenPop(c, kty);
    assert Pop(c, 1) == s1;
    assert Pop(key.0, 1) == s1;
    var value := Reads.ReadAt(s1, vty, -1);
    Reads.ReadTopThenPop(s1, vty);
    assert ReadEntry(s1, kty, vty) == (Pop(value.0, 1), Pair(key.1, value.1));
  }

  /** `next` as written; reading the key as a String turns a number key into a string in
      its slot, and the next lua_next is handed a key the table does not hold. */
  function StepAsWritten(st: State, index: int, kty: HostTy, vty: HostTy): (r: (State, IterStep))
    requires Walking(st, index)
  {
    match Advance(st, index)
    case None => (st, IterPanic)
    case Some((s1, more)) =>
      if !more then (s1, Finished)
      else
        var e := ReadEntryAsWritten(s1, kty, vty);
        (e.0, Item(e.1))
  }

  /** `next` with the key read from a copy. */
  function Step(st: State, index: int, kty: HostTy, vty: HostTy): (r: (State, IterStep))
    requires Walking(st, index)
  {
    match Advance(st, index)
    case None => (st, IterPanic)
    case Some((s1, more)) =>
      if !more then (s1, Finished)
      else
        var e := ReadEntry(s1, kty, vty);
        (e.0, Item(e.1))
  }

  /** A step that yields an item leaves a key on top of the same table. */
  lemma StepKeepsWalking(st: State, index: int, kty: HostTy, vty: HostTy)
    requires Walking(st, index)
    ensures var r := Step(st, index, kty, vty);
      r.1.Item? ==>
        |r.0.stack| == |st.stack| && Walking(r.0, index)
        && TableId(Pop(r.0, 1), index) == TableId(Pop(st, 1), index)
  {
    match Advance(st, index)
    case None =>
    case Some((s1, more)) =>
      if more {
        StepsRead(st, index, s1, kty, vty);
        ReadEntryKeepsTable(st, index, s1, kty, vty);
      }
  }

  /** The reads after lua_next leave the table where it was. */
  lemma ReadEntryKeepsTable(st: State, index: int, s1: State, kty: HostTy, vty: HostTy)
    requires Walking(st, index) && Advance(st, index) == Some((s1, true))
    ensures |s1.stack| >= 2
    ensures var r := ReadEntry(s1, kty, vty).0;
      |r.stack| == |st.stack| && Walking(r, index) && TableId(Pop(r, 1), index) == TableId(Pop(st, 1), index)
  {
    var base := Pop(st, 1);
    assert Grown(base, s1, 2) && s1.env == base.env;
    KeptAboveBase(base, s1, ReadEntry(s1, kty, vty).0, index);
  }

  /** A state one slot lower than `s1`, which is `base` with two slots more, that keeps
      every slot of `s1` under its top not holding a number is still walking the table. */
  lemma KeptAboveBase(base: State, s1: State, r: State, index: int)
    requires TableIndex(base, index) && Grown(base, s1, 2) && s1.env == base.env
    requires |r.stack| == |s1.stack| - 1 && r.env == s1.env && |r.stack| <= LUAI_MAXSTACK
    requires forall i :: 0 <= i < |s1.stack| - 1 && !s1.stack[i].Num? ==> r.stack[i] == s1.stack[i]
    ensures Walking(r, index) && TableId(Pop(r, 1), index) == TableId(base, index)
  {
    var below := Pop(r, 1);
    forall i | 0 <= i < |base.stack| && !base.stack[i].Num?
      ensures below.stack[i] == base.stack[i]
    {
      assert s1.stack[i] == base.stack[i];
    }
    TableIndexKept(base, below, index);
  }

  /** What entry i of table `t` yields, read in the state `base` below the traversal. */
  function ItemAt(base: State, t: Entries, i: nat, kty: HostTy, vty: HostTy): Option<(HostVal, HostVal)>
    requires i < |t|
  {
    var s := Push(Push(base, t[i].0), t[i].1);
    Pair(Reads.Read(Push(s, t[i].0), kty, -1), Reads.Read(s, vty, -1))
  }

  /** With the key on top being the key before entry i, a step yields entry i read as the
      iterator's types and leaves entry i's key on top; after the last entry it yields the
      end and pops the key. */
  lemma StepVisits(base: State, index: int, i: nat, kty: HostTy, vty: HostTy)
    requires Reads.OneSlot(kty) && Reads.OneSlot(vty)
    requires TableIndex(base, index) && |base.stack| + 1 <= LUAI_MAXSTACK
    requires WfEntries(EntriesOf(base, TableId(base, index)))
    requires i <= |EntriesOf(base, TableId(base, index))|
    ensures var t := EntriesOf(base, TableId(base, index));
      var st := Push(base, KeyBefore(t, i));
      Walking(st, index)
      && Step(st, index, kty, vty)
        == if i < |t| then (Push(base, t[i].0), Item(ItemAt(base, t, i, kty, vty))) else (base, Finished)
  {
    var t := EntriesOf(base, TableId(base, index));
    AdvanceVisits(base, index, i);
    if i < |t| {
      var s1 := Push(Push(base, t[i].0), t[i].1);
      StepsRead(Push(base, KeyBefore(t, i)), index, s1, kty, vty);
      ReadEntryItem(base, t, i, kty, vty);
    }
  }

  /** Reading entry i pushed above `base` gives item i and leaves its key on top. */
  lemma ReadEntryItem(base: State, t: Entries, i: nat, kty: HostTy, vty: HostTy)
    requires i < |t| && Reads.OneSlot(kty) && Reads.OneSlot(vty)
    ensures ReadEntry(Push(Push(base, t[i].0), t[i].1), kty, vty) == (Push(base, t[i].0), ItemAt(base, t, i, kty, vty))
  {
    var s1 := Push(Push(base, t[i].0), t[i].1);
    ReadEntryOneSlot(s1, kty, vty);
    assert Pop(s1, 1) == Push(base, t[i].0);
  }

  /** With the key before entry i on top, lua_next pushes entry i, or ends past the last. */
  lemma AdvanceVisits(base: State, index: int, i: nat)
    requires TableIndex(base, index) && |base.stack| + 1 <= LUAI_MAXSTACK
    requires WfEntries(EntriesOf(base, TableId(base, index)))
    requires i <= |EntriesOf(base, TableId(base, index))|
    ensures var t := EntriesOf(base, TableId(base, index));
      var st := Push(base, KeyBefore(t, i));
      Walking(st, index)
      && Advance(st, index)
        == if i < |t| then Some((Push(Push(base, t[i].0), t[i].1), true)) else Some((base, false))
  {
    var t := EntriesOf(base, TableId(base, index));
    var st := Push(base, KeyBefore(t, i));
    assert Pop(st, 1) == base;
    NextVisits(t, i);
  }


  /** When neither read converts a slot, reading the key in place reads the same as
      reading a copy of it. */
  lemma ReadEntryAgrees(s1: State, kty: HostTy, vty: HostTy)
    requires |s1.stack| >= 2 && Reads.OneSlot(kty) && !Reads.Converts(kty) && !Reads.Converts(vty)
    ensures ReadEntryAsWritten(s1, kty, vty) == ReadEntry(s1, kty, vty)
  {
    var c := PushCopy(s1, -2);
    Reads.ReadKeeps(c, kty, -1);
    Reads.ReadKeeps(s1, kty, -2);
    Reads.ReadKeeps(s1, vty, -1);
    assert Pop(c, 1) == s1;
    Reads.ReadSameSlot(c, s1, kty, -1, -2);
  }

  /** Reading the key in place only goes wrong for a key type that converts: for the
      others the step as written and the corrected step agree. */
  lemma StepAgrees(st: State, index: int, kty: HostTy, vty: HostTy)
    requires Walking(st, index) && Reads.OneSlot(kty) && !Reads.Converts(kty) && !Reads.Converts(vty)
    ensures StepAsWritten(st, index, kty, vty) == Step(st, index, kty, vty)
  {
    match Advance(st, index)
    case None =>
    case Some((s1, more)) =>
      if more {
        StepsRead(st, index, s1, kty, vty);
        ReadEntryAgrees(s1, kty, vty);
      }
  }

  /** When lua_next pushes an entry, both steps are the reads of that entry. */
  lemma StepsRead(st: State, index: int, s1: State, kty: HostTy, vty: HostTy)
    requires Walking(st, index) && Advance(st, index) == Some((s1, true))
    ensures |s1.stack| >= 2
    ensures StepAsWritten(st, index, kty, vty) == (ReadEntryAsWritten(s1, kty, vty).0, Item(ReadEntryAsWritten(s1, kty, vty).1))
    ensures Step(st, index, kty, vty) == (ReadEntry(s1, kty, vty).0, Item(ReadEntry(s1, kty, vty).1))
  {
  }

  /** A key the table does not hold (and not nil) makes lua_next fail: the step is a panic,
      as written and corrected alike. */
  lemma ForeignKeyPanics(st: State, index: int, kty: HostTy, vty: HostTy)
    requires Walking(st, index) && Top(st) != Nil
    requires KeyIndex(EntriesOf(st, TableId(Pop(st, 1), index)), Top(st)) == |EntriesOf(st, TableId(Pop(st, 1), index))|
    ensures StepAsWritten(st, index, kty, vty) == (st, IterPanic)
    ensures Step(st, index, kty, vty) == (st, IterPanic)
  {
  }

  /** The first step as written over the table {1 = 9, 2 = 8} with String keys: it yields
      ("1", 9) but leaves the string "1" where lua_next looks for the key. */
  lemma FirstTextKeyStep(base: State, id: nat)
    requires |base.stack| + 4 <= LUAI_MAXSTACK && base.stack == [Table(id)]
    requires EntriesOf(base, id) == [(Num(1.0), Num(9.0)), (Num(2.0), Num(8.0))]
    ensures TableIndex(base, -1) && Walking(Push(base, Nil), -1)
    ensures StepAsWritten(Push(base, Nil), -1, TText, TInt(I32))
      == (Push(base, Str([0x31])), Item(Some((Text([0x31]), Int(I32, 9)))))
  {
    var t := EntriesOf(base, id);
    var st := Push(base, Nil);
    assert Pop(st, 1) == base;
    NextVisits(t, 0);
    var s1 := Push(Push(base, Num(1.0)), Num(9.0));
    assert Advance(st, -1) == Some((s1, true));
    NumberKeyReadInPlace(base);
  }

  /** The reads as written of the entry (1, 9) as a String and an i32: the key reads as "1"
      and stays converted in its slot. */
  lemma NumberKeyReadInPlace(base: State)
    requires |base.stack| + 2 <= LUAI_MAXSTACK
    ensures ReadEntryAsWritten(Push(Push(base, Num(1.0)), Num(9.0)), TText, TInt(I32))
      == (Push(base, Str([0x31])), Some((Text([0x31]), Int(I32, 9))))
  {
    EntryReadInPlace(base, Push(Push(base, Num(1.0)), Num(9.0)));
  }

  lemma EntryReadInPlace(base: State, s1: State)
    requires |base.stack| + 2 <= LUAI_MAXSTACK && s1 == Push(Push(base, Num(1.0)), Num(9.0))
    ensures ReadEntryAsWritten(s1, TText, TInt(I32)) == (Push(base, Str([0x31])), Some((Text([0x31]), Int(I32, 9))))
  {
    KeyReadAsText(base, s1);
    var s2 := Push(Push(base, Str([0x31])), Num(9.0));
    TopReadsAsInt(Push(base, Str([0x31])), s2, 9);
    assert Pop(s2, 1) == Push(base, Str([0x31]));
  }

  lemma TopReadsAsInt(st: State, s2: State, n: int)
    requires -0x8000_0000 <= n < 0x8000_0000 && s2 == Push(st, Num(n as real))
    ensures Reads.ReadAt(s2, TInt(I32), -1) == (s2, Some(Int(I32, n)))
  {
    Reads.IntOfWhole(I32, n);
  }

  /** The key 1 under the value 9 reads as "1", which replaces it in its slot. */
  lemma KeyReadAsText(base: State, s1: State)
    requires |base.stack| + 2 <= LUAI_MAXSTACK && s1 == Push(Push(base, Num(1.0)), Num(9.0))
    ensures Reads.ReadAt(s1, TText, -2) == (Push(Push(base, Str([0x31])), Num(9.0)), Some(Text([0x31])))
  {
    Pow10Mono(1, 14);
    IntKeyReadAsText(base, s1, 1);
  }

  lemma IntKeyReadAsText(base: State, s1: State, n: int)
    requires -(Pow10(14) as int) < n < Pow10(14)
    requires |base.stack| + 2 <= LUAI_MAXSTACK && s1 == Push(Push(base, Num(n as real)), Num(9.0))
    ensures Reads.ReadAt(s1, TText, -2) == (Push(Push(base, Str(IntText(n))), Num(9.0)), Some(Text(IntText(n))))
  {
    Reads.IntReadsAsText(s1, -2, n);
    assert Reads.ReadAt(s1, TText, -2).0.stack == Push(Push(base, Str(IntText(n))), Num(9.0)).stack;
  }

  /** A table holding 1 and 2 as number keys, iterated with String keys: the first step
      yields the entry but leaves "1" where lua_next looks for the key, and the second step
      is lua_next's error, a panic.  Reading the key from a copy visits both entries. */
  lemma TextKeyBreaksTraversal(base: State, id: nat)
    requires |base.stack| + 4 <= LUAI_MAXSTACK && base.stack == [Table(id)]
    requires EntriesOf(base, id) == [(Num(1.0), Num(9.0)), (Num(2.0), Num(8.0))]
    ensures var st := Push(base, Nil);
      var first := StepAsWritten(st, -1, TText, TInt(I32));
      first.1 == Item(Some((Text([0x31]), Int(I32, 9))))
      && Walking(first.0, -1) && StepAsWritten(first.0, -1, TText, TInt(I32)).1 == IterPanic
      && Step(Push(base, Num(1.0)), -1, TText, TInt(I32)).1.Item?
  {
    FirstTextKeyStep(base, id);
    SecondTextKeyStep(base, id);
    CopiedKeyStep(base, id);
  }

  /** With "1" left where lua_next looks for the key, the next step is lua_next's error. */
  lemma SecondTextKeyStep(base: State, id: nat)
    requires |base.stack| + 4 <= LUAI_MAXSTACK && base.stack == [Table(id)]
    requires EntriesOf(base, id) == [(Num(1.0), Num(9.0)), (Num(2.0), Num(8.0))]
    ensures Walking(Push(base, Str([0x31])), -1)
    ensures StepAsWritten(Push(base, Str([0x31])), -1, TText, TInt(I32)).1 == IterPanic
  {
    var s3 := Push(base, Str([0x31]));
    assert Pop(s3, 1) == base;
    KeyIndexIs(EntriesOf(base, id), Str([0x31]), 2);
    ForeignKeyPanics(s3, -1, TText, TInt(I32));
  }

  /** With the key 1 left in place, the next step visits the entry (2, 8). */
  lemma CopiedKeyStep(base: State, id: nat)
    requires |base.stack| + 4 <= LUAI_MAXSTACK && base.stack == [Table(id)]
    requires EntriesOf(base, id) == [(Num(1.0), Num(9.0)), (Num(2.0), Num(8.0))]
    ensures Step(Push(base, Num(1.0)), -1, TText, TInt(I32)).1.Item?
  {
    KeyIndexOfWf(EntriesOf(base, id), 0);
    StepVisits(base, -1, 1, TText, TInt(I32));
  }


  // ---------------------------------------------------------------------
  // The iterator
  // ---------------------------------------------------------------------

  /** LuaTableIterator: the table it walks and whether the traversal is over.  While it is
      not, the current key sits on top of the stack, one slot above where the stack stood
      when the traversal began. */
  class LuaTableIterator {
    const table: LuaTable
    var finished: bool
    ghost const depth: nat

    constructor (table: LuaTable, ghost depth: nat)
      requires |table.lua.st.stack| == depth + 1 && Walking(table.lua.st, table.index)
      ensures this.table == table && this.depth == depth && !finished && Valid()
    {
      this.table := table;
      this.depth := depth;
      finished := false;
    }

    ghost predicate Valid()
      reads this, table.lua
    {
      |table.lua.st.stack| == depth + (if finished then 0 else 1)
      && (!finished ==> Walking(table.lua.st, table.index))
    }

    /** `next`: nothing once finished; otherwise a step, after which the iterator is
        finished exactly when the step reports the end. */
    method Next(kty: HostTy, vty: HostTy) returns (r: IterStep)
      requires Valid()
      modifies this, table.lua
      ensures old(finished) ==> r == Finished && finished && table.lua.st == old(table.lua.st)
      ensures !old(finished) ==> r == Step(old(table.lua.st), table.index, kty, vty).1
      ensures !old(finished) && !r.IterPanic? ==>
        table.lua.st == Step(old(table.lua.st), table.index, kty, vty).0 && finished == r.Finished?
      ensures !r.IterPanic? ==> Valid()
    {
      if finished {
        return Finished;
      }
      var lua := table.lua;
      StepKeepsWalking(lua.st, table.index, kty, vty);
      var adv := Advance(lua.st, table.index);
      if adv.None? {
        return IterPanic;
      }
      lua.st := adv.value.0;
      if !adv.value.1 {
        finished := true;
        return Finished;
      }
      var e := ReadEntry(lua.st, kty, vty);
      lua.st := e.0;
      r := Item(e.1);
    }

    /** Drop: pops the key if the traversal did not reach the end. */
    method Drop()
      requires Valid()
      modifies table.lua
      ensures |table.lua.st.stack| == depth
      ensures table.lua.st == if finished then old(table.lua.st) else Pop(old(table.lua.st), 1)
    {
      if !finished {
        table.lua.st := Pop(table.lua.st, 1);
      }
    }
  }

  /** The items a traversal of table `t` yields for its first `n` entries, in the state
      `base` below it: item j is what entry j yields. */
  function Items(base: State, t: Entries, n: nat, kty: HostTy, vty: HostTy): (r: seq<Option<(HostVal, HostVal)>>)
    requires n <= |t|
    ensures |r| == n
  {
    seq(n, j requires 0 <= j < n => ItemAt(base, t, j, kty, vty))
  }

  /** One more entry visited adds its item at the end. */
  lemma ItemsSnoc(base: State, t: Entries, n: nat, kty: HostTy, vty: HostTy)
    requires n < |t|
    ensures Items(base, t, n + 1, kty, vty) == Items(base, t, n, kty, vty) + [ItemAt(base, t, n, kty, vty)]
  {
    var a := Items(base, t, n + 1, kty, vty);
    var b := Items(base, t, n, kty, vty) + [ItemAt(base, t, n, kty, vty)];
    assert forall j :: 0 <= j < n + 1 ==> a[j] == b[j];
  }

  /** One `next` of a traversal that has visited the first `i` entries of the table: the
      entry i is yielded and its key left on top, or, past the last entry, the end. */
  method NextEntry(it: LuaTableIterator, ghost base: State, ghost t: Entries, ghost i: nat, kty: HostTy, vty: HostTy)
    returns (r: IterStep)
    requires it.Valid() && !it.finished && it.depth == |base.stack|
    requires Reads.OneSlot(kty) && Reads.OneSlot(vty)
    requires TableIndex(base, it.table.index) && |base.stack| + 1 <= LUAI_MAXSTACK
    requires t == EntriesOf(base, TableId(base, it.table.index)) && WfEntries(t) && i <= |t|
    requires it.table.lua.st == Push(base, KeyBefore(t, i))
    modifies it, it.table.lua
    ensures it.Valid()
    ensures i < |t| ==>
      r == Item(ItemAt(base, t, i, kty, vty)) && !it.finished
      && it.table.lua.st == Push(base, KeyBefore(t, i + 1))
      && Items(base, t, i + 1, kty, vty) == Items(base, t, i, kty, vty) + [r.entry]
    ensures i == |t| ==> r == Finished && it.finished && it.table.lua.st == base
  {
    StepVisits(base, it.table.index, i, kty, vty);
    if i < |t| {
      ItemsSnoc(base, t, i, kty, vty);
    }
    r := it.Next(kty, vty);
  }

  /** One round of Collect: the item of the next entry appended to those collected. */
  method CollectNext(it: LuaTableIterator, items: seq<Option<(HostVal, HostVal)>>, ghost base: State,
                     ghost t: Entries, ghost i: nat, kty: HostTy, vty: HostTy)
    returns (more: seq<Option<(HostVal, HostVal)>>)
    requires it.Valid() && !it.finished && it.depth == |base.stack|
    requires Reads.OneSlot(kty) && Reads.OneSlot(vty)
    requires TableIndex(base, it.table.index) && |base.stack| + 1 <= LUAI_MAXSTACK
    requires t == EntriesOf(base, TableId(base, it.table.index)) && WfEntries(t) && i <= |t|
    requires it.table.lua.st == Push(base, KeyBefore(t, i)) && items == Items(base, t, i, kty, vty)
    modifies it, it.table.lua
    ensures it.Valid()
    ensures i < |t| ==>
      !it.finished && it.table.lua.st == Push(base, KeyBefore(t, i + 1)) && more == Items(base, t, i + 1, kty, vty)
    ensures i == |t| ==> it.finished && it.table.lua.st == base && more == items
  {
    var r := NextEntry(it, base, t, i, kty, vty);
    more := if r.Item? then items + [r.entry] else items;
  }

  /** Before the first entry nothing is collected. */
  lemma ItemsNone(base: State, t: Entries, kty: HostTy, vty: HostTy)
    ensures [] == Items(base, t, 0, kty, vty)
  {
  }

  /** `table.iter().collect()`: iter, next until the end, drop.  Every entry is visited once,
      in traversal order, and the interpreter is left exactly as it was. */
  method Collect(table: LuaTable, kty: HostTy, vty: HostTy) returns (items: seq<Option<(HostVal, HostVal)>>)
    requires table.Valid()
    requires Reads.OneSlot(kty) && Reads.OneSlot(vty)
    requires WfEntries(EntriesOf(table.lua.st, TableId(table.lua.st, table.index)))
    modifies table.lua
    ensures table.lua.st == old(table.lua.st)
    ensures var t := EntriesOf(old(table.lua.st), TableId(old(table.lua.st), table.index));
      items == Items(old(table.lua.st), t, |t|, kty, vty)
  {
    ghost var base := table.lua.st;
    ghost var t := EntriesOf(base, TableId(base, table.index));
    var it := table.Iter();
    items := [];
    ghost var i := 0;
    ItemsNone(base, t, kty, vty);
    while !it.finished
      invariant it.table == table && it.depth == |base.stack| && it.Valid()
      invariant i <= |t| && items == Items(base, t, i, kty, vty)
      invariant !it.finished ==> table.lua.st == Push(base, KeyBefore(t, i))
      invariant it.finished ==> table.lua.st == base && i == |t|
      decreases |t| - i, if it.finished then 0 else 1
    {
      items := CollectNext(it, items, base, t, i, kty, vty);
      if i < |t| {
        i := i + 1;
      }
    }
    it.Drop();
  }
}
