/** The pushes as hlua performs them: C API calls made one after the other on the interpreter
    a Stack.Interp designates.  Each method is proved to leave the interpreter exactly as the
    specification function of Pushes says, and to answer the same outcome; after a panic
    nothing is said about the interpreter. */
module Marshal {
  import opened Base
  import opened Values
  import opened LuaApi
  import opened Host
  import Any
  import AnyHashable
  import Reads
  import opened ChunkReader
  import opened Pushes
  import opened Stack

  // ---------------------------------------------------------------------
  // Dispatch (Push::push_to_lua)
  // ---------------------------------------------------------------------

  /** Pushes `v` and answers the size of its PushGuard, its error, or a panic. */
  method PushValue(lua: Interp, v: HostVal) returns (out: Outcome)
    requires Pushable(v)
    modifies lua
    ensures out == PushSpec(old(lua.st), v).out
    ensures !out.Panicked? ==> lua.st == PushSpec(old(lua.st), v).st
    decreases v, 4
  {
    match v
    case Int(_, i) =>
      lua.st := Push(lua.st, Num(i as real));
      out := Pushed(1);
    case Float(x) =>
      lua.st := Push(lua.st, Num(x));
      out := Pushed(1);
    case Text(s) =>
      lua.st := Push(lua.st, Str(s));
      out := Pushed(1);
    case AnyString(b) =>
      lua.st := Push(lua.st, Str(b));
      out := Pushed(1);
    case Boolean(b) =>
      lua.st := Push(lua.st, Bool(b));
      out := Pushed(1);
    case Unit =>
      out := Pushed(0);
    case ResOk(x) =>
      out := PushValue(lua, x);
    case ResErr(m) =>
      lua.st := Push(lua.st, Nil);
      lua.st := Push(lua.st, Str(m));
      out := Pushed(2);
    case Tuple(_) => out := PushNestedValue(lua, v);
    case Func(_) => out := PushNestedValue(lua, v);
    case Code(_, _) => out := PushNestedValue(lua, v);
    case AnyVal(_) => out := PushNestedValue(lua, v);
    case Hashable(_) => out := PushNestedValue(lua, v);
    case Seq(_) => out := PushNestedValue(lua, v);
    case Dict(_) => out := PushNestedValue(lua, v);
    case Set(_) => out := PushNestedValue(lua, v);
    case UserValue(_, _, _) => out := PushNestedValue(lua, v);
  }

  method PushNestedValue(lua: Interp, v: HostVal) returns (out: Outcome)
    requires Pushable(v)
    requires v.Tuple? || v.Func? || v.Code? || v.AnyVal? || v.Hashable? || v.Seq? || v.Dict? || v.Set? || v.UserValue?
    modifies lua
    ensures out == PushNested(old(lua.st), v).out
    ensures !out.Panicked? ==> lua.st == PushNested(old(lua.st), v).st
    decreases v, 3
  {
    match v
    case Tuple(_) =>
      out := PushParts(lua, v, 0);
    case Func(cb) =>
      PushClosure(lua, cb);
      out := Pushed(1);
    case Code(_, _) =>
      out := PushCodeValue(lua, v);
    case AnyVal(a) =>
      var ok := PushAny(lua, a);
      out := if ok then Pushed(1) else Panicked;
    case Hashable(h) =>
      var ok := PushHashable(lua, h);
      out := if ok then Pushed(1) else Panicked;
    case Seq(_) =>
      var ok := PushIter(lua, v);
      out := if ok then Pushed(1) else Panicked;
    case Dict(_) =>
      var ok := PushDict(lua, v);
      out := if ok then Pushed(1) else Panicked;
    case Set(_) =>
      var ok := PushSet(lua, v);
      out := if ok then Pushed(1) else Panicked;
    case UserValue(_, _, _) =>
      var ok := PushUserdataValue(lua, v);
      out := if ok then Pushed(1) else Panicked;
  }

  // ---------------------------------------------------------------------
  // Tuples (tuples.rs)
  // ---------------------------------------------------------------------

  /** The parts from `i` on, as the tuple macro nests them: the empty tuple pushes nothing, a
      1-tuple pushes its element, and (A, B, ...) pushes A, then (B, ...); when the rest
      fails, the slots A left are popped and the error becomes Other. */
  method PushParts(lua: Interp, v: HostVal, i: nat) returns (out: Outcome)
    requires v.Tuple? && Pushable(v) && i <= |v.parts|
    modifies lua
    ensures out == PartsFrom(old(lua.st), v, i).out
    ensures !out.Panicked? ==> lua.st == PartsFrom(old(lua.st), v, i).st
    decreases v, 2, |v.parts| - i
  {
    if i == |v.parts| {
      return Pushed(0);
    }
    assert v.parts[i] in v.parts;
    if i == |v.parts| - 1 {
      out := PushValue(lua, v.parts[i]);
      return;
    }
    var first := PushValue(lua, v.parts[i]);
    match first {
      case Failed(e) =>
        out := Failed(TupleFirst(e));
      case Panicked =>
        out := Panicked;
      case Pushed(n) =>
        var rest := PushParts(lua, v, i + 1);
        match rest {
          case Pushed(m) =>
            out := Pushed(n + m);
          case Failed(e) =>
            lua.st := Pop(lua.st, n);
            out := Failed(TupleOther(e));
          case Panicked =>
            out := Panicked;
        }
    }
  }

  // ---------------------------------------------------------------------
  // Functions and code
  // ---------------------------------------------------------------------

  /** Function::push_to_lua: the closure boxed in a userdata whose metatable's "__gc" runs its
      destructor, then the wrapper pushed as a C closure over that userdata. */
  method PushClosure(lua: Interp, cb: Callback)
    modifies lua
    ensures lua.st == PushFunction(old(lua.st), cb)
  {
    ghost var st0 := lua.st;
    var n := lua.st.nextId;
    lua.st := NewUserdata(lua.st, BoxedCallback(cb));
    lua.st := NewTable(lua.st);
    assert lua.st == NewBox(st0, BoxedCallback(cb));
    lua.st := Push(lua.st, GC_KEY);
    lua.st := PushCClosure(lua.st, ClosureDestructor, 0);
    lua.st := SetTable(lua.st, -3);
    assert lua.st == SetGcDestructor(NewBox(st0, BoxedCallback(cb)), n + 1);
    lua.st := SetMetatable(lua.st, -2);
    lua.st := PushCClosure(lua.st, CallbackWrapper, 1);
  }

  /** LuaCodeFromReader::push_to_lua: lua_load through the chunk reader, then the verdict. */
  method PushCodeValue(lua: Interp, v: HostVal) returns (out: Outcome)
    requires v.Code?
    modifies lua
    ensures out == PushCode(old(lua.st), v).out
    ensures !out.Panicked? ==> lua.st == PushCode(old(lua.st), v).st
  {
    var res := LoadFrom(lua, v.source, v.verdict);
    match res
    case LoadOk => out := Pushed(1);
    case LoadErr(e) => out := Failed(LoadFailed(e));
    case LoadPanic => out := Panicked;
  }

  /** lua_load with the chunk reader over `source`; a read error or a syntax error pops the
      message again (PushGuard::into_inner), a missing message, LUA_ERRMEM and any other
      status panic. */
  method LoadFrom(lua: Interp, source: seq<ReadStep>, verdict: LoadVerdict) returns (res: LoadResult)
    modifies lua
    ensures res == LoadThrough(old(lua.st), source, verdict).1
    ensures !res.LoadPanic? ==> lua.st == LoadThrough(old(lua.st), source, verdict).0
  {
    var data := new ReadData(source);
    var code := LoadChunk(data);
    lua.st := Load(lua.st, code, verdict);
    if data.triggeredError.Some? {
      lua.st := Pop(lua.st, 1);
      return LoadErr(ReadError(data.triggeredError.value));
    }
    if verdict.status == LUA_OK {
      return LoadOk;
    }
    var message := Reads.TextOf(Slot(lua.st, -1));
    if message.None? {
      return LoadPanic;
    }
    if verdict.status == LUA_ERRMEM {
      return LoadPanic;
    }
    if verdict.status == LUA_ERRSYNTAX {
      lua.st := Pop(lua.st, 1);
      return LoadErr(SyntaxError(message.value));
    }
    return LoadPanic;
  }

  // ---------------------------------------------------------------------
  // Rust containers (rust_tables.rs)
  // ---------------------------------------------------------------------

  /** push_iter: a fresh table, then each element pushed and its slots stored. */
  method PushIter(lua: Interp, v: HostVal) returns (ok: bool)
    requires v.Seq? && Pushable(v)
    modifies lua
    ensures ok == PushObject(old(lua.st), v).Some?
    ensures ok ==> lua.st == PushObject(old(lua.st), v).value
    decreases v, 1
  {
    lua.st := NewTable(lua.st);
    ghost var t0 := lua.st;
    var i := 0;
    while i < |v.items|
      invariant 0 <= i <= |v.items| && lua.st.stack == t0.stack
      invariant SeqFold(t0, v, 0) == SeqFold(lua.st, v, i)
    {
      KeepsTable(t0, lua.st);
      ok := PushElement(lua, v, i);
      if !ok {
        return;
      }
      i := i + 1;
    }
    ok := true;
  }

  /** One element of push_iter: the element pushed, then its slots stored. */
  method PushElement(lua: Interp, v: HostVal, i: nat) returns (ok: bool)
    requires v.Seq? && Pushable(v) && i < |v.items| && Building(lua.st)
    modifies lua
    ensures !ok ==> SeqFold(old(lua.st), v, i) == None
    ensures ok ==> lua.st.stack == old(lua.st.stack)
    ensures ok ==> SeqFold(old(lua.st), v, i) == SeqFold(lua.st, v, i + 1)
    decreases v, 0, |v.items| - i
  {
    assert v.items[i] in v.items;
    ok := StoreElement(lua, v.items[i], i + 1);
  }

  /** An element pushed, then its slots stored under `index`. */
  method StoreElement(lua: Interp, x: HostVal, index: nat) returns (ok: bool)
    requires Pushable(x) && Infallible(x) && Building(lua.st)
    modifies lua
    ensures ok == StoreSlots(old(lua.st), PushSpec(old(lua.st), x), index).Some?
    ensures ok ==> lua.st == StoreSlots(old(lua.st), PushSpec(old(lua.st), x), index).value
    ensures ok ==> lua.st.stack == old(lua.st.stack)
    decreases x, 5
  {
    ghost var s := lua.st;
    var o := PushValue(lua, x);
    if !o.Pushed? {
      return false;
    }
    ok := StoreSlotsOf(lua, s, o.n, index);
  }

  /** lua_settable(-3) with a key and a value above the table; a nil key raises a Lua
      error outside protected mode, which is a panic. */
  method SetPair(lua: Interp) returns (ok: bool)
    requires |lua.st.stack| >= 3 && TableAt(lua.st, -3)
    modifies lua
    ensures ok == StorePair(old(lua.st)).Some?
    ensures ok ==> lua.st == StorePair(old(lua.st)).value
  {
    if lua.st.stack[|lua.st.stack| - 2] == Nil {
      return false;
    }
    lua.st := SetTable(lua.st, -3);
    ok := true;
  }

  /** What push_iter does with the `n` slots one element left above the table at the top
      of `s`: 0 is skipped, 1 is stored under `index` (the index pushed, lua_insert(-2),
      lua_settable(-3)), 2 is stored as a key and a value (a nil key raises), any other size
      is unreachable. */
  method StoreSlotsOf(lua: Interp, ghost s: State, n: nat, index: nat) returns (ok: bool)
    requires Building(s) && Keeps(s, lua.st) && Grown(s, lua.st, n)
    modifies lua
    ensures ok == StoreSlots(s, PushRes(old(lua.st), Pushed(n)), index).Some?
    ensures ok ==> lua.st == StoreSlots(s, PushRes(old(lua.st), Pushed(n)), index).value
  {
    assert lua.st.stack[|s.stack| - 1] == s.stack[|s.stack| - 1];
    if n == 0 {
      ok := true;
    } else if n == 1 {
      assert StoreSlots(s, PushRes(old(lua.st), Pushed(n)), index) == Some(StoreAt(lua.st, index));
      lua.st := Push(lua.st, Num(index as real));
      lua.st := Insert(lua.st, -2);
      lua.st := SetTable(lua.st, -3);
      ok := true;
    } else if n == 2 {
      assert StoreSlots(s, PushRes(old(lua.st), Pushed(n)), index) == StorePair(lua.st);
      ok := SetPair(lua);
    } else {
      ok := false;
    }
  }

  /** push_rec_iter over a HashMap: a fresh table, then each entry pushed as a pair and
      stored. */
  method PushDict(lua: Interp, v: HostVal) returns (ok: bool)
    requires v.Dict? && Pushable(v)
    modifies lua
    ensures ok == PushObject(old(lua.st), v).Some?
    ensures ok ==> lua.st == PushObject(old(lua.st), v).value
    decreases v, 1
  {
    lua.st := NewTable(lua.st);
    ghost var t0 := lua.st;
    var i := 0;
    while i < |v.entries|
      invariant 0 <= i <= |v.entries| && lua.st.stack == t0.stack
      invariant DictFold(t0, v, 0) == DictFold(lua.st, v, i)
    {
      KeepsTable(t0, lua.st);
      ok := PushPair(lua, v, i);
      if !ok {
        return;
      }
      i := i + 1;
    }
    ok := true;
  }

  /** One entry of push_rec_iter: the pair (key, value) pushed as a tuple, then its slots
      stored. */
  method PushPair(lua: Interp, v: HostVal, i: nat) returns (ok: bool)
    requires v.Dict? && Pushable(v) && i < |v.entries| && Building(lua.st)
    modifies lua
    ensures !ok ==> DictFold(old(lua.st), v, i) == None
    ensures ok ==> lua.st.stack == old(lua.st.stack)
    ensures ok ==> DictFold(old(lua.st), v, i) == DictFold(lua.st, v, i + 1)
    decreases v, 0, |v.entries| - i
  {
    assert v.entries[i] in v.entries;
    var e := v.entries[i];
    ghost var s := lua.st;
    var ok0 := PushValue(lua, e.0);
    if !ok0.Pushed? {
      return false;
    }
    ghost var sk := lua.st;
    var ok1 := PushValue(lua, e.1);
    if !ok1.Pushed? {
      return false;
    }
    GrownThen(s, sk, ok0.n, PushRes(lua.st, ok1));
    ok := StorePairOf(lua, s, ok0.n, ok1.n);
  }

  /** A pair of `k` + `m` slots above the table at the top of `s`: none is skipped, two are
      stored with lua_settable(-3) (a nil key raises), any other size is unreachable. */
  method StorePairOf(lua: Interp, ghost s: State, k: nat, m: nat) returns (ok: bool)
    requires Building(s) && Keeps(s, lua.st) && Grown(s, lua.st, k + m)
    modifies lua
    ensures ok == PairSlots(s, k, PushRes(old(lua.st), Pushed(m))).Some?
    ensures ok ==> lua.st == PairSlots(s, k, PushRes(old(lua.st), Pushed(m))).value
  {
    assert lua.st.stack[|s.stack| - 1] == s.stack[|s.stack| - 1];
    if k + m == 0 {
      ok := true;
    } else if k + m == 2 {
      assert PairSlots(s, k, PushRes(old(lua.st), Pushed(m))) == StorePair(lua.st);
      ok := SetPair(lua);
    } else {
      ok := false;
    }
  }

  /** push_rec_iter over a HashSet zipped with `true`. */
  method PushSet(lua: Interp, v: HostVal) returns (ok: bool)
    requires v.Set? && Pushable(v)
    modifies lua
    ensures ok == PushObject(old(lua.st), v).Some?
    ensures ok ==> lua.st == PushObject(old(lua.st), v).value
    decreases v, 1
  {
    lua.st := NewTable(lua.st);
    ghost var t0 := lua.st;
    var i := 0;
    while i < |v.members|
      invariant 0 <= i <= |v.members| && lua.st.stack == t0.stack
      invariant SetFold(t0, v, 0) == SetFold(lua.st, v, i)
    {
      KeepsTable(t0, lua.st);
      ok := PushMember(lua, v, i);
      if !ok {
        return;
      }
      i := i + 1;
    }
    ok := true;
  }

  /** One member of a HashSet: the member pushed, then paired with `true` and stored. */
  method PushMember(lua: Interp, v: HostVal, i: nat) returns (ok: bool)
    requires v.Set? && Pushable(v) && i < |v.members| && Building(lua.st)
    modifies lua
    ensures !ok ==> SetFold(old(lua.st), v, i) == None
    ensures ok ==> lua.st.stack == old(lua.st.stack)
    ensures ok ==> SetFold(old(lua.st), v, i) == SetFold(lua.st, v, i + 1)
    decreases v, 0, |v.members| - i
  {
    assert v.members[i] in v.members;
    var x := v.members[i];
    ghost var s := lua.st;
    ghost var p := PushSpec(s, x);
    var o := PushValue(lua, x);
    if !o.Pushed? {
      assert MemberSlots(s, p) == None;
      return false;
    }
    assert p == PushRes(lua.st, o);
    ok := StoreMemberOf(lua, s, o.n);
  }

  /** A member that left one slot: `true` pushed after it and the pair stored; any other
      size is unreachable and a nil member raises. */
  method StoreMemberOf(lua: Interp, ghost s: State, n: nat) returns (ok: bool)
    requires Building(s) && Keeps(s, lua.st) && Grown(s, lua.st, n)
    modifies lua
    ensures ok == MemberSlots(s, PushRes(old(lua.st), Pushed(n))).Some?
    ensures ok ==> lua.st == MemberSlots(s, PushRes(old(lua.st), Pushed(n))).value
  {
    if n != 1 {
      return false;
    }
    lua.st := Push(lua.st, Bool(true));
    assert lua.st.stack[|s.stack| - 1] == s.stack[|s.stack| - 1];
    assert MemberSlots(s, PushRes(old(lua.st), Pushed(n))) == StorePair(lua.st);
    ok := SetPair(lua);
  }

  // ---------------------------------------------------------------------
  // AnyLuaValue and AnyHashableLuaValue (any.rs)
  // ---------------------------------------------------------------------

  /** AnyLuaValue::push_to_lua: one slot, a table for LuaArray, a panic for LuaOther. */
  method PushAny(lua: Interp, a: Any.AnyLuaValue) returns (ok: bool)
    modifies lua
    ensures ok == AnyPush(old(lua.st), a).Some?
    ensures ok ==> lua.st == AnyPush(old(lua.st), a).value
    decreases a, 1
  {
    match a
    case LuaString(s) =>
      lua.st := Push(lua.st, Str(s));
      ok := true;
    case LuaAnyString(b) =>
      lua.st := Push(lua.st, Str(b));
      ok := true;
    case LuaNumber(n) =>
      lua.st := Push(lua.st, Num(n));
      ok := true;
    case LuaBoolean(b) =>
      lua.st := Push(lua.st, Bool(b));
      ok := true;
    case LuaNil =>
      lua.st := Push(lua.st, Nil);
      ok := true;
    case LuaOther =>
      ok := false;
    case LuaArray(_) =>
      ok := PushAnyArray(lua, a);
  }

  /** A LuaArray: a fresh table, then each pair pushed and stored. */
  method PushAnyArray(lua: Interp, a: Any.AnyLuaValue) returns (ok: bool)
    requires a.LuaArray?
    modifies lua
    ensures ok == AnyArrayFold(NewTable(old(lua.st)), a, 0).Some?
    ensures ok ==> lua.st == AnyArrayFold(NewTable(old(lua.st)), a, 0).value
    decreases a, 0
  {
    lua.st := NewTable(lua.st);
    ghost var t0 := lua.st;
    var i := 0;
    while i < |a.pairs|
      invariant 0 <= i <= |a.pairs| && lua.st.stack == t0.stack
      invariant AnyArrayFold(t0, a, 0) == AnyArrayFold(lua.st, a, i)
    {
      KeepsTable(t0, lua.st);
      ok := PushAnyPair(lua, a, i);
      if !ok {
        return;
      }
      i := i + 1;
    }
    ok := true;
  }

  /** One pair of a LuaArray: key, value, lua_settable(-3). */
  method PushAnyPair(lua: Interp, a: Any.AnyLuaValue, i: nat) returns (ok: bool)
    requires a.LuaArray? && i < |a.pairs| && Building(lua.st)
    modifies lua
    ensures !ok ==> AnyArrayFold(old(lua.st), a, i) == None
    ensures ok ==> lua.st.stack == old(lua.st.stack)
    ensures ok ==> AnyArrayFold(old(lua.st), a, i) == AnyArrayFold(lua.st, a, i + 1)
    decreases a, 0, |a.pairs| - i
  {
    assert a.pairs[i] in a.pairs;
    var e := a.pairs[i];
    ghost var s := lua.st;
    ok := PushAny(lua, e.0);
    if !ok {
      return;
    }
    ghost var sk := lua.st;
    assert AnyPush(s, e.0) == Some(sk);
    ok := PushAny(lua, e.1);
    if !ok {
      return;
    }
    assert lua.st.stack[|s.stack| - 1] == s.stack[|s.stack| - 1];
    assert AnyPairStep(s, e) == StorePair(lua.st);
    assert lua.st.stack[..|lua.st.stack| - 2] == s.stack;
    ok := SetPair(lua);
  }

  /** AnyHashableLuaValue::push_to_lua. */
  method PushHashable(lua: Interp, h: AnyHashable.AnyHashableLuaValue) returns (ok: bool)
    modifies lua
    ensures ok == HashPush(old(lua.st), h).Some?
    ensures ok ==> lua.st == HashPush(old(lua.st), h).value
    decreases h, 1
  {
    match h
    case LuaString(s) =>
      lua.st := Push(lua.st, Str(s));
      ok := true;
    case LuaAnyString(b) =>
      lua.st := Push(lua.st, Str(b));
      ok := true;
    case LuaNumber(i) =>
      lua.st := Push(lua.st, Num(i as real));
      ok := true;
    case LuaBoolean(b) =>
      lua.st := Push(lua.st, Bool(b));
      ok := true;
    case LuaNil =>
      lua.st := Push(lua.st, Nil);
      ok := true;
    case LuaOther =>
      ok := false;
    case LuaArray(_) =>
      ok := PushHashableArray(lua, h);
  }

  method PushHashableArray(lua: Interp, h: AnyHashable.AnyHashableLuaValue) returns (ok: bool)
    requires h.LuaArray?
    modifies lua
    ensures ok == HashArrayFold(NewTable(old(lua.st)), h, 0).Some?
    ensures ok ==> lua.st == HashArrayFold(NewTable(old(lua.st)), h, 0).value
    decreases h, 0
  {
    lua.st := NewTable(lua.st);
    ghost var t0 := lua.st;
    var i := 0;
    while i < |h.pairs|
      invariant 0 <= i <= |h.pairs| && lua.st.stack == t0.stack
      invariant HashArrayFold(t0, h, 0) == HashArrayFold(lua.st, h, i)
    {
      KeepsTable(t0, lua.st);
      ok := PushHashablePair(lua, h, i);
      if !ok {
        return;
      }
      i := i + 1;
    }
    ok := true;
  }

  method PushHashablePair(lua: Interp, h: AnyHashable.AnyHashableLuaValue, i: nat) returns (ok: bool)
    requires h.LuaArray? && i < |h.pairs| && Building(lua.st)
    modifies lua
    ensures !ok ==> HashArrayFold(old(lua.st), h, i) == None
    ensures ok ==> lua.st.stack == old(lua.st.stack)
    ensures ok ==> HashArrayFold(old(lua.st), h, i) == HashArrayFold(lua.st, h, i + 1)
    decreases h, 0, |h.pairs| - i
  {
    assert h.pairs[i] in h.pairs;
    var e := h.pairs[i];
    ghost var s := lua.st;
    ok := PushHashable(lua, e.0);
    if !ok {
      return;
    }
    ghost var sk := lua.st;
    assert HashPush(s, e.0) == Some(sk);
    ok := PushHashable(lua, e.1);
    if !ok {
      return;
    }
    assert lua.st.stack[|s.stack| - 1] == s.stack[|s.stack| - 1];
    assert HashPairStep(s, e) == StorePair(lua.st);
    assert lua.st.stack[..|lua.st.stack| - 2] == s.stack;
    ok := SetPair(lua);
  }

  // ---------------------------------------------------------------------
  // Userdata (userdata.rs)
  // ---------------------------------------------------------------------

  /** push_userdata: the boxed data, its metatable filled with "__typeid", "__gc" and the
      caller's assignments, then lua_setmetatable(-2). */
  method PushUserdataValue(lua: Interp, v: HostVal) returns (ok: bool)
    requires v.UserValue? && Pushable(v)
    modifies lua
    ensures ok == PushObject(old(lua.st), v).Some?
    ensures ok ==> lua.st == PushObject(old(lua.st), v).value
    decreases v, 2
  {
    ghost var st0 := lua.st;
    NewTypedBox(lua, v.typeId, v.token);
    TypedBoxShape(st0, v.typeId, v.token);
    ok := FillMetatable(lua, v);
    if ok {
      lua.st := SetMetatable(lua.st, -2);
    }
  }

  /** The userdata holding the data and its metatable holding "__typeid" and "__gc". */
  method NewTypedBox(lua: Interp, typeId: Bytes, token: nat)
    modifies lua
    ensures lua.st == TypedBox(old(lua.st), typeId, token)
  {
    ghost var st0 := lua.st;
    lua.st := NewUserdata(lua.st, BoxedData(token));
    lua.st := NewTable(lua.st);
    lua.st := Push(lua.st, TYPEID_KEY);
    lua.st := Push(lua.st, Str(typeId));
    lua.st := SetTable(lua.st, -3);
    assert lua.st == IdBox(st0, typeId, token);
    lua.st := Push(lua.st, GC_KEY);
    lua.st := Push(lua.st, LightUserdata(DESTRUCTOR_TAG));
    lua.st := PushCClosure(lua.st, UserdataDestructor, 1);
    lua.st := SetTable(lua.st, -3);
  }

  /** The metatable callback: each assignment a LuaTable::set on the table on top. */
  method FillMetatable(lua: Interp, v: HostVal) returns (ok: bool)
    requires v.UserValue? && Pushable(v) && Building(lua.st)
    modifies lua
    ensures ok == MetaFold(old(lua.st), v, 0).Some?
    ensures ok ==> lua.st == MetaFold(old(lua.st), v, 0).value
    decreases v, 1
  {
    ghost var t0 := lua.st;
    var i := 0;
    while i < |v.meta|
      invariant 0 <= i <= |v.meta| && lua.st.stack == t0.stack
      invariant MetaFold(t0, v, 0) == MetaFold(lua.st, v, i)
    {
      KeepsTable(t0, lua.st);
      ok := SetMetaEntry(lua, v, i);
      if !ok {
        return;
      }
      i := i + 1;
    }
    ok := true;
  }

  /** One assignment of the metatable callback (LuaTable::set): the key must push one slot
      before the value is pushed. */
  method SetMetaEntry(lua: Interp, v: HostVal, i: nat) returns (ok: bool)
    requires v.UserValue? && Pushable(v) && i < |v.meta| && Building(lua.st)
    modifies lua
    ensures !ok ==> MetaFold(old(lua.st), v, i) == None
    ensures ok ==> lua.st.stack == old(lua.st.stack)
    ensures ok ==> MetaFold(old(lua.st), v, i) == MetaFold(lua.st, v, i + 1)
    decreases v, 0, |v.meta| - i
  {
    assert v.meta[i] in v.meta;
    var e := v.meta[i];
    ghost var s := lua.st;
    var ok0 := PushValue(lua, e.0);
    if ok0 != Pushed(1) {
      return false;
    }
    ghost var sk := lua.st;
    var ok1 := PushValue(lua, e.1);
    if !ok1.Pushed? {
      return false;
    }
    GrownThen(s, sk, 1, PushRes(lua.st, ok1));
    ok := StoreMetaOf(lua, s, ok1.n);
  }

  /** The value of an assignment must have pushed one slot; then lua_settable(-3), which
      raises for a nil key. */
  method StoreMetaOf(lua: Interp, ghost s: State, m: nat) returns (ok: bool)
    requires Building(s) && Keeps(s, lua.st) && Grown(s, lua.st, 1 + m)
    modifies lua
    ensures ok == MetaSlots(s, PushRes(old(lua.st), Pushed(m))).Some?
    ensures ok ==> lua.st == MetaSlots(s, PushRes(old(lua.st), Pushed(m))).value
  {
    if m != 1 {
      return false;
    }
    assert lua.st.stack[|s.stack| - 1] == s.stack[|s.stack| - 1];
    assert MetaSlots(s, PushRes(old(lua.st), Pushed(m))) == StorePair(lua.st);
    ok := SetPair(lua);
  }
}
