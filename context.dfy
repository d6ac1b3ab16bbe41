/** The Lua context (lib.rs): the object that owns a lua_State, reads and writes global
    variables, and executes code. */
module Context {
  import opened Base
  import opened Values
  import opened LuaApi
  import opened Host
  import opened Pushes
  import opened Stack
  import Reads
  import Marshal
  import PushFacts
  import Functions
  import ChunkReader
  import Tables

  /** `get`: the name must convert to a C string (a NUL byte is the `unwrap` panic); the
      global is pushed under a guard of one slot, read as the requested type, and the
      guard's drop pops it.  A read that fails is None. */
  function GlobalGet(st: State, name: Bytes, ty: HostTy): (r: (State, Reads.Checked<HostVal>))
    ensures r.1.Panic? <==> 0 in name
    ensures |r.0.stack| == |st.stack| && r.0.heap == st.heap && r.0.env == st.env
  {
    if 0 in name then (st, Reads.Panic)
    else
      var (s, v) := Reads.ReadAt(GetGlobal(st, name), ty, -1);
      (Pop(s, 1), match v case Some(x) => Reads.Value(x) case None => Reads.Nothing)
  }

  /** `set`: the name must convert to a C string; the value is pushed, its guard forgotten,
      and lua_setglobal pops the top slot into the global.  None is a panic: the C string's,
      the push's, or lua_setglobal on an empty stack (a value of no slot pushed on an empty
      stack). */
  function GlobalSet(st: State, name: Bytes, v: HostVal): (r: Option<State>)
    requires Pushable(v) && Infallible(v)
    ensures r.Some? ==> 0 !in name && r.value.env == st.env
  {
    if 0 in name then None
    else
      var p := PushSpec(st, v);
      if p.out.Panicked? || |p.st.stack| == 0 then None
      else Some(SetGlobal(p.st, name))
  }

  /** `empty_array`: an empty Vec (a fresh table) stored as the global, then read back with
      `get` as a table proxy: the table stays at -1 under a guard of one slot; a value that is
      not a table is the `unwrap` panic.  None is a panic. */
  function GlobalEmptyArray(st: State, name: Bytes): (r: Option<State>)
    ensures r.Some? ==> 0 !in name && |r.value.stack| == |st.stack| + 1 && TableAt(r.value, -1)
  {
    match GlobalSet(st, name, Seq([]))
    case None => None
    case Some(s) =>
      var g := GetGlobal(s, name);
      if TableAt(g, -1) then Some(g) else None
  }

  /** `execute_from_reader` (and `execute`, whose reader is a cursor over the code): the
      chunk is loaded under a guard of one slot, a load error is returned as it is, and the
      loaded function is called; dropping the function pops it. */
  function ExecuteSpec(st: State, source: seq<ReadStep>, ty: HostTy, verdict: LoadVerdict, outcome: CallOutcome)
    : (r: (State, Functions.CallResult))
    requires outcome.Raised? ==> outcome.status != LUA_OK
    ensures !r.1.CallPanic? ==> |r.0.stack| == |st.stack|
  {
    var (s1, res) := LoadThrough(st, source, verdict);
    match res
    case LoadErr(e) => (s1, Functions.CallErr(e))
    case LoadPanic => (st, Functions.CallPanic)
    case LoadOk =>
      var (s2, c) := Functions.CallSpec(s1, ty, outcome);
      if c.CallPanic? then (s2, c) else (Pop(s2, 1), c)
  }

  /** A read of a global through a type read from one slot leaves the state as it was. */
  lemma GetKeepsState(st: State, name: Bytes, ty: HostTy)
    requires Reads.OneSlot(ty)
    ensures GlobalGet(st, name, ty).0 == st
  {
    if 0 !in name {
      var g := GetGlobal(st, name);
      Reads.ReadTopThenPop(g, ty);
      assert g.stack[..|g.stack| - 1] == st.stack;
    }
  }

  /** A plain value set as a global leaves the stack as it was and is stored under the
      name, and every other global keeps its value. */
  lemma SetStoresValue(st: State, name: Bytes, x: HostVal, other: Bytes)
    requires PushFacts.Scalar(x) && Pushable(x) && 0 !in name
    requires WfEntries(EntriesOf(st, st.env.globals))
    ensures var r := GlobalSet(st, name, x);
      r.Some? && r.value.stack == st.stack
      && Lookup(EntriesOf(r.value, st.env.globals), Str(name)) == PushFacts.ScalarVal(x)
      && (other != name ==>
            Lookup(EntriesOf(r.value, st.env.globals), Str(other)) == Lookup(EntriesOf(st, st.env.globals), Str(other)))
  {
    PushFacts.ScalarPush(st, x);
    var p := Push(st, PushFacts.ScalarVal(x));
    assert p.stack[..|p.stack| - 1] == st.stack;
    assert EntriesOf(p, st.env.globals) == EntriesOf(st, st.env.globals);
    StoreLookup(EntriesOf(st, st.env.globals), Str(name), PushFacts.ScalarVal(x), Str(name));
    StoreLookup(EntriesOf(st, st.env.globals), Str(name), PushFacts.ScalarVal(x), Str(other));
  }

  /** A plain value set as a global reads back as itself through its own type, and the state
      after the read is the one the set left. */
  lemma SetThenGet(st: State, name: Bytes, x: HostVal)
    requires PushFacts.Scalar(x) && Pushable(x) && 0 !in name
    requires WfEntries(EntriesOf(st, st.env.globals))
    ensures var s := GlobalSet(st, name, x);
      s.Some? && GlobalGet(s.value, name, PushFacts.ScalarTy(x)) == (s.value, Reads.Value(x))
  {
    SetStoresValue(st, name, x, name);
    var s := GlobalSet(st, name, x).value;
    assert s.env.globals == st.env.globals;
    PushFacts.ScalarPush(s, x);
    assert GetGlobal(s, name) == PushSpec(s, x).st;
    PushFacts.PushThenRead(s, x);
    GetKeepsState(s, name, PushFacts.ScalarTy(x));
  }

  /** `empty_array` over well-formed globals stores a fresh empty table under the name and
      leaves it on top, above the stack as it was. */
  lemma EmptyArrayStoresTable(st: State, name: Bytes)
    requires 0 !in name && Fresh(st) && st.env.globals in st.heap && WfEntries(EntriesOf(st, st.env.globals))
    ensures var r := GlobalEmptyArray(st, name); var n := st.nextId;
      r.Some? && r.value.stack == st.stack + [Table(n)] && EntriesOf(r.value, n) == []
      && Lookup(EntriesOf(r.value, st.env.globals), Str(name)) == Table(n)
  {
    var n := st.nextId;
    Tables.EmptyVecPush(st);
    var p := NewTable(st);
    assert p.stack[..|p.stack| - 1] == st.stack;
    var s := SetGlobal(p, name);
    assert GlobalSet(st, name, Seq([])) == Some(s);
    StoreLookup(EntriesOf(p, st.env.globals), Str(name), Table(n), Str(name));
    assert st.env.globals != n;
    assert EntriesOf(s, n) == [];
  }

  /** A chunk that does not load is reported as its load error before anything is called:
      the result is the same whatever the function would have done, and the stack is as it
      was. */
  lemma ExecuteLoadError(st: State, source: seq<ReadStep>, ty: HostTy, verdict: LoadVerdict,
                         o1: CallOutcome, o2: CallOutcome)
    requires (o1.Raised? ==> o1.status != LUA_OK) && (o2.Raised? ==> o2.status != LUA_OK)
    requires LoadThrough(st, source, verdict).1.LoadErr?
    ensures ExecuteSpec(st, source, ty, verdict, o1) == ExecuteSpec(st, source, ty, verdict, o2)
    ensures ExecuteSpec(st, source, ty, verdict, o1).1 == Functions.CallErr(LoadThrough(st, source, verdict).1.err)
    ensures ExecuteSpec(st, source, ty, verdict, o1).0.stack == st.stack
  {
  }

  /** Code with a syntax error (lua_load answering LUA_ERRSYNTAX with a String message) is a
      SyntaxError carrying that message. */
  lemma ExecuteSyntaxError(st: State, code: Bytes, ty: HostTy, message: Bytes, outcome: CallOutcome)
    requires ValidUtf8(message) && (outcome.Raised? ==> outcome.status != LUA_OK)
    ensures ExecuteSpec(st, ChunkReader.Cursor(code), ty, LoadVerdict(LUA_ERRSYNTAX, message), outcome).1
      == Functions.CallErr(SyntaxError(message))
  {
    ChunkReader.CursorDeliversCode(code);
  }

  /** Code that loads and returns an integer in range, executed as that integer type, yields
      the integer, and the stack ends as it began, whatever the code did to the heap. */
  lemma ExecuteReturnsInteger(st: State, source: seq<ReadStep>, verdict: LoadVerdict, k: IntKind, i: int,
                              heap: map<nat, Obj>, nextId: nat)
    requires LoadThrough(st, source, verdict).1 == LoadOk && InRange(k, i)
    ensures var r := ExecuteSpec(st, source, TInt(k), verdict, Returned(Num(i as real), heap, nextId));
      r.1 == Functions.CallOk(Int(k, i)) && r.0.stack == st.stack
  {
    var o := Returned(Num(i as real), heap, nextId);
    var s1 := LoadThrough(st, source, verdict).0;
    Functions.CallStatusMapping(s1, TInt(k), o);
    Reads.IntegralNumberReads(Push(AfterCall(s1, o), Num(i as real)), k, i, -1);
    ExecuteBalanced(st, source, TInt(k), verdict, o);
  }

  /** Execution that does not panic leaves the stack as it found it, for a result type read
      from one slot: the loaded function and the call's result are both popped. */
  lemma ExecuteBalanced(st: State, source: seq<ReadStep>, ty: HostTy, verdict: LoadVerdict, outcome: CallOutcome)
    requires Reads.OneSlot(ty) && (outcome.Raised? ==> outcome.status != LUA_OK)
    ensures var r := ExecuteSpec(st, source, ty, verdict, outcome);
      !r.1.CallPanic? ==> r.0.stack == st.stack
  {
    var (s1, res) := LoadThrough(st, source, verdict);
    if res == LoadOk {
      Functions.CallKeepsFunction(s1, Unit, ty, outcome);
      Functions.CallIsCallWithUnit(s1, ty, outcome);
      assert s1.stack[..|st.stack|] == st.stack;
    }
  }

  /** Lua: the context over a lua_State, and whether dropping it closes that state. */
  class Lua {
    const lua: Interp
    const mustBeClosed: bool

    /** `new`: a fresh interpreter state (lua_newstate), closed when the context is
        dropped. */
    constructor New(st0: State)
      ensures lua.st == st0 && !lua.closed && mustBeClosed && fresh(lua)
    {
      lua := new Interp(st0);
      mustBeClosed := true;
    }

    /** `from_existing_state`: a context over a state owned elsewhere, closed at the end
        only when asked. */
    constructor FromExistingState(lua: Interp, closeAtTheEnd: bool)
      ensures this.lua == lua && mustBeClosed == closeAtTheEnd
    {
      this.lua := lua;
      mustBeClosed := closeAtTheEnd;
    }

    /** Drop: lua_close exactly when the context must close its state. */
    method Drop()
      modifies lua
      ensures lua.closed == (old(lua.closed) || mustBeClosed) && lua.st == old(lua.st)
    {
      if mustBeClosed {
        lua.closed := true;
      }
    }

    /** `get`: the global read as `ty`. */
    method Get(name: Bytes, ty: HostTy) returns (r: Reads.Checked<HostVal>)
      modifies lua
      ensures r == GlobalGet(old(lua.st), name, ty).1
      ensures !r.Panic? ==> lua.st == GlobalGet(old(lua.st), name, ty).0
    {
      if 0 in name {
        return Reads.Panic;
      }
      lua.st := GetGlobal(lua.st, name);
      var guard := new PushGuard(lua, 1);
      var read := Reads.ReadAt(lua.st, ty, -1);
      lua.st := read.0;
      guard.Drop();
      r := if read.1.Some? then Reads.Value(read.1.value) else Reads.Nothing;
    }

    /** `set`; false is a panic. */
    method Set(name: Bytes, v: HostVal) returns (ok: bool)
      requires Pushable(v) && Infallible(v)
      modifies lua
      ensures ok <==> GlobalSet(old(lua.st), name, v).Some?
      ensures ok ==> lua.st == GlobalSet(old(lua.st), name, v).value
    {
      if 0 in name {
        return false;
      }
      var out := Marshal.PushValue(lua, v);
      if out.Panicked? {
        return false;
      }
      var pushed := new PushGuard(lua, out.n);
      var _ := pushed.Forget();
      if |lua.st.stack| == 0 {
        return false;
      }
      lua.st := SetGlobal(lua.st, name);
      ok := true;
    }

    /** `empty_array`: the proxy over the new table at -1 and the guard over its slot; null
        on a panic. */
    method EmptyArray(name: Bytes) returns (t: Tables.LuaTable?, guard: PushGuard?)
      modifies lua
      ensures t != null <==> GlobalEmptyArray(old(lua.st), name).Some?
      ensures t != null ==>
        lua.st == GlobalEmptyArray(old(lua.st), name).value
        && t.lua == lua && t.index == -1 && TableAt(lua.st, t.index)
        && guard != null && guard.lua == lua && guard.size == 1
    {
      var ok := Set(name, Seq([]));
      if !ok {
        return null, null;
      }
      lua.st := GetGlobal(lua.st, name);
      guard := new PushGuard(lua, 1);
      if !TableAt(lua.st, -1) {
        return null, null;
      }
      t := new Tables.LuaTable(lua, -1);
    }

    /** `execute_from_reader`: the loaded chunk is called with no argument. */
    method ExecuteFromReader(source: seq<ReadStep>, ty: HostTy, verdict: LoadVerdict, outcome: CallOutcome)
      returns (r: Functions.CallResult)
      requires outcome.Raised? ==> outcome.status != LUA_OK
      modifies lua
      ensures r == ExecuteSpec(old(lua.st), source, ty, verdict, outcome).1
      ensures !r.CallPanic? ==> lua.st == ExecuteSpec(old(lua.st), source, ty, verdict, outcome).0
    {
      var res := Marshal.LoadFrom(lua, source, verdict);
      match res {
        case LoadErr(e) => return Functions.CallErr(e);
        case LoadPanic => return Functions.CallPanic;
        case LoadOk =>
      }
      var loaded := new PushGuard(lua, 1);
      var f := new Functions.LuaFunction(lua);
      r := f.Call(ty, outcome);
      if r.CallPanic? {
        return;
      }
      loaded.Drop();
    }

    /** `execute`: the code read through a cursor. */
    method Execute(code: Bytes, ty: HostTy, verdict: LoadVerdict, outcome: CallOutcome)
      returns (r: Functions.CallResult)
      requires outcome.Raised? ==> outcome.status != LUA_OK
      modifies lua
      ensures r == ExecuteSpec(old(lua.st), ChunkReader.Cursor(code), ty, verdict, outcome).1
      ensures !r.CallPanic? ==> lua.st == ExecuteSpec(old(lua.st), ChunkReader.Cursor(code), ty, verdict, outcome).0
    {
      r := ExecuteFromReader(ChunkReader.Cursor(code), ty, verdict, outcome);
    }
  }
}
