/** The part of the Lua 5.2 C API that hlua calls, as functions on an abstract interpreter
    state.  Each function states its stack effect as section 4.8 of the Lua 5.2 Reference
    Manual describes it.  Metamethods are not consulted (the tables hlua builds have none
    with __index or __newindex), so get and set are raw. */
module LuaApi {
  import opened Base
  import opened Numerals
  import opened Values
  import Host

  const LUAI_MAXSTACK := 1000000
  /** LUA_REGISTRYINDEX, the first pseudo-index. */
  const REGISTRYINDEX := -LUAI_MAXSTACK - 1000

  // Status codes of lua.h
  const LUA_OK := 0
  const LUA_YIELD := 1
  const LUA_ERRRUN := 2
  const LUA_ERRSYNTAX := 3
  const LUA_ERRMEM := 4
  const LUA_ERRGCMM := 5
  const LUA_ERRERR := 6

  /** lua_upvalueindex(i): the pseudo-index of the running C closure's i-th upvalue. */
  function UpvalueIndex(i: int): (idx: int)
    ensures i >= 1 ==> idx < REGISTRYINDEX
  {
    REGISTRYINDEX - i
  }

  /** The C functions hlua registers. */
  datatype CFunction = CallbackWrapper | ClosureDestructor | UserdataDestructor

  datatype Closure = CClosure(fn: CFunction, upvalues: seq<LuaVal>) | LuaChunk(code: Bytes)

  /** What a full userdata block holds: a boxed host closure, or the data of a value pushed
      by push_userdata (an opaque token). */
  datatype Payload = BoxedCallback(cb: Host.Callback) | BoxedData(token: nat)

  datatype Obj =
    | TableObj(entries: Entries, meta: Option<nat>)
    | UserdataObj(payload: Payload, meta: Option<nat>)
    | FunctionObj(closure: Closure)

  /** What no stack operation moves: the registry and the globals table, and the upvalues
      of the running C closure. */
  datatype Env = Env(registry: nat, globals: nat, upvalues: seq<LuaVal>)

  /** The interpreter: the value stack of the running function, the heap of tables,
      userdata and functions, the next fresh object id, and its environment. */
  datatype State = State(
    stack: seq<LuaVal>,
    heap: map<nat, Obj>,
    nextId: nat,
    env: Env)

  /** Every allocated id is below nextId, so the next allocation is fresh. */
  predicate Fresh(st: State)
  {
    forall id :: id in st.heap ==> id < st.nextId
  }

  // ---------------------------------------------------------------------
  // Indices
  // ---------------------------------------------------------------------

  /** `idx` names a slot of the stack: 1..top, or -1..-top counted from the top (negative
      indices stop short of the pseudo-indices). */
  predicate IsStackIndex(st: State, idx: int)
  {
    (1 <= idx <= |st.stack|) || (-|st.stack| <= idx <= -1 && idx > REGISTRYINDEX)
  }

  /** The 0-based stack position of a stack index. */
  function Pos(st: State, idx: int): (p: nat)
    requires IsStackIndex(st, idx)
    ensures p < |st.stack|
    ensures idx < 0 ==> p == |st.stack| + idx
  {
    if idx > 0 then idx - 1 else |st.stack| + idx
  }

  /** The value an acceptable index denotes; None for a non-valid index (type LUA_TNONE). */
  function Slot(st: State, idx: int): (r: Option<LuaVal>)
    ensures IsStackIndex(st, idx) ==> r == Some(st.stack[Pos(st, idx)])
    ensures idx == 0 ==> r == None
    ensures idx == REGISTRYINDEX ==> r == Some(Table(st.env.registry))
  {
    if IsStackIndex(st, idx) then Some(st.stack[Pos(st, idx)])
    else if idx == REGISTRYINDEX then Some(Table(st.env.registry))
    else if idx < REGISTRYINDEX && REGISTRYINDEX - idx <= |st.env.upvalues| then
      Some(st.env.upvalues[REGISTRYINDEX - idx - 1])
    else None
  }

  /** lua_type. */
  function TypeAt(st: State, idx: int): (t: int)
    ensures t == TNONE <==> Slot(st, idx).None?
  {
    match Slot(st, idx)
    case None => TNONE
    case Some(v) => TypeOf(v)
  }

  function Top(st: State): LuaVal
    requires |st.stack| >= 1
  {
    st.stack[|st.stack| - 1]
  }

  // ---------------------------------------------------------------------
  // Basic stack manipulation
  // ---------------------------------------------------------------------

  /** lua_pushnil, lua_pushboolean, lua_pushnumber, lua_pushinteger, lua_pushunsigned,
      lua_pushlstring, lua_pushlightuserdata: one more slot holding `v`. */
  function Push(st: State, v: LuaVal): (r: State)
    ensures r == st.(stack := st.stack + [v])
  {
    st.(stack := st.stack + [v])
  }

  /** lua_pushvalue: a copy of the value at `idx` on top. */
  function PushCopy(st: State, idx: int): (r: State)
    requires Slot(st, idx).Some?
    ensures |r.stack| == |st.stack| + 1 && r.stack[..|st.stack|] == st.stack
    ensures Top(r) == Slot(st, idx).value
  {
    Push(st, Slot(st, idx).value)
  }

  function Nils(n: nat): (r: seq<LuaVal>)
    ensures |r| == n && forall i :: 0 <= i < n ==> r[i] == Nil
  {
    if n == 0 then [] else Nils(n - 1) + [Nil]
  }

  /** lua_settop: the stack gets `idx` slots (or top + idx + 1 for a negative index),
      cut down or filled with nils. */
  function SetTop(st: State, idx: int): (r: State)
    requires idx >= 0 || -idx - 1 <= |st.stack|
    ensures var n := if idx >= 0 then idx else |st.stack| + idx + 1;
      |r.stack| == n
      && (n <= |st.stack| ==> r.stack == st.stack[..n])
      && (n > |st.stack| ==> r.stack[..|st.stack|] == st.stack)
    ensures r.heap == st.heap && r.nextId == st.nextId
  {
    var n := if idx >= 0 then idx else |st.stack| + idx + 1;
    st.(stack := if n <= |st.stack| then st.stack[..n] else st.stack + Nils(n - |st.stack|))
  }

  /** lua_pop(n), the macro settop(-n - 1): the top n slots are gone. */
  function Pop(st: State, n: nat): (r: State)
    requires n <= |st.stack|
    ensures r == st.(stack := st.stack[..|st.stack| - n])
  {
    st.(stack := st.stack[..|st.stack| - n])
  }

  /** lua_pop(n) is the macro lua_settop(-n - 1). */
  lemma PopIsSetTop(st: State, n: nat)
    requires n <= |st.stack|
    ensures Pop(st, n) == SetTop(st, -(n as int) - 1)
  {
  }

  /** lua_insert: the top value moves down to `idx`, the values above it move up. */
  function Insert(st: State, idx: int): (r: State)
    requires IsStackIndex(st, idx)
    ensures |r.stack| == |st.stack|
    ensures r.stack[Pos(st, idx)] == Top(st)
    ensures r.stack[..Pos(st, idx)] == st.stack[..Pos(st, idx)]
    ensures r.stack[Pos(st, idx) + 1..] == st.stack[Pos(st, idx)..|st.stack| - 1]
    ensures r.heap == st.heap && r.nextId == st.nextId
  {
    var p := Pos(st, idx);
    st.(stack := st.stack[..p] + [Top(st)] + st.stack[p..|st.stack| - 1])
  }

  // ---------------------------------------------------------------------
  // Objects
  // ---------------------------------------------------------------------

  function Alloc(st: State, o: Obj): (r: State)
    ensures r.heap == st.heap[st.nextId := o] && r.nextId == st.nextId + 1
    ensures r.stack == st.stack
    ensures Fresh(st) ==> Fresh(r)
  {
    st.(heap := st.heap[st.nextId := o], nextId := st.nextId + 1)
  }

  /** lua_newtable and lua_createtable (the size hints are not observable): a fresh empty
      table on top. */
  function NewTable(st: State): (r: State)
    ensures r == st.(stack := st.stack + [Table(st.nextId)],
                     heap := st.heap[st.nextId := TableObj([], None)], nextId := st.nextId + 1)
  {
    st.(stack := st.stack + [Table(st.nextId)],
        heap := st.heap[st.nextId := TableObj([], None)], nextId := st.nextId + 1)
  }

  /** lua_newuserdata, with the block's contents written right away: a fresh userdata
      without a metatable on top. */
  function NewUserdata(st: State, p: Payload): (r: State)
    ensures r == st.(stack := st.stack + [Userdata(st.nextId)],
                     heap := st.heap[st.nextId := UserdataObj(p, None)], nextId := st.nextId + 1)
  {
    st.(stack := st.stack + [Userdata(st.nextId)],
        heap := st.heap[st.nextId := UserdataObj(p, None)], nextId := st.nextId + 1)
  }

  /** lua_pushcclosure(fn, n): pops n values, which become the upvalues of a fresh C
      closure pushed in their place. */
  function PushCClosure(st: State, fn: CFunction, n: nat): (r: State)
    requires n <= |st.stack|
    ensures r == st.(stack := st.stack[..|st.stack| - n] + [Function(st.nextId)],
                     heap := st.heap[st.nextId := FunctionObj(CClosure(fn, st.stack[|st.stack| - n..]))],
                     nextId := st.nextId + 1)
  {
    st.(stack := st.stack[..|st.stack| - n] + [Function(st.nextId)],
        heap := st.heap[st.nextId := FunctionObj(CClosure(fn, st.stack[|st.stack| - n..]))],
        nextId := st.nextId + 1)
  }

  // ---------------------------------------------------------------------
  // Tables
  // ---------------------------------------------------------------------

  /** The contents of table `id`; an id without a table object reads as empty. */
  function EntriesOf(st: State, id: nat): Entries
  {
    if id in st.heap && st.heap[id].TableObj? then st.heap[id].entries else []
  }

  function MetaOf(st: State, id: nat): Option<nat>
  {
    if id in st.heap && (st.heap[id].TableObj? || st.heap[id].UserdataObj?) then st.heap[id].meta
    else None
  }

  /** `idx` holds a table. */
  predicate TableAt(st: State, idx: int)
  {
    Slot(st, idx).Some? && Slot(st, idx).value.Table?
  }

  /** Table `id` with new contents (its metatable kept). */
  function WithEntries(st: State, id: nat, es: Entries): (r: State)
    ensures EntriesOf(r, id) == es
    ensures r == st.(heap := st.heap[id := TableObj(es, MetaOf(st, id))])
  {
    st.(heap := st.heap[id := TableObj(es, MetaOf(st, id))])
  }

  /** lua_gettable: the key on top is replaced by t[key], t being the table at `idx`
      (nil when the key is absent). */
  function GetTable(st: State, idx: int): (r: State)
    requires |st.stack| >= 1 && TableAt(st, idx)
    ensures r.stack == st.stack[..|st.stack| - 1] + [Lookup(EntriesOf(st, Slot(st, idx).value.id), Top(st))]
    ensures r.heap == st.heap && r.nextId == st.nextId
  {
    var t := EntriesOf(st, Slot(st, idx).value.id);
    st.(stack := st.stack[..|st.stack| - 1] + [Lookup(t, Top(st))])
  }

  /** lua_settable: t[k] = v with the key below the value on top, both popped.  A nil key
      is an error, which the callers rule out first. */
  function SetTable(st: State, idx: int): (r: State)
    requires |st.stack| >= 2 && TableAt(st, idx) && st.stack[|st.stack| - 2] != Nil
    ensures r.stack == st.stack[..|st.stack| - 2]
    ensures var id := Slot(st, idx).value.id;
      EntriesOf(r, id) == Store(EntriesOf(st, id), st.stack[|st.stack| - 2], Top(st))
      && r.heap == st.heap[id := TableObj(EntriesOf(r, id), MetaOf(st, id))]
      && r.nextId == st.nextId && r.env == st.env
  {
    var id := Slot(st, idx).value.id;
    var n := |st.stack|;
    var es := Store(EntriesOf(st, id), st.stack[n - 2], st.stack[n - 1]);
    st.(stack := st.stack[..n - 2], heap := st.heap[id := TableObj(es, MetaOf(st, id))])
  }

  /** lua_next: pops the key on top and, when the table has an entry after it, pushes that
      entry's key and value and answers true.  A key that is not in the table is an error,
      which the callers rule out first. */
  function Next(st: State, idx: int): (r: (State, bool))
    requires |st.stack| >= 1 && TableAt(st, idx)
    requires !Values.Next(EntriesOf(st, Slot(st, idx).value.id), Top(st)).BadKey?
    ensures var nx := Values.Next(EntriesOf(st, Slot(st, idx).value.id), Top(st));
      var below := st.stack[..|st.stack| - 1];
      r.1 == nx.Entry?
      && r.0.stack == (if nx.Entry? then below + [nx.key, nx.value] else below)
    ensures r.0.heap == st.heap && r.0.nextId == st.nextId
  {
    var nx := Values.Next(EntriesOf(st, Slot(st, idx).value.id), Top(st));
    var popped := Pop(st, 1);
    if nx.Entry? then (Push(Push(popped, nx.key), nx.value), true) else (popped, false)
  }

  /** The object a table or full userdata value refers to. */
  predicate HasMetaSlot(st: State, v: LuaVal)
  {
    (v.Table? || v.Userdata?)
  }

  function ObjId(v: LuaVal): nat
    requires v.Table? || v.Userdata?
  {
    if v.Table? then v.id else v.id
  }

  /** lua_getmetatable: pushes the metatable of the value at `idx` and answers true, or
      pushes nothing and answers false when it has none. */
  function GetMetatable(st: State, idx: int): (r: (State, bool))
    ensures var v := Slot(st, idx);
      var m := if v.Some? && (v.value.Table? || v.value.Userdata?) then MetaOf(st, ObjId(v.value)) else None;
      r.1 == m.Some? && r.0 == (if m.Some? then Push(st, Table(m.value)) else st)
  {
    var v := Slot(st, idx);
    var m := if v.Some? && (v.value.Table? || v.value.Userdata?) then MetaOf(st, ObjId(v.value)) else None;
    if m.Some? then (Push(st, Table(m.value)), true) else (st, false)
  }

  function WithMeta(o: Obj, m: Option<nat>): Obj
  {
    match o
    case TableObj(es, _) => TableObj(es, m)
    case UserdataObj(p, _) => UserdataObj(p, m)
    case FunctionObj(c) => o
  }

  /** lua_setmetatable: pops the table on top and makes it the metatable of the table or
      userdata at `idx`. */
  function SetMetatable(st: State, idx: int): (r: State)
    requires |st.stack| >= 1 && Top(st).Table?
    requires Slot(st, idx).Some? && (Slot(st, idx).value.Table? || Slot(st, idx).value.Userdata?)
    requires ObjId(Slot(st, idx).value) in st.heap
    ensures var id := ObjId(Slot(st, idx).value);
      r == st.(stack := st.stack[..|st.stack| - 1], heap := st.heap[id := WithMeta(st.heap[id], Some(Top(st).id))])
  {
    var id := ObjId(Slot(st, idx).value);
    var m := Top(st).id;
    st.(stack := st.stack[..|st.stack| - 1], heap := st.heap[id := WithMeta(st.heap[id], Some(m))])
  }

  // ---------------------------------------------------------------------
  // Conversions
  // ---------------------------------------------------------------------

  /** The number a value converts to: a number, or a string that denotes one. */
  function NumberOf(slot: Option<LuaVal>): (r: Option<real>)
    ensures slot == Some(Nil) || slot.None? ==> r == None
    ensures slot.Some? && slot.value.Num? ==> r == Some(slot.value.n)
    ensures slot.Some? && !slot.value.Num? && !slot.value.Str? ==> r == None
  {
    match slot
    case Some(Num(x)) => Some(x)
    case Some(Str(s)) => ParseNumber(s)
    case _ => None
  }

  /** lua_tonumberx. */
  function ToNumberX(st: State, idx: int): Option<real>
  {
    NumberOf(Slot(st, idx))
  }

  /** C's conversion of a double to an integer type: truncation toward zero. */
  function Trunc(x: real): (i: int)
    ensures x >= 0.0 ==> i as real <= x < i as real + 1.0
    ensures x < 0.0 ==> i as real - 1.0 < x <= i as real
  {
    if x >= 0.0 then x.Floor else -((-x).Floor)
  }

  /** lua_tointegerx: the number converted to lua_Integer.  The manual leaves the rounding of a
      non-integral number unspecified; this model truncates. */
  function ToIntegerX(st: State, idx: int): (r: Option<int>)
    ensures r.Some? <==> ToNumberX(st, idx).Some?
    ensures r.Some? ==> r.value == Trunc(ToNumberX(st, idx).value)
  {
    match ToNumberX(st, idx)
    case Some(x) => Some(Trunc(x))
    case None => None
  }

  /** lua_tounsignedx: the number converted to lua_Unsigned (32 bits in Lua 5.2): the
      remainder of its truncation modulo 2^32. */
  function ToUnsignedX(st: State, idx: int): (r: Option<int>)
    ensures r.Some? <==> ToNumberX(st, idx).Some?
    ensures r.Some? ==> 0 <= r.value < 0x1_0000_0000
  {
    match ToNumberX(st, idx)
    case Some(x) => Some(Trunc(x) % 0x1_0000_0000)
    case None => None
  }

  function IsBoolean(st: State, idx: int): (b: bool)
    ensures b <==> TypeAt(st, idx) == TBOOLEAN
  {
    Slot(st, idx).Some? && Slot(st, idx).value.Bool?
  }

  /** lua_toboolean: Lua's truth value; a non-valid index is false. */
  function ToBoolean(st: State, idx: int): bool
  {
    Slot(st, idx).Some? && Truthy(Slot(st, idx).value)
  }

  function IsNil(st: State, idx: int): (b: bool)
    ensures b <==> TypeAt(st, idx) == TNIL
  {
    Slot(st, idx) == Some(Nil)
  }

  function IsFunction(st: State, idx: int): (b: bool)
    ensures b <==> TypeAt(st, idx) == TFUNCTION
  {
    Slot(st, idx).Some? && Slot(st, idx).value.Function?
  }

  /** lua_touserdata gives a non-null pointer: the value is a full or a light userdata. */
  function IsUserdataPointer(st: State, idx: int): bool
  {
    Slot(st, idx).Some? && (Slot(st, idx).value.Userdata? || Slot(st, idx).value.LightUserdata?)
  }

  /** The bytes lua_tolstring gives for a value: those of a string, or a number's decimal
      text; None (a null pointer) for every other value. */
  function LStringOf(slot: Option<LuaVal>): (r: Option<Bytes>)
    ensures r.Some? <==> slot.Some? && (slot.value.Str? || slot.value.Num?)
    ensures slot.Some? && slot.value.Str? ==> r == Some(slot.value.s)
    ensures slot.Some? && slot.value.Num? ==> r == Some(NumberText(slot.value.n))
  {
    match slot
    case Some(Str(s)) => Some(s)
    case Some(Num(x)) => Some(NumberText(x))
    case _ => None
  }

  /** lua_tolstring: LStringOf the value; when the value is a number in a stack slot, the slot
      itself now holds the string. */
  function ToLString(st: State, idx: int): (r: (State, Option<Bytes>))
    ensures r.1 == LStringOf(Slot(st, idx))
    ensures Slot(st, idx).Some? && !Slot(st, idx).value.Num? ==> r.0 == st
    ensures |r.0.stack| == |st.stack| && r.0.heap == st.heap && r.0.nextId == st.nextId
    ensures r.0.env == st.env
    ensures forall i :: 0 <= i < |st.stack| && !st.stack[i].Num? ==> r.0.stack[i] == st.stack[i]
  {
    match Slot(st, idx)
    case Some(Num(x)) =>
      var st' := if IsStackIndex(st, idx) then st.(stack := st.stack[Pos(st, idx) := Str(NumberText(x))]) else st;
      (st', Some(NumberText(x)))
    case _ => (st, LStringOf(Slot(st, idx)))
  }

  // ---------------------------------------------------------------------
  // Globals
  // ---------------------------------------------------------------------

  /** lua_getglobal: pushes the global `name`. */
  function GetGlobal(st: State, name: Bytes): (r: State)
    ensures r.stack == st.stack + [Lookup(EntriesOf(st, st.env.globals), Str(name))]
    ensures r.heap == st.heap && r.nextId == st.nextId
  {
    Push(st, Lookup(EntriesOf(st, st.env.globals), Str(name)))
  }

  /** lua_setglobal: pops the top value into the global `name`. */
  function SetGlobal(st: State, name: Bytes): (r: State)
    requires |st.stack| >= 1
    ensures r.stack == st.stack[..|st.stack| - 1]
    ensures EntriesOf(r, st.env.globals) == Store(EntriesOf(st, st.env.globals), Str(name), Top(st))
    ensures forall j :: j != st.env.globals ==> EntriesOf(r, j) == EntriesOf(st, j)
    ensures r.env == st.env && r.nextId == st.nextId
  {
    WithEntries(Pop(st, 1), st.env.globals, Store(EntriesOf(st, st.env.globals), Str(name), Top(st)))
  }

  // ---------------------------------------------------------------------
  // Loading and calling
  // ---------------------------------------------------------------------

  /** lua_load, once the reader has delivered `code`: with status LUA_OK the compiled chunk
      is pushed as a fresh function, otherwise the error message is pushed. */
  function Load(st: State, code: Bytes, verdict: Host.LoadVerdict): (r: State)
    ensures |r.stack| == |st.stack| + 1 && r.stack[..|st.stack|] == st.stack
    ensures verdict.status == LUA_OK ==> Top(r) == Function(st.nextId)
    ensures verdict.status != LUA_OK ==> Top(r) == Str(verdict.message) && r.heap == st.heap
  {
    if verdict.status == LUA_OK then Push(Alloc(st, FunctionObj(LuaChunk(code))), Function(st.nextId))
    else Push(st, Str(verdict.message))
  }

  /** How a called function ends, and what it did to the heap.  The interpreter's execution
      is not modelled, so this is a parameter: the call returns a value or raises an error
      with a status and a message, and `heap` holds the objects it created or changed, the
      ids it allocated lying below `nextId`. */
  datatype CallOutcome =
    | Returned(result: LuaVal, heap: map<nat, Obj>, nextId: nat)
    | Raised(status: int, message: LuaVal, heap: map<nat, Obj>, nextId: nat)

  /** The state once a call has run: the objects the call created or changed replace their
      old versions; no object is freed (garbage collection is not modelled) and ids only grow. */
  function AfterCall(st: State, outcome: CallOutcome): (r: State)
    ensures r.stack == st.stack && r.env == st.env && r.nextId >= st.nextId
    ensures forall id :: id in st.heap ==> id in r.heap
    ensures forall id :: id in outcome.heap ==> id in r.heap && r.heap[id] == outcome.heap[id]
    ensures forall id :: id in st.heap && id !in outcome.heap ==> r.heap[id] == st.heap[id]
    ensures Fresh(st) && (forall id :: id in outcome.heap ==> id < outcome.nextId) ==> Fresh(r)
  {
    st.(heap := st.heap + outcome.heap,
        nextId := if outcome.nextId > st.nextId then outcome.nextId else st.nextId)
  }

  /** lua_pcall(nargs, 1, 0): pops the function and its nargs arguments, runs the call, and
      pushes the one result, or the error message, answering the status. */
  function PCall(st: State, nargs: nat, outcome: CallOutcome): (r: (State, int))
    requires |st.stack| >= nargs + 1
    requires outcome.Raised? ==> outcome.status != LUA_OK
    ensures var below := st.stack[..|st.stack| - nargs - 1];
      r.0.stack == below + [if outcome.Returned? then outcome.result else outcome.message]
    ensures (r.1 == LUA_OK) == outcome.Returned?
    ensures r.0.heap == AfterCall(st, outcome).heap && r.0.nextId == AfterCall(st, outcome).nextId
    ensures r.0.env == st.env
  {
    var below := AfterCall(Pop(st, nargs + 1), outcome);
    match outcome
    case Returned(v, _, _) => (Push(below, v), LUA_OK)
    case Raised(status, msg, _, _) => (Push(below, msg), status)
  }
}
