/** The function bridge: calling a Lua function from the host (LuaFunction::call and
    call_with_args, in functions_read.rs and lua_functions.rs), reading a LuaFunction off the
    stack, and the wrapper through which Lua calls a host closure (functions_write.rs). */
module Functions {
  import opened Base
  import opened Numerals
  import opened Values
  import opened LuaApi
  import opened Host
  import opened Pushes
  import opened Stack
  import Reads
  import Marshal
  import PushFacts
  import ChunkReader

  // ---------------------------------------------------------------------
  // Calling a Lua function
  // ---------------------------------------------------------------------

  /** What a call yields: the result read as the requested type, a LuaError, the error of
      the arguments' push (LuaFunctionCallError::PushError), or a panic. */
  datatype CallResult = CallOk(v: HostVal) | CallErr(e: LuaError) | ArgsErr(pushErr: PushErr) | CallPanic

  /** The end of a call, with lua_pcall's one result (or its error message) on top under a
      guard of size 1.  Status LUA_OK reads the result, WrongType when it does not read;
      LUA_ERRMEM panics; LUA_ERRRUN reads the message as a String (a panic when it does not
      read) into an ExecutionError; every other status panics.  The guard pops the slot. */
  function Conclude(s: State, status: int, ty: HostTy): (r: (State, CallResult))
    requires |s.stack| >= 1
    ensures !r.1.CallPanic? ==> |r.0.stack| == |s.stack| - 1 && r.0.heap == s.heap
  {
    if status == LUA_OK then
      var (s2, v) := Reads.ReadAt(s, ty, -1);
      (Pop(s2, 1), match v case Some(x) => CallOk(x) case None => CallErr(WrongType))
    else if status == LUA_ERRMEM then (s, CallPanic)
    else if status == LUA_ERRRUN then
      var (s2, m) := Reads.ReadAt(s, TText, -1);
      match m
      case Some(Text(msg)) => (Pop(s2, 1), CallErr(ExecutionError(msg)))
      case _ => (s, CallPanic)
    else (s, CallPanic)
  }

  /** lua_pcall(nargs, 1, 0) on the function and the nargs arguments above it, then the end
      of the call.  The heap is the one the call left: the host side allocates and changes
      nothing once the function is called. */
  function Invoke(s: State, nargs: nat, ty: HostTy, outcome: CallOutcome): (r: (State, CallResult))
    requires |s.stack| >= nargs + 1 && (outcome.Raised? ==> outcome.status != LUA_OK)
    ensures !r.1.CallPanic? ==>
      |r.0.stack| == |s.stack| - nargs - 1 && r.0.heap == AfterCall(s, outcome).heap
      && r.0.nextId == AfterCall(s, outcome).nextId && r.0.env == s.env
  {
    var (s1, status) := PCall(s, nargs, outcome);
    Conclude(s1, status, ty)
  }

  /** LuaFunction::call: the function on top is copied, because lua_pcall pops what it
      calls, and the copy is called with no argument and one result. */
  function CallSpec(st: State, ty: HostTy, outcome: CallOutcome): (r: (State, CallResult))
    requires |st.stack| >= 1 && (outcome.Raised? ==> outcome.status != LUA_OK)
    ensures !r.1.CallPanic? ==>
      |r.0.stack| == |st.stack| && r.0.heap == AfterCall(st, outcome).heap
      && r.0.nextId == AfterCall(st, outcome).nextId && r.0.env == st.env
  {
    Invoke(PushCopy(st, -1), 0, ty, outcome)
  }

  /** The copy of the function with the arguments pushed above it. */
  function ArgsFrame(st: State, args: HostVal): (r: PushRes)
    requires |st.stack| >= 1 && Pushable(args)
    ensures r.out.Pushed? ==> |r.st.stack| == |st.stack| + 1 + r.out.n
    ensures r.out.Failed? ==> r.st.stack == st.stack + [Top(st)]
  {
    PushSpec(PushCopy(st, -1), args)
  }

  /** call_with_args as written: when the arguments fail to push, the error is returned and
      the copy of the function stays on the stack. */
  function CallWithArgsAsWritten(st: State, args: HostVal, ty: HostTy, outcome: CallOutcome): (r: (State, CallResult))
    requires |st.stack| >= 1 && Pushable(args) && (outcome.Raised? ==> outcome.status != LUA_OK)
  {
    var p := ArgsFrame(st, args);
    match p.out
    case Pushed(n) => Invoke(p.st, n, ty, outcome)
    case Failed(e) => (p.st, ArgsErr(e))
    case Panicked => (st, CallPanic)
  }

  /** call_with_args, with the copy popped when the arguments fail to push. */
  function CallWithArgsSpec(st: State, args: HostVal, ty: HostTy, outcome: CallOutcome): (r: (State, CallResult))
    requires |st.stack| >= 1 && Pushable(args) && (outcome.Raised? ==> outcome.status != LUA_OK)
  {
    var p := ArgsFrame(st, args);
    match p.out
    case Pushed(n) => Invoke(p.st, n, ty, outcome)
    case Failed(e) => (Pop(p.st, 1), ArgsErr(e))
    case Panicked => (st, CallPanic)
  }

  /** call_with_args by what pushing the arguments gives: the call on the frame, the copy
      popped with the error, or a panic. */
  lemma CallWithArgsCases(st: State, args: HostVal, ty: HostTy, outcome: CallOutcome)
    requires |st.stack| >= 1 && Pushable(args) && (outcome.Raised? ==> outcome.status != LUA_OK)
    ensures var p := PushSpec(PushCopy(st, -1), args);
      p.out.Pushed? ==>
        |p.st.stack| >= p.out.n + 1
        && CallWithArgsSpec(st, args, ty, outcome) == Invoke(p.st, p.out.n, ty, outcome)
    ensures var p := PushSpec(PushCopy(st, -1), args);
      p.out.Failed? ==> |p.st.stack| >= 1 && CallWithArgsSpec(st, args, ty, outcome) == (Pop(p.st, 1), ArgsErr(p.out.e))
    ensures var p := PushSpec(PushCopy(st, -1), args);
      p.out.Panicked? ==> CallWithArgsSpec(st, args, ty, outcome) == (st, CallPanic)
  {
  }

  /** `call` is `call_with_args(())`: () pushes no argument. */
  lemma CallIsCallWithUnit(st: State, ty: HostTy, outcome: CallOutcome)
    requires |st.stack| >= 1 && (outcome.Raised? ==> outcome.status != LUA_OK)
    ensures CallSpec(st, ty, outcome) == CallWithArgsSpec(st, Unit, ty, outcome)
    ensures CallSpec(st, ty, outcome) == CallWithArgsAsWritten(st, Unit, ty, outcome)
  {
    assert ArgsFrame(st, Unit) == PushRes(PushCopy(st, -1), Pushed(0));
  }

  /** The state lua_pcall leaves when it calls the copy on top of `st` with no argument:
      the copy is replaced by the result or the message, over the heap the call left. */
  lemma CalledCopy(st: State, outcome: CallOutcome)
    requires |st.stack| >= 1 && (outcome.Raised? ==> outcome.status != LUA_OK)
    ensures PCall(PushCopy(st, -1), 0, outcome).0
      == Push(AfterCall(st, outcome), if outcome.Returned? then outcome.result else outcome.message)
  {
    var c := PushCopy(st, -1);
    assert c.stack[..|c.stack| - 1] == st.stack;
  }

  /** How lua_pcall's answer becomes the result of `call`: a returned value is read as the
      requested type (WrongType when it does not read), a runtime error becomes an
      ExecutionError carrying its message (a panic when the message is not a String), and
      every other status is a panic. */
  lemma CallStatusMapping(st: State, ty: HostTy, outcome: CallOutcome)
    requires |st.stack| >= 1 && (outcome.Raised? ==> outcome.status != LUA_OK)
    ensures outcome.Returned? ==>
      CallSpec(st, ty, outcome).1 == ResultRead(Reads.Read(Push(AfterCall(st, outcome), outcome.result), ty, -1))
    ensures outcome.Raised? && outcome.status == LUA_ERRRUN ==>
      CallSpec(st, ty, outcome).1 == MessageRead(Reads.TextOf(Some(outcome.message)))
    ensures outcome.Raised? && outcome.status != LUA_ERRRUN ==> CallSpec(st, ty, outcome).1 == CallPanic
  {
    CalledCopy(st, outcome);
  }

  /** A returned value read as the result type: WrongType when it does not read. */
  function ResultRead(v: Option<HostVal>): CallResult
  {
    match v
    case Some(x) => CallOk(x)
    case None => CallErr(WrongType)
  }

  /** A runtime error's message read as a String: a panic when it does not read. */
  function MessageRead(m: Option<Bytes>): CallResult
  {
    match m
    case Some(msg) => CallErr(ExecutionError(msg))
    case None => CallPanic
  }

  /** The value 12 returned to a call that asks for a bool is WrongType, whatever the call
      did to the heap. */
  lemma ReturnedNumberIsWrongType(st: State, heap: map<nat, Obj>, nextId: nat)
    requires |st.stack| >= 1
    ensures CallSpec(st, TBool, Returned(Num(12.0), heap, nextId)).1 == CallErr(WrongType)
  {
    var o := Returned(Num(12.0), heap, nextId);
    CalledCopy(st, o);
    Reads.BoolReadNeedsBoolean(Push(AfterCall(st, o), Num(12.0)), -1);
  }

  /** A call that does not panic leaves the stack as it found it, the function on top: its
      copy was called, and the result's slot is popped once read (for a result type read from
      one slot). */
  lemma CallKeepsFunction(st: State, args: HostVal, ty: HostTy, outcome: CallOutcome)
    requires |st.stack| >= 1 && Pushable(args) && (outcome.Raised? ==> outcome.status != LUA_OK)
    requires Reads.OneSlot(ty)
    ensures var r := CallWithArgsSpec(st, args, ty, outcome);
      !r.1.CallPanic? ==> r.0.stack == st.stack
  {
    var p := ArgsFrame(st, args);
    match p.out
    case Pushed(n) =>
      var s1 := PCall(p.st, n, outcome).0;
      assert p.st.stack[..|p.st.stack| - n - 1] == st.stack by {
        assert p.st.stack[..|st.stack| + 1] == PushCopy(st, -1).stack;
      }
      ConcludePopsResult(s1, PCall(p.st, n, outcome).1, ty);
    case Failed(e) =>
      assert Pop(p.st, 1).stack == st.stack;
    case Panicked =>
  }

  /** The end of a call that does not panic pops the one slot lua_pcall left, for a result
      type read from one slot. */
  lemma ConcludePopsResult(s: State, status: int, ty: HostTy)
    requires |s.stack| >= 1 && Reads.OneSlot(ty)
    ensures !Conclude(s, status, ty).1.CallPanic? ==> Conclude(s, status, ty).0.stack == Pop(s, 1).stack
  {
    if status == LUA_OK {
      Reads.ReadTopThenPop(s, ty);
    } else if status == LUA_ERRRUN {
      Reads.ReadTopThenPop(s, TText);
    }
  }

  /** Arguments are pushed in tuple order above the copy: (a, b) leaves the copy, then a,
      then b, and lua_pcall is told of the two. */
  lemma ArgumentsInOrder(st: State, a: HostVal, b: HostVal)
    requires |st.stack| >= 1 && PushFacts.Scalar(a) && PushFacts.Scalar(b) && Pushable(a) && Pushable(b)
    ensures var p := ArgsFrame(st, Tuple([a, b]));
      p.out == Pushed(2) && p.st.stack == st.stack + [Top(st), PushFacts.ScalarVal(a), PushFacts.ScalarVal(b)]
  {
    var c := PushCopy(st, -1);
    ScalarPairPush(c, a, b);
    assert c.stack == st.stack + [Top(st)];
  }

  /** A pair of plain values pushes the first, then the second. */
  lemma ScalarPairPush(c: State, a: HostVal, b: HostVal)
    requires PushFacts.Scalar(a) && PushFacts.Scalar(b) && Pushable(a) && Pushable(b)
    ensures PushSpec(c, Tuple([a, b]))
      == PushRes(Push(Push(c, PushFacts.ScalarVal(a)), PushFacts.ScalarVal(b)), Pushed(2))
  {
    var v := Tuple([a, b]);
    assert PushSpec(c, v) == PartsFrom(c, v, 0);
    PushFacts.ScalarPush(c, a);
    var c1 := Push(c, PushFacts.ScalarVal(a));
    PushFacts.ScalarPush(c1, b);
    assert PartsFrom(c1, v, 1) == PushRes(Push(c1, PushFacts.ScalarVal(b)), Pushed(1));
  }

  /** A failed push of the arguments is reported before lua_pcall: the result is the push
      error whatever the function would do, and the stack is as it was. */
  lemma PushErrorBeforeCall(st: State, args: HostVal, ty: HostTy, o1: CallOutcome, o2: CallOutcome)
    requires |st.stack| >= 1 && Pushable(args)
    requires (o1.Raised? ==> o1.status != LUA_OK) && (o2.Raised? ==> o2.status != LUA_OK)
    requires ArgsFrame(st, args).out.Failed?
    ensures CallWithArgsSpec(st, args, ty, o1) == CallWithArgsSpec(st, args, ty, o2)
    ensures CallWithArgsSpec(st, args, ty, o1).1 == ArgsErr(ArgsFrame(st, args).out.e)
    ensures CallWithArgsSpec(st, args, ty, o1).0.stack == st.stack
  {
    var p := ArgsFrame(st, args);
    assert Pop(p.st, 1).stack == st.stack;
  }

  /** Arguments whose push fails (a chunk whose reader fails): as written the copy of the
      function stays on the stack, one slot more than before the call; corrected, the stack
      is as it was. */
  lemma FailedArgumentsLeakCopy(st: State, e: IoError, verdict: LoadVerdict, ty: HostTy, outcome: CallOutcome)
    requires |st.stack| >= 1 && (outcome.Raised? ==> outcome.status != LUA_OK)
    ensures var args := Code([Failure(e)], verdict);
      CallWithArgsAsWritten(st, args, ty, outcome).1 == ArgsErr(LoadFailed(ReadError(e)))
      && CallWithArgsAsWritten(st, args, ty, outcome).0.stack == st.stack + [Top(st)]
      && CallWithArgsSpec(st, args, ty, outcome).1 == ArgsErr(LoadFailed(ReadError(e)))
      && CallWithArgsSpec(st, args, ty, outcome).0.stack == st.stack
  {
    var c := PushCopy(st, -1);
    ChunkReader.FailingReaderReportsError(e, []);
    assert [Failure(e)] + [] == [Failure(e)];
    assert LoadThrough(c, [Failure(e)], verdict).1 == LoadErr(ReadError(e));
    var v := Code([Failure(e)], verdict);
    assert PushSpec(c, v) == PushCode(c, v);
    var p := ArgsFrame(st, v);
    assert p.out == Failed(LoadFailed(ReadError(e)));
    assert Pop(p.st, 1).stack == st.stack;
  }

  /** LuaFunction: a proxy for the Lua function on top of the stack of `lua`. */
  class LuaFunction {
    const lua: Interp

    constructor (lua: Interp)
      ensures this.lua == lua
    {
      this.lua := lua;
    }

    /** `call`: the copy, lua_pcall, and the end of the call. */
    method Call(ty: HostTy, outcome: CallOutcome) returns (r: CallResult)
      requires |lua.st.stack| >= 1 && (outcome.Raised? ==> outcome.status != LUA_OK)
      modifies lua
      ensures r == CallSpec(old(lua.st), ty, outcome).1
      ensures !r.CallPanic? ==> lua.st == CallSpec(old(lua.st), ty, outcome).0
    {
      lua.st := PushCopy(lua.st, -1);
      var called := PCall(lua.st, 0, outcome);
      lua.st := called.0;
      r := Finish(lua, called.1, ty);
    }

    /** `call_with_args`: the copy, the arguments (their guard forgotten, its size passed
        to lua_pcall), and the end of the call; a failed push of the arguments is returned
        with the copy popped. */
    method CallWithArgs(args: HostVal, ty: HostTy, outcome: CallOutcome) returns (r: CallResult)
      requires |lua.st.stack| >= 1 && Pushable(args) && (outcome.Raised? ==> outcome.status != LUA_OK)
      modifies lua
      ensures r == CallWithArgsSpec(old(lua.st), args, ty, outcome).1
      ensures !r.CallPanic? ==> lua.st == CallWithArgsSpec(old(lua.st), args, ty, outcome).0
    {
      ghost var st0 := lua.st;
      lua.st := PushCopy(lua.st, -1);
      var out := Marshal.PushValue(lua, args);
      CallWithArgsCases(st0, args, ty, outcome);
      match out {
        case Failed(e) =>
          lua.st := Pop(lua.st, 1);
          return ArgsErr(e);
        case Panicked =>
          return CallPanic;
        case Pushed(n) =>
          r := CallPushed(n, ty, outcome);
      }
    }

    /** The rest of `call_with_args` with the n arguments above the copy: their guard
        forgotten, its size passed to lua_pcall, and the end of the call. */
    method CallPushed(n: nat, ty: HostTy, outcome: CallOutcome) returns (r: CallResult)
      requires |lua.st.stack| >= n + 1 && (outcome.Raised? ==> outcome.status != LUA_OK)
      modifies lua
      ensures r == Invoke(old(lua.st), n, ty, outcome).1
      ensures !r.CallPanic? ==> lua.st == Invoke(old(lua.st), n, ty, outcome).0
    {
      var pushed := new PushGuard(lua, n);
      var nargs := pushed.Forget();
      var called := PCall(lua.st, nargs, outcome);
      lua.st := called.0;
      r := Finish(lua, called.1, ty);
    }
  }

  /** The guard over lua_pcall's one slot and what the status makes of it. */
  method Finish(lua: Interp, status: int, ty: HostTy) returns (r: CallResult)
    requires |lua.st.stack| >= 1
    modifies lua
    ensures r == Conclude(old(lua.st), status, ty).1
    ensures !r.CallPanic? ==> lua.st == Conclude(old(lua.st), status, ty).0
  {
    var guard := new PushGuard(lua, 1);
    if status == LUA_OK {
      var read := Reads.ReadAt(lua.st, ty, -1);
      lua.st := read.0;
      guard.Drop();
      match read.1 {
        case Some(x) => return CallOk(x);
        case None => return CallErr(WrongType);
      }
    }
    if status == LUA_ERRMEM {
      return CallPanic;
    }
    if status == LUA_ERRRUN {
      var read := Reads.ReadAt(lua.st, TText, -1);
      match read.1 {
        case Some(Text(msg)) =>
          lua.st := read.0;
          guard.Drop();
          return CallErr(ExecutionError(msg));
        case _ =>
          return CallPanic;
      }
    }
    r := CallPanic;
  }

  /** LuaRead for LuaFunction: the index must be -1 (asserted, a panic otherwise), and the
      read succeeds exactly when the top slot holds a function. */
  method ReadFunction(lua: Interp, index: int) returns (r: Reads.Checked<LuaFunction>)
    ensures r.Panic? <==> index != -1
    ensures r.Value? <==> index == -1 && TypeAt(lua.st, -1) == TFUNCTION
    ensures r.Value? ==> r.v.lua == lua
  {
    if index != -1 {
      return Reads.Panic;
    }
    if IsFunction(lua.st, -1) {
      var f := new LuaFunction(lua);
      r := Reads.Value(f);
    } else {
      r := Reads.Nothing;
    }
  }

  /** A chunk that loads leaves on top a slot that reads as a LuaFunction. */
  lemma LoadedChunkIsFunction(st: State, source: seq<ReadStep>, verdict: LoadVerdict)
    ensures var (s, res) := LoadThrough(st, source, verdict);
      res == LoadOk ==> TypeAt(s, -1) == TFUNCTION
  {
  }

  // ---------------------------------------------------------------------
  // The callback wrapper (functions_write.rs)
  // ---------------------------------------------------------------------

  /** "wrong parameter types for callback function" */
  const WRONG_PARAMETERS: Bytes := [
    0x77, 0x72, 0x6f, 0x6e, 0x67, 0x20, 0x70, 0x61, 0x72, 0x61, 0x6d, 0x65, 0x74, 0x65, 0x72,
    0x20, 0x74, 0x79, 0x70, 0x65, 0x73, 0x20, 0x66, 0x6f, 0x72, 0x20, 0x63, 0x61, 0x6c, 0x6c,
    0x62, 0x61, 0x63, 0x6b, 0x20, 0x66, 0x75, 0x6e, 0x63, 0x74, 0x69, 0x6f, 0x6e]

  /** The running C closure's first upvalue is a userdata boxing a host closure. */
  predicate BoxesCallback(st: State)
  {
    var u := Slot(st, UpvalueIndex(1));
    u.Some? && u.value.Userdata? && u.value.id in st.heap
    && st.heap[u.value.id].UserdataObj? && st.heap[u.value.id].payload.BoxedCallback?
  }

  /** lua_touserdata(lua_upvalueindex(1)): the closure boxed in the first upvalue. */
  function BoxedCallbackOf(st: State): Callback
    requires BoxesCallback(st)
  {
    st.heap[Slot(st, UpvalueIndex(1)).value.id].payload.cb
  }

  /** The frame in which the interpreter runs the wrapper of `cb`. */
  predicate WrapperFrame(st: State, cb: Callback)
  {
    BoxesCallback(st) && BoxedCallbackOf(st) == cb
  }

  /** How the wrapper ends: it returns the number of values it pushed, or raises a Lua error
      with the message on top, or panics. */
  datatype WrapperEnd = Results(n: nat) | RaisedError(message: Bytes) | WrapperPanic

  /** The wrapper, on the frame `st` and the closure's captured state `env`: the arguments
      are the whole stack, read as the closure's parameter types from -argc (so the first
      argument is the bottom slot).  When they do not read, the message is pushed and raised
      and the closure is not called.  Otherwise the closure runs on them and its result is
      pushed; a failed push panics.  Yields the new frame, the end, and the closure's new
      captured state. */
  function WrapperSpec(st: State, cb: Callback, env: int): (r: (State, WrapperEnd, int))
  {
    var (s1, args) := Reads.ReadAt(st, cb.ArgsTy(), -|st.stack|);
    match args
    case None => (Push(s1, Str(WRONG_PARAMETERS)), RaisedError(WRONG_PARAMETERS), env)
    case Some(a) =>
      var (env', ret) := cb.body(env, Components(a, |cb.params|));
      var p := PushSpec(s1, ret);
      (p.st, if p.out.Pushed? then Results(p.out.n) else WrapperPanic, env')
  }

  /** The C function Lua calls for a wrapped closure. */
  method Wrapper(lua: Interp, cb: Callback) returns (r: WrapperEnd)
    requires WrapperFrame(lua.st, cb)
    modifies lua, cb
    ensures var spec := WrapperSpec(old(lua.st), cb, old(cb.env));
      r == spec.1 && cb.env == spec.2 && (!r.WrapperPanic? ==> lua.st == spec.0)
  {
    var data := BoxedCallbackOf(lua.st);
    var argc := |lua.st.stack|;
    var read := Reads.ReadAt(lua.st, data.ArgsTy(), -argc);
    lua.st := read.0;
    if read.1.None? {
      lua.st := Push(lua.st, Str(WRONG_PARAMETERS));
      return RaisedError(WRONG_PARAMETERS);
    }
    var ret := data.CallMut(read.1.value);
    var out := Marshal.PushValue(lua, ret);
    r := if out.Pushed? then Results(out.n) else WrapperPanic;
  }

  /** Arguments that do not read as the closure's parameters raise the message, and the
      closure is not called: its captured state is untouched. */
  lemma BadArgumentsSkipClosure(st: State, cb: Callback, env: int)
    requires Reads.Read(st, cb.ArgsTy(), -|st.stack|).None?
    ensures var (s, end, env') := WrapperSpec(st, cb, env);
      end == RaisedError(WRONG_PARAMETERS) && env' == env
      && |s.stack| == |st.stack| + 1 && Top(s) == Str(WRONG_PARAMETERS)
  {
  }

  /** add(3, "aaa") for a closure of two i32 parameters: the second argument is no number,
      so the call raises the message without running the closure. */
  lemma AddRejectsText(st: State, cb: Callback, env: int)
    requires cb.params == [TInt(I32), TInt(I32)]
    requires st.stack == [Num(3.0), Str([0x61, 0x61, 0x61])]
    ensures WrapperSpec(st, cb, env).1 == RaisedError(WRONG_PARAMETERS)
    ensures WrapperSpec(st, cb, env).2 == env
  {
    Reads.LettersDoNotReadAsInt(st, -1, I32);
    var ty := TTuple([TInt(I32), TInt(I32)]);
    assert Reads.ReadAt(st, TInt(I32), -2 + 1).1 == None;
    assert Reads.ReadParts(st, ty, -2, 1).1 == None;
    assert Reads.ReadParts(st, ty, -2, 0).1 == None;
    BadArgumentsSkipClosure(st, cb, env);
  }

  /** The first argument binds to the first parameter: two numbers a and b on the stack
      reach a closure of two i32 parameters as [a, b]. */
  lemma ArgumentsBindInOrder(st: State, cb: Callback, env: int, a: int, b: int)
    requires cb.params == [TInt(I32), TInt(I32)]
    requires InRange(I32, a) && InRange(I32, b)
    requires st.stack == [Num(a as real), Num(b as real)]
    ensures Reads.Read(st, cb.ArgsTy(), -2) == Some(Tuple([Int(I32, a), Int(I32, b)]))
    ensures WrapperSpec(st, cb, env).2 == cb.body(env, [Int(I32, a), Int(I32, b)]).0
  {
    ReadTwoInts(st, a, b);
  }

  /** Reading (i32, i32) from -2 over the stack [a, b]. */
  lemma ReadTwoInts(st: State, a: int, b: int)
    requires InRange(I32, a) && InRange(I32, b)
    requires st.stack == [Num(a as real), Num(b as real)]
    ensures Reads.ReadAt(st, TTuple([TInt(I32), TInt(I32)]), -2) == (st, Some(Tuple([Int(I32, a), Int(I32, b)])))
  {
    var ty := TTuple([TInt(I32), TInt(I32)]);
    Reads.IntegralNumberReads(st, I32, a, -2);
    Reads.IntegralNumberReads(st, I32, b, -1);
    ReadTwoParts(st, ty, Int(I32, a), Int(I32, b));
  }

  /** A two-component tuple whose components each read without touching the state. */
  lemma ReadTwoParts(st: State, ty: HostTy, x: HostVal, y: HostVal)
    requires ty.TTuple? && |ty.items| == 2
    requires Reads.ReadAt(st, ty.items[0], -2) == (st, Some(x))
    requires Reads.ReadAt(st, ty.items[1], -1) == (st, Some(y))
    ensures Reads.ReadParts(st, ty, -2, 0) == (st, Some([x, y]))
  {
    assert Reads.ReadParts(st, ty, -2, 2) == (st, Some([]));
    assert [y] + [] == [y];
    assert Reads.ReadParts(st, ty, -2, 1) == (st, Some([y]));
    assert [x] + [y] == [x, y];
  }

  /** The wrapper returns the number of values the result pushed, and they sit above the
      frame's slots. */
  lemma ResultCount(st: State, cb: Callback, env: int)
    ensures var (s, end, _) := WrapperSpec(st, cb, env);
      end.Results? ==> |s.stack| == |st.stack| + end.n
  {
  }

  /** A closure returning Err(m) leaves two values, nil and then m, and the wrapper says so. */
  lemma ErrorResultIsNilAndMessage(st: State, cb: Callback, env: int, m: Bytes)
    requires var a := Reads.Read(st, cb.ArgsTy(), -|st.stack|);
      a.Some? && cb.body(env, Components(a.value, |cb.params|)).1 == ResErr(m)
    ensures var (s, end, _) := WrapperSpec(st, cb, env);
      end == Results(2) && |s.stack| == |st.stack| + 2
      && s.stack[|st.stack|] == Nil && s.stack[|st.stack| + 1] == Str(m)
  {
  }

  /** The frame the interpreter opens to call C closure `f` with `args`: the arguments are
      the stack and the closure's upvalues are reachable through the pseudo-indices. */
  function OpenFrame(st: State, f: nat, args: seq<LuaVal>): State
    requires f in st.heap && st.heap[f].FunctionObj? && st.heap[f].closure.CClosure?
  {
    st.(stack := args, env := st.env.(upvalues := st.heap[f].closure.upvalues))
  }

  /** A pushed closure is a C closure of the wrapper, and the frame Lua opens to call it is
      the wrapper's frame for that very closure. */
  lemma PushedClosureCallsBack(st: State, cb: Callback, args: seq<LuaVal>)
    ensures var r := PushFunction(st, cb); var f := st.nextId + 3;
      Top(r) == Function(f) && f in r.heap && r.heap[f].FunctionObj?
      && r.heap[f].closure.CClosure? && r.heap[f].closure.fn == CallbackWrapper
      && WrapperFrame(OpenFrame(r, f, args), cb)
  {
    var r := PushFunction(st, cb);
    var n := st.nextId;
    assert r.heap[n + 3] == FunctionObj(CClosure(CallbackWrapper, [Userdata(n)]));
    assert BoxedHeap(st, cb)[n] == UserdataObj(BoxedCallback(cb), Some(n + 1));
    var fr := OpenFrame(r, n + 3, args);
    assert Slot(fr, UpvalueIndex(1)) == Some(Userdata(n));
  }

  /** The captured state of a closure without parameters after `n` calls from Lua. */
  function EnvAfter(cb: Callback, env: int, n: nat): int
  {
    if n == 0 then env else cb.body(EnvAfter(cb, env, n - 1), []).0
  }

  /** Lua calling a closure without parameters `n` times, each call in a frame like `frame`
      (no argument, the closure's userdata as upvalue): every call runs the closure once, on
      the captured state the previous call left, until a call panics. */
  method CallFromLua(lua: Interp, cb: Callback, frame: State, n: nat) returns (done: nat)
    requires WrapperFrame(frame, cb) && frame.stack == [] && cb.params == []
    modifies lua, cb
    ensures done <= n && cb.env == EnvAfter(cb, old(cb.env), done)
  {
    ghost var env0 := cb.env;
    done := 0;
    while done < n
      invariant done <= n && cb.env == EnvAfter(cb, env0, done)
    {
      lua.st := frame;
      assert Reads.ReadAt(frame, TUnit, 0) == (frame, Some(Unit));
      var r := Wrapper(lua, cb);
      done := done + 1;
      if r.WrapperPanic? {
        return;
      }
    }
  }

  /** A closure that adds one to its captured state on every call, called n times, adds n. */
  lemma {:induction false} IncrementsAccumulate(cb: Callback, env: int, n: nat)
    requires forall e: int :: cb.body(e, []).0 == e + 1
    ensures EnvAfter(cb, env, n) == env + n
  {
    if n > 0 {
      IncrementsAccumulate(cb, env, n - 1);
    }
  }

  /** `a += 1` captured from a = 5 and called 15 times leaves a = 20. */
  lemma FifteenIncrementsFromFive(cb: Callback)
    requires forall e: int :: cb.body(e, []).0 == e + 1
    ensures EnvAfter(cb, 5, 15) == 20
  {
    IncrementsAccumulate(cb, 5, 15);
  }
}
