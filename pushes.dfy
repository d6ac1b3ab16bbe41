/** What pushing a host value does to the interpreter: one specification function per Push
    implementation, on the State of LuaApi.  The imperative pushes of Marshal are proved to
    follow these functions step by step. */
module Pushes {
  import opened Base
  import opened Values
  import opened LuaApi
  import opened Host
  import Any
  import AnyHashable
  import Reads
  import ChunkReader

  /** How a push ends: the number of slots it left (the size of its PushGuard), the error it
      reported, or a panic.  Nothing is said about the state a panic leaves behind. */
  datatype Outcome = Pushed(n: nat) | Failed(e: PushErr) | Panicked

  datatype PushRes = PushRes(st: State, out: Outcome)

  /** What every push keeps: allocated objects stay allocated, ids only grow, and the
      registry, the globals table and the running closure's upvalues stay where they are. */
  predicate Keeps(a: State, b: State)
  {
    b.nextId >= a.nextId && a.heap.Keys <= b.heap.Keys && b.env == a.env
  }

  /** `b` is `a` with `n` more slots on top of the stack. */
  predicate Grown(a: State, b: State, n: nat)
  {
    |b.stack| == |a.stack| + n && b.stack[..|a.stack|] == a.stack
  }

  /** The type-id hlua stores under "__typeid" and the address of T's destructor are opaque;
      the destructor is pushed as this light userdata. */
  const DESTRUCTOR_TAG: nat := 0

  // ---------------------------------------------------------------------
  // Storing into the table under construction (rust_tables.rs)
  // ---------------------------------------------------------------------

  /** An element that pushed one value is stored under its 1-based position: the index is
      pushed, lua_insert(-2) moves it under the value, lua_settable(-3) stores the pair. */
  function StoreAt(s: State, index: nat): (r: State)
    requires |s.stack| >= 2 && TableAt(s, -2)
    ensures r.stack == s.stack[..|s.stack| - 1]
    ensures Keeps(s, r)
    ensures var id := s.stack[|s.stack| - 2].id;
      EntriesOf(r, id) == Store(EntriesOf(s, id), Num(index as real), Top(s))
      && r.heap == s.heap[id := TableObj(EntriesOf(r, id), MetaOf(s, id))]
  {
    var s1 := Push(s, Num(index as real));
    var s2 := Insert(s1, -2);
    assert s2.stack == s.stack[..|s.stack| - 1] + [Num(index as real), Top(s)];
    SetTable(s2, -3)
  }

  /** An element that pushed a key and a value is stored with lua_settable(-3); a nil key
      raises a Lua error outside protected mode, which is a panic. */
  function StorePair(s: State): (r: Option<State>)
    requires |s.stack| >= 3 && TableAt(s, -3)
    ensures r.Some? <==> s.stack[|s.stack| - 2] != Nil
    ensures r.Some? ==> r.value.stack == s.stack[..|s.stack| - 2] && Keeps(s, r.value)
    ensures r.Some? ==> var id := s.stack[|s.stack| - 3].id;
      EntriesOf(r.value, id) == Store(EntriesOf(s, id), s.stack[|s.stack| - 2], Top(s))
      && r.value.heap == s.heap[id := TableObj(EntriesOf(r.value, id), MetaOf(s, id))]
  {
    if s.stack[|s.stack| - 2] == Nil then None else Some(SetTable(s, -3))
  }

  /** The table under construction sits on top of `t0`. */
  predicate Building(t0: State)
  {
    |t0.stack| >= 1 && Top(t0).Table?
  }

  /** A step that leaves the stack as it found it, so the table is still on top. */
  lemma KeepsTable(t0: State, s: State)
    requires Building(t0) && s.stack == t0.stack
    ensures Building(s) && Top(s) == Top(t0)
  {
  }

  // ---------------------------------------------------------------------
  // The pushes
  // ---------------------------------------------------------------------

  /** Pushing `v` (Push::push_to_lua for the type of `v`). */
  function PushSpec(st: State, v: HostVal): (r: PushRes)
    requires Pushable(v)
    ensures r.out.Pushed? ==> Grown(st, r.st, r.out.n)
    ensures r.out.Failed? ==> r.st.stack == st.stack
    ensures Infallible(v) ==> !r.out.Failed?
    ensures Keeps(st, r.st)
    decreases v, 4
  {
    match v
    case Int(_, i) => PushRes(Push(st, Num(i as real)), Pushed(1))
    case Float(x) => PushRes(Push(st, Num(x)), Pushed(1))
    case Text(s) => PushRes(Push(st, Str(s)), Pushed(1))
    case AnyString(b) => PushRes(Push(st, Str(b)), Pushed(1))
    case Boolean(b) => PushRes(Push(st, Bool(b)), Pushed(1))
    case Unit => PushRes(st, Pushed(0))
    case ResOk(x) => PushSpec(st, x)
    case ResErr(m) => PushRes(Push(Push(st, Nil), Str(m)), Pushed(2))
    case _ => PushNested(st, v)
  }

  /** The pushes that call back into the interpreter: tuples, functions, code and the
      values that build a table or a userdata. */
  function PushNested(st: State, v: HostVal): (r: PushRes)
    requires Pushable(v)
    requires v.Tuple? || v.Func? || v.Code? || v.AnyVal? || v.Hashable? || v.Seq? || v.Dict? || v.Set? || v.UserValue?
    ensures r.out.Pushed? ==> Grown(st, r.st, r.out.n)
    ensures r.out.Failed? ==> r.st.stack == st.stack
    ensures Infallible(v) ==> !r.out.Failed?
    ensures Keeps(st, r.st)
    decreases v, 3
  {
    match v
    case Tuple(_) => PartsFrom(st, v, 0)
    case Func(cb) => PushRes(PushFunction(st, cb), Pushed(1))
    case Code(_, _) => PushCode(st, v)
    case AnyVal(_) => OneOrPanic(st, PushObject(st, v))
    case Hashable(_) => OneOrPanic(st, PushObject(st, v))
    case Seq(_) => OneOrPanic(st, PushObject(st, v))
    case Dict(_) => OneOrPanic(st, PushObject(st, v))
    case Set(_) => OneOrPanic(st, PushObject(st, v))
    case UserValue(_, _, _) => OneOrPanic(st, PushObject(st, v))
  }

  /** The pushes that build one table or userdata and leave it on top, or panic. */
  function PushObject(st: State, v: HostVal): (r: Option<State>)
    requires Pushable(v) && (v.AnyVal? || v.Hashable? || v.Seq? || v.Dict? || v.Set? || v.UserValue?)
    ensures r.Some? ==> Grown(st, r.value, 1) && Keeps(st, r.value)
    ensures r.Some? && (v.Seq? || v.Dict? || v.Set?) ==> Top(r.value) == Table(st.nextId)
    ensures r.Some? && v.UserValue? ==> Top(r.value) == Userdata(st.nextId)
    decreases v, 2
  {
    match v
    case AnyVal(a) => AnyPush(st, a)
    case Hashable(h) => HashPush(st, h)
    case Seq(items) => SeqFold(NewTable(st), v, 0)
    case Dict(entries) => DictFold(NewTable(st), v, 0)
    case Set(members) => SetFold(NewTable(st), v, 0)
    case UserValue(_, _, _) => PushUserdata(st, v)
  }

  /** A push that leaves one slot, or panics. */
  function OneOrPanic(st: State, s: Option<State>): (r: PushRes)
    requires s.Some? ==> Grown(st, s.value, 1) && Keeps(st, s.value)
    ensures r.out == (if s.Some? then Pushed(1) else Panicked)
    ensures s.Some? ==> r.st == s.value
    ensures s.None? ==> r.st == st
  {
    if s.Some? then PushRes(s.value, Pushed(1)) else PushRes(st, Panicked)
  }

  /** Two pushes in a row grow the stack by the sum of their sizes. */
  lemma GrownThen(a: State, b: State, n: nat, p: PushRes)
    requires Grown(a, b, n) && (p.out.Pushed? ==> Grown(b, p.st, p.out.n))
    ensures p.out.Pushed? ==> Grown(a, p.st, n + p.out.n)
  {
    if p.out.Pushed? {
      assert p.st.stack[..|a.stack|] == p.st.stack[..|b.stack|][..|a.stack|];
    }
  }

  /** push_iter (Vec and slices): the elements from `i` on stored in the table on top of
      `s`, element `i` under the index i + 1.  An element that pushes nothing is skipped but
      uses up its index. */
  function SeqFold(s: State, v: HostVal, i: nat): (r: Option<State>)
    requires v.Seq? && Pushable(v) && i <= |v.items| && Building(s)
    ensures r.Some? ==> r.value.stack == s.stack && Keeps(s, r.value)
    decreases v, 0, |v.items| - i
  {
    if i == |v.items| then Some(s)
    else
      assert Infallible(v.items[i]) && Pushable(v.items[i]);
      match StoreSlots(s, PushSpec(s, v.items[i]), i + 1)
      case None => None
      case Some(s2) => SeqFold(s2, v, i + 1)
  }

  /** What push_iter does with the slots one element left above the table on top of `s`:
      nothing for none, one is stored under the element's 1-based `index`, two are a key and
      a value, and any other count is unreachable (a panic). */
  function StoreSlots(s: State, p: PushRes, index: nat): (r: Option<State>)
    requires Building(s) && Keeps(s, p.st) && (p.out.Pushed? ==> Grown(s, p.st, p.out.n))
    ensures r.Some? ==> r.value.stack == s.stack && Keeps(s, r.value)
    ensures r.Some? <==>
      p.out.Pushed? && (p.out.n == 0 || p.out.n == 1 || (p.out.n == 2 && p.st.stack[|s.stack|] != Nil))
  {
    if !p.out.Pushed? then None
    else if p.out.n == 0 then
      assert p.st.stack == p.st.stack[..|s.stack|];
      Some(p.st)
    else if p.out.n == 1 then
      assert p.st.stack[|s.stack| - 1] == s.stack[|s.stack| - 1];
      assert p.st.stack[..|p.st.stack| - 1] == s.stack;
      Some(StoreAt(p.st, index))
    else if p.out.n == 2 then
      assert p.st.stack[|s.stack| - 1] == s.stack[|s.stack| - 1];
      assert p.st.stack[..|p.st.stack| - 2] == s.stack;
      StorePair(p.st)
    else None
  }

  /** push_rec_iter over a HashMap: the entries from `i` on, each pushed as the pair
      (key, value) and stored in the table on top of `s`. */
  function DictFold(s: State, v: HostVal, i: nat): (r: Option<State>)
    requires v.Dict? && Pushable(v) && i <= |v.entries| && Building(s)
    ensures r.Some? ==> r.value.stack == s.stack && Keeps(s, r.value)
    decreases v, 0, |v.entries| - i
  {
    if i == |v.entries| then Some(s)
    else
      assert v.entries[i] in v.entries;
      match PairStep(s, v.entries[i])
      case None => None
      case Some(s2) => DictFold(s2, v, i + 1)
  }

  /** One entry of push_rec_iter: the key, then the value, then PairSlots. */
  function PairStep(s: State, e: (HostVal, HostVal)): (r: Option<State>)
    requires Pushable(e.0) && Infallible(e.0) && Pushable(e.1) && Infallible(e.1) && Building(s)
    ensures r.Some? ==> r.value.stack == s.stack && Keeps(s, r.value)
    decreases e, 3
  {
    var pk := PushSpec(s, e.0);
    if !pk.out.Pushed? then None
    else
      var pv := PushSpec(pk.st, e.1);
      GrownThen(s, pk.st, pk.out.n, pv);
      PairSlots(s, pk.out.n, pv)
  }

  /** What push_rec_iter does with a pair whose key left `k` slots and whose value push
      ended as `pv`: a pair of no slots is skipped, a pair of two is stored with
      lua_settable(-3), any other size is unreachable (a panic). */
  function PairSlots(s: State, k: nat, pv: PushRes): (r: Option<State>)
    requires Building(s) && Keeps(s, pv.st) && (pv.out.Pushed? ==> Grown(s, pv.st, k + pv.out.n))
    ensures r.Some? ==> r.value.stack == s.stack && Keeps(s, r.value)
    ensures r.Some? <==>
      pv.out.Pushed? && (k + pv.out.n == 0 || (k + pv.out.n == 2 && pv.st.stack[|s.stack|] != Nil))
  {
    if !pv.out.Pushed? then None
    else if k + pv.out.n == 0 then
      assert pv.st.stack == pv.st.stack[..|s.stack|];
      Some(pv.st)
    else if k + pv.out.n == 2 then
      assert pv.st.stack[|s.stack| - 1] == s.stack[|s.stack| - 1];
      assert pv.st.stack[..|pv.st.stack| - 2] == s.stack;
      StorePair(pv.st)
    else None
  }

  /** push_rec_iter over a HashSet: the members from `i` on, each pushed with `true` as its
      value. */
  function SetFold(s: State, v: HostVal, i: nat): (r: Option<State>)
    requires v.Set? && Pushable(v) && i <= |v.members| && Building(s)
    ensures r.Some? ==> r.value.stack == s.stack && Keeps(s, r.value)
    decreases v, 0, |v.members| - i
  {
    if i == |v.members| then Some(s)
    else
      assert v.members[i] in v.members;
      match MemberSlots(s, PushSpec(s, v.members[i]))
      case None => None
      case Some(s2) => SetFold(s2, v, i + 1)
  }

  /** A member that left one slot is paired with `true` and stored; any other size makes a
      pair of the wrong size (a panic), and so does a nil member. */
  function MemberSlots(s: State, p: PushRes): (r: Option<State>)
    requires Building(s) && Keeps(s, p.st) && (p.out.Pushed? ==> Grown(s, p.st, p.out.n))
    ensures r.Some? ==> r.value.stack == s.stack && Keeps(s, r.value)
    ensures r.Some? <==> p.out == Pushed(1) && Top(p.st) != Nil
  {
    if p.out != Pushed(1) then None
    else
      var pv := Push(p.st, Bool(true));
      assert pv.stack[|s.stack| - 1] == s.stack[|s.stack| - 1];
      assert pv.stack[..|pv.stack| - 2] == s.stack;
      StorePair(pv)
  }

  /** The parts of a tuple from `i` on, pushed as tuples_impl nests them: (A, B, ...) pushes
      A and then the tuple (B, ...), a 1-tuple is pushed as its element and the empty tuple
      pushes nothing.  A failure of A is First of A's error, a failure in the rest is Other
      of the rest's error, and then the slots A left are popped, so a failed push leaves the
      stack as it found it. */
  function PartsFrom(st: State, v: HostVal, i: nat): (r: PushRes)
    requires v.Tuple? && Pushable(v) && i <= |v.parts|
    ensures r.out.Pushed? ==> Grown(st, r.st, r.out.n)
    ensures r.out.Failed? ==> r.st.stack == st.stack
    ensures Infallible(v) ==> !r.out.Failed?
    ensures Keeps(st, r.st)
    decreases v, 0, |v.parts| - i
  {
    if i == |v.parts| then PushRes(st, Pushed(0))
    else
      assert v.parts[i] in v.parts;
      var p := PushSpec(st, v.parts[i]);
      if i == |v.parts| - 1 then p
      else
        match p.out
        case Failed(e) => PushRes(p.st, Failed(TupleFirst(e)))
        case Panicked => PushRes(st, Panicked)
        case Pushed(n) =>
          var rest := PartsFrom(p.st, v, i + 1);
          GrownThen(st, p.st, n, rest);
          match rest.out
          case Pushed(m) => PushRes(rest.st, Pushed(n + m))
          case Failed(e) =>
            assert rest.st.stack[..|rest.st.stack| - n] == st.stack;
            PushRes(Pop(rest.st, n), Failed(TupleOther(e)))
          case Panicked => PushRes(st, Panicked)
  }

  // ---------------------------------------------------------------------
  // AnyLuaValue and AnyHashableLuaValue (any.rs)
  // ---------------------------------------------------------------------

  /** Pushing an AnyLuaValue: one slot, a table built from the pairs of a LuaArray (each
      pair pushed as a 2-tuple and stored), and a panic for LuaOther. */
  function AnyPush(st: State, a: Any.AnyLuaValue): (r: Option<State>)
    ensures r.Some? ==> Grown(st, r.value, 1) && Keeps(st, r.value)
    ensures a.LuaOther? ==> r.None?
    ensures !a.LuaOther? && !a.LuaArray? ==> r.Some?
    decreases a, 1
  {
    match a
    case LuaString(s) => Some(Push(st, Str(s)))
    case LuaAnyString(b) => Some(Push(st, Str(b)))
    case LuaNumber(n) => Some(Push(st, Num(n)))
    case LuaBoolean(b) => Some(Push(st, Bool(b)))
    case LuaNil => Some(Push(st, Nil))
    case LuaOther => None
    case LuaArray(_) => AnyArrayFold(NewTable(st), a, 0)
  }

  function AnyArrayFold(s: State, a: Any.AnyLuaValue, i: nat): (r: Option<State>)
    requires a.LuaArray? && i <= |a.pairs| && Building(s)
    ensures r.Some? ==> r.value.stack == s.stack && Keeps(s, r.value)
    decreases a, 0, |a.pairs| - i
  {
    if i == |a.pairs| then Some(s)
    else
      assert a.pairs[i] in a.pairs;
      match AnyPairStep(s, a.pairs[i])
      case None => None
      case Some(s2) => AnyArrayFold(s2, a, i + 1)
  }

  /** One pair of the array: key, then value, then lua_settable(-3). */
  function AnyPairStep(s: State, e: (Any.AnyLuaValue, Any.AnyLuaValue)): (r: Option<State>)
    requires Building(s)
    ensures r.Some? ==> r.value.stack == s.stack && Keeps(s, r.value)
    decreases e, 2
  {
    match AnyPush(s, e.0)
    case None => None
    case Some(sk) =>
      match AnyPush(sk, e.1)
      case None => None
      case Some(sv) =>
        assert sv.stack[|s.stack| - 1] == s.stack[|s.stack| - 1];
        StorePair(sv)
  }

  /** Pushing an AnyHashableLuaValue: the same, with integer numbers. */
  function HashPush(st: State, h: AnyHashable.AnyHashableLuaValue): (r: Option<State>)
    ensures r.Some? ==> Grown(st, r.value, 1) && Keeps(st, r.value)
    ensures h.LuaOther? ==> r.None?
    ensures !h.LuaOther? && !h.LuaArray? ==> r.Some?
    decreases h, 1
  {
    match h
    case LuaString(s) => Some(Push(st, Str(s)))
    case LuaAnyString(b) => Some(Push(st, Str(b)))
    case LuaNumber(i) => Some(Push(st, Num(i as real)))
    case LuaBoolean(b) => Some(Push(st, Bool(b)))
    case LuaNil => Some(Push(st, Nil))
    case LuaOther => None
    case LuaArray(_) => HashArrayFold(NewTable(st), h, 0)
  }

  function HashArrayFold(s: State, h: AnyHashable.AnyHashableLuaValue, i: nat): (r: Option<State>)
    requires h.LuaArray? && i <= |h.pairs| && Building(s)
    ensures r.Some? ==> r.value.stack == s.stack && Keeps(s, r.value)
    decreases h, 0, |h.pairs| - i
  {
    if i == |h.pairs| then Some(s)
    else
      assert h.pairs[i] in h.pairs;
      match HashPairStep(s, h.pairs[i])
      case None => None
      case Some(s2) => HashArrayFold(s2, h, i + 1)
  }

  /** One pair of the array: key, then value, then lua_settable(-3). */
  function HashPairStep(s: State, e: (AnyHashable.AnyHashableLuaValue, AnyHashable.AnyHashableLuaValue)): (r: Option<State>)
    requires Building(s)
    ensures r.Some? ==> r.value.stack == s.stack && Keeps(s, r.value)
    decreases e, 2
  {
    match HashPush(s, e.0)
    case None => None
    case Some(sk) =>
      match HashPush(sk, e.1)
      case None => None
      case Some(sv) =>
        assert sv.stack[|s.stack| - 1] == s.stack[|s.stack| - 1];
        StorePair(sv)
  }

  // ---------------------------------------------------------------------
  // Functions, code and userdata
  // ---------------------------------------------------------------------

  /** Pushing a wrapped closure (functions_write.rs): the closure boxed in a fresh userdata
      whose metatable's "__gc" runs its destructor, then a C closure of the wrapper with that
      userdata as its only upvalue.  Four objects are allocated: the userdata, its
      metatable, the destructor and the wrapper. */
  function PushFunction(st: State, cb: Callback): (r: State)
    ensures var n := st.nextId;
      r.stack == st.stack + [Function(n + 3)] && r.nextId == n + 4 && Keeps(st, r)
      && r.heap == BoxedHeap(st, cb)[n + 3 := FunctionObj(CClosure(CallbackWrapper, [Userdata(n)]))]
  {
    var s6 := BoxedClosure(st, cb);
    assert s6.stack[|s6.stack| - 1..] == [Userdata(st.nextId)];
    PushCClosure(s6, CallbackWrapper, 1)
  }

  /** The heap once a closure is boxed: its userdata, whose metatable holds "__gc", and the
      destructor. */
  function BoxedHeap(st: State, cb: Callback): (h: map<nat, Obj>)
    ensures var n := st.nextId;
      h.Keys == st.heap.Keys + {n, n + 1, n + 2}
      && h[n] == UserdataObj(BoxedCallback(cb), Some(n + 1))
      && h[n + 1] == TableObj([(GC_KEY, Function(n + 2))], None)
      && h[n + 2] == FunctionObj(CClosure(ClosureDestructor, []))
  {
    var n := st.nextId;
    st.heap[n := UserdataObj(BoxedCallback(cb), None)]
           [n + 1 := TableObj([], None)]
           [n + 2 := FunctionObj(CClosure(ClosureDestructor, []))]
           [n + 1 := TableObj([(GC_KEY, Function(n + 2))], None)]
           [n := UserdataObj(BoxedCallback(cb), Some(n + 1))]
  }

  /** The closure's userdata with its "__gc" metatable attached, on top. */
  function BoxedClosure(st: State, cb: Callback): (r: State)
    ensures var n := st.nextId;
      r == st.(stack := st.stack + [Userdata(n)], heap := BoxedHeap(st, cb), nextId := n + 3)
  {
    var n := st.nextId;
    var s5 := SetGcDestructor(NewBox(st, BoxedCallback(cb)), n + 1);
    SetMetatable(s5, -2)
  }

  /** lua_newuserdata then lua_newtable: a fresh userdata and, above it, its future
      metatable. */
  function NewBox(st: State, p: Payload): (r: State)
    ensures var n := st.nextId;
      r == st.(stack := st.stack + [Userdata(n), Table(n + 1)],
               heap := st.heap[n := UserdataObj(p, None)][n + 1 := TableObj([], None)],
               nextId := n + 2)
  {
    NewTable(NewUserdata(st, p))
  }

  /** The "__gc" entry of a closure's metatable: the key, lua_pushcfunction of the
      destructor, lua_settable(-3) on the fresh metatable on top. */
  function SetGcDestructor(s: State, t: nat): (r: State)
    requires |s.stack| >= 1 && Top(s) == Table(t) && t in s.heap && s.heap[t] == TableObj([], None)
    requires t != s.nextId
    ensures var n := s.nextId;
      r == s.(heap := s.heap[n := FunctionObj(CClosure(ClosureDestructor, []))]
                            [t := TableObj([(GC_KEY, Function(n))], None)],
              nextId := n + 1)
  {
    var n := s.nextId;
    var gc := GC_KEY;
    var s3 := Push(s, gc);
    assert s3.stack[|s3.stack|..] == [] && s3.stack[..|s3.stack| - 0] == s3.stack;
    var s4 := PushCClosure(s3, ClosureDestructor, 0);
    assert s4 == s.(stack := s.stack + [gc, Function(n)],
                    heap := s.heap[n := FunctionObj(CClosure(ClosureDestructor, []))], nextId := n + 1);
    assert Store([], gc, Function(n)) == [(gc, Function(n))];
    SetTable(s4, -3)
  }

  /** What lua_load's status becomes (LuaCodeFromReader::push_to_lua, and load_from_reader in
      both revisions): a recorded read error wins over the status; LUA_OK keeps the function;
      otherwise the message is read as a String (a panic when it cannot be), LUA_ERRMEM and
      every status other than LUA_ERRSYNTAX panic, and LUA_ERRSYNTAX is a SyntaxError. */
  datatype LoadResult = LoadOk | LoadErr(err: LuaError) | LoadPanic

  function LoadResultOf(err: Option<IoError>, status: int, message: Option<Bytes>): (r: LoadResult)
    ensures err.Some? ==> r == LoadErr(ReadError(err.value))
    ensures err.None? ==> (r == LoadOk <==> status == LUA_OK)
    ensures err.None? && r.LoadErr? ==> r.err.SyntaxError? && status == LUA_ERRSYNTAX
    ensures err.None? && status == LUA_ERRSYNTAX && message.Some? ==> r == LoadErr(SyntaxError(message.value))
    ensures status == LUA_ERRMEM && err.None? ==> r == LoadPanic
  {
    if err.Some? then LoadErr(ReadError(err.value))
    else if status == LUA_OK then LoadOk
    else if message.None? then LoadPanic
    else if status == LUA_ERRMEM then LoadPanic
    else if status == LUA_ERRSYNTAX then LoadErr(SyntaxError(message.value))
    else LoadPanic
  }

  /** lua_load through the chunk reader: the bytes the reader delivers are loaded, leaving one
      slot; on an error that slot is popped again. */
  function LoadThrough(st: State, source: seq<ReadStep>, verdict: LoadVerdict): (r: (State, LoadResult))
    ensures r.1 == LoadOk ==> Grown(st, r.0, 1) && Top(r.0).Function?
    ensures r.1.LoadErr? ==> r.0.stack == st.stack
    ensures Keeps(st, r.0)
  {
    var (code, err) := ChunkReader.ReadAll(source, None);
    var loaded := Load(st, code, verdict);
    var res := LoadResultOf(err, verdict.status, Reads.TextOf(Slot(loaded, -1)));
    match res
    case LoadOk => (loaded, LoadOk)
    case LoadErr(e) => (Pop(loaded, 1), res)
    case LoadPanic => (st, LoadPanic)
  }

  function PushCode(st: State, v: HostVal): (r: PushRes)
    requires v.Code?
    ensures r.out.Pushed? ==> r.out.n == 1 && Grown(st, r.st, 1)
    ensures r.out.Failed? ==> r.st.stack == st.stack
    ensures Keeps(st, r.st)
  {
    var (s, res) := LoadThrough(st, v.source, v.verdict);
    match res
    case LoadOk => PushRes(s, Pushed(1))
    case LoadErr(e) => PushRes(s, Failed(LoadFailed(e)))
    case LoadPanic => PushRes(st, Panicked)
  }

  /** push_userdata: the data boxed in a fresh userdata; a fresh metatable receives
      "__typeid" (the type's id string) and "__gc" (a C closure over the destructor), then
      the caller's assignments, and is attached last. */
  function PushUserdata(st: State, v: HostVal): (r: Option<State>)
    requires v.UserValue? && Pushable(v)
    ensures r.Some? ==> r.value.stack == st.stack + [Userdata(st.nextId)] && Keeps(st, r.value)
    decreases v, 1
  {
    TypedBoxShape(st, v.typeId, v.token);
    match MetaFold(TypedBox(st, v.typeId, v.token), v, 0)
    case None => None
    case Some(s8) => Some(Attach(st, s8))
  }

  /** lua_setmetatable(-2): the metatable on top goes to the userdata below it. */
  function Attach(st: State, s8: State): (r: State)
    requires var n := st.nextId; s8.stack == st.stack + [Userdata(n), Table(n + 1)] && n in s8.heap
    ensures var n := st.nextId;
      r == s8.(stack := st.stack + [Userdata(n)], heap := s8.heap[n := WithMeta(s8.heap[n], Some(n + 1))])
    ensures var n := st.nextId; s8.heap[n].UserdataObj? ==> MetaOf(r, n) == Some(n + 1)
    ensures var n := st.nextId; EntriesOf(r, n + 1) == EntriesOf(s8, n + 1)
  {
    assert s8.stack[..|s8.stack| - 1] == st.stack + [Userdata(st.nextId)];
    SetMetatable(s8, -2)
  }

  /** A userdata pushed without metatable assignments: its metatable holds exactly its type
      id under "__typeid" and the destructor under "__gc". */
  lemma BareUserdataMetatable(st: State, v: HostVal)
    requires v.UserValue? && Pushable(v) && v.meta == []
    ensures var r := PushUserdata(st, v); var n := st.nextId;
      r.Some? && MetaOf(r.value, n) == Some(n + 1)
      && EntriesOf(r.value, n + 1) == [(TYPEID_KEY, Str(v.typeId)), (GC_KEY, Function(n + 2))]
  {
    var t0 := TypedBox(st, v.typeId, v.token);
    TypedBoxShape(st, v.typeId, v.token);
    assert MetaFold(t0, v, 0) == Some(t0);
    assert PushUserdata(st, v) == Some(Attach(st, t0));
  }

  const TYPEID_KEY: LuaVal := Str([0x5f, 0x5f, 0x74, 0x79, 0x70, 0x65, 0x69, 0x64])
  const GC_KEY: LuaVal := Str([0x5f, 0x5f, 0x67, 0x63])

  /** A fresh userdata holding `token` and, above it, its metatable holding "__typeid" and
      "__gc", not yet attached. */
  function TypedBox(st: State, typeId: Bytes, token: nat): State
  {
    SetUserdataGc(IdBox(st, typeId, token), st.nextId + 1, typeId)
  }

  /** What TypedBox leaves: the userdata without metatable, and above it the metatable
      holding the type id and the destructor. */
  lemma TypedBoxShape(st: State, typeId: Bytes, token: nat)
    ensures var r := TypedBox(st, typeId, token); var n := st.nextId;
      r.stack == st.stack + [Userdata(n), Table(n + 1)] && Keeps(st, r)
      && n in r.heap && r.heap[n] == UserdataObj(BoxedData(token), None)
      && EntriesOf(r, n + 1) == [(TYPEID_KEY, Str(typeId)), (GC_KEY, Function(n + 2))]
  {
  }

  /** The fresh userdata and its metatable holding "__typeid". */
  function IdBox(st: State, typeId: Bytes, token: nat): (r: State)
    ensures var n := st.nextId;
      r == st.(stack := st.stack + [Userdata(n), Table(n + 1)], heap := IdHeap(st, typeId, token),
               nextId := n + 2)
  {
    SetTypeId(NewBox(st, BoxedData(token)), st.nextId + 1, typeId)
  }

  /** The heap after IdBox, its updates in the order they are made. */
  function IdHeap(st: State, typeId: Bytes, token: nat): (h: map<nat, Obj>)
  {
    var n := st.nextId;
    st.heap[n := UserdataObj(BoxedData(token), None)]
           [n + 1 := TableObj([], None)]
           [n + 1 := TableObj([(TYPEID_KEY, Str(typeId))], None)]
  }

  /** "__typeid" = the type's id string, in the fresh metatable `t` on top. */
  function SetTypeId(s: State, t: nat, typeId: Bytes): (r: State)
    requires |s.stack| >= 1 && Top(s) == Table(t) && t in s.heap && s.heap[t] == TableObj([], None)
    ensures r == s.(heap := s.heap[t := TableObj([(TYPEID_KEY, Str(typeId))], None)])
  {
    assert Store([], TYPEID_KEY, Str(typeId)) == [(TYPEID_KEY, Str(typeId))];
    SetTable(Push(Push(s, TYPEID_KEY), Str(typeId)), -3)
  }

  /** "__gc" = a C closure of the destructor wrapper over the destructor's address. */
  function SetUserdataGc(s: State, t: nat, typeId: Bytes): (r: State)
    requires |s.stack| >= 1 && Top(s) == Table(t) && t in s.heap && t != s.nextId
    requires s.heap[t] == TableObj([(TYPEID_KEY, Str(typeId))], None)
    ensures var n := s.nextId;
      r == s.(heap := s.heap[n := FunctionObj(CClosure(UserdataDestructor, [LightUserdata(DESTRUCTOR_TAG)]))]
                            [t := TableObj([(TYPEID_KEY, Str(typeId)), (GC_KEY, Function(n))], None)],
              nextId := n + 1)
  {
    var n := s.nextId;
    var s6 := DestructorClosure(Push(s, GC_KEY));
    assert GC_KEY != TYPEID_KEY by { assert |GC_KEY.s| != |TYPEID_KEY.s|; }
    var es := [(TYPEID_KEY, Str(typeId))];
    assert KeyIndex(es, GC_KEY) == 1 by { assert es[1..] == []; }
    assert Store(es, GC_KEY, Function(n)) == [(TYPEID_KEY, Str(typeId)), (GC_KEY, Function(n))];
    assert s6.stack[..|s6.stack| - 2] == s.stack;
    SetTable(s6, -3)
  }

  /** lua_pushlightuserdata of the destructor, then lua_pushcclosure(destructor_wrapper, 1). */
  function DestructorClosure(s: State): (r: State)
    ensures var n := s.nextId;
      r == s.(stack := s.stack + [Function(n)],
              heap := s.heap[n := FunctionObj(CClosure(UserdataDestructor, [LightUserdata(DESTRUCTOR_TAG)]))],
              nextId := n + 1)
  {
    var s5 := Push(s, LightUserdata(DESTRUCTOR_TAG));
    assert s5.stack[|s5.stack| - 1..] == [LightUserdata(DESTRUCTOR_TAG)];
    assert s5.stack[..|s5.stack| - 1] == s.stack;
    PushCClosure(s5, UserdataDestructor, 1)
  }


  /** The metatable callback's assignments from `i` on, each a LuaTable::set on the table
      on top of `s`. */
  function MetaFold(s: State, v: HostVal, i: nat): (r: Option<State>)
    requires v.UserValue? && Pushable(v) && i <= |v.meta| && Building(s)
    ensures r.Some? ==> r.value.stack == s.stack && Keeps(s, r.value)
    decreases v, 0, |v.meta| - i
  {
    if i == |v.meta| then Some(s)
    else
      assert v.meta[i] in v.meta;
      match MetaStep(s, v.meta[i])
      case None => None
      case Some(s2) => MetaFold(s2, v, i + 1)
  }

  /** One assignment of the metatable callback (LuaTable::set): the key must push exactly one
      slot before the value is pushed. */
  function MetaStep(s: State, e: (HostVal, HostVal)): (r: Option<State>)
    requires Pushable(e.0) && Infallible(e.0) && Pushable(e.1) && Infallible(e.1) && Building(s)
    ensures r.Some? ==> r.value.stack == s.stack && Keeps(s, r.value)
    decreases e, 3
  {
    var pk := PushSpec(s, e.0);
    if pk.out != Pushed(1) then None
    else
      var pv := PushSpec(pk.st, e.1);
      GrownThen(s, pk.st, 1, pv);
      MetaSlots(s, pv)
  }

  /** The value of an assignment must push exactly one slot too; a nil key is an error. */
  function MetaSlots(s: State, pv: PushRes): (r: Option<State>)
    requires Building(s) && Keeps(s, pv.st) && (pv.out.Pushed? ==> Grown(s, pv.st, 1 + pv.out.n))
    ensures r.Some? ==> r.value.stack == s.stack && Keeps(s, r.value)
    ensures r.Some? <==> pv.out == Pushed(1) && pv.st.stack[|s.stack|] != Nil
  {
    if pv.out != Pushed(1) then None
    else
      assert pv.st.stack[|s.stack| - 1] == s.stack[|s.stack| - 1];
      assert pv.st.stack[..|pv.st.stack| - 2] == s.stack;
      StorePair(pv.st)
  }
}
