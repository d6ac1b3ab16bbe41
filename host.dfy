/** The host side of the bridge: the Rust values hlua can push or read, the types a read
    asks for, host closures, and the errors hlua reports. */
module Host {
  import opened Base
  import Any
  import AnyHashable

  // ---------------------------------------------------------------------
  // Fixed-width integers
  // ---------------------------------------------------------------------

  /** The integer types with a Push/LuaRead implementation (64-bit ones have none). */
  datatype IntKind = I8 | I16 | I32 | U8 | U16 | U32

  function Modulus(k: IntKind): nat
  {
    match k
    case I8 => 0x100
    case U8 => 0x100
    case I16 => 0x1_0000
    case U16 => 0x1_0000
    case I32 => 0x1_0000_0000
    case U32 => 0x1_0000_0000
  }

  /** The smallest value of the type. */
  function Low(k: IntKind): int
  {
    if k.I8? || k.I16? || k.I32? then -(Modulus(k) / 2) else 0
  }

  predicate InRange(k: IntKind, i: int)
  {
    Low(k) <= i < Low(k) + Modulus(k)
  }

  /** Rust's `as` cast from a wider integer: the value modulo 2^width, in the type's range. */
  function Wrap(k: IntKind, i: int): (r: int)
    ensures InRange(k, r)
  {
    var m := Modulus(k);
    Low(k) + (i - Low(k)) % m
  }

  /** A cast leaves a value that already fits unchanged. */
  lemma WrapInRange(k: IntKind, i: int)
    requires InRange(k, i)
    ensures Wrap(k, i) == i
  {
    assert 0 <= i - Low(k) < Modulus(k);
  }

  // ---------------------------------------------------------------------
  // Chunk sources
  // ---------------------------------------------------------------------

  datatype IoError = IoError(code: nat)

  /** What one call of `Read::read` on the host's reader yields: some bytes (none at the end
      of the stream) or an I/O error. */
  datatype ReadStep = Chunk(data: Bytes) | Failure(e: IoError)

  /** The interpreter's verdict on a chunk: lua_load's status code and, when it is not
      LUA_OK, the message it leaves on the stack.  Parsing is not modelled, so the verdict is
      a parameter of the chunk. */
  datatype LoadVerdict = LoadVerdict(status: int, message: Bytes)

  // ---------------------------------------------------------------------
  // Errors
  // ---------------------------------------------------------------------

  /** hlua's LuaError. */
  datatype LuaError =
    | SyntaxError(msg: Bytes)
    | ExecutionError(msg: Bytes)
    | ReadError(e: IoError)
    | WrongType

  /** Why a push failed: loading a chunk can fail, and a tuple says which of its parts did. */
  datatype PushErr =
    | LoadFailed(err: LuaError)
    | TupleFirst(first: PushErr)
    | TupleOther(other: PushErr)

  // ---------------------------------------------------------------------
  // Host types and values
  // ---------------------------------------------------------------------

  /** The Rust type a read asks for. */
  datatype HostTy =
    | TInt(kind: IntKind)
    | TFloat
    | TText
    | TAnyString
    | TBool
    | TUnit
    | TAny
    | THashable
    | TTuple(items: seq<HostTy>)

  /** A Rust value that hlua can push: one variant per Push implementation.
      Seq stands for Vec and slices, Dict for HashMap (distinct keys), Set for HashSet,
      Func for a closure wrapped by functionN, ResOk/ResErr for a callback's Result,
      Code for LuaCode and LuaCodeFromReader, UserValue for a value pushed with
      push_userdata (its type-id string, an opaque token for the Rust data, and the
      assignments its metatable callback makes). */
  datatype HostVal =
    | Int(kind: IntKind, i: int)
    | Float(x: real)
    | Text(s: Bytes)
    | AnyString(bytes: Bytes)
    | Boolean(b: bool)
    | Unit
    | AnyVal(a: Any.AnyLuaValue)
    | Hashable(h: AnyHashable.AnyHashableLuaValue)
    | Seq(items: seq<HostVal>)
    | Dict(entries: seq<(HostVal, HostVal)>)
    | Set(members: seq<HostVal>)
    | Tuple(parts: seq<HostVal>)
    | Func(cb: Callback)
    | ResOk(ok: HostVal)
    | ResErr(message: Bytes)
    | Code(source: seq<ReadStep>, verdict: LoadVerdict)
    | UserValue(typeId: Bytes, token: nat, meta: seq<(HostVal, HostVal)>)

  /** A push of `v` cannot report an error: only loading code can, and tuples and results
      pass their parts' errors on. */
  predicate Infallible(v: HostVal)
  {
    match v
    case Code(_, _) => false
    case Tuple(parts) => forall p <- parts :: Infallible(p)
    case ResOk(x) => Infallible(x)
    case _ => true
  }

  /** What the Rust type system demands of a pushed value: an integer fits its type, a String
      holds well-formed UTF-8, and the elements of containers and the metatable assignments
      of userdata have pushes that cannot fail. */
  predicate Pushable(v: HostVal)
  {
    match v
    case Int(k, i) => InRange(k, i)
    case Text(s) => ValidUtf8(s)
    case Seq(items) => forall x <- items :: Infallible(x) && Pushable(x)
    case Set(members) => forall x <- members :: Infallible(x) && Pushable(x)
    case Dict(entries) =>
      forall e <- entries :: Infallible(e.0) && Pushable(e.0) && Infallible(e.1) && Pushable(e.1)
    case UserValue(_, _, meta) =>
      forall e <- meta :: Infallible(e.0) && Pushable(e.0) && Infallible(e.1) && Pushable(e.1)
    case Tuple(parts) => forall p <- parts :: Pushable(p)
    case ResOk(x) => Pushable(x)
    case _ => true
  }

  // ---------------------------------------------------------------------
  // Host closures
  // ---------------------------------------------------------------------

  /** A closure's return type implements Push: its results are values hlua can push. */
  type PushableVal = v: HostVal | Pushable(v) witness Unit

  /** A Rust closure wrapped by functionN: the types of its N parameters and its body, which
      maps the captured state and the arguments to the new captured state and a result. */
  class Callback {
    const params: seq<HostTy>
    const body: (int, seq<HostVal>) -> (int, PushableVal)
    var env: int

    /** functionN(f): wraps a closure of exactly N = |params| parameters. */
    constructor (params: seq<HostTy>, body: (int, seq<HostVal>) -> (int, PushableVal), env: int)
      ensures this.params == params && this.body == body && this.env == env
    {
      this.params := params;
      this.body := body;
      this.env := env;
    }

    /** The type the wrapper reads its arguments as: () for no parameter, the parameter's own
        type for one (a 1-tuple reads as its element), a tuple otherwise. */
    function ArgsTy(): (t: HostTy)
    {
      if |params| == 0 then TUnit else if |params| == 1 then params[0] else TTuple(params)
    }

    /** call_mut: runs the closure on the components of the argument value. */
    method CallMut(args: HostVal) returns (r: PushableVal)
      modifies this
      ensures (env, r) == old(body(env, Components(args, |params|)))
    {
      var out := body(env, Components(args, |params|));
      env := out.0;
      r := out.1;
    }
  }

  /** The parameters a read argument value stands for. */
  function Components(args: HostVal, n: nat): (ps: seq<HostVal>)
    ensures n == 0 ==> ps == []
    ensures n == 1 ==> ps == [args]
    ensures n >= 2 && args.Tuple? ==> ps == args.parts
  {
    if n == 0 then [] else if n == 1 then [args] else if args.Tuple? then args.parts else []
  }
}
