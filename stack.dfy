/** The objects hlua holds on the interpreter: the lua_State pointer, whose C API calls update
    the interpreter in place, and PushGuard, the count of slots a push left on the stack. */
module Stack {
  import opened Values
  import opened LuaApi

  /** The lua_State pointer: every C API call replaces the interpreter state it designates;
      `closed` records that lua_close has been called on it. */
  class Interp {
    var st: State
    var closed: bool

    constructor (st0: State)
      ensures st == st0 && !closed
    {
      st := st0;
      closed := false;
    }

    /** The number of slots on the stack (lua_gettop). */
    function Depth(): nat
      reads this
    {
      |st.stack|
    }
  }

  /** PushGuard: `size` slots on top of the stack that belong to a value just pushed.
      Dropping the guard pops them; `forget` hands the count over and disarms the guard. */
  class PushGuard {
    const lua: Interp
    var size: nat

    constructor (lua: Interp, size: nat)
      ensures this.lua == lua && this.size == size
    {
      this.lua := lua;
      this.size := size;
    }

    /** The slots the guard owns are on the stack. */
    predicate Covers()
      reads this, lua
    {
      size <= |lua.st.stack|
    }

    /** forget: returns the size and zeroes it, so that the drop pops nothing. */
    method Forget() returns (n: nat)
      modifies this
      ensures n == old(size) && size == 0
    {
      n := size;
      size := 0;
    }

    /** Drop: pops exactly `size` slots; a guard of size 0 leaves the stack alone. */
    method Drop()
      requires Covers()
      modifies lua
      ensures lua.st == Pop(old(lua.st), size)
      ensures size == 0 ==> lua.st == old(lua.st)
    {
      if size != 0 {
        lua.st := Pop(lua.st, size);
      }
    }
  }

  /** Popping nothing leaves the state as it is. */
  lemma PopNothing(st: State)
    ensures Pop(st, 0) == st
  {
    assert st.stack[..|st.stack|] == st.stack;
  }

  /** A guard covering `n` pushed slots, once dropped, leaves the stack as it was before the
      push; after `forget` the drop leaves the pushed slots in place. */
  lemma DropRestores(before: State, after: State, n: nat)
    requires |after.stack| == |before.stack| + n && after.stack[..|before.stack|] == before.stack
    ensures Pop(after, n).stack == before.stack
    ensures Pop(after, 0) == after
  {
    PopNothing(after);
  }
}
