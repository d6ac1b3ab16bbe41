/** Lua 5.2 values and the contents of a Lua table.

    A table is kept as an association list in insertion order: its keys are distinct and
    never nil, its values are never nil (storing nil removes the key).  `lua_next` walks
    the list in that order, which is one of the orders the Lua manual allows. */
module Values {
  import opened Base

  /** A value in a Lua slot.  Tables, functions and full userdata are references to
      objects of the heap (see LuaApi); a light userdata is an opaque C pointer. */
  datatype LuaVal =
    | Nil
    | Bool(b: bool)
    | Num(n: real)
    | Str(s: Bytes)
    | Table(id: nat)
    | Function(id: nat)
    | Userdata(id: nat)
    | LightUserdata(tag: nat)

  // Type codes of lua.h (Lua 5.2)
  const TNONE := -1
  const TNIL := 0
  const TBOOLEAN := 1
  const TLIGHTUSERDATA := 2
  const TNUMBER := 3
  const TSTRING := 4
  const TTABLE := 5
  const TFUNCTION := 6
  const TUSERDATA := 7

  /** lua_type of a value. */
  function TypeOf(v: LuaVal): (t: int)
    ensures TNIL <= t <= TUSERDATA
    ensures (t == TNIL) == (v == Nil)
    ensures (t == TSTRING) == v.Str?
    ensures (t == TNUMBER) == v.Num?
    ensures (t == TTABLE) == v.Table?
    ensures (t == TFUNCTION) == v.Function?
    ensures (t == TBOOLEAN) == v.Bool?
    ensures (t == TUSERDATA) == v.Userdata?
  {
    match v
    case Nil => TNIL
    case Bool(_) => TBOOLEAN
    case LightUserdata(_) => TLIGHTUSERDATA
    case Num(_) => TNUMBER
    case Str(_) => TSTRING
    case Table(_) => TTABLE
    case Function(_) => TFUNCTION
    case Userdata(_) => TUSERDATA
  }

  /** Lua's truth test: everything but nil and false is true (lua_toboolean). */
  predicate Truthy(v: LuaVal) { v != Nil && v != Bool(false) }

  // ---------------------------------------------------------------------
  // Table contents
  // ---------------------------------------------------------------------

  type Entries = seq<(LuaVal, LuaVal)>

  predicate WfEntries(t: Entries)
  {
    (forall i :: 0 <= i < |t| ==> t[i].0 != Nil && t[i].1 != Nil)
    && (forall i, j :: 0 <= i < j < |t| ==> t[i].0 != t[j].0)
  }

  /** Position of key `k`, or |t| when `k` is absent. */
  function KeyIndex(t: Entries, k: LuaVal): (i: nat)
    ensures i <= |t|
    ensures i < |t| ==> t[i].0 == k
  {
    if t == [] then 0 else if t[0].0 == k then 0 else 1 + KeyIndex(t[1..], k)
  }

  /** No entry before KeyIndex(t, k) has key `k`: it is the first position of `k`. */
  lemma KeyIndexFirst(t: Entries, k: LuaVal)
    ensures forall j :: 0 <= j < KeyIndex(t, k) ==> t[j].0 != k
  {
    if t != [] && t[0].0 != k {
      KeyIndexFirst(t[1..], k);
    }
  }

  /** The raw value stored under `k` (lua_rawget): nil when absent. */
  function Lookup(t: Entries, k: LuaVal): LuaVal
  {
    var i := KeyIndex(t, k);
    if i < |t| then t[i].1 else Nil
  }

  /** The raw assignment t[k] = v (lua_rawset); a nil value removes the key. */
  function Store(t: Entries, k: LuaVal, v: LuaVal): Entries
    requires k != Nil
  {
    var i := KeyIndex(t, k);
    if i < |t| then
      (if v == Nil then t[..i] + t[i + 1..] else t[i := (k, v)])
    else if v == Nil then t
    else t + [(k, v)]
  }

  lemma KeyIndexOfWf(t: Entries, i: nat)
    requires WfEntries(t) && i < |t|
    ensures KeyIndex(t, t[i].0) == i
  {
    KeyIndexIs(t, t[i].0, i);
  }

  /** Storing keeps the entries well formed. */
  lemma StoreWf(t: Entries, k: LuaVal, v: LuaVal)
    requires WfEntries(t) && k != Nil
    ensures WfEntries(Store(t, k, v))
  {
    var i := KeyIndex(t, k);
    var r := Store(t, k, v);
    if i < |t| && v == Nil {
      assert forall a :: 0 <= a < |r| ==> r[a] == (if a < i then t[a] else t[a + 1]);
    } else if i == |t| {
      KeyIndexFirst(t, k);
    }
  }

  /** KeyIndex is characterised by its contract. */
  lemma KeyIndexIs(t: Entries, k: LuaVal, i: nat)
    requires i <= |t| && (i < |t| ==> t[i].0 == k)
    requires forall j :: 0 <= j < i ==> t[j].0 != k
    ensures KeyIndex(t, k) == i
  {
    if t != [] && t[0].0 != k {
      KeyIndexIs(t[1..], k, i - 1);
    }
  }

  /** Storing under a key the table does not hold appends the entry. */
  lemma StoreFresh(t: Entries, k: LuaVal, v: LuaVal)
    requires k != Nil && v != Nil && forall j :: 0 <= j < |t| ==> t[j].0 != k
    ensures Store(t, k, v) == t + [(k, v)]
  {
    KeyIndexIs(t, k, |t|);
  }

  /** Lookup in a table with entry `i` removed. */
  lemma RemovedLookup(t: Entries, i: nat, q: LuaVal)
    requires WfEntries(t) && i < |t| && q != t[i].0
    ensures Lookup(t[..i] + t[i + 1..], q) == Lookup(t, q)
  {
    var r := t[..i] + t[i + 1..];
    assert |r| == |t| - 1;
    assert forall a :: 0 <= a < i ==> r[a] == t[a];
    assert forall a :: i <= a < |r| ==> r[a] == t[a + 1];
    var j := KeyIndex(t, q);
    KeyIndexFirst(t, q);
    if j < |t| {
      assert j != i;
      var jr := if j < i then j else j - 1;
      assert r[jr] == t[j];
      KeyIndexIs(r, q, jr);
    } else {
      KeyIndexIs(r, q, |r|);
    }
  }

  /** Lookup in a table whose entry `i` is replaced by one with the same key. */
  lemma ReplacedLookup(t: Entries, i: nat, v: LuaVal, q: LuaVal)
    requires WfEntries(t) && i < |t|
    ensures Lookup(t[i := (t[i].0, v)], q) == if q == t[i].0 then v else Lookup(t, q)
  {
    var r := t[i := (t[i].0, v)];
    KeyIndexFirst(t, q);
    KeyIndexIs(r, q, KeyIndex(t, q));
    if q == t[i].0 {
      KeyIndexOfWf(t, i);
    }
  }

  /** Lookup in a table with an entry appended under a new key. */
  lemma AppendedLookup(t: Entries, k: LuaVal, v: LuaVal, q: LuaVal)
    requires KeyIndex(t, k) == |t|
    ensures Lookup(t + [(k, v)], q) == if q == k then v else Lookup(t, q)
  {
    var r := t + [(k, v)];
    KeyIndexFirst(t, k);
    KeyIndexFirst(t, q);
    if q == k {
      KeyIndexIs(r, q, |t|);
    } else {
      var j := KeyIndex(t, q);
      if j < |t| {
        KeyIndexIs(r, q, j);
      } else {
        KeyIndexIs(r, q, |r|);
      }
    }
  }

  /** After t[k] = v, reading k gives v and every other key reads as before. */
  lemma StoreLookup(t: Entries, k: LuaVal, v: LuaVal, q: LuaVal)
    requires WfEntries(t) && k != Nil
    ensures Lookup(Store(t, k, v), q) == if q == k then v else Lookup(t, q)
  {
    var i := KeyIndex(t, k);
    if i < |t| && v == Nil {
      if q == k {
        var r := t[..i] + t[i + 1..];
        assert forall a :: 0 <= a < |r| ==> r[a] == (if a < i then t[a] else t[a + 1]);
        KeyIndexIs(r, q, |r|);
      } else {
        RemovedLookup(t, i, q);
      }
    } else if i < |t| {
      ReplacedLookup(t, i, v, q);
    } else if v != Nil {
      AppendedLookup(t, k, v, q);
    }
  }

  /** The keys a table holds. */
  function Keys(t: Entries): (ks: seq<LuaVal>)
    ensures |ks| == |t|
    ensures forall i :: 0 <= i < |t| ==> ks[i] == t[i].0
  {
    if t == [] then [] else [t[0].0] + Keys(t[1..])
  }

  // ---------------------------------------------------------------------
  // Traversal (lua_next)
  // ---------------------------------------------------------------------

  datatype NextResult = Entry(key: LuaVal, value: LuaVal) | End | BadKey

  /** The entry after key `k` (nil: the first entry); BadKey when `k` is not a key of
      the table, which lua_next reports as an error. */
  function Next(t: Entries, k: LuaVal): NextResult
  {
    if k == Nil then (if t == [] then End else Entry(t[0].0, t[0].1))
    else
      var i := KeyIndex(t, k);
      if i == |t| then BadKey
      else if i + 1 < |t| then Entry(t[i + 1].0, t[i + 1].1)
      else End
  }

  /** The key that a traversal holds before it reaches entry `i`. */
  function KeyBefore(t: Entries, i: nat): LuaVal
    requires i <= |t|
  {
    if i == 0 then Nil else t[i - 1].0
  }

  /** Starting from nil and feeding back each key, lua_next visits every entry once, in
      order, and then reports the end. */
  lemma NextVisits(t: Entries, i: nat)
    requires WfEntries(t) && i <= |t|
    ensures Next(t, KeyBefore(t, i)) == if i < |t| then Entry(t[i].0, t[i].1) else End
  {
    if i > 0 {
      KeyIndexOfWf(t, i - 1);
    }
  }
}
