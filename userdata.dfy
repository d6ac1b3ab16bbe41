/** Reading a userdata back (read_userdata, userdata.rs): the value on top must be a userdata
    whose metatable names the expected type under "__typeid". */
module UserdataRead {
  import opened Base
  import opened Values
  import opened LuaApi
  import opened Host
  import opened Pushes
  import opened Stack
  import Reads

  /** How far the checks of read_userdata get on the value on top: lua_touserdata gives a
      null pointer, or lua_getmetatable finds no metatable, or the "__typeid" entry, pushed
      above the metatable and read as a String, names another type or the expected one.  The
      last two carry the state with the metatable and the entry on top. */
  datatype Probe = NotUserdata | NoMetatable | TagMismatch(s: State) | TagMatch(s: State)

  function ProbeTop(st: State, typeId: Bytes): (r: Probe)
    ensures (r.TagMismatch? || r.TagMatch?) ==> |r.s.stack| == |st.stack| + 2
  {
    if !IsUserdataPointer(st, -1) then NotUserdata
    else
      var (s1, has) := GetMetatable(st, -1);
      if !has then NoMetatable
      else
        var s2 := GetTable(Push(s1, TYPEID_KEY), -2);
        var (s3, tag) := Reads.ReadAt(s2, TText, -1);
        if tag == Some(Text(typeId)) then TagMatch(s3) else TagMismatch(s3)
  }

  /** The metatable's "__typeid" entry, as the read sees it. */
  function TagOf(st: State): (r: LuaVal)
    requires IsUserdataPointer(st, -1)
  {
    var m := if Slot(st, -1).value.Userdata? then MetaOf(st, Slot(st, -1).value.id) else None;
    if m.Some? then Lookup(EntriesOf(st, m.value), TYPEID_KEY) else Nil
  }

  /** read_userdata as written: the index must be -1 (asserted); a rejected value leaves the
      stack as the checks left it; an accepted one ends with lua_pop(-2), that is
      lua_settop(1), which keeps the bottom slot of the stack whatever was above it, and the
      result designates the slot then on top. */
  function ReadUserdataAsWritten(st: State, index: int, typeId: Bytes): (r: (State, Reads.Checked<LuaVal>))
  {
    if index != -1 then (st, Reads.Panic)
    else match ProbeTop(st, typeId)
      case NotUserdata => (st, Reads.Nothing)
      case NoMetatable => (st, Reads.Nothing)
      case TagMismatch(s) => (s, Reads.Nothing)
      case TagMatch(s) => (SetTop(s, 1), Reads.Value(Top(SetTop(s, 1))))
  }

  /** read_userdata with the metatable and its entry popped (lua_pop(2)), so that the
      userdata is back on top. */
  function ReadUserdata(st: State, index: int, typeId: Bytes): (r: (State, Reads.Checked<LuaVal>))
  {
    if index != -1 then (st, Reads.Panic)
    else match ProbeTop(st, typeId)
      case NotUserdata => (st, Reads.Nothing)
      case NoMetatable => (st, Reads.Nothing)
      case TagMismatch(s) => (s, Reads.Nothing)
      case TagMatch(s) => (Pop(s, 2), Reads.Value(Top(st)))
  }

  /** The read panics exactly on an index other than -1; a value that is no userdata, or a
      userdata without metatable, is refused and the stack is left alone. */
  lemma RefusedEarly(st: State, index: int, typeId: Bytes)
    ensures ReadUserdata(st, index, typeId).1.Panic? <==> index != -1
    ensures index == -1 && !IsUserdataPointer(st, -1) ==> ReadUserdata(st, index, typeId) == (st, Reads.Nothing)
    ensures index == -1 && IsUserdataPointer(st, -1) && !GetMetatable(st, -1).1 ==>
      ReadUserdata(st, index, typeId) == (st, Reads.Nothing)
  {
  }

  /** With a metatable, "__typeid" is looked up in it: the entry's value. */
  lemma ProbeLooksUpTag(st: State, typeId: Bytes)
    requires IsUserdataPointer(st, -1) && GetMetatable(st, -1).1
    ensures var s2 := GetTable(Push(GetMetatable(st, -1).0, TYPEID_KEY), -2);
      Slot(s2, -1) == Some(TagOf(st)) && Pop(s2, 2) == st
  {
    var s1 := GetMetatable(st, -1).0;
    var m := MetaOf(st, Slot(st, -1).value.id).value;
    assert s1 == Push(st, Table(m));
    var k := Push(s1, TYPEID_KEY);
    assert Slot(k, -2) == Some(Table(m));
    var s2 := GetTable(k, -2);
    assert s2.stack == st.stack + [Table(m), Lookup(EntriesOf(st, m), TYPEID_KEY)];
    assert s2.stack[..|s2.stack| - 2] == st.stack;
  }

  /** A userdata with a metatable is accepted exactly when its "__typeid" entry reads as the
      expected type's id, and then the state is as it was and the result is the value on
      top. */
  lemma AcceptsIffTagMatches(st: State, typeId: Bytes)
    requires IsUserdataPointer(st, -1)
    ensures var r := ReadUserdata(st, -1, typeId);
      r.1.Value? <==> GetMetatable(st, -1).1 && Reads.TextOf(Some(TagOf(st))) == Some(typeId)
    ensures var r := ReadUserdata(st, -1, typeId);
      r.1.Value? ==> r == (st, Reads.Value(Top(st)))
  {
    if GetMetatable(st, -1).1 {
      ProbeLooksUpTag(st, typeId);
      TagRead(st, GetTable(Push(GetMetatable(st, -1).0, TYPEID_KEY), -2), typeId);
    }
  }

  /** Reading the entry pushed above the metatable: it names typeId exactly when the tag
      reads as typeId, and popping the two slots gives back the state before the checks. */
  lemma TagRead(st: State, s2: State, typeId: Bytes)
    requires IsUserdataPointer(st, -1)
    requires |s2.stack| >= 2 && Slot(s2, -1) == Some(TagOf(st)) && Pop(s2, 2) == st
    ensures Reads.ReadAt(s2, TText, -1).1 == Some(Text(typeId)) <==> Reads.TextOf(Some(TagOf(st))) == Some(typeId)
    ensures Pop(Reads.ReadAt(s2, TText, -1).0, 2) == st
  {
    Reads.ReadTopThenPop(s2, TText);
    var s3 := Reads.ReadAt(s2, TText, -1).0;
    assert Pop(s3, 2) == Pop(Pop(s3, 1), 1);
    assert Pop(s2, 2) == Pop(Pop(s2, 1), 1);
  }

  /** A userdata on top whose metatable holds `typeId` under "__typeid" is accepted by a
      read expecting that type and stays on top; a read expecting another type refuses it. */
  lemma TaggedUserdataReadsBack(r: State, n: nat, m: nat, typeId: Bytes, other: Bytes)
    requires ValidUtf8(typeId) && other != typeId
    requires |r.stack| >= 1 && Top(r) == Userdata(n) && MetaOf(r, n) == Some(m)
    requires Lookup(EntriesOf(r, m), TYPEID_KEY) == Str(typeId)
    ensures ReadUserdata(r, -1, typeId) == (r, Reads.Value(Userdata(n)))
    ensures ReadUserdata(r, -1, other).1 == Reads.Nothing
  {
    assert TagOf(r) == Str(typeId);
    AcceptsIffTagMatches(r, typeId);
    AcceptsIffTagMatches(r, other);
  }

  /** What `push_userdata` leaves for a value without metatable assignments: the fresh
      userdata on top, whose metatable holds the type id under "__typeid". */
  lemma PushedBareUserdata(st: State, typeId: Bytes, token: nat)
    ensures var r := PushUserdata(st, UserValue(typeId, token, [])); var n := st.nextId;
      r.Some? && r.value.stack == st.stack + [Userdata(n)] && MetaOf(r.value, n) == Some(n + 1)
      && Lookup(EntriesOf(r.value, n + 1), TYPEID_KEY) == Str(typeId)
  {
    BareUserdataMetatable(st, UserValue(typeId, token, []));
    TypeIdFirst(typeId, st.nextId + 2);
  }

  lemma TypeIdFirst(typeId: Bytes, gc: nat)
    ensures Lookup([(TYPEID_KEY, Str(typeId)), (GC_KEY, Function(gc))], TYPEID_KEY) == Str(typeId)
  {
  }

  /** What `push_userdata` leaves is read back as the same type: the userdata it pushed is
      accepted and stays on top, and a read expecting another type refuses it. */
  lemma PushedUserdataReadsBack(st: State, typeId: Bytes, other: Bytes, token: nat)
    requires ValidUtf8(typeId) && other != typeId
    ensures var r := PushUserdata(st, UserValue(typeId, token, []));
      r.Some? && ReadUserdata(r.value, -1, typeId) == (r.value, Reads.Value(Userdata(st.nextId)))
      && ReadUserdata(r.value, -1, other).1 == Reads.Nothing
  {
    PushedBareUserdata(st, typeId, token);
    var r := PushUserdata(st, UserValue(typeId, token, [])).value;
    TaggedUserdataReadsBack(r, st.nextId, st.nextId + 1, typeId, other);
  }

  /** The written lua_pop(-2) loses the userdata when anything lies below it: an accepted
      userdata over a stack of one slot or more leaves only the bottom slot, and the result
      designates that slot, where the corrected read leaves the userdata on top and
      designates it. */
  lemma AsWrittenLosesUserdata(r: State, below: seq<LuaVal>, n: nat, m: nat, typeId: Bytes)
    requires ValidUtf8(typeId) && |below| >= 1
    requires r.stack == below + [Userdata(n)] && MetaOf(r, n) == Some(m)
    requires Lookup(EntriesOf(r, m), TYPEID_KEY) == Str(typeId)
    ensures var w := ReadUserdataAsWritten(r, -1, typeId);
      w.1 == Reads.Value(below[0]) && w.0.stack == [below[0]]
    ensures ReadUserdata(r, -1, typeId) == (r, Reads.Value(Userdata(n)))
  {
    TaggedUserdataReadsBack(r, n, m, typeId, typeId + [0]);
    var s := ProbeTop(r, typeId).s;
    assert Pop(s, 2) == r;
    assert s.stack[0] == below[0];
    assert SetTop(s, 1).stack == [below[0]];
  }

  /** The same loss for the userdata `push_userdata` leaves over a non-empty stack: the
      written read yields the bottom slot (PushedUserdataReadsBack gives the corrected
      read the pushed userdata). */
  lemma PushedUserdataLostAsWritten(st: State, typeId: Bytes, token: nat)
    requires ValidUtf8(typeId) && |st.stack| >= 1
    ensures var r := PushUserdata(st, UserValue(typeId, token, []));
      r.Some? && ReadUserdataAsWritten(r.value, -1, typeId).1 == Reads.Value(st.stack[0])
  {
    PushedBareUserdata(st, typeId, token);
    var r := PushUserdata(st, UserValue(typeId, token, [])).value;
    AsWrittenLosesUserdata(r, st.stack, st.nextId, st.nextId + 1, typeId);
  }

  /** read_userdata on the interpreter, C call by C call. */
  method ReadUserdataOn(lua: Interp, index: int, typeId: Bytes) returns (r: Reads.Checked<LuaVal>)
    modifies lua
    ensures r == ReadUserdata(old(lua.st), index, typeId).1
    ensures lua.st == ReadUserdata(old(lua.st), index, typeId).0
  {
    if index != -1 {
      return Reads.Panic;
    }
    var st := lua.st;
    if !IsUserdataPointer(st, -1) {
      return Reads.Nothing;
    }
    var meta := GetMetatable(st, -1);
    if !meta.1 {
      return Reads.Nothing;
    }
    lua.st := Push(meta.0, TYPEID_KEY);
    lua.st := GetTable(lua.st, -2);
    var tag := Reads.ReadAt(lua.st, TText, -1);
    lua.st := tag.0;
    if tag.1 != Some(Text(typeId)) {
      assert ProbeTop(st, typeId) == TagMismatch(tag.0);
      return Reads.Nothing;
    }
    assert ProbeTop(st, typeId) == TagMatch(tag.0);
    lua.st := Pop(lua.st, 2);
    r := Reads.Value(Top(st));
  }
}
