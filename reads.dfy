/** Reading host values out of Lua slots: LuaRead for the primitive types (values.rs), the
    AnyLuaValue / AnyHashableLuaValue decoders (any.rs) and tuples (tuples.rs).

    A read never fails loudly: it yields a value or nothing.  Reading a string converts a
    number slot to its text in place, as lua_tolstring does, so a read also yields the new
    interpreter state. */
module Reads {
  import opened Base
  import opened Numerals
  import opened Values
  import opened LuaApi
  import opened Host
  import Any
  import AnyHashable

  predicate Signed(k: IntKind) { k.I8? || k.I16? || k.I32? }

  // ---------------------------------------------------------------------
  // Primitive reads, on the value of the slot
  // ---------------------------------------------------------------------

  /** An integer read: the runtime's conversion must succeed (its flag is not 0); the
      converted number is then cast to the type's width. */
  function IntOf(k: IntKind, slot: Option<LuaVal>): (r: Option<int>)
    ensures r.Some? <==> NumberOf(slot).Some?
    ensures r.Some? ==> InRange(k, r.value)
  {
    IntOfNumber(k, NumberOf(slot))
  }

  /** The cast of a converted number: truncated toward zero, then wrapped to the width. */
  function IntOfNumber(k: IntKind, x: Option<real>): (r: Option<int>)
    ensures r.Some? <==> x.Some?
    ensures r.Some? ==> InRange(k, r.value)
  {
    match x
    case Some(x) => Some(Wrap(k, if Signed(k) then Trunc(x) else Trunc(x) % 0x1_0000_0000))
    case None => None
  }

  /** A boolean read: only a boolean slot; there is no truthiness coercion. */
  function BoolOf(slot: Option<LuaVal>): (r: Option<bool>)
    ensures r.Some? <==> slot.Some? && TypeOf(slot.value) == TBOOLEAN
    ensures r.Some? ==> r.value == Truthy(slot.value)
  {
    if slot.Some? && slot.value.Bool? then Some(slot.value.b) else None
  }

  /** The String read, as hlua evidently intends it: the bytes lua_tolstring gives, when
      they are well-formed UTF-8; nothing otherwise, so that a decoder can fall back to a
      byte string. */
  function TextOf(slot: Option<LuaVal>): (r: Option<Bytes>)
    ensures r.Some? <==> LStringOf(slot).Some? && ValidUtf8(LStringOf(slot).value)
    ensures r.Some? ==> r == LStringOf(slot)
  {
    match LStringOf(slot)
    case Some(b) => if ValidUtf8(b) then Some(b) else None
    case None => None
  }

  /** The outcome of the String read as it is written: a value, nothing, or a panic. */
  datatype Checked<T> = Value(v: T) | Nothing | Panic

  /** The String read as written: the bytes up to the first NUL (the pointer is read as a C
      string, its length ignored), and a panic when they are not UTF-8. */
  function TextOfAsWritten(slot: Option<LuaVal>): (r: Checked<Bytes>)
    ensures r.Nothing? <==> LStringOf(slot).None?
    ensures r.Value? ==> ValidUtf8(r.v) && 0 !in r.v && r.v <= LStringOf(slot).value
  {
    match LStringOf(slot)
    case None => Nothing
    case Some(b) => if ValidUtf8(UpToNul(b)) then Value(UpToNul(b)) else Panic
  }

  /** A string that is not UTF-8 makes the written read panic, where the intended read
      reports nothing and the decoder falls back to LuaAnyString. */
  lemma AsWrittenPanicsOnBadUtf8()
    ensures TextOfAsWritten(Some(Str([0xFF, 0xFE, 0xFF, 0xFE]))).Panic?
    ensures TextOf(Some(Str([0xFF, 0xFE, 0xFF, 0xFE]))) == None
  {
    var b: Bytes := [0xFF, 0xFE, 0xFF, 0xFE];
    assert UpToNul(b) == b by {
      assert UpToNul(b[3..]) == b[3..];
      assert UpToNul(b[2..]) == b[2..];
      assert UpToNul(b[1..]) == b[1..];
    }
    assert !CharAt(b, 0);
  }

  /** A string holding a NUL reads, as written, as its bytes before the NUL only; the
      intended read keeps every byte. */
  lemma AsWrittenTruncatesAtNul()
    ensures TextOfAsWritten(Some(Str([0x61, 0x00, 0x62]))) == Value([0x61])
    ensures TextOf(Some(Str([0x61, 0x00, 0x62]))) == Some([0x61, 0x00, 0x62])
  {
    var b: Bytes := [0x61, 0x00, 0x62];
    assert UpToNul(b) == [0x61] by {
      assert b[1..][0] == 0;
    }
    assert IsAscii([0x61]);
    AsciiIsUtf8([0x61]);
    AsciiIsUtf8(b);
  }

  /** On the strings the written read was meant for (UTF-8 without NUL) both reads agree. */
  lemma AsWrittenAgreesOnCleanText(s: Bytes)
    requires ValidUtf8(s) && 0 !in s
    ensures TextOfAsWritten(Some(Str(s))) == Value(s)
    ensures TextOf(Some(Str(s))) == Some(s)
  {
    UpToNulFree(s);
  }

  // ---------------------------------------------------------------------
  // AnyLuaValue and AnyHashableLuaValue decoding
  // ---------------------------------------------------------------------

  /** Decodes a slot as an AnyLuaValue, trying the reads in hlua's order.  A string slot
      tries String, then AnyLuaString, then gives LuaOther.  Any other slot tries a number,
      a boolean, String, AnyLuaString, nil, then a table, whose entries are decoded in
      traversal order; LuaOther is the last resort.  A table already being decoded (a cycle)
      gives LuaOther.  No read on this path converts a slot, so the state is unchanged. */
  function AnyOf(st: State, slot: Option<LuaVal>, seen: set<nat>): Any.AnyLuaValue
    decreases st.heap.Keys - seen, 0, 0
  {
    if slot.Some? && TypeOf(slot.value) == TSTRING then
      if TextOf(slot).Some? then Any.LuaString(TextOf(slot).value)
      else if LStringOf(slot).Some? then Any.LuaAnyString(LStringOf(slot).value)
      else Any.LuaOther
    else if NumberOf(slot).Some? then Any.LuaNumber(NumberOf(slot).value)
    else if BoolOf(slot).Some? then Any.LuaBoolean(BoolOf(slot).value)
    else if TextOf(slot).Some? then Any.LuaString(TextOf(slot).value)
    else if LStringOf(slot).Some? then Any.LuaAnyString(LStringOf(slot).value)
    else if slot == Some(Nil) then Any.LuaNil
    else if slot.Some? && slot.value.Table? && slot.value.id in st.heap && slot.value.id !in seen then
      Any.LuaArray(AnyPairs(st, slot.value.id, seen + {slot.value.id}, 0))
    else Any.LuaOther
  }

  /** The decoded entries of table `id`, from entry `i` on. */
  function AnyPairs(st: State, id: nat, seen: set<nat>, i: nat): (r: seq<(Any.AnyLuaValue, Any.AnyLuaValue)>)
    requires id in seen && i <= |EntriesOf(st, id)|
    ensures |r| == |EntriesOf(st, id)| - i
    decreases st.heap.Keys - seen, 1, |EntriesOf(st, id)| - i
  {
    var es := EntriesOf(st, id);
    if i == |es| then []
    else [(AnyOf(st, Some(es[i].0), seen), AnyOf(st, Some(es[i].1), seen))] + AnyPairs(st, id, seen, i + 1)
  }

  /** The same cascade for AnyHashableLuaValue, whose numbers are read as i32. */
  function HashableOf(st: State, slot: Option<LuaVal>, seen: set<nat>): AnyHashable.AnyHashableLuaValue
    decreases st.heap.Keys - seen, 0, 0
  {
    if slot.Some? && TypeOf(slot.value) == TSTRING then
      if TextOf(slot).Some? then AnyHashable.LuaString(TextOf(slot).value)
      else if LStringOf(slot).Some? then AnyHashable.LuaAnyString(LStringOf(slot).value)
      else AnyHashable.LuaOther
    else if IntOf(I32, slot).Some? then AnyHashable.LuaNumber(IntOf(I32, slot).value)
    else if BoolOf(slot).Some? then AnyHashable.LuaBoolean(BoolOf(slot).value)
    else if TextOf(slot).Some? then AnyHashable.LuaString(TextOf(slot).value)
    else if LStringOf(slot).Some? then AnyHashable.LuaAnyString(LStringOf(slot).value)
    else if slot == Some(Nil) then AnyHashable.LuaNil
    else if slot.Some? && slot.value.Table? && slot.value.id in st.heap && slot.value.id !in seen then
      AnyHashable.LuaArray(HashablePairs(st, slot.value.id, seen + {slot.value.id}, 0))
    else AnyHashable.LuaOther
  }

  function HashablePairs(st: State, id: nat, seen: set<nat>, i: nat)
    : (r: seq<(AnyHashable.AnyHashableLuaValue, AnyHashable.AnyHashableLuaValue)>)
    requires id in seen && i <= |EntriesOf(st, id)|
    ensures |r| == |EntriesOf(st, id)| - i
    decreases st.heap.Keys - seen, 1, |EntriesOf(st, id)| - i
  {
    var es := EntriesOf(st, id);
    if i == |es| then []
    else [(HashableOf(st, Some(es[i].0), seen), HashableOf(st, Some(es[i].1), seen))] + HashablePairs(st, id, seen, i + 1)
  }

  /** The decoder's verdict by the slot's type: the cascade never yields a number or a
      boolean for a string, a string decodes to LuaString exactly when it is UTF-8, nil to
      LuaNil, and functions and userdata to LuaOther. */
  lemma AnyByType(st: State, v: LuaVal, seen: set<nat>)
    ensures v.Str? ==> AnyOf(st, Some(v), seen) == (if ValidUtf8(v.s) then Any.LuaString(v.s) else Any.LuaAnyString(v.s))
    ensures v.Num? ==> AnyOf(st, Some(v), seen) == Any.LuaNumber(v.n)
    ensures v.Bool? ==> AnyOf(st, Some(v), seen) == Any.LuaBoolean(v.b)
    ensures v.Nil? ==> AnyOf(st, Some(v), seen) == Any.LuaNil
    ensures v.Function? || v.Userdata? || v.LightUserdata? ==> AnyOf(st, Some(v), seen) == Any.LuaOther
    ensures v.Table? ==> AnyOf(st, Some(v), seen).LuaArray? || AnyOf(st, Some(v), seen).LuaOther?
  {
  }

  /** A string slot decodes to a string variant, never to a number or a boolean: "-2" stays
      LuaString("-2"). */
  lemma StringSlotStaysString(st: State, s: Bytes, seen: set<nat>)
    ensures AnyOf(st, Some(Str(s)), seen).LuaString? || AnyOf(st, Some(Str(s)), seen).LuaAnyString?
    ensures HashableOf(st, Some(Str(s)), seen).LuaString? || HashableOf(st, Some(Str(s)), seen).LuaAnyString?
    ensures AnyOf(st, Some(Str(s)), seen).LuaString? ==> AnyOf(st, Some(Str(s)), seen).s == s
  {
  }

  lemma MinusTwoStaysString(st: State)
    ensures AnyOf(st, Some(Str([0x2D, 0x32])), {}) == Any.LuaString([0x2D, 0x32])
  {
    assert IsAscii([0x2D, 0x32]);
    AsciiIsUtf8([0x2D, 0x32]);
  }

  /** The bytes FF FE FF FE decode to LuaAnyString holding them. */
  lemma BadUtf8IsAnyString(st: State)
    ensures AnyOf(st, Some(Str([0xFF, 0xFE, 0xFF, 0xFE])), {}) == Any.LuaAnyString([0xFF, 0xFE, 0xFF, 0xFE])
  {
    AsWrittenPanicsOnBadUtf8();
  }

  /** An integral number in the 32-bit range decodes to that integer. */
  lemma HashableInteger(st: State, i: int)
    requires -0x8000_0000 <= i < 0x8000_0000
    ensures HashableOf(st, Some(Num(i as real)), {}) == AnyHashable.LuaNumber(i)
  {
    IntOfWhole(I32, i);
  }

  lemma HashableExamples(st: State)
    ensures HashableOf(st, Some(Num(-2.0)), {}) == AnyHashable.LuaNumber(-2)
    ensures HashableOf(st, Some(Num(4.0)), {}) == AnyHashable.LuaNumber(4)
    ensures HashableOf(st, Some(Str([0x34])), {}) == AnyHashable.LuaString([0x34])
  {
    HashableInteger(st, -2);
    HashableInteger(st, 4);
    assert IsAscii([0x34]);
    AsciiIsUtf8([0x34]);
  }

  /** A table decodes to the decoded entries of the table, in traversal order. */
  lemma {:induction false} AnyPairsAt(st: State, id: nat, seen: set<nat>, i: nat, j: nat)
    requires id in seen && i <= j < |EntriesOf(st, id)|
    ensures AnyPairs(st, id, seen, i)[j - i]
      == (AnyOf(st, Some(EntriesOf(st, id)[j].0), seen), AnyOf(st, Some(EntriesOf(st, id)[j].1), seen))
    decreases j - i
  {
    if i < j {
      AnyPairsAt(st, id, seen, i + 1, j);
    }
  }

  lemma AnyTable(st: State, id: nat)
    requires id in st.heap
    ensures var a := AnyOf(st, Some(Table(id)), {});
      a.LuaArray? && |a.pairs| == |EntriesOf(st, id)|
      && forall j :: 0 <= j < |a.pairs| ==>
        a.pairs[j] == (AnyOf(st, Some(EntriesOf(st, id)[j].0), {id}), AnyOf(st, Some(EntriesOf(st, id)[j].1), {id}))
  {
    assert {} + {id} == {id};
    forall j | 0 <= j < |EntriesOf(st, id)|
      ensures AnyPairs(st, id, {id}, 0)[j]
        == (AnyOf(st, Some(EntriesOf(st, id)[j].0), {id}), AnyOf(st, Some(EntriesOf(st, id)[j].1), {id}))
    {
      AnyPairsAt(st, id, {id}, 0, j);
    }
  }

  // ---------------------------------------------------------------------
  // Reading a host type at an index
  // ---------------------------------------------------------------------

  /** The read of a host type at `idx`: the state afterwards and the value, if any.  A tuple
      of one element reads as that element; a longer tuple reads component j at idx + j,
      left to right, and fails as soon as one component fails. */
  function ReadAt(st: State, ty: HostTy, idx: int): (r: (State, Option<HostVal>))
    ensures |r.0.stack| == |st.stack| && r.0.heap == st.heap && r.0.nextId == st.nextId
    ensures r.0.env == st.env
    ensures forall i :: 0 <= i < |st.stack| && !st.stack[i].Num? ==> r.0.stack[i] == st.stack[i]
    decreases ty, 1
  {
    match ty
    case TInt(k) =>
      (st, match IntOf(k, Slot(st, idx)) case Some(i) => Some(Int(k, i)) case None => None)
    case TFloat =>
      (st, match NumberOf(Slot(st, idx)) case Some(x) => Some(Float(x)) case None => None)
    case TText =>
      (ToLString(st, idx).0, match TextOf(Slot(st, idx)) case Some(s) => Some(Text(s)) case None => None)
    case TAnyString =>
      (ToLString(st, idx).0, match LStringOf(Slot(st, idx)) case Some(b) => Some(AnyString(b)) case None => None)
    case TBool =>
      (st, match BoolOf(Slot(st, idx)) case Some(b) => Some(Boolean(b)) case None => None)
    case TUnit => (st, Some(Unit))
    case TAny => (st, Some(AnyVal(AnyOf(st, Slot(st, idx), {}))))
    case THashable => (st, Some(Hashable(HashableOf(st, Slot(st, idx), {}))))
    case TTuple(items) =>
      if |items| == 1 then
        var r := ReadAt(st, items[0], idx);
        (r.0, match r.1 case Some(v) => Some(Tuple([v])) case None => None)
      else
        var r := ReadParts(st, ty, idx, 0);
        (r.0, match r.1 case Some(vs) => Some(Tuple(vs)) case None => None)
  }

  /** Components j.. of a tuple type, component j read at idx + j. */
  function ReadParts(st: State, ty: HostTy, idx: int, j: nat): (r: (State, Option<seq<HostVal>>))
    requires ty.TTuple? && j <= |ty.items|
    ensures r.1.Some? ==> |r.1.value| == |ty.items| - j
    ensures |r.0.stack| == |st.stack| && r.0.heap == st.heap && r.0.nextId == st.nextId
    ensures r.0.env == st.env
    ensures forall i :: 0 <= i < |st.stack| && !st.stack[i].Num? ==> r.0.stack[i] == st.stack[i]
    decreases ty, 0, |ty.items| - j
  {
    if j == |ty.items| then (st, Some([]))
    else
      assert ty.items[j] in ty.items;
      var first := ReadAt(st, ty.items[j], idx + j);
      if first.1.None? then (first.0, None)
      else
        var rest := ReadParts(first.0, ty, idx, j + 1);
        (rest.0, match rest.1 case Some(vs) => Some([first.1.value] + vs) case None => None)
  }

  /** The value a read yields, whatever it does to the state. */
  function Read(st: State, ty: HostTy, idx: int): Option<HostVal>
  {
    ReadAt(st, ty, idx).1
  }

  /** Reading () succeeds at any index, valid or not. */
  lemma UnitReadsAnywhere(st: State, idx: int)
    ensures Read(st, TUnit, idx) == Some(Unit)
  {
  }

  /** A tuple read fails exactly when one of its components fails; component j is the read
      at idx + j in the state the reads before it left. */
  lemma {:induction false} ReadPartsFails(st: State, ty: HostTy, idx: int, j: nat)
    requires ty.TTuple? && j < |ty.items|
    ensures ReadAt(st, ty.items[j], idx + j).1.None? ==> ReadParts(st, ty, idx, j).1.None?
    ensures ReadParts(st, ty, idx, j).1.Some? ==>
      ReadParts(st, ty, idx, j).1.value[0] == ReadAt(st, ty.items[j], idx + j).1.value
  {
  }

  /** Reading a number slot as a String: the number's "%.14g" text, which is ASCII and so
      valid UTF-8, and the slot now holds that string. */
  lemma NumberReadsAsText(st: State, idx: int, x: real)
    requires IsStackIndex(st, idx) && st.stack[Pos(st, idx)] == Num(x)
    ensures Read(st, TText, idx) == Some(Text(NumberText(x)))
    ensures ReadAt(st, TText, idx).0.stack[Pos(st, idx)] == Str(NumberText(x))
  {
    NumberTextAscii(x);
    AsciiIsUtf8(NumberText(x));
  }

  /** An integral number of at most 14 digits reads as its decimal digits: 2 reads as "2". */
  lemma IntReadsAsText(st: State, idx: int, n: int)
    requires -(Pow10(14) as int) < n < Pow10(14)
    requires IsStackIndex(st, idx) && st.stack[Pos(st, idx)] == Num(n as real)
    ensures Read(st, TText, idx) == Some(Text(IntText(n)))
    ensures ReadAt(st, TText, idx).0.stack[Pos(st, idx)] == Str(IntText(n))
  {
    NumberReadsAsText(st, idx, n as real);
    NumberTextOfInt(n);
  }

  /** The string "2" reads as the integer 2; "aaa" does not read as an integer. */
  lemma TextReadsAsInt(st: State, idx: int, k: IntKind, n: int)
    requires InRange(k, n) && IsStackIndex(st, idx) && st.stack[Pos(st, idx)] == Str(IntText(n))
    ensures Read(st, TInt(k), idx) == Some(Int(k, n))
  {
    ParseIntText(n);
    assert NumberOf(Slot(st, idx)) == Some(n as real);
    IntOfWhole(k, n);
  }

  /** The whole number n, in range for k, casts to n. */
  lemma IntOfWhole(k: IntKind, n: int)
    requires InRange(k, n)
    ensures IntOfNumber(k, Some(n as real)) == Some(n)
  {
    assert Trunc(n as real) == n;
    if !Signed(k) {
      assert 0 <= n < 0x1_0000_0000;
      assert n % 0x1_0000_0000 == n;
    }
    WrapInRange(k, n);
  }

  lemma LettersDoNotReadAsInt(st: State, idx: int, k: IntKind)
    requires IsStackIndex(st, idx) && st.stack[Pos(st, idx)] == Str([0x61, 0x61, 0x61])
    ensures Read(st, TInt(k), idx) == None
  {
    ParseRejectsLetters();
  }

  /** A bool read fails on every non-boolean slot, even one Lua considers true. */
  lemma BoolReadNeedsBoolean(st: State, idx: int)
    requires Slot(st, idx).Some? && !Slot(st, idx).value.Bool?
    ensures Read(st, TBool, idx) == None
  {
  }

  // ---------------------------------------------------------------------
  // What a read does to the stack
  // ---------------------------------------------------------------------

  /** The types whose read may turn a number slot into a string (lua_tolstring). */
  predicate Converts(ty: HostTy)
  {
    match ty
    case TText => true
    case TAnyString => true
    case TTuple(items) => exists t <- items :: Converts(t)
    case _ => false
  }

  /** The number of slots a read spans: one for a plain type, one per component for a
      tuple of several, and the element's for a tuple of one. */
  function Span(ty: HostTy): nat
  {
    match ty
    case TTuple(items) => if |items| == 1 then Span(items[0]) else |items|
    case _ => 1
  }

  /** The types read from one slot: every type but a tuple of several components. */
  predicate OneSlot(ty: HostTy)
  {
    Span(ty) == 1
  }

  /** A read of a type that does not convert leaves the interpreter untouched. */
  lemma {:induction false} ReadKeeps(st: State, ty: HostTy, idx: int)
    ensures !Converts(ty) ==> ReadAt(st, ty, idx).0 == st
    decreases ty, 1
  {
    if ty.TTuple? && !Converts(ty) {
      if |ty.items| == 1 {
        assert ty.items[0] in ty.items;
        ReadKeeps(st, ty.items[0], idx);
      } else {
        PartsKeep(st, ty, idx, 0);
      }
    }
  }

  lemma {:induction false} PartsKeep(st: State, ty: HostTy, idx: int, j: nat)
    requires ty.TTuple? && !Converts(ty) && j <= |ty.items|
    ensures ReadParts(st, ty, idx, j).0 == st
    decreases ty, 0, |ty.items| - j
  {
    if j < |ty.items| {
      assert ty.items[j] in ty.items && !Converts(ty.items[j]);
      ReadKeeps(st, ty.items[j], idx + j);
      PartsKeep(st, ty, idx, j + 1);
      assert ReadAt(st, ty.items[j], idx + j).0 == st;
    }
  }

  /** A read of a one-slot type changes no slot but the one it reads. */
  lemma {:induction false} OneSlotRead(st: State, ty: HostTy, idx: int)
    requires OneSlot(ty)
    ensures var r := ReadAt(st, ty, idx).0;
      forall i :: 0 <= i < |st.stack| && !(IsStackIndex(st, idx) && i == Pos(st, idx)) ==> r.stack[i] == st.stack[i]
    decreases ty
  {
    if ty.TTuple? {
      assert ty.items[0] in ty.items;
      OneSlotRead(st, ty.items[0], idx);
    }
  }

  /** A slot holding an integral number in an integer type's range reads as that integer. */
  lemma IntegralNumberReads(st: State, k: IntKind, i: int, idx: int)
    requires InRange(k, i) && Slot(st, idx) == Some(Num(i as real))
    ensures ReadAt(st, TInt(k), idx) == (st, Some(Int(k, i)))
  {
    assert Trunc(i as real) == i;
    if !Signed(k) {
      assert i % 0x1_0000_0000 == i;
    }
    WrapInRange(k, i);
  }

  /** Reading a one-slot type on top and popping it gives back the state below. */
  lemma ReadTopThenPop(s: State, ty: HostTy)
    requires OneSlot(ty) && |s.stack| >= 1
    ensures Pop(ReadAt(s, ty, -1).0, 1) == Pop(s, 1)
  {
    OneSlotRead(s, ty, -1);
    var r := ReadAt(s, ty, -1).0;
    assert r.stack[..|s.stack| - 1] == s.stack[..|s.stack| - 1];
  }

  /** The decoders look at the heap only, not at the stack. */
  lemma {:induction false} AnySameHeap(a: State, b: State, slot: Option<LuaVal>, seen: set<nat>)
    requires a.heap == b.heap
    ensures AnyOf(a, slot, seen) == AnyOf(b, slot, seen)
    decreases a.heap.Keys - seen, 0, 0
  {
    if slot.Some? && slot.value.Table? && slot.value.id in a.heap && slot.value.id !in seen {
      AnyPairsSameHeap(a, b, slot.value.id, seen + {slot.value.id}, 0);
    }
  }

  lemma {:induction false} AnyPairsSameHeap(a: State, b: State, id: nat, seen: set<nat>, i: nat)
    requires a.heap == b.heap && id in seen && i <= |EntriesOf(a, id)|
    ensures AnyPairs(a, id, seen, i) == AnyPairs(b, id, seen, i)
    decreases a.heap.Keys - seen, 1, |EntriesOf(a, id)| - i
  {
    var es := EntriesOf(a, id);
    if i < |es| {
      AnySameHeap(a, b, Some(es[i].0), seen);
      AnySameHeap(a, b, Some(es[i].1), seen);
      AnyPairsSameHeap(a, b, id, seen, i + 1);
    }
  }

  lemma {:induction false} HashableSameHeap(a: State, b: State, slot: Option<LuaVal>, seen: set<nat>)
    requires a.heap == b.heap
    ensures HashableOf(a, slot, seen) == HashableOf(b, slot, seen)
    decreases a.heap.Keys - seen, 0, 0
  {
    if slot.Some? && slot.value.Table? && slot.value.id in a.heap && slot.value.id !in seen {
      HashablePairsSameHeap(a, b, slot.value.id, seen + {slot.value.id}, 0);
    }
  }

  lemma {:induction false} HashablePairsSameHeap(a: State, b: State, id: nat, seen: set<nat>, i: nat)
    requires a.heap == b.heap && id in seen && i <= |EntriesOf(a, id)|
    ensures HashablePairs(a, id, seen, i) == HashablePairs(b, id, seen, i)
    decreases a.heap.Keys - seen, 1, |EntriesOf(a, id)| - i
  {
    var es := EntriesOf(a, id);
    if i < |es| {
      HashableSameHeap(a, b, Some(es[i].0), seen);
      HashableSameHeap(a, b, Some(es[i].1), seen);
      HashablePairsSameHeap(a, b, id, seen, i + 1);
    }
  }

  /** A one-slot read depends on the value read and the heap only: two slots holding the
      same value read alike, wherever they are. */
  lemma {:induction false} ReadSameSlot(a: State, b: State, ty: HostTy, i: int, j: int)
    requires OneSlot(ty) && Slot(a, i) == Slot(b, j) && a.heap == b.heap
    ensures Read(a, ty, i) == Read(b, ty, j)
    decreases ty
  {
    match ty
    case TAny => AnySameHeap(a, b, Slot(a, i), {});
    case THashable => HashableSameHeap(a, b, Slot(a, i), {});
    case TTuple(items) =>
      assert items[0] in items;
      ReadSameSlot(a, b, items[0], i, j);
    case _ =>
  }
}
