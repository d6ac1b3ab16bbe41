/** AnyLuaValue: a dynamically typed picture of any Lua value, as a host program sees it. */
module Any {
  import opened Base

  /** A Rust `String` is well-formed UTF-8; `LuaAnyString` carries arbitrary bytes.
      `LuaOther` stands for functions, userdata and whatever else has no picture. */
  datatype AnyLuaValue =
    | LuaString(s: Bytes)
    | LuaAnyString(bytes: Bytes)
    | LuaNumber(n: real)
    | LuaBoolean(b: bool)
    | LuaArray(pairs: seq<(AnyLuaValue, AnyLuaValue)>)
    | LuaNil
    | LuaOther
}

/** AnyHashableLuaValue: the same picture with 32-bit integer numbers, so that it can be
    hashed and ordered; it converts losslessly into an AnyLuaValue. */
module AnyHashable {
  import opened Base
  import Any

  type Int32 = x: int | -0x8000_0000 <= x < 0x8000_0000

  datatype AnyHashableLuaValue =
    | LuaString(s: Bytes)
    | LuaAnyString(bytes: Bytes)
    | LuaNumber(i: Int32)
    | LuaBoolean(b: bool)
    | LuaArray(pairs: seq<(AnyHashableLuaValue, AnyHashableLuaValue)>)
    | LuaNil
    | LuaOther

  /** The `From` conversion: every variant maps to its namesake, an integer becomes the
      same number, and an array keeps its length and the order of its pairs. */
  function ToAny(h: AnyHashableLuaValue): (a: Any.AnyLuaValue)
    ensures h.LuaString? <==> a.LuaString?
    ensures h.LuaAnyString? <==> a.LuaAnyString?
    ensures h.LuaNumber? <==> a.LuaNumber?
    ensures h.LuaBoolean? <==> a.LuaBoolean?
    ensures h.LuaArray? <==> a.LuaArray?
    ensures h.LuaNil? <==> a.LuaNil?
    ensures h.LuaOther? <==> a.LuaOther?
    ensures h.LuaNumber? ==> a.n == h.i as real
    ensures h.LuaArray? ==> |a.pairs| == |h.pairs|
    decreases h
  {
    match h
    case LuaString(s) => Any.LuaString(s)
    case LuaAnyString(b) => Any.LuaAnyString(b)
    case LuaNumber(i) => Any.LuaNumber(i as real)
    case LuaBoolean(b) => Any.LuaBoolean(b)
    case LuaArray(ps) => Any.LuaArray(PairsToAny(h, 0))
    case LuaNil => Any.LuaNil
    case LuaOther => Any.LuaOther
  }

  /** The converted pairs of the array `h`, from position `i` on. */
  function PairsToAny(h: AnyHashableLuaValue, i: nat): (r: seq<(Any.AnyLuaValue, Any.AnyLuaValue)>)
    requires h.LuaArray? && i <= |h.pairs|
    ensures |r| == |h.pairs| - i
    decreases h, |h.pairs| - i
  {
    if i == |h.pairs| then []
    else
      assert h.pairs[i] in h.pairs;
      [(ToAny(h.pairs[i].0), ToAny(h.pairs[i].1))] + PairsToAny(h, i + 1)
  }

  /** The partial inverse of ToAny: an AnyLuaValue whose numbers are all integers in the
      32-bit range has a hashable counterpart. */
  function FromAny(a: Any.AnyLuaValue): Option<AnyHashableLuaValue>
    decreases a
  {
    match a
    case LuaString(s) => Some(LuaString(s))
    case LuaAnyString(b) => Some(LuaAnyString(b))
    case LuaNumber(n) =>
      if n == n.Floor as real && -0x8000_0000 <= n.Floor < 0x8000_0000 then Some(LuaNumber(n.Floor))
      else None
    case LuaBoolean(b) => Some(LuaBoolean(b))
    case LuaArray(ps) =>
      (match PairsFromAny(a, 0) case Some(hs) => Some(LuaArray(hs)) case None => None)
    case LuaNil => Some(LuaNil)
    case LuaOther => Some(LuaOther)
  }

  function PairsFromAny(a: Any.AnyLuaValue, i: nat): Option<seq<(AnyHashableLuaValue, AnyHashableLuaValue)>>
    requires a.LuaArray? && i <= |a.pairs|
    decreases a, |a.pairs| - i
  {
    if i == |a.pairs| then Some([])
    else
      assert a.pairs[i] in a.pairs;
      match (FromAny(a.pairs[i].0), FromAny(a.pairs[i].1), PairsFromAny(a, i + 1))
      case (Some(k), Some(v), Some(rest)) => Some([(k, v)] + rest)
      case _ => None
  }

  /** Converting to an AnyLuaValue loses nothing: the hashable value can be recovered. */
  lemma {:induction false} FromToAny(h: AnyHashableLuaValue)
    ensures FromAny(ToAny(h)) == Some(h)
    decreases h
  {
    match h
    case LuaArray(ps) =>
      PairsFromToAny(h, 0);
      assert h.pairs[0..] == h.pairs;
    case LuaNumber(i) => assert (i as real).Floor == i;
    case _ =>
  }

  lemma {:induction false} PairsFromToAny(h: AnyHashableLuaValue, i: nat)
    requires h.LuaArray? && i <= |h.pairs|
    ensures PairsFromAny(ToAny(h), i) == Some(h.pairs[i..])
    decreases h, |h.pairs| - i
  {
    if i < |h.pairs| {
      assert h.pairs[i] in h.pairs;
      FromToAny(h.pairs[i].0);
      FromToAny(h.pairs[i].1);
      PairsFromToAny(h, i + 1);
      var a := ToAny(h);
      assert a.pairs == PairsToAny(h, 0);
      PairsAt(h, 0, i);
      assert a.pairs[i] == (ToAny(h.pairs[i].0), ToAny(h.pairs[i].1));
      assert FromAny(a.pairs[i].0) == Some(h.pairs[i].0);
      assert FromAny(a.pairs[i].1) == Some(h.pairs[i].1);
      assert PairsFromAny(a, i) == Some([h.pairs[i]] + h.pairs[i + 1..]);
      assert h.pairs[i..] == [h.pairs[i]] + h.pairs[i + 1..];
    } else {
      var a := ToAny(h);
      assert a == Any.LuaArray(PairsToAny(h, 0));
      assert |a.pairs| == i;
      assert PairsFromAny(a, i) == Some([]);
      assert h.pairs[i..] == [];
    }
  }

  /** Entry `j` of the converted pairs is the converted entry `j`. */
  lemma {:induction false} PairsAt(h: AnyHashableLuaValue, i: nat, j: nat)
    requires h.LuaArray? && i <= j < |h.pairs|
    ensures PairsToAny(h, i)[j - i] == (ToAny(h.pairs[j].0), ToAny(h.pairs[j].1))
    decreases j - i
  {
    if i < j {
      PairsAt(h, i + 1, j);
    }
  }

  /** Two hashable values with the same AnyLuaValue picture are equal. */
  lemma ToAnyInjective(h1: AnyHashableLuaValue, h2: AnyHashableLuaValue)
    requires ToAny(h1) == ToAny(h2)
    ensures h1 == h2
  {
    FromToAny(h1);
    FromToAny(h2);
  }
}
