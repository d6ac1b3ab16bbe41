/** Byte strings, UTF-8 well-formedness and C strings. */
module Base {

  datatype Option<T> = None | Some(value: T)

  newtype byte = x: int | 0 <= x < 256

  type Bytes = seq<byte>

  /** The bytes of a text made of ASCII characters only. */
  function Ascii(s: string): (r: Bytes)
    requires forall i :: 0 <= i < |s| ==> s[i] < 128 as char
    ensures |r| == |s|
    ensures forall i :: 0 <= i < |s| ==> r[i] as int == s[i] as int
  {
    if s == [] then [] else [s[0] as int as byte] + Ascii(s[1..])
  }

  // ---------------------------------------------------------------------
  // UTF-8, as Rust's String::from_utf8 checks it (RFC 3629, section 4)
  // ---------------------------------------------------------------------

  predicate IsContinuation(b: byte) { 0x80 <= b <= 0xBF }

  /** Length of the encoded character that starts with lead byte `b`, 0 if `b` cannot start one. */
  function Width(b: byte): nat
  {
    if b <= 0x7F then 1
    else if 0xC2 <= b <= 0xDF then 2
    else if 0xE0 <= b <= 0xEF then 3
    else if 0xF0 <= b <= 0xF4 then 4
    else 0
  }

  /** Bounds of the second byte: they exclude overlong forms (E0, F0), surrogates (ED)
      and code points above U+10FFFF (F4). */
  function SecondLow(b: byte): byte { if b == 0xE0 then 0xA0 else if b == 0xF0 then 0x90 else 0x80 }

  function SecondHigh(b: byte): byte { if b == 0xED then 0x9F else if b == 0xF4 then 0x8F else 0xBF }

  /** A well-formed encoded character starts at `s[i]`. */
  predicate CharAt(s: Bytes, i: nat)
  {
    i < |s| && Width(s[i]) > 0 && i + Width(s[i]) <= |s|
    && (Width(s[i]) >= 2 ==> SecondLow(s[i]) <= s[i + 1] <= SecondHigh(s[i]))
    && (forall j :: i + 2 <= j < i + Width(s[i]) ==> IsContinuation(s[j]))
  }

  predicate ValidFrom(s: Bytes, i: nat)
    decreases |s| - i
  {
    i == |s| || (CharAt(s, i) && ValidFrom(s, i + Width(s[i])))
  }

  /** `s` is a well-formed UTF-8 text. */
  predicate ValidUtf8(s: Bytes) { ValidFrom(s, 0) }

  predicate IsAscii(s: Bytes) { forall i :: 0 <= i < |s| ==> s[i] < 0x80 }

  lemma {:induction false} AsciiFrom(s: Bytes, i: nat)
    requires IsAscii(s) && i <= |s|
    ensures ValidFrom(s, i)
    decreases |s| - i
  {
    if i < |s| {
      assert Width(s[i]) == 1;
      AsciiFrom(s, i + 1);
    }
  }

  /** Every ASCII text is well-formed UTF-8. */
  lemma AsciiIsUtf8(s: Bytes)
    requires IsAscii(s)
    ensures ValidUtf8(s)
  {
    AsciiFrom(s, 0);
  }

  // ---------------------------------------------------------------------
  // C strings
  // ---------------------------------------------------------------------

  /** What a reader of a NUL-terminated C string sees of `s`: the bytes before the first NUL. */
  function UpToNul(s: Bytes): (r: Bytes)
    ensures r <= s && 0 !in r
    ensures |r| < |s| ==> s[|r|] == 0
  {
    if s == [] || s[0] == 0 then [] else [s[0]] + UpToNul(s[1..])
  }

  lemma UpToNulFree(s: Bytes)
    requires 0 !in s
    ensures UpToNul(s) == s
  {
  }
}
