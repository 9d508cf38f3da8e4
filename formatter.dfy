/** The text and style of one value in one format code
    (calculon/display.py, `BASE_FMT`, `draw_value_at_row`, the string
    built by `draw_binary`). */
module Formatter {
  import opened Options
  import opened Numerals

  /** The style strings of the display, one per region or format
      (`self.attrs[...]`); they are opaque here. */
  datatype Attrs = Attrs(
    header: string, err: string,
    hval: string, dval: string, oval: string, aval: string, uval: string, bval: string,
    vallabel: string, binlabel: string, exprlabel: string, expr: string)

  /** A piece of text together with the style it is drawn in. */
  datatype Styled = Styled(text: string, attr: string)

  const UNDEFINED: string := "<undefined>"

  /** The format codes `draw_value_at_row` has a branch for. */
  const ROW_FORMATS: string := "hdoau"

  // ---------------------------------------------------------------- binary

  /** `'{:0=<bits>b}'.format(v)`, cut down to its last `bits` characters. */
  function BinaryText(v: nat, bits: nat): string {
    var p := PadLeft(ToBase(v, 2), bits);
    if |p| > bits then p[|p| - bits..] else p
  }

  lemma PaddedDigits(s: string, width: nat, base: nat)
    requires 2 <= base
    requires forall i :: 0 <= i < |s| ==> IsDigit(s[i], base)
    ensures forall i :: 0 <= i < |PadLeft(s, width)| ==> IsDigit(PadLeft(s, width)[i], base)
  {
  }

  /** The last n digits of a digit string are its value modulo base^n. */
  lemma LowDigits(p: string, n: nat, base: nat)
    requires base >= 2 && n <= |p|
    requires forall i :: 0 <= i < |p| ==> IsDigit(p[i], base)
    ensures FromBase(p[|p| - n..], base) == FromBase(p, base) % Pow(base, n)
  {
    var k := |p| - n;
    var lo := p[k..];
    assert p == p[..k] + lo;
    FromBaseAppend(p[..k], lo, base);
    FromBaseBound(lo, base);
    DivModUnique(FromBase(p, base), Pow(base, n), FromBase(p[..k], base), FromBase(lo, base));
  }

  /** The binary rendering has exactly `bits` digits and reads back as the
      low `bits` bits of the value. */
  lemma BinaryTextValue(v: nat, bits: nat)
    ensures |BinaryText(v, bits)| == bits
    ensures forall i :: 0 <= i < bits ==> BinaryText(v, bits)[i] == '0' || BinaryText(v, bits)[i] == '1'
    ensures FromBase(BinaryText(v, bits), 2) == v % Pow(2, bits)
  {
    var t := ToBase(v, 2);
    var p := PadLeft(t, bits);
    ToBaseRoundTrip(v, 2);
    PadLeftValue(t, bits, 2);
    PaddedDigits(t, bits, 2);
    var s := BinaryText(v, bits);
    assert s == p[|p| - bits..];
    LowDigits(p, bits, 2);
    forall i | 0 <= i < |s|
      ensures s[i] == '0' || s[i] == '1'
    {
      assert s[i] == p[|p| - bits + i];
      BinaryDigit(s[i]);
    }
  }

  lemma BinaryDigit(c: char)
    requires IsDigit(c, 2)
    ensures c == '0' || c == '1'
  {
  }

  /** Below 2^bits the binary rendering round-trips to the value itself. */
  lemma BinaryTextRoundTrip(v: nat, bits: nat)
    requires v < Pow(2, bits)
    ensures FromBase(BinaryText(v, bits), 2) == v
  {
    BinaryTextValue(v, bits);
    DivModUnique(v, Pow(2, bits), 0, v);
  }

  // ----------------------------------------------------------------- ascii

  /** `'{0:0=<bits/4>X}'.format(v)`: the value in hex, zero filled to bits/4 digits. */
  function AsciiHex(v: nat, bits: nat): string {
    PadLeft(ToBase(v, 16), bits / 4)
  }

  /** `[int(s[i:i+2], 16) for i in range(0, len(s), 2)]`; an odd last chunk is one digit. */
  function ByteValues(s: string): seq<nat>
    decreases |s|
  {
    if |s| <= 2 then (if s == [] then [] else [FromBase(s, 16)])
    else [FromBase(s[..2], 16)] + ByteValues(s[2..])
  }

  function AsciiBytes(v: nat, bits: nat): seq<nat> {
    ByteValues(AsciiHex(v, bits))
  }

  /** The big-endian value of a byte sequence. */
  function FromBytes(bs: seq<nat>): nat {
    if bs == [] then 0 else bs[0] * Pow(256, |bs| - 1) + FromBytes(bs[1..])
  }

  /** Membership of chr(b) in Python's `string.printable`: ASCII graphic
      characters, the space and the five whitespace controls 9-13. */
  predicate IsPrintable(b: nat) {
    32 <= b <= 126 || 9 <= b <= 13
  }

  /** What a byte looks like on screen: itself, or '.' when it is not
      printable or is a newline. */
  function ShownChar(b: nat): char {
    if IsPrintable(b) && b != 10 then b as char else '.'
  }

  /** What the loop appends for one byte: braces are doubled so that the
      later template interpolation in `draw_str` turns them back into one. */
  function Escaped(b: nat): string {
    var c := ShownChar(b);
    if c == '{' || c == '}' then [c, c] else [c]
  }

  function AsciiText(bs: seq<nat>): string {
    if bs == [] then [] else Escaped(bs[0]) + AsciiText(bs[1..])
  }

  /** The characters the bytes should show, one per byte. */
  function Shown(bs: seq<nat>): (r: string)
    ensures |r| == |bs|
  {
    seq(|bs|, i requires 0 <= i < |bs| => ShownChar(bs[i]))
  }

  /** The brace un-doubling that `str.format` applies to literal text. */
  function Unescape(s: string): string {
    if s == [] then []
    else if |s| >= 2 && (s[0] == '{' || s[0] == '}') && s[1] == s[0] then [s[0]] + Unescape(s[2..])
    else [s[0]] + Unescape(s[1..])
  }

  lemma {:induction false} AsciiTextSnoc(bs: seq<nat>, b: nat)
    ensures AsciiText(bs + [b]) == AsciiText(bs) + Escaped(b)
  {
    if bs != [] {
      assert (bs + [b])[1..] == bs[1..] + [b];
      AsciiTextSnoc(bs[1..], b);
    } else {
      assert AsciiText([b]) == Escaped(b) + AsciiText([]);
    }
  }

  /** Interpolating the ASCII text gives back exactly one shown character per byte. */
  lemma {:induction false} AsciiUnescape(bs: seq<nat>)
    ensures Unescape(AsciiText(bs)) == Shown(bs)
  {
    if bs != [] {
      var e, rest := Escaped(bs[0]), AsciiText(bs[1..]);
      var t := e + rest;
      AsciiUnescape(bs[1..]);
      if |e| == 2 {
        assert t[2..] == rest;
      } else {
        assert t[1..] == rest;
      }
      assert Shown(bs) == [ShownChar(bs[0])] + Shown(bs[1..]);
    }
  }

  lemma {:induction false} ByteValuesBigEndian(s: string)
    requires |s| % 2 == 0
    requires forall i :: 0 <= i < |s| ==> IsDigit(s[i], 16)
    ensures |ByteValues(s)| == |s| / 2
    ensures forall i :: 0 <= i < |ByteValues(s)| ==> ByteValues(s)[i] < 256
    ensures FromBytes(ByteValues(s)) == FromBase(s, 16)
    decreases |s|
  {
    if s != [] {
      var head, tail := s[..2], s[2..];
      FromBaseBound(head, 16);
      assert Pow(16, 2) == 256;
      if |s| > 2 {
        ByteValuesBigEndian(tail);
        assert s == head + tail;
        FromBaseAppend(head, tail, 16);
        PowMul(16, 2, |tail| / 2);
        assert 2 * (|tail| / 2) == |tail|;
        var bs := ByteValues(s);
        assert bs[1..] == ByteValues(tail);
      } else {
        assert head == s;
      }
    }
  }

  /** A width in whole bytes is an even number of hex digits, and the
      same bound in base 16. */
  lemma HexDigitsOfBits(bits: nat)
    requires bits % 8 == 0
    ensures (bits / 4) % 2 == 0 && bits / 8 == (bits / 4) / 2
    ensures Pow(2, bits) == Pow(16, bits / 4)
  {
    var digits := bits / 4;
    assert bits == 4 * digits;
    PowMul(2, 4, digits);
    assert Pow(2, 4) == 16;
  }

  /** A value below 2^bits is shown as its bits/8 big-endian bytes. */
  lemma AsciiBytesBigEndian(v: nat, bits: nat)
    requires bits > 0 && bits % 8 == 0 && v < Pow(2, bits)
    ensures |AsciiBytes(v, bits)| == bits / 8
    ensures forall i :: 0 <= i < |AsciiBytes(v, bits)| ==> AsciiBytes(v, bits)[i] < 256
    ensures FromBytes(AsciiBytes(v, bits)) == v
  {
    HexDigitsOfBits(bits);
    var digits := bits / 4;
    ToBaseLength(v, 16, digits);
    var t := ToBase(v, 16);
    var s := PadLeft(t, digits);
    assert AsciiBytes(v, bits) == ByteValues(s);
    PaddedDigits(t, digits, 16);
    ByteValuesBigEndian(s);
    PadLeftValue(t, digits, 16);
    ToBaseRoundTrip(v, 16);
  }

  // ---------------------------------------------------------- one value row

  /** Text and style of `value` in format `fmt` (`draw_value_at_row`).
      A code outside ROW_FORMATS leaves Python's `attr` unbound when the
      value is defined, so it is excluded for defined values. */
  function ValueText(value: Option<nat>, fmt: char, bits: nat, attrs: Attrs): Styled
    requires value.None? || fmt in ROW_FORMATS
  {
    match value
    case None => Styled(UNDEFINED, attrs.err)
    case Some(n) =>
      if fmt == 'h' then Styled("0x" + ToBase(n, 16), attrs.hval)
      else if fmt == 'd' then Styled(ToBase(n, 10), attrs.dval)
      else if fmt == 'o' then Styled(ToBase(n, 8), attrs.oval)
      else if fmt == 'a' then Styled(AsciiText(AsciiBytes(n, bits)), attrs.aval)
      else Styled("", attrs.uval)
  }

  /** What each format code shows: the placeholder in the error style for an
      undefined value whatever the code, and otherwise the value's digits
      (read back to the value, no leading zero) or its interpolated bytes. */
  lemma ValueTextMeaning(value: Option<nat>, fmt: char, bits: nat, attrs: Attrs)
    requires value.None? || fmt in ROW_FORMATS
    ensures value.None? ==> ValueText(value, fmt, bits, attrs) == Styled(UNDEFINED, attrs.err)
    ensures value.Some? && fmt == 'h' ==>
      var t := ValueText(value, fmt, bits, attrs).text;
      |t| >= 3 && t[..2] == "0x" && FromBase(t[2..], 16) == value.value &&
      (forall i :: 2 <= i < |t| ==> IsDigit(t[i], 16)) && (t[2] == '0' <==> value.value == 0)
    ensures value.Some? && (fmt == 'd' || fmt == 'o') ==>
      var base := if fmt == 'd' then 10 else 8;
      var t := ValueText(value, fmt, bits, attrs).text;
      FromBase(t, base) == value.value && (forall i :: 0 <= i < |t| ==> IsDigit(t[i], base)) &&
      (t[0] == '0' <==> value.value == 0)
    ensures value.Some? && fmt == 'a' ==>
      Unescape(ValueText(value, fmt, bits, attrs).text) == Shown(AsciiBytes(value.value, bits))
    ensures value.Some? && fmt == 'u' ==> ValueText(value, fmt, bits, attrs) == Styled("", attrs.uval)
  {
    if value.Some? {
      var n := value.value;
      if fmt == 'h' {
        ToBaseRoundTrip(n, 16);
        var t := "0x" + ToBase(n, 16);
        assert t[2..] == ToBase(n, 16);
      } else if fmt == 'd' {
        ToBaseRoundTrip(n, 10);
      } else if fmt == 'o' {
        ToBaseRoundTrip(n, 8);
      } else if fmt == 'a' {
        AsciiUnescape(AsciiBytes(n, bits));
      }
    }
  }
}
