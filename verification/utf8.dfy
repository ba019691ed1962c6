/**
  UTF-8, as `std::str::from_utf8` checks it: the well-formed sequences of table 3-7 of the Unicode Standard.
  Decoding is measured against encoding.
*/
module Utf8 {
  import opened Wrappers

  type Byte = n: nat | n < 256

  predicate Continues(b: Byte) {
    0x80 <= b < 0xC0
  }

  /** The length of the character at the front, or 0 if there is none. */
  function Width(bytes: seq<Byte>): (w: nat)
    ensures w <= |bytes|
  {
    if bytes == [] then 0
    else
      var b := bytes[0];
      if b < 0x80 then 1
      else if 0xC2 <= b < 0xE0 then
        if |bytes| >= 2 && Continues(bytes[1]) then 2 else 0
      else if 0xE0 <= b < 0xF0 then
        if |bytes| >= 3 && Continues(bytes[1]) && Continues(bytes[2])
           && (b == 0xE0 ==> bytes[1] >= 0xA0) && (b == 0xED ==> bytes[1] < 0xA0) then 3 else 0
      else if 0xF0 <= b < 0xF5 then
        if |bytes| >= 4 && Continues(bytes[1]) && Continues(bytes[2]) && Continues(bytes[3])
           && (b == 0xF0 ==> bytes[1] >= 0x90) && (b == 0xF4 ==> bytes[1] < 0x90) then 4 else 0
      else 0
  }

  /** The payload of a byte that continues a character. */
  function Six(b: Byte): int {
    b as int - 0x80
  }

  function Character(bytes: seq<Byte>): char
    requires Width(bytes) > 0
  {
    var w, b := Width(bytes), bytes[0] as int;
    if w == 1 then b as char
    else if w == 2 then ((b - 0xC0) * 0x40 + Six(bytes[1])) as char
    else if w == 3 then ((b - 0xE0) * 0x1000 + Six(bytes[1]) * 0x40 + Six(bytes[2])) as char
    else ((b - 0xF0) * 0x40000 + Six(bytes[1]) * 0x1000 + Six(bytes[2]) * 0x40 + Six(bytes[3])) as char
  }

  function Decoded(bytes: seq<Byte>): Option<string> {
    if bytes == [] then Some("")
    else if Width(bytes) == 0 then None
    else Prepended(Character(bytes), Decoded(bytes[Width(bytes)..]))
  }

  function Prepended(first: char, rest: Option<string>): Option<string> {
    if rest.None? then None else Some([first] + rest.value)
  }

  lemma {:induction false} DecodedFront(a: seq<Byte>, b: seq<Byte>, first: char, rest: seq<Byte>)
    requires Width(a) > 0 && first == Character(a) && rest == a[Width(a)..]
    ensures Decoded(a) == Prepended(first, Decoded(rest)) && Decoded(a + b) == Prepended(first, Decoded(rest + b))
  {
    assert (a + b)[Width(a)..] == rest + b;
  }

  /** Texts cut between characters decode piece by piece. */
  lemma {:induction false} DecodedConcat(a: seq<Byte>, b: seq<Byte>)
    requires Decoded(a).Some? && Decoded(b).Some?
    ensures Decoded(a + b) == Some(Decoded(a).value + Decoded(b).value)
  {
    if a == [] {
      assert a + b == b && "" + Decoded(b).value == Decoded(b).value;
    } else {
      var first, rest := Character(a), a[Width(a)..];
      DecodedFront(a, b, first, rest);
      DecodedConcat(rest, b);
      assert [first] + (Decoded(rest).value + Decoded(b).value) == [first] + Decoded(rest).value + Decoded(b).value;
    }
  }

  // ---------- encoding ----------

  /** The bytes of a character (section 3.9 of the Unicode Standard). */
  function Encoded(ch: char): seq<Byte> {
    var code := ch as int;
    if code < 0x80 then [code]
    else if code < 0x800 then [0xC0 + code / 0x40, 0x80 + code % 0x40]
    else if code < 0x10000 then [0xE0 + code / 0x1000, 0x80 + code / 0x40 % 0x40, 0x80 + code % 0x40]
    else [0xF0 + code / 0x40000, 0x80 + code / 0x1000 % 0x40, 0x80 + code / 0x40 % 0x40, 0x80 + code % 0x40]
  }

  function AllEncoded(text: string): seq<Byte> {
    if text == "" then [] else Encoded(text[0]) + AllEncoded(text[1..])
  }

  /** A number in base 64. */
  lemma Base64(code: nat)
    ensures code == code / 0x40 * 0x40 + code % 0x40
    ensures code / 0x40 == code / 0x1000 * 0x40 + code / 0x40 % 0x40
    ensures code / 0x1000 == code / 0x40000 * 0x40 + code / 0x1000 % 0x40
  {
  }

  lemma TwoBytes(ch: char, bytes: seq<Byte>)
    requires 0x80 <= ch as int < 0x800 && Encoded(ch) <= bytes
    ensures Width(bytes) == 2 && Character(bytes) == ch
  {
    Base64(ch as int);
    assert bytes[0] == Encoded(ch)[0] && bytes[1] == Encoded(ch)[1];
  }

  lemma ThreeBytes(ch: char, bytes: seq<Byte>)
    requires 0x800 <= ch as int < 0x10000 && Encoded(ch) <= bytes
    ensures Width(bytes) == 3 && Character(bytes) == ch
  {
    Base64(ch as int);
    assert bytes[0] == Encoded(ch)[0] && bytes[1] == Encoded(ch)[1] && bytes[2] == Encoded(ch)[2];
  }

  lemma FourBytes(ch: char, bytes: seq<Byte>)
    requires 0x10000 <= ch as int && Encoded(ch) <= bytes
    ensures Width(bytes) == 4 && Character(bytes) == ch
  {
    Base64(ch as int);
    assert bytes[0] == Encoded(ch)[0] && bytes[1] == Encoded(ch)[1];
    assert bytes[2] == Encoded(ch)[2] && bytes[3] == Encoded(ch)[3];
  }

  /** An encoded character in front is read back, and only itself. */
  lemma EncodedIsRead(ch: char, bytes: seq<Byte>)
    requires Encoded(ch) <= bytes
    ensures Width(bytes) == |Encoded(ch)| && Character(bytes) == ch
  {
    var code := ch as int;
    if code < 0x80 {
      assert bytes[0] == Encoded(ch)[0];
    } else if code < 0x800 {
      TwoBytes(ch, bytes);
    } else if code < 0x10000 {
      ThreeBytes(ch, bytes);
    } else {
      FourBytes(ch, bytes);
    }
  }

  /** Bytes that are digits in base 64 are the ones the number is encoded with. */
  lemma DigitsOf(high: nat, low: nat)
    requires low < 0x40
    ensures (high * 0x40 + low) / 0x40 == high && (high * 0x40 + low) % 0x40 == low
  {
  }

  lemma ReadTwo(bytes: seq<Byte>)
    requires Width(bytes) == 2
    ensures Encoded(Character(bytes)) == bytes[..2]
  {
    DigitsOf(bytes[0] as int - 0xC0, Six(bytes[1]));
  }

  lemma ReadThree(bytes: seq<Byte>)
    requires Width(bytes) == 3
    ensures Encoded(Character(bytes)) == bytes[..3]
  {
    var b := bytes[0] as int - 0xE0;
    DigitsOf(b, Six(bytes[1]));
    DigitsOf(b * 0x40 + Six(bytes[1]), Six(bytes[2]));
    ThousandsOf(Character(bytes) as int);
  }

  lemma ReadFour(bytes: seq<Byte>)
    requires Width(bytes) == 4
    ensures Encoded(Character(bytes)) == bytes[..4]
  {
    var b := bytes[0] as int - 0xF0;
    DigitsOf(b, Six(bytes[1]));
    DigitsOf(b * 0x40 + Six(bytes[1]), Six(bytes[2]));
    DigitsOf((b * 0x40 + Six(bytes[1])) * 0x40 + Six(bytes[2]), Six(bytes[3]));
    ThousandsOf(Character(bytes) as int);
  }

  /** What is read as a character is its encoding. */
  lemma ReadIsEncoded(bytes: seq<Byte>)
    requires Width(bytes) > 0
    ensures Encoded(Character(bytes)) == bytes[..Width(bytes)]
  {
    match Width(bytes)
    case 2 => ReadTwo(bytes);
    case 3 => ReadThree(bytes);
    case 4 => ReadFour(bytes);
    case _ =>
  }

  lemma ThousandsOf(code: nat)
    ensures code / 0x1000 == code / 0x40 / 0x40 && code / 0x40000 == code / 0x40 / 0x40 / 0x40
  {
  }

  /**
    EXACTLY UTF-8.  Bytes are accepted exactly if they are the encoding of a text, and decode to that text.
  */
  lemma {:induction false} DecodedExactly(bytes: seq<Byte>, text: string)
    ensures Decoded(bytes) == Some(text) <==> bytes == AllEncoded(text)
    decreases |text|
  {
    if text != "" {
      var first, rest := Encoded(text[0]), AllEncoded(text[1..]);
      if bytes == AllEncoded(text) {
        EncodedIsRead(text[0], bytes);
        assert bytes[|first|..] == rest;
        DecodedExactly(rest, text[1..]);
        assert [text[0]] + text[1..] == text;
      }
      if Decoded(bytes) == Some(text) {
        ReadIsEncoded(bytes);
        var left := bytes[Width(bytes)..];
        assert Decoded(left).Some? && [Character(bytes)] + Decoded(left).value == text;
        assert text[1..] == Decoded(left).value;
        DecodedExactly(left, text[1..]);
        assert bytes == bytes[..Width(bytes)] + left;
      }
    }
  }
}
