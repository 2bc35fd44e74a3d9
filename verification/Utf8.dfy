// Well-formed UTF-8: the byte strings that a text can be decoded from.
module Utf8 {
  import opened Bytes

  // The byte after a UTF-8 lead byte, which for some lead bytes has a narrower range.
  predicate SecondByte(lead: byte, second: byte) {
    (if lead == 0xE0 then 0xA0 else if lead == 0xF0 then 0x90 else 0x80) <= second
    && second <= (if lead == 0xED then 0x9F else if lead == 0xF4 then 0x8F else 0xBF)
  }

  // Well-formed UTF-8, as in table 3-7 of the Unicode Standard.
  predicate ValidUtf8(text: Bytes) {
    if text == [] then true
    else
      var lead := text[0];
      if lead < 0x80 then ValidUtf8(text[1..])
      else if 0xC2 <= lead <= 0xDF then |text| >= 2 && SecondByte(lead, text[1]) && ValidUtf8(text[2..])
      else if 0xE0 <= lead <= 0xEF then
        |text| >= 3 && SecondByte(lead, text[1]) && 0x80 <= text[2] <= 0xBF && ValidUtf8(text[3..])
      else if 0xF0 <= lead <= 0xF4 then
        |text| >= 4 && SecondByte(lead, text[1]) && 0x80 <= text[2] <= 0xBF && 0x80 <= text[3] <= 0xBF
        && ValidUtf8(text[4..])
      else false
  }

  // A Unicode scalar value, and its encoding in one to four bytes.
  predicate Scalar(c: nat) {
    c < 0xD800 || 0xE000 <= c < 0x11_0000
  }

  function Encode(c: nat): (r: Bytes)
    requires Scalar(c)
    ensures 1 <= |r| <= 4
  {
    if c < 0x80 then [c]
    else if c < 0x800 then [0xC0 + c / 64, 0x80 + c % 64]
    else if c < 0x1_0000 then [0xE0 + c / 4096, 0x80 + c / 64 % 64, 0x80 + c % 64]
    else [0xF0 + c / 262144, 0x80 + c / 4096 % 64, 0x80 + c / 64 % 64, 0x80 + c % 64]
  }

  predicate Text(cs: seq<nat>) {
    forall i :: 0 <= i < |cs| ==> Scalar(cs[i])
  }

  function EncodeAll(cs: seq<nat>): Bytes
    requires Text(cs)
  {
    if cs == [] then [] else Encode(cs[0]) + EncodeAll(cs[1..])
  }

  lemma EncodedFirst(c: nat, rest: Bytes)
    requires Scalar(c)
    ensures ValidUtf8(Encode(c) + rest) <==> ValidUtf8(rest)
  {
    var text := Encode(c) + rest;
    assert text[|Encode(c)|..] == rest;
    assert text[0] == Encode(c)[0];
    if c >= 0x80 { assert text[1] == Encode(c)[1]; }
    if c >= 0x800 { assert text[2] == Encode(c)[2]; }
    if c >= 0x1_0000 { assert text[3] == Encode(c)[3]; }
  }

  // The scalar value that a well-formed text begins with.
  lemma DecodedFirst(text: Bytes) returns (c: nat)
    requires ValidUtf8(text) && text != []
    ensures Scalar(c) && |Encode(c)| <= |text| && text == Encode(c) + text[|Encode(c)|..]
    ensures ValidUtf8(text[|Encode(c)|..])
  {
    var b := text[0] as nat;
    if b < 0x80 {
      c := b;
    } else if b < 0xE0 {
      c := TwoBytes(b, text[1]);
    } else if b < 0xF0 {
      c := ThreeBytes(b, text[1], text[2]);
    } else {
      c := FourBytes(b, text[1], text[2], text[3]);
    }
    assert text == text[..|Encode(c)|] + text[|Encode(c)|..];
  }

  lemma TwoBytes(a: nat, b: nat) returns (c: nat)
    requires 0xC2 <= a <= 0xDF && 0x80 <= b <= 0xBF
    ensures Scalar(c) && Encode(c) == [a, b]
  {
    c := (a - 0xC0) * 64 + (b - 0x80);
  }

  lemma ThreeBytes(a: nat, b: nat, d: nat) returns (c: nat)
    requires 0xE0 <= a <= 0xEF && 0x80 <= b <= 0xBF && 0x80 <= d <= 0xBF && SecondByte(a, b)
    ensures Scalar(c) && Encode(c) == [a, b, d]
  {
    c := (a - 0xE0) * 4096 + (b - 0x80) * 64 + (d - 0x80);
    assert c / 64 == (a - 0xE0) * 64 + (b - 0x80);
  }

  lemma FourBytes(a: nat, b: nat, d: nat, e: nat) returns (c: nat)
    requires 0xF0 <= a <= 0xF4 && 0x80 <= b <= 0xBF && 0x80 <= d <= 0xBF && 0x80 <= e <= 0xBF && SecondByte(a, b)
    ensures Scalar(c) && Encode(c) == [a, b, d, e]
  {
    c := (a - 0xF0) * 262144 + (b - 0x80) * 4096 + (d - 0x80) * 64 + (e - 0x80);
    assert c / 64 == (a - 0xF0) * 4096 + (b - 0x80) * 64 + (d - 0x80);
    assert c / 4096 == (a - 0xF0) * 64 + (b - 0x80);
  }

  // Well-formed are exactly the encodings of sequences of scalar values; an ASCII text is one of them.
  lemma {:induction false} EncodedIsValid(cs: seq<nat>)
    requires Text(cs)
    ensures ValidUtf8(EncodeAll(cs))
  {
    if cs != [] {
      EncodedIsValid(cs[1..]);
      EncodedFirst(cs[0], EncodeAll(cs[1..]));
    }
  }

  lemma {:induction false} ValidIsEncoded(text: Bytes) returns (cs: seq<nat>)
    requires ValidUtf8(text)
    ensures Text(cs) && EncodeAll(cs) == text
    decreases |text|
  {
    if text == [] {
      cs := [];
    } else {
      var c := DecodedFirst(text);
      var rest := ValidIsEncoded(text[|Encode(c)|..]);
      cs := [c] + rest;
      assert cs[1..] == rest;
    }
  }

  lemma ValidIff(text: Bytes)
    ensures ValidUtf8(text) <==> exists cs :: Text(cs) && EncodeAll(cs) == text
  {
    if ValidUtf8(text) {
      var cs := ValidIsEncoded(text);
    }
    if cs :| Text(cs) && EncodeAll(cs) == text {
      EncodedIsValid(cs);
    }
  }
}
