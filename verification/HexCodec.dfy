/** Hexadecimal text: the plugin's two converters (fumPluginAPI.cpp) and the reader of serial numbers (novintools.c). */
module HexCodec {
  import opened Common

  // ---- Digits ----

  predicate IsHex(c: Byte) {
    '0' as int <= c <= '9' as int || 'a' as int <= c <= 'f' as int || 'A' as int <= c <= 'F' as int
  }

  function Digit(n: nat): Byte
    requires n < 16
  {
    if n < 10 then '0' as int + n else 'a' as int + n - 10
  }

  function Value(c: Byte): (n: nat)
    requires IsHex(c)
    ensures n < 16
  {
    if c <= '9' as int then c - '0' as int
    else if c <= 'F' as int then c - 'A' as int + 10
    else c - 'a' as int + 10
  }

  function LowerDigit(c: Byte): Byte {
    if 'A' as int <= c <= 'Z' as int then c + 32 else c
  }

  lemma DigitsAndValues(n: nat, c: Byte)
    ensures n < 16 ==> IsHex(Digit(n)) && Value(Digit(n)) == n
    ensures IsHex(c) ==> Digit(Value(c)) == LowerDigit(c)
  {
  }

  /** The digits are these sixteen characters, in either case, in the order of their values; encoding is lower case. */
  lemma DigitsAre(n: nat, c: Byte)
    requires n < 16
    ensures var lower, upper := "0123456789abcdef", "0123456789ABCDEF";
            && Digit(n) == lower[n] as int
            && (c == lower[n] as int || c == upper[n] as int ==> IsHex(c) && Value(c) == n)
            && (IsHex(c) ==> Value(c) < 16 && (c == lower[Value(c)] as int || c == upper[Value(c)] as int))
  {
  }

  // ---- Text and bytes ----

  predicate AllHex(text: seq<Byte>) {
    forall i :: 0 <= i < |text| ==> IsHex(text[i])
  }

  function Encoded(data: seq<Byte>): (text: seq<Byte>)
    ensures |text| == 2 * |data|
  {
    if data == [] then [] else [Digit(data[0] / 16), Digit(data[0] % 16)] + Encoded(data[1..])
  }

  /** Pairs of digits; an odd one at the end is dropped. */
  function Decoded(text: seq<Byte>): (data: seq<Byte>)
    requires AllHex(text)
    ensures |data| == |text| / 2
  {
    if |text| < 2 then [] else [16 * Value(text[0]) + Value(text[1])] + Decoded(text[2..])
  }

  function Lower(text: seq<Byte>): seq<Byte> {
    seq(|text|, i requires 0 <= i < |text| => LowerDigit(text[i]))
  }

  lemma {:induction false} EncodedIsHex(data: seq<Byte>)
    ensures AllHex(Encoded(data))
  {
    if data != [] {
      EncodedIsHex(data[1..]);
      DigitsAndValues(data[0] / 16, 0);
      DigitsAndValues(data[0] % 16, 0);
    }
  }

  /** Decoding what was encoded gives the bytes back, whatever they are. */
  lemma {:induction false} DecodeEncode(data: seq<Byte>)
    ensures AllHex(Encoded(data)) && Decoded(Encoded(data)) == data
  {
    EncodedIsHex(data);
    if data != [] {
      DecodeEncode(data[1..]);
      DigitsAndValues(data[0] / 16, 0);
      DigitsAndValues(data[0] % 16, 0);
      assert Encoded(data)[2..] == Encoded(data[1..]);
    }
  }

  /** Encoding what was decoded gives the text back in lower case, without an odd digit at its end. */
  lemma {:induction false} EncodeDecode(text: seq<Byte>)
    requires AllHex(text)
    ensures Encoded(Decoded(text)) == Lower(text[..|text| / 2 * 2])
  {
    if |text| >= 2 {
      var rest := text[2..];
      EncodeDecode(rest);
      EncodedPair(text);
      EvenPart(text);
    }
  }

  lemma Nibbles(high: nat, low: nat)
    requires high < 16 && low < 16
    ensures (16 * high + low) / 16 == high && (16 * high + low) % 16 == low
  {
  }

  lemma EncodedFirst(b: Byte, rest: seq<Byte>)
    ensures Encoded([b] + rest) == [Digit(b / 16), Digit(b % 16)] + Encoded(rest)
  {
    assert ([b] + rest)[1..] == rest;
  }

  lemma DecodedFirst(text: seq<Byte>)
    requires AllHex(text) && |text| >= 2
    ensures Decoded(text) == [16 * Value(text[0]) + Value(text[1])] + Decoded(text[2..])
  {
  }

  lemma EncodedPair(text: seq<Byte>)
    requires AllHex(text) && |text| >= 2
    ensures Encoded(Decoded(text)) == [LowerDigit(text[0]), LowerDigit(text[1])] + Encoded(Decoded(text[2..]))
  {
    var first: Byte, rest := 16 * Value(text[0]) + Value(text[1]), Decoded(text[2..]);
    assert Digit(first / 16) == LowerDigit(text[0]) && Digit(first % 16) == LowerDigit(text[1]) by {
      Nibbles(Value(text[0]), Value(text[1]));
      DigitsAndValues(0, text[0]);
      DigitsAndValues(0, text[1]);
    }
    DecodedFirst(text);
    EncodedFirst(first, rest);
  }

  lemma EvenPart(text: seq<Byte>)
    requires AllHex(text) && |text| >= 2
    ensures var rest := text[2..];
            Lower(text[..|text| / 2 * 2])
            == [LowerDigit(text[0]), LowerDigit(text[1])] + Lower(rest[..|rest| / 2 * 2])
  {
    var rest := text[2..];
    assert text[..|text| / 2 * 2] == [text[0], text[1]] + rest[..|rest| / 2 * 2];
  }

  lemma {:induction false} EncodedAt(data: seq<Byte>, i: nat)
    requires i < |data|
    ensures Encoded(data)[2 * i] == Digit(data[i] / 16) && Encoded(data)[2 * i + 1] == Digit(data[i] % 16)
  {
    if i > 0 { EncodedAt(data[1..], i - 1); }
  }

  lemma {:induction false} DecodedAt(text: seq<Byte>, i: nat)
    requires AllHex(text) && 2 * i + 1 < |text|
    ensures Decoded(text)[i] == 16 * Value(text[2 * i]) + Value(text[2 * i + 1])
  {
    if i > 0 { DecodedAt(text[2..], i - 1); }
  }

  lemma EncodedDigits(data: seq<Byte>, i: nat)
    requires i < |data|
    ensures Encoded(data)[2 * i] == "0123456789abcdef"[data[i] / 16] as int
    ensures Encoded(data)[2 * i + 1] == "0123456789abcdef"[data[i] % 16] as int
  {
    EncodedAt(data, i);
    DigitsAre(data[i] / 16, 0);
    DigitsAre(data[i] % 16, 0);
  }

  // ---- The converters ----

  method Bin2Hex(input: seq<Byte>, out: array<Byte>) returns (j: nat)
    requires 2 * |input| <= out.Length
    modifies out
    ensures j == 2 * |input| && out[..j] == Encoded(input) && out[j..] == old(out[j..])
    ensures forall k :: 0 <= k < |input| ==>
      && out[2 * k] == "0123456789abcdef"[input[k] / 16] as int
      && out[2 * k + 1] == "0123456789abcdef"[input[k] % 16] as int
  {
    var i := 0;
    j := 0;
    while i < |input|
      invariant i <= |input| && j == 2 * i
      invariant forall k :: 0 <= k < j ==> out[k] == Encoded(input)[k]
      invariant forall k :: 2 * |input| <= k < out.Length ==> out[k] == old(out[k])
    {
      EncodedAt(input, i);
      out[j] := Digit(input[i] / 16);
      out[j + 1] := Digit(input[i] % 16);
      j := j + 2;
      i := i + 1;
    }
    assert out[..j] == Encoded(input);
    forall k | 0 <= k < |input|
      ensures out[2 * k] == "0123456789abcdef"[input[k] / 16] as int
      ensures out[2 * k + 1] == "0123456789abcdef"[input[k] % 16] as int
    {
      EncodedDigits(input, k);
    }
  }

  /** What the table holds for other characters is left as it was allocated. */
  method BinMap() returns (binMap: array<int>)
    ensures fresh(binMap) && binMap.Length == 256
    ensures forall c: Byte :: IsHex(c) ==> binMap[c] == Value(c)
  {
    binMap := new int[256];
    var n := 0;
    while n < 10
      invariant 0 <= n <= 10
      invariant forall c: Byte :: '0' as int <= c < '0' as int + n ==> binMap[c] == Value(c)
    {
      binMap['0' as int + n] := n;
      n := n + 1;
    }
    n := 10;
    while n < 16
      invariant 10 <= n <= 16
      invariant forall c: Byte :: '0' as int <= c <= '9' as int ==> binMap[c] == Value(c)
      invariant forall c: Byte :: 'a' as int <= c < 'a' as int + n - 10 ==> binMap[c] == Value(c)
      invariant forall c: Byte :: 'A' as int <= c < 'A' as int + n - 10 ==> binMap[c] == Value(c)
    {
      binMap['a' as int + n - 10] := n;
      binMap['A' as int + n - 10] := n;
      n := n + 1;
    }
  }

  lemma PairsAreDecoded(text: seq<Byte>, data: seq<Byte>)
    requires AllHex(text) && |data| == |text| / 2
    requires forall k :: 0 <= k < |data| ==> data[k] == 16 * Value(text[2 * k]) + Value(text[2 * k + 1])
    ensures data == Decoded(text)
  {
    forall k | 0 <= k < |data| ensures data[k] == Decoded(text)[k] { DecodedAt(text, k); }
  }

  /** Each byte whose two characters are digits is converted, and all of a text that has only digits. */
  method Hex2Bin(input: seq<Byte>, out: array<Byte>) returns (i: nat)
    requires |input| / 2 <= out.Length
    modifies out
    ensures i == |input| / 2 && out[i..] == old(out[i..])
    ensures forall k :: 0 <= k < i && IsHex(input[2 * k]) && IsHex(input[2 * k + 1])
              ==> out[k] == 16 * Value(input[2 * k]) + Value(input[2 * k + 1])
    ensures AllHex(input) ==> out[..i] == Decoded(input)
  {
    var binMap := BinMap();
    var j := 0;
    i := 0;
    while i < |input| / 2
      invariant i <= |input| / 2 && j == 2 * i && forall c: Byte :: IsHex(c) ==> binMap[c] == Value(c)
      invariant forall k :: 0 <= k < i && IsHex(input[2 * k]) && IsHex(input[2 * k + 1])
                  ==> out[k] == 16 * Value(input[2 * k]) + Value(input[2 * k + 1])
      invariant forall k :: |input| / 2 <= k < out.Length ==> out[k] == old(out[k])
    {
      var a, b := 16 * (binMap[input[j]] % 16), binMap[input[j + 1]] % 16;
      out[i] := a + b;
      j := j + 2;
      i := i + 1;
    }
    if AllHex(input) { PairsAreDecoded(input, out[..i]); }
  }

  // ---- Serial numbers ----

  /**
   `_cnv_hex_to_decimal_serial`. The digits are replaced by their values in a local buffer, up to the first character
   that is none; then four bytes are put together. Whatever the buffer holds behind the text is read, and does no
   harm.
   */
  method SerialFromText(src: seq<Byte>) returns (dest: seq<Byte>)
    requires |src| <= 15
    ensures |dest| == 4
    ensures |src| >= 8 && AllHex(src[..8]) ==> dest == Decoded(src[..8])
    ensures forall i :: 0 <= i < 4 && 2 * i + 1 < |src| && (forall j :: 0 <= j < 2 * i + 2 ==> IsHex(src[j]))
              ==> dest[i] == 16 * Value(src[2 * i]) + Value(src[2 * i + 1])
  {
    var ser := new Byte[16];
    forall k | 0 <= k < |src| { ser[k] := src[k]; }
    ghost var read := ser[..];
    assert read[..|src|] == src;
    var i := ReplaceDigits(ser, |src|);
    dest := [PutTogether(ser[0], ser[1]), PutTogether(ser[2], ser[3]),
             PutTogether(ser[4], ser[5]), PutTogether(ser[6], ser[7])];
    SerialIsDecoded(src, i, ser[..], dest);
  }

  /** The digits among the first characters give way to their values, as far as there is nothing else among them. */
  method ReplaceDigits(ser: array<Byte>, last: nat) returns (i: nat)
    requires ser.Length == 16 && last < 16
    modifies ser
    ensures i <= last + 1 && (i <= last ==> !IsHex(old(ser[i])))
    ensures forall k :: 0 <= k < i ==> IsHex(old(ser[k])) && ser[k] == Value(old(ser[k]))
    ensures ser[i..] == old(ser[i..])
  {
    i := 0;
    while i <= last
      invariant i <= last + 1
      invariant forall k :: 0 <= k < i ==> IsHex(old(ser[k])) && ser[k] == Value(old(ser[k]))
      invariant forall k :: i <= k < 16 ==> ser[k] == old(ser[k])
    {
      if !IsHex(ser[i]) { break; }
      ser[i] := Value(ser[i]);
      i := i + 1;
    }
  }

  lemma SerialByte(src: seq<Byte>, digits: nat, ser: seq<Byte>, i: nat)
    requires 2 * i + 1 < |src| <= |ser| && (digits < |src| ==> !IsHex(src[digits]))
    requires forall k :: 0 <= k < digits && k < |src| ==> IsHex(src[k]) && ser[k] == Value(src[k])
    requires forall j :: 0 <= j < 2 * i + 2 ==> IsHex(src[j])
    ensures PutTogether(ser[2 * i], ser[2 * i + 1]) == 16 * Value(src[2 * i]) + Value(src[2 * i + 1])
  {
    assert 2 * i + 1 < digits;
    assert ser[2 * i] == Value(src[2 * i]) && ser[2 * i + 1] == Value(src[2 * i + 1]);
  }

  lemma SerialIsDecoded(src: seq<Byte>, digits: nat, ser: seq<Byte>, dest: seq<Byte>)
    requires |src| <= 15 && |ser| == 16 && |dest| == 4 && (digits < |src| ==> !IsHex(src[digits]))
    requires forall k :: 0 <= k < digits && k < |src| ==> IsHex(src[k]) && ser[k] == Value(src[k])
    requires forall k :: 0 <= k < 4 ==> dest[k] == PutTogether(ser[2 * k], ser[2 * k + 1])
    ensures |src| >= 8 && AllHex(src[..8]) ==> dest == Decoded(src[..8])
    ensures forall i :: 0 <= i < 4 && 2 * i + 1 < |src| && (forall j :: 0 <= j < 2 * i + 2 ==> IsHex(src[j]))
              ==> dest[i] == 16 * Value(src[2 * i]) + Value(src[2 * i + 1])
  {
    forall i | 0 <= i < 4 && 2 * i + 1 < |src| && (forall j :: 0 <= j < 2 * i + 2 ==> IsHex(src[j]))
      ensures dest[i] == 16 * Value(src[2 * i]) + Value(src[2 * i + 1])
    {
      SerialByte(src, digits, ser, i);
    }
    if |src| >= 8 && AllHex(src[..8]) {
      var first := src[..8];
      forall j | 0 <= j < 8 ensures IsHex(src[j]) && src[j] == first[j] { assert IsHex(first[j]); }
      forall k | 0 <= k < 4 ensures dest[k] == Decoded(first)[k] {
        SerialByte(src, digits, ser, k);
        DecodedAt(first, k);
      }
    }
  }

  /** Two digit values, in an `unsigned char`. */
  function PutTogether(high: Byte, low: Byte): Byte {
    (16 * (high as int) + low) % 256
  }
}
