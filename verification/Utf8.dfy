/** Text preview (src/app/sandbox/browse.py): UTF-8 decoding of a file's first bytes, cut anywhere. */
module Utf8 {

  import opened Common

  type Byte = b: int | 0 <= b < 256
  /** Unicode scalar values: code points without the surrogates. */
  type Scalar = c: int | 0 <= c < 0xD800 || 0xE000 <= c <= 0x10FFFF

  /** Longest encoding of one character. */
  const MAX_WIDTH := 4

  // ---- The encoding of section 3 of RFC 3629 ----

  function Encode(c: Scalar): (b: seq<Byte>)
    ensures 1 <= |b| <= MAX_WIDTH
  {
    if c < 0x80 then [c]
    else if c < 0x800 then [0xC0 + c / 64, 0x80 + c % 64]
    else if c < 0x10000 then [0xE0 + c / 4096, 0x80 + c / 64 % 64, 0x80 + c % 64]
    else [0xF0 + c / 262144, 0x80 + c / 4096 % 64, 0x80 + c / 64 % 64, 0x80 + c % 64]
  }

  function EncodeAll(text: seq<Scalar>): seq<Byte> {
    if text == [] then [] else Encode(text[0]) + EncodeAll(text[1..])
  }

  // ---- The strict decoder, byte ranges as in section 4 of RFC 3629 ----

  predicate Tail(b: Byte) { 0x80 <= b <= 0xBF }

  /** Payload bits, high to low, of the lead byte and its tails. */
  function Combine2(a: int, b: int): int { a * 64 + b }
  function Combine3(a: int, b: int, c: int): int { a * 4096 + b * 64 + c }
  function Combine4(a: int, b: int, c: int, d: int): int { a * 262144 + b * 4096 + c * 64 + d }

  /** The character at the front of b with its width, or None when the front is not a complete character. */
  function DecodeOne(b: seq<Byte>): (r: Option<(Scalar, nat)>)
    ensures r.Some? ==> 1 <= r.value.1 <= |b|
  {
    if |b| == 0 then None
    else if b[0] < 0x80 then Some((b[0], 1))
    else if 0xC2 <= b[0] <= 0xDF then
      if |b| >= 2 && Tail(b[1]) then Some((Combine2(b[0] - 0xC0, b[1] - 0x80), 2)) else None
    else if 0xE0 <= b[0] <= 0xEF then
      if |b| >= 3 && Tail(b[1]) && Tail(b[2])
         && (b[0] == 0xE0 ==> b[1] >= 0xA0) && (b[0] == 0xED ==> b[1] <= 0x9F)
      then Some((Combine3(b[0] - 0xE0, b[1] - 0x80, b[2] - 0x80), 3)) else None
    else if 0xF0 <= b[0] <= 0xF4 then
      if |b| >= 4 && Tail(b[1]) && Tail(b[2]) && Tail(b[3])
         && (b[0] == 0xF0 ==> b[1] >= 0x90) && (b[0] == 0xF4 ==> b[1] <= 0x8F)
      then Some((Combine4(b[0] - 0xF0, b[1] - 0x80, b[2] - 0x80, b[3] - 0x80), 4)) else None
    else None
  }

  function Decode(b: seq<Byte>): Option<seq<Scalar>> {
    if b == [] then Some([])
    else match DecodeOne(b)
      case None => None
      case Some((c, width)) =>
        (match Decode(b[width..])
         case None => None
         case Some(rest) => Some([c] + rest))
  }

  lemma Digits2(c: int)
    requires 0x80 <= c < 0x800
    ensures c == c / 64 * 64 + c % 64 && 2 <= c / 64 < 32
  {}

  lemma Digits3(c: int)
    requires 0x800 <= c < 0x10000
    ensures c == c / 4096 * 4096 + c / 64 % 64 * 64 + c % 64
    ensures 0 <= c / 4096 < 16
    ensures c / 4096 == 0 ==> c / 64 % 64 >= 32
    ensures c < 0xD800 && c / 4096 == 13 ==> c / 64 % 64 < 32
    ensures c >= 0xE000 ==> c / 4096 >= 14
  {}

  lemma Digits4(c: int)
    requires 0x10000 <= c <= 0x10FFFF
    ensures c == c / 262144 * 262144 + c / 4096 % 64 * 4096 + c / 64 % 64 * 64 + c % 64
    ensures 0 <= c / 262144 <= 4
    ensures c / 262144 == 0 ==> c / 4096 % 64 >= 16
    ensures c / 262144 == 4 ==> c / 4096 % 64 < 16
  {}

  /** Encode then decode: whatever follows is left alone. */
  lemma DecodeOneOfEncode(c: Scalar, rest: seq<Byte>)
    ensures DecodeOne(Encode(c) + rest) == Some((c, |Encode(c)|))
  {
    if 0x80 <= c < 0x800 {
      Digits2(c);
    } else if 0x800 <= c < 0x10000 {
      Digits3(c);
    } else if 0x10000 <= c {
      Digits4(c);
    }
  }

  lemma EncodeTwo(x: int, y: int)
    requires 2 <= x < 32 && 0 <= y < 64
    ensures Encode(Combine2(x, y)) == [0xC0 + x, 0x80 + y]
  {
    Base64(x, y);
  }

  lemma EncodeThree(x: int, y: int, z: int)
    requires 0 <= x < 16 && 0 <= y < 64 && 0 <= z < 64 && (x == 0 ==> y >= 32) && (x == 13 ==> y < 32)
    ensures 0x800 <= Combine3(x, y, z) < 0x10000 && !(0xD800 <= Combine3(x, y, z) < 0xE000)
    ensures Encode(Combine3(x, y, z)) == [0xE0 + x, 0x80 + y, 0x80 + z]
  {
    var c := Combine3(x, y, z);
    Base64(Combine2(x, y), z);
    Base64(x, y);
    assert c / 4096 == c / 64 / 64;
  }

  lemma EncodeFour(x: int, y: int, z: int, w: int)
    requires 0 <= x <= 4 && 0 <= y < 64 && 0 <= z < 64 && 0 <= w < 64 && (x == 0 ==> y >= 16) && (x == 4 ==> y < 16)
    ensures 0x10000 <= Combine4(x, y, z, w) <= 0x10FFFF
    ensures Encode(Combine4(x, y, z, w)) == [0xF0 + x, 0x80 + y, 0x80 + z, 0x80 + w]
  {
    var c := Combine4(x, y, z, w);
    Base64(Combine3(x, y, z), w);
    Base64(Combine2(x, y), z);
    Base64(x, y);
    assert c / 4096 == c / 64 / 64;
    assert c / 262144 == c / 64 / 64 / 64;
  }

  /** Decode then encode: the decoder accepts nothing but the encoding. */
  lemma EncodeOfDecodeOne(b: seq<Byte>)
    requires DecodeOne(b).Some?
    ensures var (c, width) := DecodeOne(b).value; 1 <= width <= |b| && b[..width] == Encode(c)
  {
    var width := DecodeOne(b).value.1;
    if width == 2 {
      EncodeTwo(b[0] - 0xC0, b[1] - 0x80);
    } else if width == 3 {
      EncodeThree(b[0] - 0xE0, b[1] - 0x80, b[2] - 0x80);
    } else if width == 4 {
      EncodeFour(b[0] - 0xF0, b[1] - 0x80, b[2] - 0x80, b[3] - 0x80);
    }
  }

  lemma Base64(high: int, low: int)
    requires 0 <= low < 64
    ensures (high * 64 + low) / 64 == high && (high * 64 + low) % 64 == low
  {}

  /** A character cut short is not a character. */
  lemma DecodeOneOfPartial(c: Scalar, n: nat)
    requires 0 < n < |Encode(c)|
    ensures DecodeOne(Encode(c)[..n]) == None
  {}

  lemma {:induction false} DecodeOfEncode(text: seq<Scalar>)
    ensures Decode(EncodeAll(text)) == Some(text)
  {
    if text == [] {
    } else {
      var b := EncodeAll(text);
      DecodeOneOfEncode(text[0], EncodeAll(text[1..]));
      assert b[|Encode(text[0])|..] == EncodeAll(text[1..]);
      DecodeOfEncode(text[1..]);
      assert text == [text[0]] + text[1..];
    }
  }

  lemma {:induction false} EncodeOfDecode(b: seq<Byte>)
    requires Decode(b).Some?
    ensures EncodeAll(Decode(b).value) == b
  {
    if b == [] {
    } else {
      DecodeStep(b);
      EncodeOfDecodeOne(b);
      var (c, width) := DecodeOne(b).value;
      EncodeOfDecode(b[width..]);
      EncodeParts(b, c, width, Decode(b[width..]).value);
    }
  }

  lemma DecodeStep(b: seq<Byte>)
    requires b != [] && Decode(b).Some?
    ensures DecodeOne(b).Some?
    ensures var (c, width) := DecodeOne(b).value;
            Decode(b[width..]).Some? && Decode(b).value == [c] + Decode(b[width..]).value
  {}

  lemma EncodeParts(b: seq<Byte>, c: Scalar, width: nat, rest: seq<Scalar>)
    requires width <= |b| && b[..width] == Encode(c) && b[width..] == EncodeAll(rest)
    ensures EncodeAll([c] + rest) == b
  {
    EncodeCons(c, rest);
    assert b == b[..width] + b[width..];
  }

  lemma EncodeCons(c: Scalar, rest: seq<Scalar>)
    ensures EncodeAll([c] + rest) == Encode(c) + EncodeAll(rest)
  {
    assert ([c] + rest)[1..] == rest;
  }

  ghost predicate WellFormed(b: seq<Byte>) {
    exists text :: b == EncodeAll(text)
  }

  /** The decoder accepts exactly the encodings, and returns the one text that encodes to its input. */
  lemma DecodeIffEncoding(b: seq<Byte>, text: seq<Scalar>)
    ensures Decode(b) == Some(text) <==> b == EncodeAll(text)
    ensures Decode(b).Some? <==> WellFormed(b)
  {
    if Decode(b).Some? {
      EncodeOfDecode(b);
    }
    DecodeOfEncode(text);
    forall t | b == EncodeAll(t) ensures Decode(b).Some? {
      DecodeOfEncode(t);
    }
  }

  // ---- Truncated decoding ----

  /** Python's b[:n]: a negative n counts from the end. */
  function PrefixTo(b: seq<Byte>, n: int): (r: seq<Byte>)
    ensures r <= b
  {
    if n >= |b| then b
    else if n >= 0 then b[..n]
    else if |b| + n > 0 then b[..|b| + n]
    else []
  }

  function Droppable(truncated: bool): nat {
    if truncated then MAX_WIDTH - 1 else 0
  }

  /** The first drop count from `drop` on that leaves decodable bytes. */
  function DecodeDropping(raw: seq<Byte>, drop: nat, limit: nat): Option<seq<Scalar>>
    requires drop <= limit + 1
    decreases limit + 1 - drop
  {
    if drop > limit then None
    else if Decode(PrefixTo(raw, |raw| - drop)).Some? then Decode(PrefixTo(raw, |raw| - drop))
    else DecodeDropping(raw, drop + 1, limit)
  }

  method DecodeText(raw: seq<Byte>, truncated: bool) returns (text: Option<seq<Scalar>>)
    ensures 0 in raw ==> text == None
    ensures 0 !in raw ==> text == DecodeDropping(raw, 0, Droppable(truncated))
  {
    if 0 in raw {
      return None;
    }
    for drop := 0 to Droppable(truncated) + 1
      invariant DecodeDropping(raw, 0, Droppable(truncated)) == DecodeDropping(raw, drop, Droppable(truncated))
    {
      text := Decode(PrefixTo(raw, |raw| - drop));
      if text.Some? {
        return;
      }
    }
    text := None;
  }

  /** How many whole characters fit in the first n bytes. */
  function Complete(text: seq<Scalar>, n: nat): (k: nat)
    ensures k <= |text|
  {
    if text == [] || n < |Encode(text[0])| then 0
    else 1 + Complete(text[1..], n - |Encode(text[0])|)
  }

  /** The first n bytes of whole characters: those that fit, plus a proper part of the next one. */
  ghost predicate CutsInto(text: seq<Scalar>, n: nat, k: nat) {
    && k <= |text|
    && var whole := EncodeAll(text[..k]);
    && |whole| <= n <= |EncodeAll(text)|
    && (k == |text| ==> |whole| == n)
    && (k < |text| ==>
          && n - |whole| < |Encode(text[k])|
          && EncodeAll(text)[..n] == whole + Encode(text[k])[..n - |whole|])
  }

  lemma CutFurther(c: Scalar, text: seq<Scalar>, n: nat, k: nat)
    requires CutsInto(text, n, k)
    ensures CutsInto([c] + text, n + |Encode(c)|, k + 1)
  {
    var all := [c] + text;
    assert all[..k + 1][1..] == text[..k] && all[1..] == text;
    assert EncodeAll(all[..k + 1]) == Encode(c) + EncodeAll(text[..k]);
    if k < |text| {
      var m := n - |EncodeAll(text[..k])|;
      assert EncodeAll(all)[..n + |Encode(c)|] == Encode(c) + EncodeAll(text)[..n];
    }
  }

  lemma {:induction false} CutPoint(text: seq<Scalar>, n: nat)
    requires n <= |EncodeAll(text)|
    ensures CutsInto(text, n, Complete(text, n))
  {
    if text == [] {
    } else if n < |Encode(text[0])| {
      CutHead(text, n);
    } else {
      var rest, m := text[1..], n - |Encode(text[0])|;
      CutPoint(rest, m);
      CutFurther(text[0], rest, m, Complete(rest, m));
      assert text == [text[0]] + rest;
    }
  }

  lemma CutHead(text: seq<Scalar>, n: nat)
    requires text != [] && n < |Encode(text[0])|
    ensures CutsInto(text, n, 0)
  {
    assert text[..0] == [];
    assert EncodeAll([]) == [];
    assert EncodeAll(text) == Encode(text[0]) + EncodeAll(text[1..]);
    assert EncodeAll(text)[..n] == Encode(text[0])[..n];
  }

  /** Whole characters followed by part of one do not decode. */
  lemma {:induction false} PartialTailFails(text: seq<Scalar>, c: Scalar, n: nat)
    requires 0 < n < |Encode(c)|
    ensures Decode(EncodeAll(text) + Encode(c)[..n]) == None
  {
    if text == [] {
      assert EncodeAll(text) + Encode(c)[..n] == Encode(c)[..n];
      DecodeOneOfPartial(c, n);
    } else {
      var b := EncodeAll(text) + Encode(c)[..n];
      var rest := EncodeAll(text[1..]) + Encode(c)[..n];
      assert b == Encode(text[0]) + rest;
      DecodeOneOfEncode(text[0], rest);
      assert b[|Encode(text[0])|..] == rest;
      PartialTailFails(text[1..], c, n);
    }
  }

  /** With this many bytes dropped it does not decode. */
  ghost predicate Fails(raw: seq<Byte>, drop: nat) {
    Decode(PrefixTo(raw, |raw| - drop)).None?
  }

  /** The loop over drop counts stops at the first that decodes. */
  lemma {:induction false} DropsTo(raw: seq<Byte>, text: seq<Scalar>, n: nat, drop: nat, limit: nat)
    requires drop <= n <= limit && (forall d :: drop <= d < n ==> Fails(raw, d))
    requires Decode(PrefixTo(raw, |raw| - n)) == Some(text)
    ensures DecodeDropping(raw, drop, limit) == Some(text)
    decreases n - drop
  {
    if drop == n {
    } else {
      assert Fails(raw, drop);
      DropsTo(raw, text, n, drop + 1, limit);
    }
  }

  lemma DropsToCharacter(text: seq<Scalar>, c: Scalar, n: nat)
    requires n < |Encode(c)|
    ensures DecodeDropping(EncodeAll(text) + Encode(c)[..n], 0, MAX_WIDTH - 1) == Some(text)
  {
    var raw := EncodeAll(text) + Encode(c)[..n];
    forall d | 0 <= d < n ensures Fails(raw, d) {
      PartFails(text, c, n, d);
    }
    DecodeOfEncode(text);
    WholeDecodes(text, EncodeAll(text), Encode(c), n);
    DropsTo(raw, text, n, 0, MAX_WIDTH - 1);
  }

  lemma PartFails(text: seq<Scalar>, c: Scalar, n: nat, d: nat)
    requires d < n < |Encode(c)|
    ensures Fails(EncodeAll(text) + Encode(c)[..n], d)
  {
    PrefixOfSum(EncodeAll(text), Encode(c), n, d);
    PartialTailFails(text, c, n - d);
  }

  lemma WholeDecodes(text: seq<Scalar>, whole: seq<Byte>, part: seq<Byte>, n: nat)
    requires n <= |part| && Decode(whole) == Some(text)
    ensures var raw := whole + part[..n]; Decode(PrefixTo(raw, |raw| - n)) == Some(text)
  {
    AllDropped(whole, part[..n]);
  }

  lemma AllDropped(whole: seq<Byte>, part: seq<Byte>)
    ensures PrefixTo(whole + part, |whole + part| - |part|) == whole
  {}

  lemma PrefixOfSum(whole: seq<Byte>, part: seq<Byte>, n: nat, drop: nat)
    requires drop <= n <= |part|
    ensures PrefixTo(whole + part[..n], |whole + part[..n]| - drop) == whole + part[..n - drop]
  {}

  /**
   * Truncated text is never mistaken for binary: cut a text anywhere, and the truncated decode returns exactly
   * its complete characters, having dropped fewer bytes than one character has.
   */
  lemma TruncatedDecode(text: seq<Scalar>, n: nat)
    requires n <= |EncodeAll(text)|
    ensures DecodeDropping(EncodeAll(text)[..n], 0, MAX_WIDTH - 1) == Some(text[..Complete(text, n)])
    ensures n - 3 <= |EncodeAll(text[..Complete(text, n)])| <= n
  {
    CutPoint(text, n);
    var k := Complete(text, n);
    if k == |text| {
      assert text[..k] == text;
      assert PrefixTo(EncodeAll(text)[..n], n - 0) == EncodeAll(text);
      DecodeOfEncode(text);
    } else {
      DropsToCharacter(text[..k], text[k], n - |EncodeAll(text[..k])|);
    }
  }

  /** Whatever is accepted is a prefix of the input that lost at most three bytes. */
  lemma {:induction false} DroppingIsPrefix(raw: seq<Byte>, drop: nat, limit: nat)
    requires drop <= limit + 1
    requires DecodeDropping(raw, drop, limit).Some?
    ensures var kept := EncodeAll(DecodeDropping(raw, drop, limit).value);
            kept <= raw && |raw| - limit <= |kept|
    decreases limit + 1 - drop
  {
    if Decode(PrefixTo(raw, |raw| - drop)).Some? {
      EncodeOfDecode(PrefixTo(raw, |raw| - drop));
    } else {
      DroppingIsPrefix(raw, drop + 1, limit);
    }
  }

  /** Reading at most maxByte bytes of a file as text. */
  method Preview(content: seq<Byte>, maxByte: nat) returns (text: Option<seq<Scalar>>, truncated: bool)
    ensures truncated <==> |content| > maxByte
    ensures forall t :: content == EncodeAll(t) && 0 !in content ==> text == Some(t[..Complete(t, maxByte)])
    ensures text.Some? ==> EncodeAll(text.value) <= content
    ensures text.Some? && !truncated ==> EncodeAll(text.value) == content
    ensures !truncated ==> (text.Some? <==> WellFormed(content) && 0 !in content)
  {
    var raw := if |content| > maxByte + 1 then content[..maxByte + 1] else content;
    truncated := |raw| > maxByte;
    var head := if truncated then raw[..maxByte] else raw;
    text := DecodeText(head, truncated);
    if truncated {
      assert head == content[..maxByte];
      forall t | content == EncodeAll(t) && 0 !in content ensures text == Some(t[..Complete(t, maxByte)]) {
        TruncatedDecode(t, maxByte);
        assert forall i :: 0 <= i < |head| ==> head[i] == content[i];
      }
    } else {
      assert PrefixTo(head, |head| - 0) == content;
      assert DecodeDropping(head, 0, 0) == Decode(content);
      DecodeIffEncoding(content, []);
      forall t | content == EncodeAll(t) && 0 !in content ensures text == Some(t[..Complete(t, maxByte)]) {
        DecodeOfEncode(t);
        CompleteAll(t, maxByte);
        assert t[..|t|] == t;
      }
    }
    if text.Some? {
      DroppingIsPrefix(head, 0, Droppable(truncated));
      assert head <= content;
    }
  }

  lemma {:induction false} CompleteAll(text: seq<Scalar>, n: nat)
    requires |EncodeAll(text)| <= n
    ensures Complete(text, n) == |text|
  {
    if text == [] {
    } else {
      CompleteAll(text[1..], n - |Encode(text[0])|);
    }
  }
}
