/** UTF-8 (RFC 3629) over Unicode scalar values, as `Buffer.from(text, 'utf8')` writes it. */
module Utf8 {
  import opened Wrappers
  import opened Base64

  function EncodeChar(c: char): (bytes: seq<Byte>)
    ensures 1 <= |bytes| <= 4
  {
    var n := c as int;
    var m := n / 64;
    var l := m / 64;
    if n < 0x80 then [n]
    else if n < 0x800 then [0xC0 + m, 0x80 + n % 64]
    else if n < 0x1_0000 then [0xE0 + l, 0x80 + m % 64, 0x80 + n % 64]
    else [0xF0 + l / 64, 0x80 + l % 64, 0x80 + m % 64, 0x80 + n % 64]
  }

  function EncodeText(text: string): seq<Byte>
    decreases |text|
  {
    if text == "" then [] else EncodeChar(text[0]) + EncodeText(text[1..])
  }

  /** How many bytes the character that starts with this one takes. */
  function Width(first: Byte): Option<nat> {
    if first < 0x80 then Some(1)
    else if 0xC0 <= first < 0xE0 then Some(2)
    else if 0xE0 <= first < 0xF0 then Some(3)
    else if 0xF0 <= first < 0xF8 then Some(4)
    else None
  }

  predicate Continues(b: Byte) {
    0x80 <= b < 0xC0
  }

  /** The number the first `width` bytes spell. */
  function CodePoint(bytes: seq<Byte>, width: nat): int
    requires 1 <= width <= 4 && width <= |bytes|
  {
    if width == 1 then bytes[0] as int
    else if width == 2 then Tail(bytes[0] as int - 0xC0, bytes[1])
    else if width == 3 then Tail(Tail(bytes[0] as int - 0xE0, bytes[1]), bytes[2])
    else Tail(Tail(Tail(bytes[0] as int - 0xF0, bytes[1]), bytes[2]), bytes[3])
  }

  function Tail(n: int, b: Byte): int {
    n * 64 + (b as int - 0x80)
  }

  /** A scalar value, written in no more bytes than it needs. */
  predicate Proper(n: int, width: nat) {
    && (0 <= n < 0xD800 || 0xE000 <= n < 0x11_0000)
    && (width == 2 ==> n >= 0x80) && (width == 3 ==> n >= 0x800) && (width == 4 ==> n >= 0x1_0000)
  }

  function DecodeText(bytes: seq<Byte>): Option<string>
    decreases |bytes|
  {
    if bytes == [] then Some("")
    else
      match Width(bytes[0])
      case None => None
      case Some(width) =>
        if width > |bytes| || exists i :: 1 <= i < width && !Continues(bytes[i]) then None
        else
          var n := CodePoint(bytes, width);
          if !Proper(n, width) then None
          else
            match DecodeText(bytes[width..])
            case None => None
            case Some(rest) => Some([n as char] + rest)
  }

  lemma CharReads(c: char, rest: seq<Byte>)
    ensures var bytes := EncodeChar(c) + rest;
            var width := |EncodeChar(c)|;
            && Width(bytes[0]) == Some(width)
            && (forall i :: 1 <= i < width ==> Continues(bytes[i]))
            && CodePoint(bytes, width) == c as int
            && Proper(c as int, width)
            && bytes[width..] == rest
  {
    hide Continues;
    var w := |EncodeChar(c)|;
    assert forall i :: 0 <= i < w ==> (EncodeChar(c) + rest)[i] == EncodeChar(c)[i];
    CharSpells(c);
  }

  lemma CharSpells(c: char)
    ensures var bytes := EncodeChar(c);
            && Width(bytes[0]) == Some(|bytes|)
            && (forall i :: 1 <= i < |bytes| ==> Continues(bytes[i]))
            && CodePoint(bytes, |bytes|) == c as int
            && Proper(c as int, |bytes|)
  {
  }

  /** Decoding an encoding gives the text back. */
  lemma {:induction false} DecodeEncode(text: string)
    ensures DecodeText(EncodeText(text)) == Some(text)
    decreases |text|
  {
    if text != "" {
      hide EncodeChar, CodePoint, Width, Proper, Continues;
      CharReads(text[0], EncodeText(text[1..]));
      DecodeEncode(text[1..]);
      assert [text[0]] + text[1..] == text;
    }
  }

  lemma {:induction false} EncodeAppend(a: string, b: string)
    ensures EncodeText(a + b) == EncodeText(a) + EncodeText(b)
    decreases |a|
  {
    if a == "" {
      assert a + b == b;
    } else {
      assert (a + b)[0] == a[0] && (a + b)[1..] == a[1..] + b;
      EncodeAppend(a[1..], b);
    }
  }

  lemma EncodeOne(c: char)
    ensures EncodeText([c]) == EncodeChar(c)
  {
    assert EncodeText([c][1..]) == [];
  }

  // ---- Reading bytes that may be broken off or no text at all ----

  /** What a decoder puts in the place of bytes that spell nothing. */
  const REPLACEMENT: char := '\U{FFFD}'

  /** How many more bytes a character that starts with this one needs. */
  function Needs(first: Byte): Option<nat> {
    if first < 0x80 then Some(0)
    else if 0xC2 <= first < 0xE0 then Some(1)
    else if 0xE0 <= first < 0xF0 then Some(2)
    else if 0xF0 <= first < 0xF5 then Some(3)
    else None
  }

  /** The second bytes of well-formed characters (table 3-7 of the Unicode Standard). */
  predicate Second(first: Byte, b: Byte) {
    && (if first == 0xE0 then 0xA0 else if first == 0xF0 then 0x90 else 0x80) <= b
    && b < (if first == 0xED then 0xA0 else if first == 0xF4 then 0x90 else 0xC0)
  }

  /** How many bytes are read as one: a character, or as much of one as is there. */
  function Span(bytes: seq<Byte>): (n: nat)
    requires bytes != []
    ensures 1 <= n <= |bytes| && n <= 4
  {
    var needs := Needs(bytes[0]);
    if needs.None? || needs.value == 0 || |bytes| == 1 || !Second(bytes[0], bytes[1]) then 1
    else if needs.value == 1 || |bytes| == 2 || !Continues(bytes[2]) then 2
    else if needs.value == 2 || |bytes| == 3 || !Continues(bytes[3]) then 3
    else 4
  }

  predicate Complete(bytes: seq<Byte>)
    requires bytes != []
  {
    Needs(bytes[0]) == Some(Span(bytes) - 1)
  }

  lemma CompleteIsScalar(bytes: seq<Byte>)
    requires bytes != [] && Complete(bytes)
    ensures var n := CodePoint(bytes, Span(bytes)); 0 <= n < 0xD800 || 0xE000 <= n < 0x11_0000
  {
  }

  function Spelled(bytes: seq<Byte>): char
    requires bytes != []
  {
    if Complete(bytes) then
      CompleteIsScalar(bytes);
      CodePoint(bytes, Span(bytes)) as char
    else REPLACEMENT
  }

  /** `Buffer.toString('utf8')`: one replacement for every longest start of a character that goes no further. */
  function Lossy(bytes: seq<Byte>): string
    decreases |bytes|
  {
    if bytes == [] then "" else [Spelled(bytes)] + Lossy(bytes[Span(bytes)..])
  }

  /** Every byte is read by itself. */
  predicate Singles(bytes: seq<Byte>)
    decreases |bytes|
  {
    bytes == [] || (Span(bytes) == 1 && Singles(bytes[1..]))
  }

  lemma SpanOfPrefix(bytes: seq<Byte>, k: nat)
    requires 0 < k <= |bytes| && Span(bytes) == 1
    ensures Span(bytes[..k]) == 1 && Spelled(bytes[..k]) == Spelled(bytes)
  {
  }

  /** Such bytes can be cut anywhere. */
  lemma {:induction false} SinglesCut(bytes: seq<Byte>, k: nat)
    requires Singles(bytes) && k <= |bytes|
    ensures Singles(bytes[..k]) && Singles(bytes[k..])
    ensures |Lossy(bytes)| == |bytes|
    ensures Lossy(bytes[..k]) == Lossy(bytes)[..k] && Lossy(bytes[k..]) == Lossy(bytes)[k..]
    decreases |bytes|
  {
    if bytes == [] {
    } else if k == 0 {
      SinglesCut(bytes[1..], 0);
      assert bytes[0..] == bytes;
    } else {
      SinglesCut(bytes[1..], k - 1);
      SpanOfPrefix(bytes, k);
      assert bytes[..k][1..] == bytes[1..][..k - 1] && bytes[k..] == bytes[1..][k - 1..];
    }
  }

  // ---- What a cut inside a character does ----

  /** How many replacements a text holds. */
  function Marks(text: string): nat
    decreases |text|
  {
    if text == "" then 0 else (if text[0] == REPLACEMENT then 1 else 0) + Marks(text[1..])
  }

  lemma {:induction false} MarksJoin(a: string, b: string)
    ensures Marks(a + b) == Marks(a) + Marks(b)
    decreases |a|
  {
    if a == "" {
      assert a + b == b;
    } else {
      assert (a + b)[0] == a[0] && (a + b)[1..] == a[1..] + b;
      MarksJoin(a[1..], b);
    }
  }

  lemma LossyMarks(bytes: seq<Byte>)
    requires bytes != []
    ensures Marks(Lossy(bytes)) == (if Spelled(bytes) == REPLACEMENT then 1 else 0) + Marks(Lossy(bytes[Span(bytes)..]))
  {
    var rest := Lossy(bytes[Span(bytes)..]);
    assert ([Spelled(bytes)] + rest)[1..] == rest;
  }

  /** A byte that only goes on is a replacement when read first. */
  lemma StrayMark(bytes: seq<Byte>)
    requires bytes != [] && Continues(bytes[0])
    ensures Span(bytes) == 1 && Marks(Lossy(bytes)) == 1 + Marks(Lossy(bytes[1..]))
  {
    LossyMarks(bytes);
  }

  lemma {:induction false} StrayMarks(bytes: seq<Byte>, n: nat)
    requires n <= |bytes| && forall i :: 0 <= i < n ==> Continues(bytes[i])
    ensures Marks(Lossy(bytes)) == n + Marks(Lossy(bytes[n..]))
    decreases n
  {
    if n == 0 {
      assert bytes[0..] == bytes;
    } else {
      StrayMark(bytes);
      StrayMarks(bytes[1..], n - 1);
      assert bytes[1..][n - 1..] == bytes[n..];
    }
  }

  lemma SpanContinues(bytes: seq<Byte>)
    requires bytes != []
    ensures forall i :: 1 <= i < Span(bytes) ==> Continues(bytes[i])
    ensures Span(bytes) > 1 ==> Span(bytes[..1]) == 1 && Spelled(bytes[..1]) == REPLACEMENT
  {
  }

  /** Cut in two, a character leaves a replacement for each half. */
  lemma CutInside(bytes: seq<Byte>)
    requires bytes != [] && Span(bytes) > 1
    ensures Marks(Lossy(bytes[..1])) + Marks(Lossy(bytes[1..])) > Marks(Lossy(bytes))
  {
    var n := Span(bytes);
    SpanContinues(bytes);
    LossyMarks(bytes);
    LossyMarks(bytes[..1]);
    assert bytes[..1][1..] == [] && Lossy([]) == "" && Marks("") == 0;
    StrayMarks(bytes[1..], n - 1);
    assert bytes[1..][n - 1..] == bytes[n..];
  }

  /** Unless every byte is read by itself, some cut adds replacements. */
  lemma {:induction false} SomeCutMarks(bytes: seq<Byte>) returns (k: nat)
    requires !Singles(bytes)
    ensures k <= |bytes| && Marks(Lossy(bytes[..k])) + Marks(Lossy(bytes[k..])) > Marks(Lossy(bytes))
    decreases |bytes|
  {
    if Span(bytes) > 1 {
      CutInside(bytes);
      k := 1;
    } else {
      var rest := bytes[1..];
      var j := SomeCutMarks(rest);
      k := j + 1;
      SpanOfPrefix(bytes, k);
      LossyMarks(bytes);
      LossyMarks(bytes[..k]);
      assert bytes[..k][1..] == rest[..j] && bytes[k..] == rest[j..];
    }
  }

  // ---- Encoded text ----

  predicate Ascii(text: string) {
    forall i :: 0 <= i < |text| ==> text[i] < '\U{80}'
  }

  lemma CharSpans(c: char, rest: seq<Byte>)
    ensures var bytes := EncodeChar(c) + rest;
            && Span(bytes) == |EncodeChar(c)| && Spelled(bytes) == c && bytes[Span(bytes)..] == rest
            && (Span(bytes) == 1 <==> c < '\U{80}')
  {
    var w := |EncodeChar(c)|;
    var bytes := EncodeChar(c) + rest;
    assert forall i :: 0 <= i < w ==> bytes[i] == EncodeChar(c)[i];
    CharReads(c, rest);
  }

  /** Encoded text is read back whole, and can be cut anywhere exactly when it is ASCII. */
  lemma {:induction false} LossyEncode(text: string)
    ensures Lossy(EncodeText(text)) == text
    ensures Singles(EncodeText(text)) <==> Ascii(text)
    decreases |text|
  {
    if text != "" {
      hide EncodeChar, Spelled, Span;
      CharSpans(text[0], EncodeText(text[1..]));
      LossyEncode(text[1..]);
      assert [text[0]] + text[1..] == text;
      assert text[0] == ([text[0]] + text[1..])[0];
      assert Ascii(text) <==> text[0] < '\U{80}' && Ascii(text[1..]);
    }
  }
}
