/** Base64 as section 6.8 of RFC 2045 defines it, and as `Buffer.toString('base64')` writes it. */
module Base64 {
  import opened Wrappers

  type Byte = n: int | 0 <= n < 256

  type Sextet = n: int | 0 <= n < 64

  function Symbol(n: Sextet): char {
    if n < 26 then ('A' as int + n) as char
    else if n < 52 then ('a' as int + (n - 26)) as char
    else if n < 62 then ('0' as int + (n - 52)) as char
    else if n == 62 then '+'
    else '/'
  }

  function Value(c: char): Option<Sextet> {
    if 'A' <= c <= 'Z' then Some(c as int - 'A' as int)
    else if 'a' <= c <= 'z' then Some(c as int - 'a' as int + 26)
    else if '0' <= c <= '9' then Some(c as int - '0' as int + 52)
    else if c == '+' then Some(62)
    else if c == '/' then Some(63)
    else None
  }

  /** Three bytes as one number, most significant first. */
  function Packed(a: Byte, b: Byte, c: Byte): (n: int)
    ensures 0 <= n < 0x100_0000
  {
    (a as int * 256 + b as int) * 256 + c as int
  }

  function Symbols(n: int): (s: string)
    requires 0 <= n < 0x100_0000
    ensures |s| == 4
  {
    var m := n / 64;
    var l := m / 64;
    [Symbol(l / 64), Symbol(l % 64), Symbol(m % 64), Symbol(n % 64)]
  }

  function Encode(bytes: seq<Byte>): string
    decreases |bytes|
  {
    if |bytes| == 0 then ""
    else if |bytes| == 1 then Symbols(Packed(bytes[0], 0, 0))[..2] + "=="
    else if |bytes| == 2 then Symbols(Packed(bytes[0], bytes[1], 0))[..3] + "="
    else Symbols(Packed(bytes[0], bytes[1], bytes[2])) + Encode(bytes[3..])
  }

  /** The number four symbols stand for. */
  function Number(s: string): Option<int>
    requires |s| == 4
  {
    match (Value(s[0]), Value(s[1]), Value(s[2]), Value(s[3]))
    case (Some(p), Some(q), Some(r), Some(t)) =>
      var n: int := ((p as int * 64 + q as int) * 64 + r as int) * 64 + t as int;
      Some(n)
    case _ => None
  }

  function Unpacked(n: int): (bytes: seq<Byte>)
    requires 0 <= n < 0x100_0000
    ensures |bytes| == 3
  {
    var m := n / 256;
    [m / 256, m % 256, n % 256]
  }

  lemma NumberInRange(s: string)
    requires |s| == 4
    ensures Number(s).Some? ==> 0 <= Number(s).value < 0x100_0000
  {
    hide Value;
    if Number(s).Some? {
      var high := Value(s[0]).value as int * 64 + Value(s[1]).value as int;
      assert 0 <= high < 0x1000;
    }
  }

  /** One group of four: how many of its three bytes count depends on the padding. */
  function Group(s: string): Option<seq<Byte>>
    requires |s| == 4
  {
    var kept := if s[2..] == "==" then 1 else if s[3] == '=' then 2 else 3;
    var filled := if kept == 1 then s[..2] + "AA" else if kept == 2 then s[..3] + "A" else s;
    NumberInRange(filled);
    match Number(filled)
    case None => None
    case Some(n) => Some(Unpacked(n)[..kept])
  }

  function Decode(s: string): Option<seq<Byte>>
    decreases |s|
  {
    if |s| == 0 then Some([])
    else if |s| < 4 then None
    else
      match (Group(s[..4]), Decode(s[4..]))
      case (Some(front), Some(rest)) => Some(front + rest)
      case _ => None
  }

  // ---- Reading back what was written ----

  lemma SymbolReads(n: Sextet)
    ensures Value(Symbol(n)) == Some(n) && Symbol(n) != '='
  {
  }

  lemma SymbolsRead(n: int)
    requires 0 <= n < 0x100_0000
    ensures Number(Symbols(n)) == Some(n)
    ensures forall i :: 0 <= i < 4 ==> Symbols(n)[i] != '='
  {
    hide Symbol, Value;
    var m := n / 64;
    var l := m / 64;
    SymbolReads(l / 64);
    SymbolReads(l % 64);
    SymbolReads(m % 64);
    SymbolReads(n % 64);
  }

  lemma UnpackedPacked(a: Byte, b: Byte, c: Byte)
    ensures Unpacked(Packed(a, b, c)) == [a, b, c]
  {
    var m := a as int * 256 + b as int;
    assert Packed(a, b, c) == m * 256 + c as int;
    assert Packed(a, b, c) / 256 == m && Packed(a, b, c) % 256 == c as int;
    assert m / 256 == a as int && m % 256 == b as int;
  }

  lemma ZeroSymbols(a: Byte, b: Byte)
    ensures Symbols(Packed(a, b, 0))[3] == 'A'
    ensures Symbols(Packed(a, 0, 0))[2] == 'A'
  {
    assert Packed(a, b, 0) % 64 == 0;
    var n := Packed(a, 0, 0);
    assert n / 64 == a as int * 1024;
    assert n / 64 % 64 == 0;
  }

  /** Four symbols, with one or two of them replaced by padding, give back the bytes that count. */
  lemma GroupReads(a: Byte, b: Byte, c: Byte)
    ensures Group(Symbols(Packed(a, b, c))) == Some([a, b, c])
    ensures Group(Symbols(Packed(a, b, 0))[..3] + "=") == Some([a, b])
    ensures Group(Symbols(Packed(a, 0, 0))[..2] + "==") == Some([a])
  {
    hide Packed, Unpacked, Symbols, Number, Group;
    FillsBack(a, b, c);
    assert Symbols(Packed(a, b, c))[..4] + "" == Symbols(Packed(a, b, c));
    GroupOf(Packed(a, b, c), 3);
    GroupOf(Packed(a, b, 0), 2);
    GroupOf(Packed(a, 0, 0), 1);
    UnpackedPacked(a, b, c);
    UnpackedPacked(a, b, 0);
    UnpackedPacked(a, 0, 0);
    assert [a, b, c][..3] == [a, b, c] && [a, b, 0][..2] == [a, b] && [a, 0, 0][..1] == [a];
  }

  function Filler(kept: nat): string {
    if kept == 1 then "AA" else if kept == 2 then "A" else ""
  }

  function Padding(kept: nat): string {
    if kept == 1 then "==" else if kept == 2 then "=" else ""
  }

  lemma GroupOf(n: int, kept: nat)
    requires 0 <= n < 0x100_0000 && 1 <= kept <= 3
    requires Symbols(n)[..kept + 1] + Filler(kept) == Symbols(n)
    ensures Group(Symbols(n)[..kept + 1] + Padding(kept)) == Some(Unpacked(n)[..kept])
  {
    hide Symbols, Number, Unpacked;
    SymbolsRead(n);
    var s := Symbols(n)[..kept + 1] + Padding(kept);
    assert s[2] == if kept == 1 then '=' else Symbols(n)[2];
    assert s[3] == if kept == 3 then Symbols(n)[3] else '=';
    assert s[..kept + 1] == Symbols(n)[..kept + 1];
    assert s[2..] == "==" <==> kept == 1;
  }

  lemma FillsBack(a: Byte, b: Byte, c: Byte)
    ensures Symbols(Packed(a, b, 0))[..3] + "A" == Symbols(Packed(a, b, 0))
    ensures Symbols(Packed(a, 0, 0))[..2] + "AA" == Symbols(Packed(a, 0, 0))
  {
    ZeroSymbols(a, b);
    ZeroSymbols(a, 0);
  }

  /** The first group of an encoding, and the bytes it leaves. */
  function FirstGroup(bytes: seq<Byte>): (group: string)
    requires |bytes| > 0
    ensures |group| == 4
  {
    if |bytes| == 1 then Symbols(Packed(bytes[0], 0, 0))[..2] + "=="
    else if |bytes| == 2 then Symbols(Packed(bytes[0], bytes[1], 0))[..3] + "="
    else Symbols(Packed(bytes[0], bytes[1], bytes[2]))
  }

  function Taken(bytes: seq<Byte>): nat {
    if |bytes| < 3 then |bytes| else 3
  }

  lemma EncodeStep(bytes: seq<Byte>)
    requires |bytes| > 0
    ensures Encode(bytes) == FirstGroup(bytes) + Encode(bytes[Taken(bytes)..])
  {
    hide Symbols, Packed;
  }

  lemma FirstGroupReads(bytes: seq<Byte>)
    requires |bytes| > 0
    ensures Group(FirstGroup(bytes)) == Some(bytes[..Taken(bytes)])
  {
    hide Group, Symbols, Packed;
    if |bytes| == 1 {
      GroupReads(bytes[0], 0, 0);
      assert bytes[..1] == [bytes[0]];
    } else if |bytes| == 2 {
      GroupReads(bytes[0], bytes[1], 0);
      assert bytes[..2] == [bytes[0], bytes[1]];
    } else {
      GroupReads(bytes[0], bytes[1], bytes[2]);
      assert bytes[..3] == [bytes[0], bytes[1], bytes[2]];
    }
  }

  /** Decoding an encoding gives the bytes back. */
  lemma {:induction false} DecodeEncode(bytes: seq<Byte>)
    ensures Decode(Encode(bytes)) == Some(bytes)
    decreases |bytes|
  {
    if |bytes| > 0 {
      hide Group, Decode, Encode, FirstGroup;
      var rest := bytes[Taken(bytes)..];
      EncodeStep(bytes);
      FirstGroupReads(bytes);
      DecodeEncode(rest);
      DecodeStep(FirstGroup(bytes), Encode(rest));
      assert bytes[..Taken(bytes)] + rest == bytes;
    }
  }

  lemma DecodeStep(group: string, rest: string)
    requires |group| == 4
    ensures Decode(group + rest) == (if Group(group).Some? && Decode(rest).Some?
                                     then Some(Group(group).value + Decode(rest).value) else None)
  {
    assert (group + rest)[..4] == group && (group + rest)[4..] == rest;
  }

  /** Four symbols for every three bytes begun. */
  lemma {:induction false} EncodeLength(bytes: seq<Byte>)
    ensures |Encode(bytes)| == (|bytes| + 2) / 3 * 4
    decreases |bytes|
  {
    if |bytes| > 0 {
      hide Encode, FirstGroup;
      EncodeStep(bytes);
      EncodeLength(bytes[Taken(bytes)..]);
    }
  }

  /** Nothing but the alphabet and padding. */
  lemma {:induction false} EncodeAlphabet(bytes: seq<Byte>)
    ensures forall i :: 0 <= i < |Encode(bytes)| ==> InAlphabet(Encode(bytes)[i])
    decreases |bytes|
  {
    if |bytes| > 0 {
      hide Encode, FirstGroup, InAlphabet;
      EncodeStep(bytes);
      FirstGroupShape(bytes);
      EncodeAlphabet(bytes[Taken(bytes)..]);
    }
  }

  lemma FirstGroupShape(bytes: seq<Byte>)
    requires |bytes| > 0
    ensures forall i :: 0 <= i < 4 ==> InAlphabet(FirstGroup(bytes)[i])
  {
    hide Symbol, InAlphabet, Packed;
    Alphabet();
  }

  predicate InAlphabet(c: char) {
    c == '=' || Value(c).Some?
  }

  lemma Alphabet()
    ensures InAlphabet('=')
    ensures forall n: Sextet :: InAlphabet(Symbol(n))
  {
    forall n: Sextet
      ensures InAlphabet(Symbol(n))
    {
      SymbolReads(n);
    }
  }
}
