/**
 * Base 32 encoding as defined in section 6 of RFC 4648, as Python's `base64.b32encode`
 * implements it, and a decoder for its output that serves as the encoder's inverse.
 */
module Base32 {
  import opened Wrappers

  type byte = x: int | 0 <= x < 256

  /** A 5-bit group: the index of one symbol of the alphabet. */
  type Group = x: int | 0 <= x < 32

  /** The padding symbol. */
  const Pad: char := '='

  /** The base 32 alphabet of RFC 4648: "A" to "Z" for 0 to 25, "2" to "7" for 26 to 31. */
  function Symbol(v: Group): (c: char)
    ensures c != Pad
  {
    if v < 26 then ('A' as int + v) as char else ('2' as int + v - 26) as char
  }

  predicate IsSymbol(c: char)
  {
    'A' <= c <= 'Z' || '2' <= c <= '7'
  }

  /** The group a symbol stands for; None for a character outside the alphabet. */
  function ValueOf(c: char): (r: Option<Group>)
    ensures r.Some? <==> IsSymbol(c)
  {
    if 'A' <= c <= 'Z' then Some(c as int - 'A' as int)
    else if '2' <= c <= '7' then Some(c as int - '2' as int + 26)
    else None
  }

  lemma ValueOfSymbol(v: Group)
    ensures IsSymbol(Symbol(v)) && ValueOf(Symbol(v)) == Some(v)
  {
  }

  /** The eight 5-bit groups of a 40-bit quantum, most significant first. */
  function Split(q: seq<byte>): (g: seq<Group>)
    requires |q| == 5
    ensures |g| == 8
  {
    [ Group0(q[0]), Group1(q[0], q[1]), Group2(q[1]), Group3(q[1], q[2]),
      Group4(q[2], q[3]), Group5(q[3]), Group6(q[3], q[4]), Group7(q[4]) ]
  }

  function Group0(b0: byte): Group { b0 / 8 }
  function Group1(b0: byte, b1: byte): Group { (b0 % 8) * 4 + b1 / 64 }
  function Group2(b1: byte): Group { (b1 / 2) % 32 }
  function Group3(b1: byte, b2: byte): Group { (b1 % 2) * 16 + b2 / 16 }
  function Group4(b2: byte, b3: byte): Group { (b2 % 16) * 2 + b3 / 128 }
  function Group5(b3: byte): Group { (b3 / 4) % 32 }
  function Group6(b3: byte, b4: byte): Group { (b3 % 4) * 8 + b4 / 32 }
  function Group7(b4: byte): Group { b4 % 32 }

  /** The five bytes whose bits are the concatenation of eight 5-bit groups. */
  function Merge(g: seq<Group>): (q: seq<byte>)
    requires |g| == 8
    ensures |q| == 5
  {
    [ Byte0(g[0], g[1]), Byte1(g[1], g[2], g[3]), Byte2(g[3], g[4]),
      Byte3(g[4], g[5], g[6]), Byte4(g[6], g[7]) ]
  }

  function Byte0(g0: Group, g1: Group): byte { g0 * 8 + g1 / 4 }
  function Byte1(g1: Group, g2: Group, g3: Group): byte { (g1 % 4) * 64 + g2 * 2 + g3 / 16 }
  function Byte2(g3: Group, g4: Group): byte { (g3 % 16) * 16 + g4 / 2 }
  function Byte3(g4: Group, g5: Group, g6: Group): byte { (g4 % 2) * 128 + g5 * 4 + g6 / 8 }
  function Byte4(g6: Group, g7: Group): byte { (g6 % 8) * 32 + g7 }

  /** Merging the groups of a quantum gives the quantum back. */
  lemma MergeSplit(q: seq<byte>)
    requires |q| == 5
    ensures Merge(Split(q)) == q
  {
    FirstByte(q[0], q[1]);
    SecondByte(q[0], q[1], q[2]);
    ThirdByte(q[1], q[2], q[3]);
    FourthByte(q[2], q[3], q[4]);
    FifthByte(q[3], q[4]);
  }

  lemma FirstByte(b0: byte, b1: byte)
    ensures Byte0(Group0(b0), Group1(b0, b1)) == b0
  {
    var h := b1 / 64;
    assert ((b0 % 8) * 4 + h) / 4 == b0 % 8;
  }

  lemma SecondByte(b0: byte, b1: byte, b2: byte)
    ensures Byte1(Group1(b0, b1), Group2(b1), Group3(b1, b2)) == b1
  {
    var h := b1 / 64;
    var l := b2 / 16;
    assert ((b0 % 8) * 4 + h) % 4 == h;
    assert ((b1 % 2) * 16 + l) / 16 == b1 % 2;
    assert (b1 / 2) % 32 == (b1 % 64) / 2;
  }

  lemma ThirdByte(b1: byte, b2: byte, b3: byte)
    ensures Byte2(Group3(b1, b2), Group4(b2, b3)) == b2
  {
    var l := b2 / 16;
    var h := b3 / 128;
    assert ((b1 % 2) * 16 + l) % 16 == l;
    assert ((b2 % 16) * 2 + h) / 2 == b2 % 16;
  }

  lemma FourthByte(b2: byte, b3: byte, b4: byte)
    ensures Byte3(Group4(b2, b3), Group5(b3), Group6(b3, b4)) == b3
  {
    var h := b3 / 128;
    var l := b4 / 32;
    assert ((b2 % 16) * 2 + h) % 2 == h;
    assert ((b3 % 4) * 8 + l) / 8 == b3 % 4;
    assert (b3 / 4) % 32 == (b3 % 128) / 4;
  }

  lemma FifthByte(b3: byte, b4: byte)
    ensures Byte4(Group6(b3, b4), Group7(b4)) == b4
  {
    var l := b4 / 32;
    assert ((b3 % 4) * 8 + l) % 8 == l;
  }

  function Symbols(g: seq<Group>): (s: string)
    ensures |s| == |g|
    ensures forall i :: 0 <= i < |s| ==> s[i] == Symbol(g[i])
  {
    seq(|g|, i requires 0 <= i < |g| => Symbol(g[i]))
  }

  lemma SymbolsAlphabet(g: seq<Group>)
    ensures forall i :: 0 <= i < |g| ==> IsSymbol(Symbols(g)[i])
  {
    forall i | 0 <= i < |g| ensures IsSymbol(Symbols(g)[i]) {
      ValueOfSymbol(g[i]);
    }
  }

  /** The number of symbols that carry data when the last quantum holds `n` bytes. */
  function Kept(n: int): int
    requires 1 <= n <= 5
  {
    if n == 1 then 2 else if n == 2 then 4 else if n == 3 then 5 else if n == 4 then 7 else 8
  }

  /** The number of bytes a final group with `k` data symbols stands for; -1 when no byte count gives `k`. */
  function BytesFor(k: int): int
  {
    if k == 2 then 1 else if k == 4 then 2 else if k == 5 then 3 else if k == 7 then 4 else if k == 8 then 5 else -1
  }

  function Zeros(n: nat): (z: seq<byte>)
    ensures |z| == n && forall i :: 0 <= i < n ==> z[i] == 0
  {
    seq(n, _ => 0)
  }

  /**
   * The final 1 to 5 bytes: zero-filled to a full quantum, encoded, and the symbols that
   * carry no data replaced by padding.
   */
  function EncodeLast(rest: seq<byte>): (r: string)
    requires 1 <= |rest| <= 5
    ensures |r| == 8
  {
    var full := EncodeQuantum(rest + Zeros(5 - |rest|));
    full[..Kept(|rest|)] + seq(8 - Kept(|rest|), _ => Pad)
  }

  /** The number of 40-bit quanta, the last possibly partial, that `n` bytes occupy. */
  function Quanta(n: nat): nat
  {
    if n == 0 then 0 else if n <= 5 then 1 else 1 + Quanta(n - 5)
  }

  /** One quantum per started group of five bytes. */
  lemma {:induction false} QuantaIsCeiling(n: nat)
    ensures Quanta(n) == (n + 4) / 5
  {
    if n > 5 {
      QuantaIsCeiling(n - 5);
    }
  }

  /** `base64.b32encode(data)`: eight symbols per quantum. */
  function Encode(data: seq<byte>): (r: string)
    ensures |r| == 8 * Quanta(|data|)
    decreases |data|
  {
    if |data| == 0 then ""
    else if |data| <= 5 then EncodeLast(data)
    else EncodeQuantum(data[..5]) + Encode(data[5..])
  }

  /** A full quantum of five bytes: eight symbols. */
  function EncodeQuantum(q: seq<byte>): (s: string)
    requires |q| == 5
    ensures |s| == 8
  {
    Symbols(Split(q))
  }

  /** The encoding has 8 symbols per started group of five bytes. */
  lemma EncodeLength(data: seq<byte>)
    ensures |Encode(data)| == 8 * ((|data| + 4) / 5)
  {
    QuantaIsCeiling(|data|);
  }

  /** Every character of an encoding is a symbol of the alphabet or the padding symbol. */
  lemma {:induction false} EncodeAlphabet(data: seq<byte>)
    ensures forall c :: c in Encode(data) ==> IsSymbol(c) || c == Pad
    decreases |data|
  {
    if |data| > 5 {
      EncodeAlphabet(data[5..]);
      SymbolsAlphabet(Split(data[..5]));
    } else if |data| > 0 {
      SymbolsAlphabet(Split(data + Zeros(5 - |data|)));
    }
  }

  /** The number of padding symbols at the end of `s`. */
  function TrailingPads(s: string): (n: nat)
    ensures n <= |s|
  {
    if s != [] && s[|s| - 1] == Pad then 1 + TrailingPads(s[..|s| - 1]) else 0
  }

  /** The groups of a run of symbols; None if one of them is outside the alphabet. */
  function Values(s: string): (r: Option<seq<Group>>)
    ensures r.Some? ==> |r.value| == |s|
  {
    if s == [] then Some([])
    else match ValueOf(s[0])
      case None => None
      case Some(v) =>
        match Values(s[1..])
        case None => None
        case Some(vs) => Some([v] + vs)
  }

  /** One group of eight characters: data symbols followed by padding that must fit a byte count. */
  function DecodeGroup(g: string): (r: Option<seq<byte>>)
    requires |g| == 8
    ensures r.Some? ==> 1 <= |r.value| <= 5
  {
    var k := 8 - TrailingPads(g);
    var n := BytesFor(k);
    if n < 1 then None
    else match Values(g[..k])
      case None => None
      case Some(vs) => Some(Merge(vs + seq(8 - k, _ => 0))[..n])
  }

  /** Decoding of well-formed RFC 4648 base 32 text; padding is only allowed in the last group. */
  function Decode(s: string): Option<seq<byte>>
    decreases |s|
  {
    if s == [] then Some([])
    else if |s| < 8 then None
    else match DecodeGroup(s[..8])
      case None => None
      case Some(b) =>
        if |s| == 8 then Some(b)
        else if |b| < 5 then None
        else match Decode(s[8..])
          case None => None
          case Some(rest) => Some(b + rest)
  }

  lemma {:induction false} ValuesSymbols(g: seq<Group>)
    ensures Values(Symbols(g)) == Some(g)
    decreases |g|
  {
    if g != [] {
      ValueOfSymbol(g[0]);
      assert Symbols(g)[1..] == Symbols(g[1..]);
      ValuesSymbols(g[1..]);
      assert [g[0]] + g[1..] == g;
    }
  }

  lemma {:induction false} TrailingPadsOf(d: string, p: nat)
    requires d != [] && d[|d| - 1] != Pad
    ensures TrailingPads(d + seq(p, _ => Pad)) == p
    decreases p
  {
    if p > 0 {
      var s := d + seq(p, _ => Pad);
      assert s[..|s| - 1] == d + seq(p - 1, _ => Pad);
      TrailingPadsOf(d, p - 1);
    } else {
      assert d + seq(0, _ => Pad) == d;
    }
  }

  /** The bytes in front of the zero fill of the last quantum depend only on the data symbols. */
  lemma MergeKept(rest: seq<byte>)
    requires 1 <= |rest| <= 5
    ensures var g := Split(rest + Zeros(5 - |rest|));
            var k := Kept(|rest|);
            Merge(g[..k] + seq(8 - k, _ => 0))[..|rest|] == rest
  {
    var q := rest + Zeros(5 - |rest|);
    var g := Split(q);
    var k := Kept(|rest|);
    var h := g[..k] + seq(8 - k, _ => 0);
    assert Merge(h)[..|rest|] == Merge(g)[..|rest|] by {
      assert forall i :: 0 <= i < k ==> h[i] == g[i];
      MergeAgrees(g, h, |rest|);
    }
    assert Merge(g)[..|rest|] == rest by {
      MergeSplit(q);
      assert q[..|rest|] == rest;
    }
  }

  /** The first `n` merged bytes depend only on the first `Kept(n)` groups. */
  lemma MergeAgrees(g: seq<Group>, h: seq<Group>, n: int)
    requires |g| == 8 && |h| == 8 && 1 <= n <= 5
    requires forall i :: 0 <= i < Kept(n) ==> g[i] == h[i]
    ensures Merge(g)[..n] == Merge(h)[..n]
  {
    assert g[0] == h[0] && g[1] == h[1];
    if n >= 2 {
      assert g[2] == h[2] && g[3] == h[3];
    }
    if n >= 3 {
      assert g[4] == h[4];
    }
    if n >= 4 {
      assert g[5] == h[5] && g[6] == h[6];
    }
    if n >= 5 {
      assert g[7] == h[7];
    }
  }

  lemma DecodeEncodeLast(rest: seq<byte>)
    requires 1 <= |rest| <= 5
    ensures DecodeGroup(EncodeLast(rest)) == Some(rest)
  {
    var g := Split(rest + Zeros(5 - |rest|));
    var k := Kept(|rest|);
    var full := Symbols(g);
    var e := EncodeLast(rest);
    assert e == full[..k] + seq(8 - k, _ => Pad);
    assert full[k - 1] != Pad;
    TrailingPadsOf(full[..k], 8 - k);
    assert e[..k] == full[..k] == Symbols(g[..k]);
    ValuesSymbols(g[..k]);
    MergeKept(rest);
  }

  lemma EncodeFirstGroup(data: seq<byte>)
    requires |data| > 5
    ensures |Encode(data)| > 8
    ensures Encode(data)[..8] == EncodeLast(data[..5])
    ensures Encode(data)[8..] == Encode(data[5..])
  {
    var head := data[..5];
    assert head + Zeros(0) == head;
    assert Encode(data) == Symbols(Split(head)) + Encode(data[5..]);
  }

  lemma DecodeFullGroup(s: string, head: seq<byte>, rest: seq<byte>)
    requires |s| > 8 && |head| == 5
    requires DecodeGroup(s[..8]) == Some(head)
    requires Decode(s[8..]) == Some(rest)
    ensures Decode(s) == Some(head + rest)
  {
  }

  /** Round trip: decoding an encoding gives back the bytes. */
  lemma {:induction false} DecodeEncode(data: seq<byte>)
    ensures Decode(Encode(data)) == Some(data)
    decreases |data|
  {
    if |data| == 0 {
    } else if |data| <= 5 {
      assert Encode(data) == EncodeLast(data);
      DecodeEncodeLast(data);
      assert EncodeLast(data)[..8] == EncodeLast(data);
    } else {
      var head := data[..5];
      EncodeFirstGroup(data);
      DecodeEncodeLast(head);
      DecodeEncode(data[5..]);
      DecodeFullGroup(Encode(data), head, data[5..]);
      assert head + data[5..] == data;
    }
  }

  /** Distinct byte strings have distinct encodings. */
  lemma EncodeInjective(a: seq<byte>, b: seq<byte>)
    requires Encode(a) == Encode(b)
    ensures a == b
  {
    DecodeEncode(a);
    DecodeEncode(b);
  }
}
