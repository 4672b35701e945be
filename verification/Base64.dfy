/** Base64, section 4 of RFC 4648: octets written as letters for six bits each, and read back. */
module Base64 {
  import opened Bytes

  const PAD: Octet := 61

  // ---------------------------------------------------------------- the two tables

  /** alphabetMap: A-Z, a-z, 0-9, + and /. */
  function Letter(x: Octet): Octet
    requires x < 64
  {
    if x < 26 then x + 65 else if x < 52 then x + 71 else if x < 62 then x - 4 else if x == 62 then 43 else 47
  }

  /** reverseMap: the six bits of a letter, and 255 for any other character. */
  function Value(c: Octet): Octet
    requires c < 128
  {
    if 65 <= c <= 90 then c - 65
    else if 97 <= c <= 122 then c - 71
    else if 48 <= c <= 57 then c + 4
    else if c == 43 then 62
    else if c == 47 then 63
    else 255
  }

  lemma LetterReadsBack(x: Octet)
    requires x < 64
    ensures Letter(x) < 128 && Letter(x) != PAD && Value(Letter(x)) == x
  {
  }

  // ---------------------------------------------------------------- six bits at a time

  function First(a: Octet): (x: Octet)
    ensures x < 64
  {
    a >> 2
  }

  function Second(a: Octet, b: Octet): (x: Octet)
    ensures x < 64
  {
    ((a << 4) & 0x30) | (b >> 4)
  }

  function Third(b: Octet, c: Octet): (x: Octet)
    ensures x < 64
  {
    ((b << 2) & 0x3c) | (c >> 6)
  }

  function Fourth(c: Octet): (x: Octet)
    ensures x < 64
  {
    c & 0x3f
  }

  function Join1(p: Octet, q: Octet): Octet {
    (p << 2) | (q >> 4)
  }

  function Join2(q: Octet, r: Octet): Octet {
    (q << 4) | (r >> 2)
  }

  function Join3(r: Octet, s: Octet): Octet {
    (r << 6) | s
  }

  lemma JoinUndoesSplit(a: Octet, b: Octet, c: Octet)
    ensures Join1(First(a), Second(a, b)) == a
    ensures Join2(Second(a, b), Third(b, c)) == b
    ensures Join3(Third(b, c), Fourth(c)) == c
  {
  }

  // ---------------------------------------------------------------- encoding and decoding

  function EncodeGroup(a: Octet, b: Octet, c: Octet): (r: seq<Octet>)
    ensures |r| == 4
  {
    [Letter(First(a)), Letter(Second(a, b)), Letter(Third(b, c)), Letter(Fourth(c))]
  }

  function EncodeTail(text: seq<Octet>): (r: seq<Octet>)
    requires 0 < |text| < 3
    ensures |r| == 4
  {
    if |text| == 1 then [Letter(First(text[0])), Letter(Second(text[0], 0)), PAD, PAD]
    else [Letter(First(text[0])), Letter(Second(text[0], text[1])), Letter(Third(text[1], 0)), PAD]
  }

  function Encoded(text: seq<Octet>): (r: seq<Octet>)
    ensures |r| == 4 * ((|text| + 2) / 3)
  {
    if text == [] then []
    else if |text| < 3 then EncodeTail(text)
    else EncodeGroup(text[0], text[1], text[2]) + Encoded(text[3..])
  }

  predicate Ascii(code: seq<Octet>) {
    forall i | 0 <= i < |code| :: code[i] < 128
  }

  /** What one quadruple adds, and whether decoding goes on behind it. */
  function DecodeQuad(p: Octet, q: Octet, r: Octet, s: Octet): (d: (seq<Octet>, bool))
    ensures |d.0| <= 3
  {
    if p > 63 && q > 63 then ([], false)
    else if r >= 64 then ([Join1(p, q)], false)
    else if s >= 64 then ([Join1(p, q), Join2(q, r)], false)
    else ([Join1(p, q), Join2(q, r), Join3(r, s)], true)
  }

  /** The octets of one quadruple. */
  function QuadOf(g: seq<Octet>): (d: (seq<Octet>, bool))
    requires |g| == 4 && Ascii(g)
    ensures |d.0| <= 3
  {
    DecodeQuad(Value(g[0]), Value(g[1]), Value(g[2]), Value(g[3]))
  }

  function DecodeQuads(code: seq<Octet>): (r: seq<Octet>)
    requires |code| % 4 == 0 && Ascii(code)
    ensures |r| <= |code| / 4 * 3
  {
    if code == [] then []
    else
      var d := QuadOf(code[..4]);
      if d.1 then d.0 + DecodeQuads(code[4..]) else d.0
  }

  function Decoded(code: seq<Octet>): (r: seq<Octet>)
    requires Ascii(code)
    ensures |r| <= |code| / 4 * 3
  {
    if |code| % 4 != 0 then [] else DecodeQuads(code)
  }

  predicate IsLetter(c: Octet) {
    65 <= c <= 90 || 97 <= c <= 122 || 48 <= c <= 57 || c == 43 || c == 47
  }

  /**
   * Decoding goes on behind a quadruple of letters only. Another quadruple ends it: with two octets if only the last
   * character is no letter, with one if the third is none, and with nothing if neither of the first two is a letter.
   * A code whose length is no multiple of four yields nothing.
   */
  lemma QuadruplesDecode(g: seq<Octet>, rest: seq<Octet>)
    requires |g| == 4 && Ascii(g) && Ascii(rest)
    ensures Ascii(g + rest)
    ensures var r := Decoded(g + rest);
            if |rest| % 4 != 0 || (!IsLetter(g[0]) && !IsLetter(g[1])) then r == []
            else if !IsLetter(g[2]) then |r| == 1
            else if !IsLetter(g[3]) then |r| == 2
            else |r| == 3 + |Decoded(rest)| && r[3..] == Decoded(rest)
  {
    assert (g + rest)[..4] == g && (g + rest)[4..] == rest;
    ValueOfLetter(g[0]);
    ValueOfLetter(g[1]);
    ValueOfLetter(g[2]);
    ValueOfLetter(g[3]);
    hide Value, Join1, Join2, Join3;
  }

  lemma ValueOfLetter(c: Octet)
    requires c < 128
    ensures IsLetter(c) <==> Value(c) < 64
    ensures !IsLetter(c) ==> Value(c) == 255
  {
  }

  // ---------------------------------------------------------------- main results

  lemma {:induction false} EncodedIsAscii(text: seq<Octet>)
    ensures Ascii(Encoded(text))
    decreases |text|
  {
    hide Letter, First, Second, Third, Fourth;
    if |text| >= 3 {
      EncodedIsAscii(text[3..]);
      GroupIsAscii(text[0], text[1], text[2]);
    } else if text != [] {
      TailIsAscii(text);
    }
  }

  lemma GroupIsAscii(a: Octet, b: Octet, c: Octet)
    ensures Ascii(EncodeGroup(a, b, c))
  {
    hide First, Second, Third, Fourth;
    LetterReadsBack(First(a));
    LetterReadsBack(Second(a, b));
    LetterReadsBack(Third(b, c));
    LetterReadsBack(Fourth(c));
  }

  lemma TailIsAscii(text: seq<Octet>)
    requires 0 < |text| < 3
    ensures Ascii(EncodeTail(text))
  {
    var b := if |text| == 2 then text[1] else 0;
    GroupIsAscii(text[0], b, 0);
    assert EncodeGroup(text[0], b, 0)[0] < 128 && EncodeGroup(text[0], b, 0)[1] < 128;
    assert EncodeGroup(text[0], b, 0)[2] < 128;
  }

  lemma GroupReadsBack(a: Octet, b: Octet, c: Octet)
    ensures var g := EncodeGroup(a, b, c);
            Ascii(g) && QuadOf(g) == ([a, b, c], true)
  {
    hide Letter, Value, First, Second, Third, Fourth, Join1, Join2, Join3;
    GroupIsAscii(a, b, c);
    LetterReadsBack(First(a));
    LetterReadsBack(Second(a, b));
    LetterReadsBack(Third(b, c));
    LetterReadsBack(Fourth(c));
    JoinUndoesSplit(a, b, c);
  }

  lemma PadIsNoLetter()
    ensures Value(PAD) == 255
  {
  }

  lemma TailReadsBack(text: seq<Octet>)
    requires 0 < |text| < 3
    ensures var g := EncodeTail(text);
            Ascii(g) && QuadOf(g) == (text, false)
  {
    hide Letter, Value, First, Second, Third, Fourth, Join1, Join2, Join3;
    var b := if |text| == 2 then text[1] else 0;
    TailIsAscii(text);
    PadIsNoLetter();
    LetterReadsBack(First(text[0]));
    LetterReadsBack(Second(text[0], b));
    LetterReadsBack(Third(b, 0));
    JoinUndoesSplit(text[0], b, 0);
    assert text == if |text| == 1 then [text[0]] else [text[0], text[1]];
  }

  /** Decoding undoes encoding, for every string of octets. */
  lemma {:induction false} RoundTrip(text: seq<Octet>)
    ensures Ascii(Encoded(text)) && Decoded(Encoded(text)) == text
    decreases |text|
  {
    hide EncodeGroup, EncodeTail, QuadOf;
    EncodedIsAscii(text);
    var code := Encoded(text);
    if |text| >= 3 {
      RoundTrip(text[3..]);
      GroupReadsBack(text[0], text[1], text[2]);
      var group := EncodeGroup(text[0], text[1], text[2]);
      assert code[..4] == group && code[4..] == Encoded(text[3..]);
      assert text == [text[0], text[1], text[2]] + text[3..];
    } else if text != [] {
      TailReadsBack(text);
      assert code[..4] == EncodeTail(text);
    }
  }

  // ---------------------------------------------------------------- the reference definition

  /** Bit `i` of an octet, the most significant bit first. */
  predicate OctetBit(x: Octet, i: nat)
    requires i < 8
  {
    match i
    case 0 => x & 0x80 != 0
    case 1 => x & 0x40 != 0
    case 2 => x & 0x20 != 0
    case 3 => x & 0x10 != 0
    case 4 => x & 0x08 != 0
    case 5 => x & 0x04 != 0
    case 6 => x & 0x02 != 0
    case _ => x & 0x01 != 0
  }

  /** Bit `p` of the text, continued with zeros. */
  predicate TextBit(text: seq<Octet>, p: nat) {
    p / 8 < |text| && OctetBit(text[p / 8], p % 8)
  }

  /** Bit `i` of six, the most significant bit first. */
  predicate SextetBit(x: Octet, i: nat)
    requires i < 6
  {
    OctetBit(x, i + 2)
  }

  /** Bit `i` of the `k`-th six bits of the text. */
  predicate GroupBit(text: seq<Octet>, k: nat, i: nat) {
    TextBit(text, 6 * k + i)
  }

  /** The character stands for bits 6k to 6k + 5 of the text. */
  ghost predicate Stands(c: Octet, text: seq<Octet>, k: nat) {
    && c < 128 && Value(c) < 64 && Letter(Value(c)) == c
    && forall i | 0 <= i < 6 :: SextetBit(Value(c), i) == GroupBit(text, k, i)
  }

  /** The bits of three octets are the bits of the four sextets, in order. */
  lemma LeadingBits(a: Octet, b: Octet, c: Octet, i: nat)
    requires i < 6
    ensures SextetBit(First(a), i) == GroupBit([a, b, c], 0, i)
    ensures SextetBit(Second(a, b), i) == GroupBit([a, b, c], 1, i)
  {
  }

  lemma TrailingBits(a: Octet, b: Octet, c: Octet, i: nat)
    requires i < 6
    ensures SextetBit(Third(b, c), i) == GroupBit([a, b, c], 2, i)
    ensures SextetBit(Fourth(c), i) == GroupBit([a, b, c], 3, i)
  {
  }

  lemma GroupStands(a: Octet, b: Octet, c: Octet, k: nat)
    requires k < 4
    ensures Stands(EncodeGroup(a, b, c)[k], [a, b, c], k) && EncodeGroup(a, b, c)[k] != PAD
  {
    hide Letter, Value, First, Second, Third, Fourth, SextetBit, GroupBit;
    LetterReadsBack(First(a));
    LetterReadsBack(Second(a, b));
    LetterReadsBack(Third(b, c));
    LetterReadsBack(Fourth(c));
    forall i | 0 <= i < 6
      ensures SextetBit(Value(EncodeGroup(a, b, c)[k]), i) == GroupBit([a, b, c], k, i)
    {
      LeadingBits(a, b, c, i);
      TrailingBits(a, b, c, i);
    }
  }

  lemma TailStands(text: seq<Octet>, k: nat)
    requires 0 < |text| < 3 && k < 4
    ensures EncodeTail(text)[k] == PAD <==> k > |text|
    ensures k <= |text| ==> Stands(EncodeTail(text)[k], text, k)
  {
    hide Letter, Value, First, Second, Third, Fourth, SextetBit, OctetBit;
    var a, b := text[0], if |text| == 2 then text[1] else 0;
    GroupStands(a, b, 0, k);
    if k <= |text| {
      forall i | 0 <= i < 6
        ensures GroupBit(text, k, i) == GroupBit([a, b, 0], k, i)
      {
        ZeroHasNoBit((6 * k + i) % 8);
      }
    }
  }

  lemma ZeroHasNoBit(i: nat)
    requires i < 8
    ensures !OctetBit(0, i)
  {
  }

  /** How many characters carry bits of a text of `n` octets. */
  function LetterCount(n: nat): nat {
    (8 * n + 5) / 6
  }

  /**
   * Section 4 of RFC 4648: character `k` is the letter for bits 6k to 6k + 5 of the text, continued with zeros, and
   * exactly the characters behind the last bit are padding.
   */
  lemma {:induction false} EncodedIsReference(text: seq<Octet>, k: nat)
    requires k < |Encoded(text)|
    ensures Encoded(text)[k] == PAD <==> k >= LetterCount(|text|)
    ensures k < LetterCount(|text|) ==> Stands(Encoded(text)[k], text, k)
    decreases |text|
  {
    hide EncodeGroup, EncodeTail, Letter, Value, SextetBit, GroupBit;
    if |text| < 3 {
      TailStands(text, k);
    } else if k < 4 {
      GroupStands(text[0], text[1], text[2], k);
      BitsOfPrefix(text, k);
    } else {
      var rest := text[3..];
      EncodedIsReference(rest, k - 4);
      assert Encoded(text)[k] == Encoded(rest)[k - 4];
      BitsOfRest(text, k);
    }
  }

  lemma BitsOfPrefix(text: seq<Octet>, k: nat)
    requires |text| >= 3 && k < 4
    ensures forall i | 0 <= i < 6 :: GroupBit(text, k, i) == GroupBit([text[0], text[1], text[2]], k, i)
  {
    hide OctetBit;
    var head := [text[0], text[1], text[2]];
    forall i | 0 <= i < 6
      ensures GroupBit(text, k, i) == GroupBit(head, k, i)
    {
      assert head[(6 * k + i) / 8] == text[(6 * k + i) / 8];
    }
  }

  lemma BitsOfRest(text: seq<Octet>, k: nat)
    requires |text| >= 3 && k >= 4
    ensures forall i | 0 <= i < 6 :: GroupBit(text, k, i) == GroupBit(text[3..], k - 4, i)
  {
    hide OctetBit;
    forall i | 0 <= i < 6
      ensures GroupBit(text, k, i) == GroupBit(text[3..], k - 4, i)
    {
      var q := 6 * (k - 4) + i;
      assert 6 * k + i == q + 24 && (q + 24) / 8 == q / 8 + 3 && (q + 24) % 8 == q % 8;
    }
  }

  // ---------------------------------------------------------------- the loops

  /** Writes the code of the first `textLen` octets; the result is its length. */
  method Encode(text: array<Octet>, textLen: nat, encode: array<Octet>) returns (j: nat)
    requires textLen <= text.Length && text != encode
    requires 4 * ((textLen + 2) / 3) <= encode.Length && 4 * ((textLen + 2) / 3) < 0x1_0000_0000
    modifies encode
    ensures j == 4 * ((textLen + 2) / 3) && encode[..j] == Encoded(text[..textLen])
    ensures encode[j..] == old(encode[j..])
  {
    hide Letter, First, Second, Third, Fourth, Encoded, EncodeGroup, EncodeTail;
    var i := 0;
    j := 0;
    ghost var all := Encoded(text[..textLen]);
    assert text[0..textLen] == text[..textLen] && [] + all == all;
    while i + 3 <= textLen
      invariant 0 <= i <= textLen && 3 * j == 4 * i && i % 3 == 0 && j <= encode.Length
      invariant encode[..j] + Encoded(text[i..textLen]) == all
      invariant encode[|all|..] == old(encode[|all|..])
    {
      ghost var before, rest := encode[..j], text[i..textLen];
      EncodedGroup(rest);
      assert |before + Encoded(rest)| == j + |Encoded(rest)|;
      assert rest[3..] == text[i + 3..textLen];
      WriteQuad(encode, j, Letter(First(text[i])), Letter(Second(text[i], text[i + 1])),
                Letter(Third(text[i + 1], text[i + 2])), Letter(Fourth(text[i + 2])), |all|);
      ConcatAssociates(before, EncodeGroup(text[i], text[i + 1], text[i + 2]), Encoded(rest[3..]));
      j := j + 4;
      i := i + 3;
    }
    ghost var before, rest := encode[..j], text[i..textLen];
    EncodedTail(rest);
    assert |before + Encoded(rest)| == j + |Encoded(rest)|;
    if i < textLen {
      var tail := textLen - i;
      if tail == 1 {
        WriteQuad(encode, j, Letter(First(text[i])), Letter(Second(text[i], 0)), PAD, PAD, |all|);
      } else {
        WriteQuad(encode, j, Letter(First(text[i])), Letter(Second(text[i], text[i + 1])),
                  Letter(Third(text[i + 1], 0)), PAD, |all|);
      }
      j := j + 4;
    }
  }

  lemma EncodedGroup(text: seq<Octet>)
    requires |text| >= 3
    ensures Encoded(text) == EncodeGroup(text[0], text[1], text[2]) + Encoded(text[3..])
    ensures EncodeGroup(text[0], text[1], text[2]) ==
            [Letter(First(text[0])), Letter(Second(text[0], text[1])),
             Letter(Third(text[1], text[2])), Letter(Fourth(text[2]))]
  {
  }

  lemma EncodedTail(text: seq<Octet>)
    requires |text| < 3
    ensures text == [] ==> Encoded(text) == []
    ensures |text| == 1 ==>
              Encoded(text) == [Letter(First(text[0])), Letter(Second(text[0], 0)), PAD, PAD]
    ensures |text| == 2 ==>
              Encoded(text) ==
              [Letter(First(text[0])), Letter(Second(text[0], text[1])), Letter(Third(text[1], 0)), PAD]
  {
  }

  /** Four characters behind one another; nothing from `end` on changes. */
  method WriteQuad(encode: array<Octet>, j: nat, p: Octet, q: Octet, r: Octet, s: Octet, ghost end: nat)
    requires j + 4 <= end <= encode.Length
    modifies encode
    ensures encode[..j + 4] == old(encode[..j]) + [p, q, r, s]
    ensures encode[end..] == old(encode[end..])
  {
    encode[j] := p;
    encode[j + 1] := q;
    encode[j + 2] := r;
    encode[j + 3] := s;
  }

  /** Looks up four characters from position `i` on. */
  method ReadQuad(code: array<Octet>, i: nat, quad: array<Octet>)
    requires i + 4 <= code.Length && quad.Length == 4 && quad != code && Ascii(code[i..i + 4])
    modifies quad
    ensures forall m | 0 <= m < 4 :: quad[m] == Value(code[i..i + 4][m])
  {
    hide Value;
    var k := 0;
    while k < 4
      invariant 0 <= k <= 4
      invariant forall m | 0 <= m < k :: quad[m] == Value(code[i..i + 4][m])
    {
      quad[k] := Value(code[i..i + 4][k]);
      k := k + 1;
    }
  }

  /** Writes what one quadruple stands for behind the `j` octets written before. */
  method WriteOctets(quad: array<Octet>, plain: array<Octet>, j: nat) returns (n: nat, more: bool)
    requires quad.Length == 4 && quad != plain && j + 3 <= plain.Length
    modifies plain
    ensures var d := DecodeQuad(quad[0], quad[1], quad[2], quad[3]);
            n == j + |d.0| && more == d.1 && plain[..n] == old(plain[..j]) + d.0
  {
    hide Join1, Join2, Join3;
    if quad[0] > 63 && quad[1] > 63 {
      return j, false;
    }
    plain[j] := Join1(quad[0], quad[1]);
    if quad[2] >= 64 {
      return j + 1, false;
    } else if quad[3] >= 64 {
      plain[j + 1] := Join2(quad[1], quad[2]);
      return j + 2, false;
    } else {
      plain[j + 1] := Join2(quad[1], quad[2]);
      plain[j + 2] := Join3(quad[2], quad[3]);
      assert plain[..j + 3] == plain[..j] + [plain[j], plain[j + 1], plain[j + 2]];
      return j + 3, true;
    }
  }

  /** One round of the decoding loop. */
  method DecodeRound(code: array<Octet>, i: nat, quad: array<Octet>, plain: array<Octet>, j: nat)
    returns (n: nat, more: bool)
    requires i + 4 <= code.Length && Ascii(code[i..i + 4]) && j + 3 <= plain.Length
    requires quad.Length == 4 && quad != code && quad != plain && code != plain
    modifies quad, plain
    ensures var d := QuadOf(old(code[i..i + 4]));
            n == j + |d.0| && more == d.1 && plain[..n] == old(plain[..j]) + d.0
  {
    hide Value, DecodeQuad;
    ReadQuad(code, i, quad);
    n, more := WriteOctets(quad, plain, j);
  }

  /** Writes the octets that the first `codeLen` characters stand for; the result is their number. */
  method Decode(code: array<Octet>, codeLen: nat, plain: array<Octet>) returns (j: nat)
    requires codeLen <= code.Length && Ascii(code[..codeLen]) && code != plain
    requires codeLen / 4 * 3 <= plain.Length
    modifies plain
    ensures j <= plain.Length && plain[..j] == Decoded(code[..codeLen])
  {
    hide QuadOf, DecodeQuads, Ascii, Decoded;
    ghost var input := code[..codeLen];
    WholeQuads(input);
    if codeLen % 4 != 0 {
      return 0;
    }
    j := 0;
    var quad := new Octet[4];
    var i := 0;
    ghost var m, n, all := 0, codeLen / 4, DecodeQuads(input);
    assert codeLen == 4 * n;
    while i < codeLen
      invariant i == 4 * m && m <= n && j <= 3 * m && fresh(quad)
      invariant Ascii(input[i..]) && plain[..j] + DecodeQuads(input[i..]) == all
      invariant code[..codeLen] == input
    {
      RestOfQuads(input, m, n);
      DecodeOne(all, input[i..], plain[..j]);
      assert code[i..i + 4] == input[i..i + 4];
      var more;
      j, more := DecodeRound(code, i, quad, plain, j);
      if !more {
        return;
      }
      i := i + 4;
      m := m + 1;
    }
    assert input[i..] == [] && plain[..j] + [] == plain[..j];
  }

  lemma WholeQuads(code: seq<Octet>)
    requires Ascii(code)
    ensures code[0..] == code && Decoded(code) == if |code| % 4 == 0 then DecodeQuads(code) else []
    ensures |code| % 4 == 0 ==> [] + DecodeQuads(code[0..]) == DecodeQuads(code)
    ensures DecodeQuads([]) == []
  {
    assert code[0..] == code;
  }

  lemma RestOfQuads(code: seq<Octet>, m: nat, n: nat)
    requires |code| == 4 * n && m < n
    ensures |code[4 * m..]| % 4 == 0 && |code[4 * m..]| >= 4
    ensures code[4 * m..][4..] == code[4 * (m + 1)..] && code[4 * m..][..4] == code[4 * m..4 * m + 4]
  {
    assert |code[4 * m..]| == 4 * (n - m);
  }

  /** One quadruple moves from what is still to be decoded to what is decoded. */
  lemma DecodeOne(all: seq<Octet>, rest: seq<Octet>, before: seq<Octet>)
    requires |rest| % 4 == 0 && Ascii(rest) && rest != [] && before + DecodeQuads(rest) == all
    ensures Ascii(rest[..4]) && Ascii(rest[4..])
    ensures var d := QuadOf(rest[..4]);
            all == if d.1 then before + d.0 + DecodeQuads(rest[4..]) else before + d.0
  {
    hide QuadOf, DecodeQuads, Ascii;
    DecodedQuad(rest);
    ConcatAssociates(before, QuadOf(rest[..4]).0, DecodeQuads(rest[4..]));
  }

  lemma DecodedQuad(code: seq<Octet>)
    requires |code| % 4 == 0 && Ascii(code) && code != []
    ensures Ascii(code[..4]) && Ascii(code[4..])
    ensures var d := QuadOf(code[..4]); DecodeQuads(code) == if d.1 then d.0 + DecodeQuads(code[4..]) else d.0
  {
    hide QuadOf;
  }
}
