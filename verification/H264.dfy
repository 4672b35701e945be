/** Splitting an H.264 byte stream at its start codes (Annex B, section B.1 of ITU-T H.264). */
module H264 {
  import opened Bytes

  /** What the callback is given: the position and length of a NAL unit with its start code, and the code's length. */
  datatype Segment = Segment(offset: nat, size: nat, prefix: nat) {
    function Payload(): nat {
      offset + prefix
    }

    function End(): nat {
      offset + size
    }
  }

  const START_CODE: seq<Byte> := [0, 0, 1]

  /** The three-byte start code stands at `p`. */
  predicate CodeAt(s: seq<Byte>, p: int) {
    0 <= p <= |s| - 3 && s[p] == 0 && s[p + 1] == 0 && s[p + 2] == 1
  }

  /** The scanner looks at every position but the last one at which a code would fit. */
  predicate SeenCode(s: seq<Byte>, p: int) {
    CodeAt(s, p) && p < |s| - 3
  }

  function PrefixSize(s: seq<Byte>): (r: nat)
    ensures r <= |s|
  {
    if |s| < 4 then 0
    else if s[0] != 0 || s[1] != 0 then 0
    else if s[2] == 0 && s[3] == 1 then 4
    else if s[2] == 1 then 3
    else 0
  }

  /** The leading code is recognised exactly when a byte follows it, or when it has four bytes. */
  lemma PrefixSizeSpec(s: seq<Byte>)
    ensures PrefixSize(s) in {0, 3, 4}
    ensures PrefixSize(s) == 3 <==> SeenCode(s, 0)
    ensures PrefixSize(s) == 4 <==> |s| >= 4 && s[0] == 0 && CodeAt(s, 1)
  {
  }

  function FindCode(s: seq<Byte>, from: nat): (p: int)
    ensures p == -1 || (from <= p && SeenCode(s, p))
    ensures forall q | from <= q && (p == -1 || q < p) :: !SeenCode(s, q)
    decreases |s| - from
  {
    if from >= |s| - 3 then -1
    else if CodeAt(s, from) then from
    else FindCode(s, from + 1)
  }

  /** Where the segment before the code at `p` ends: a zero byte before the code belongs to it. */
  function CutAt(s: seq<Byte>, start: nat, p: nat): nat
    requires start <= p < |s|
  {
    if p > start && s[p - 1] == 0 then p - 1 else p
  }

  /** The segments from the one whose payload begins at `start`. */
  function Split(s: seq<Byte>, start: nat, prefix: nat): (r: seq<Segment>)
    requires prefix <= start <= |s|
    ensures |r| > 0 && r[0].offset == start - prefix && r[0].prefix == prefix
    decreases |s| - start
  {
    var p := FindCode(s, start);
    if p == -1 then [Segment(start - prefix, |s| - start + prefix, prefix)]
    else
      var cut := CutAt(s, start, p);
      [Segment(start - prefix, cut - start + prefix, prefix)] + Split(s, p + 3, p + 3 - cut)
  }

  function FirstPrefix(s: seq<Byte>, prefix: nat): nat {
    if prefix == 0 then PrefixSize(s) else prefix
  }

  function Segments(s: seq<Byte>, prefix: nat): seq<Segment>
    requires prefix <= |s|
  {
    Split(s, FirstPrefix(s, prefix), FirstPrefix(s, prefix))
  }

  // ---------------------------------------------------------------- the scanner

  predicate Matches(s: seq<Byte>, q: int, sub: seq<Byte>) {
    0 <= q <= |s| - |sub| && s[q..q + |sub|] == sub
  }

  /** The first occurrence of `sub` from `from` on that does not end the buffer, or -1. */
  method MemFind(s: seq<Byte>, from: nat, sub: seq<Byte>) returns (found: int)
    requires from <= |s|
    ensures found == -1 || (from <= found < |s| - |sub| && Matches(s, found, sub))
    ensures forall q | from <= q < |s| - |sub| && (found == -1 || q < found) :: !Matches(s, q, sub)
  {
    var i := from;
    while i < |s| - |sub|
      invariant from <= i
      invariant forall q | from <= q < i && q < |s| - |sub| :: !Matches(s, q, sub)
    {
      if s[i..i + |sub|] == sub {
        return i;
      }
      i := i + 1;
    }
    return -1;
  }

  method SplitH264(s: seq<Byte>, prefix: nat) returns (segments: seq<Segment>)
    requires prefix <= |s|
    ensures segments == Segments(s, prefix)
  {
    hide Split, FindCode, Matches, CodeAt, SeenCode, PrefixSize;
    var pre := prefix;
    if pre == 0 {
      pre := PrefixSize(s);
    }
    var start := pre;
    segments := [];
    ghost var all := Segments(s, prefix);
    while true
      invariant 0 <= pre <= start <= |s|
      invariant segments + Split(s, start, pre) == all
      decreases |s| - start
    {
      var p := MemFind(s, start, START_CODE);
      FoundIsFirst(s, start, p);
      OneMoreSegment(s, start, pre, p, segments);
      if p == -1 {
        segments := segments + [Segment(start - pre, |s| - start + pre, pre)];
        break;
      }
      var nextStart, nextPrefix := p, 3;
      if p > start && s[p - 1] == 0 {
        nextStart, nextPrefix := p - 1, 4;
      }
      segments := segments + [Segment(start - pre, nextStart - start + pre, pre)];
      start, pre := nextStart + nextPrefix, nextPrefix;
    }
  }

  /** One segment moves from what is still to be split to what is split. */
  lemma OneMoreSegment(s: seq<Byte>, start: nat, pre: nat, p: int, before: seq<Segment>)
    requires pre <= start <= |s| && p == FindCode(s, start)
    ensures p == -1 || start <= p < |s| - 3
    ensures before + Split(s, start, pre) ==
            if p == -1 then before + [Segment(start - pre, |s| - start + pre, pre)]
            else
              var cut := CutAt(s, start, p);
              (before + [Segment(start - pre, cut - start + pre, pre)]) + Split(s, p + 3, p + 3 - cut)
  {
    SplitUnfold(s, start, pre);
    if p != -1 {
      var cut := CutAt(s, start, p);
      hide Split, FindCode, CutAt;
      ConcatAssociates(before, [Segment(start - pre, cut - start + pre, pre)], Split(s, p + 3, p + 3 - cut));
    }
  }

  lemma SplitUnfold(s: seq<Byte>, start: nat, prefix: nat)
    requires prefix <= start <= |s|
    ensures var p := FindCode(s, start);
            Split(s, start, prefix) ==
            if p == -1 then [Segment(start - prefix, |s| - start + prefix, prefix)]
            else
              var cut := CutAt(s, start, p);
              [Segment(start - prefix, cut - start + prefix, prefix)] + Split(s, p + 3, p + 3 - cut)
  {
  }

  lemma FoundIsFirst(s: seq<Byte>, from: nat, p: int)
    requires from <= |s|
    requires p == -1 || (from <= p < |s| - 3 && Matches(s, p, START_CODE))
    requires forall q | from <= q < |s| - 3 && (p == -1 || q < p) :: !Matches(s, q, START_CODE)
    ensures p == FindCode(s, from)
  {
    hide Matches, CodeAt;
    MatchIsCode(s, p);
    assert p != -1 ==> SeenCode(s, p);
    MatchIsCode(s, FindCode(s, from));
  }

  lemma MatchIsCode(s: seq<Byte>, p: int)
    ensures Matches(s, p, START_CODE) <==> CodeAt(s, p)
  {
    if Matches(s, p, START_CODE) {
      var m := s[p..p + |START_CODE|];
      assert m[0] == START_CODE[0] && m[1] == START_CODE[1] && m[2] == START_CODE[2];
      assert s[p] == m[0] && s[p + 1] == m[1] && s[p + 2] == m[2];
    }
    if CodeAt(s, p) {
      assert s[p..p + |START_CODE|] == START_CODE;
    }
  }

  // ---------------------------------------------------------------- one segment at a time

  /** The segment's start code, three or four bytes, is what the input holds at its offset. */
  predicate BeginsWithCode(s: seq<Byte>, g: Segment) {
    && g.prefix in {3, 4} && SeenCode(s, g.Payload() - 3)
    && (g.prefix == 4 ==> s[g.offset] == 0)
  }

  /** The first segment runs to the first code, and the others are those behind that code. */
  lemma SplitStep(s: seq<Byte>, start: nat, prefix: nat)
    requires prefix <= start <= |s|
    ensures var r := Split(s, start, prefix);
            var p := FindCode(s, start);
            && r[0].offset == start - prefix && r[0].prefix == prefix && start <= r[0].End()
            && (|r| == 1 <==> p == -1)
            && (|r| == 1 ==> r[0].End() == |s|)
            && (|r| > 1 ==>
                  && r[1..] == Split(s, r[1].Payload(), r[1].prefix)
                  && r[1].prefix <= r[1].Payload() <= |s| && start < r[1].Payload() == p + 3
                  && r[1].offset == r[0].End() && BeginsWithCode(s, r[1])
                  && (r[0].End() == start <==> p == start || (p == start + 1 && s[start] == 0)))
  {
    var p := FindCode(s, start);
    if p != -1 {
      var cut := CutAt(s, start, p);
      var rest := Split(s, p + 3, p + 3 - cut);
      assert Split(s, start, prefix)[1..] == rest;
    }
  }

  // ---------------------------------------------------------------- partition

  function Data(s: seq<Byte>, g: Segment): seq<Byte>
    requires g.End() <= |s|
  {
    s[g.offset..g.End()]
  }

  ghost predicate InBounds(s: seq<Byte>, segments: seq<Segment>) {
    forall k | 0 <= k < |segments| :: segments[k].prefix <= segments[k].size && segments[k].End() <= |s|
  }

  function Pieces(s: seq<Byte>, segments: seq<Segment>): (r: seq<seq<Byte>>)
    requires InBounds(s, segments)
    ensures |r| == |segments| && forall k | 0 <= k < |r| :: r[k] == Data(s, segments[k])
  {
    seq(|segments|, k requires 0 <= k < |segments| => Data(s, segments[k]))
  }

  lemma {:induction false} SplitInBounds(s: seq<Byte>, start: nat, prefix: nat)
    requires prefix <= start <= |s|
    ensures InBounds(s, Split(s, start, prefix))
    decreases |s| - start
  {
    var p := FindCode(s, start);
    if p != -1 {
      SplitInBounds(s, p + 3, p + 3 - CutAt(s, start, p));
    }
  }

  lemma {:induction false} SplitPartitions(s: seq<Byte>, start: nat, prefix: nat)
    requires prefix <= start <= |s|
    ensures InBounds(s, Split(s, start, prefix))
    ensures Flatten(Pieces(s, Split(s, start, prefix))) == s[start - prefix..]
    decreases |s| - start
  {
    hide FindCode;
    SplitInBounds(s, start, prefix);
    var segments := Split(s, start, prefix);
    if |segments| == 1 {
      SplitStep(s, start, prefix);
      assert Pieces(s, segments)[1..] == [];
    } else {
      SplitStep(s, start, prefix);
      var rest := segments[1..];
      SplitPartitions(s, rest[0].Payload(), rest[0].prefix);
      assert Pieces(s, segments)[1..] == Pieces(s, rest);
      assert s[segments[0].offset..segments[0].End()] + s[rest[0].offset..] == s[start - prefix..];
    }
  }

  /** The segments cut the whole input into consecutive pieces: putting them together gives it back. */
  lemma SegmentsPartitionInput(s: seq<Byte>, prefix: nat)
    requires prefix <= |s|
    ensures InBounds(s, Segments(s, prefix))
    ensures Flatten(Pieces(s, Segments(s, prefix))) == s
  {
    SplitPartitions(s, FirstPrefix(s, prefix), FirstPrefix(s, prefix));
  }

  // ---------------------------------------------------------------- where the cuts are

  ghost predicate CutsAt(segments: seq<Segment>, p: int) {
    exists k :: 0 < k < |segments| && segments[k].Payload() == p + 3
  }

  /** Codes cannot overlap. */
  lemma CodesApart(s: seq<Byte>, p: int, q: int)
    requires CodeAt(s, p) && CodeAt(s, q) && p < q
    ensures q >= p + 3
  {
  }

  lemma {:induction false} SplitCuts(s: seq<Byte>, start: nat, prefix: nat)
    requires prefix <= start <= |s|
    ensures var r := Split(s, start, prefix);
            forall k | 0 < k < |r| :: BeginsWithCode(s, r[k]) && start <= r[k].Payload() - 3
    ensures forall p | p >= start :: SeenCode(s, p) <==> CutsAt(Split(s, start, prefix), p)
    decreases |s| - start
  {
    hide Split, SeenCode, BeginsWithCode;
    SplitStep(s, start, prefix);
    var r := Split(s, start, prefix);
    if |r| > 1 {
      var rest := r[1..];
      SplitCuts(s, r[1].Payload(), r[1].prefix);
      forall k | 0 < k < |r|
        ensures BeginsWithCode(s, r[k]) && start <= r[k].Payload() - 3
      {
        assert k > 1 ==> r[k] == rest[k - 1];
      }
      forall p | p >= start
        ensures SeenCode(s, p) <==> CutsAt(r, p)
      {
        CutsOfRest(s, r, p);
      }
    }
  }

  lemma CutsOfRest(s: seq<Byte>, r: seq<Segment>, p: int)
    requires |r| > 1 && SeenCode(s, r[1].Payload() - 3)
    requires forall q | p <= q < r[1].Payload() - 3 :: !SeenCode(s, q)
    requires forall q | q >= r[1].Payload() :: SeenCode(s, q) <==> CutsAt(r[1..], q)
    requires forall k | 1 < k < |r| :: BeginsWithCode(s, r[k]) && r[1].Payload() <= r[k].Payload() - 3
    ensures SeenCode(s, p) <==> CutsAt(r, p)
  {
    var first := r[1].Payload() - 3;
    if SeenCode(s, p) {
      if p != first {
        CodesApart(s, first, p);
        var k :| 0 < k < |r[1..]| && r[1..][k].Payload() == p + 3;
        assert r[k + 1].Payload() == p + 3;
      }
    }
    if CutsAt(r, p) {
      var k :| 0 < k < |r| && r[k].Payload() == p + 3;
      assert k > 1 ==> BeginsWithCode(s, r[k]);
    }
  }

  /**
   * The cuts are exactly the start codes: each segment after the first begins with a three- or four-byte code where
   * its predecessor ends, and every code that the scanner can see, and nothing else, makes a cut.
   */
  lemma CutsAreStartCodes(s: seq<Byte>, prefix: nat)
    requires prefix <= |s|
    ensures var r := Segments(s, prefix); Consecutive(r) && forall k | 0 < k < |r| :: BeginsWithCode(s, r[k])
    ensures forall p | p >= FirstPrefix(s, prefix) :: SeenCode(s, p) <==> CutsAt(Segments(s, prefix), p)
  {
    SplitCuts(s, FirstPrefix(s, prefix), FirstPrefix(s, prefix));
    SplitOrdered(s, FirstPrefix(s, prefix), FirstPrefix(s, prefix));
  }

  ghost predicate Consecutive(r: seq<Segment>) {
    forall k | 0 < k < |r| :: r[k].offset == r[k - 1].End()
  }

  /** Segments follow one another, and the last one ends the input. */
  lemma {:induction false} SplitOrdered(s: seq<Byte>, start: nat, prefix: nat)
    requires prefix <= start <= |s|
    ensures var r := Split(s, start, prefix);
            && (forall i, j | 0 <= i < j < |r| :: r[i].End() <= r[j].offset && r[i].Payload() < r[j].Payload())
            && (forall i | 0 <= i < |r| :: start <= r[i].Payload() <= r[i].End() && start - prefix <= r[i].offset)
            && Consecutive(r) && r[|r| - 1].End() == |s|
    decreases |s| - start
  {
    hide Split, FindCode;
    SplitStep(s, start, prefix);
    var r := Split(s, start, prefix);
    if |r| > 1 {
      var rest := r[1..];
      SplitOrdered(s, r[1].Payload(), r[1].prefix);
      forall i, j | 0 <= i < j < |r|
        ensures r[i].End() <= r[j].offset && r[i].Payload() < r[j].Payload()
      {
        assert r[j] == rest[j - 1] && r[1] == rest[0];
        assert i > 0 ==> r[i] == rest[i - 1];
      }
      forall i | 0 <= i < |r|
        ensures start <= r[i].Payload() <= r[i].End() && start - prefix <= r[i].offset
      {
        assert i > 0 ==> r[i] == rest[i - 1];
      }
      assert rest[|rest| - 1] == r[|r| - 1];
      forall k | 0 < k < |r|
        ensures r[k].offset == r[k - 1].End()
      {
        assert k > 1 ==> r[k] == rest[k - 1] && r[k - 1] == rest[k - 2];
      }
    }
  }

  /** Payloads hold no start code, but for one that ends the input. */
  lemma PayloadsHoldNoCode(s: seq<Byte>, prefix: nat, k: nat, p: nat)
    requires prefix <= |s| && k < |Segments(s, prefix)|
    requires Segments(s, prefix)[k].Payload() <= p < Segments(s, prefix)[k].End()
    ensures CodeAt(s, p) ==> k == |Segments(s, prefix)| - 1 && p == |s| - 3
  {
    hide Split, FindCode, BeginsWithCode;
    var first := FirstPrefix(s, prefix);
    var r := Segments(s, prefix);
    SplitOrdered(s, first, first);
    SplitCuts(s, first, first);
    if SeenCode(s, p) {
      var j :| 0 < j < |r| && r[j].Payload() == p + 3;
      CodeIsAhead(s, r[j]);
      assert false;
    }
    if CodeAt(s, p) && k < |r| - 1 {
      CodeIsAhead(s, r[|r| - 1]);
    }
  }

  lemma CodeIsAhead(s: seq<Byte>, g: Segment)
    requires BeginsWithCode(s, g)
    ensures g.offset <= g.Payload() - 3 < |s| - 3
  {
  }

  // ---------------------------------------------------------------- empty payloads

  /** Another code, of three or four bytes, stands right behind the one at `p`. */
  predicate Adjacent(s: seq<Byte>, p: int) {
    SeenCode(s, p) && (SeenCode(s, p + 3) || (s[p + 3] == 0 && SeenCode(s, p + 4)))
  }

  predicate HasPayload(g: Segment) {
    g.size > g.prefix
  }

  lemma {:induction false} SplitPayloads(s: seq<Byte>, start: nat, prefix: nat)
    requires prefix <= start <= |s|
    ensures var r := Split(s, start, prefix);
            forall k | 0 < k < |r| :: HasPayload(r[k]) <==> !Adjacent(s, r[k].Payload() - 3)
    decreases |s| - start
  {
    hide Split, FindCode, HasPayload, Adjacent;
    SplitStep(s, start, prefix);
    var r := Split(s, start, prefix);
    if |r| > 1 {
      var rest := r[1..];
      SplitPayloads(s, r[1].Payload(), r[1].prefix);
      FirstPayload(s, r[1].Payload(), r[1].prefix);
      forall k | 0 < k < |r|
        ensures HasPayload(r[k]) <==> !Adjacent(s, r[k].Payload() - 3)
      {
        assert r[k] == rest[k - 1];
      }
    }
  }

  lemma FirstPayload(s: seq<Byte>, start: nat, prefix: nat)
    requires prefix <= start < |s| && SeenCode(s, start - 3)
    ensures HasPayload(Split(s, start, prefix)[0]) <==> !Adjacent(s, start - 3)
  {
    hide Split;
    SplitStep(s, start, prefix);
    assert Adjacent(s, start - 3) <==> SeenCode(s, start) || (s[start] == 0 && SeenCode(s, start + 1));
  }

  /**
   * A segment after the first has no payload exactly when its start code is followed at once by another: so all of
   * them have one if and only if no two codes of the stream are adjacent.
   */
  lemma PayloadsUnlessAdjacent(s: seq<Byte>, prefix: nat)
    requires prefix <= |s|
    ensures var r := Segments(s, prefix);
            forall k | 0 < k < |r| :: HasPayload(r[k]) <==> !Adjacent(s, r[k].Payload() - 3)
    ensures (forall k | 0 < k < |Segments(s, prefix)| :: HasPayload(Segments(s, prefix)[k])) <==>
            (forall p | FirstPrefix(s, prefix) <= p < |s| :: !Adjacent(s, p))
  {
    hide Split, HasPayload, Adjacent, BeginsWithCode;
    var first := FirstPrefix(s, prefix);
    var r := Segments(s, prefix);
    SplitPayloads(s, first, first);
    SplitCuts(s, first, first);
    assert r == Split(s, first, first);
    if p :| first <= p < |s| && Adjacent(s, p) {
      AdjacentIsSeen(s, p);
      var k :| 0 < k < |r| && r[k].Payload() == p + 3;
      assert !HasPayload(r[k]);
    }
    forall k | 0 < k < |r| && !HasPayload(r[k])
      ensures Adjacent(s, r[k].Payload() - 3) && first <= r[k].Payload() - 3 < |s|
    {
      CodeIsAhead(s, r[k]);
    }
  }

  lemma AdjacentIsSeen(s: seq<Byte>, p: int)
    requires Adjacent(s, p)
    ensures SeenCode(s, p)
  {
  }

  const TWO_CODES: seq<Byte> := [0, 0, 1, 0, 0, 1, 0, 0, 1, 0x65, 0x88]

  /** Two codes side by side do yield a segment without a payload. */
  lemma BackToBackCodes()
    ensures Segments(TWO_CODES, 0) == [Segment(0, 3, 3), Segment(3, 3, 3), Segment(6, 5, 3)]
    ensures !HasPayload(Segments(TWO_CODES, 0)[1])
  {
    hide Split;
    assert CodeAt(TWO_CODES, 3) && CodeAt(TWO_CODES, 6);
    assert FindCode(TWO_CODES, 3) == 3;
    assert FindCode(TWO_CODES, 6) == 6;
    assert FindCode(TWO_CODES, 9) == -1;
    SplitUnfold(TWO_CODES, 9, 3);
    SplitUnfold(TWO_CODES, 6, 3);
    SplitUnfold(TWO_CODES, 3, 3);
  }
}
