/**
 * The output of a merger that writes start codes, read back by the splitter: an independent reader finds the payloads
 * of the frames in their order.
 */
module PrefixedOutput {
  import opened Bytes
  import opened Options
  import H264
  import opened FrameMergerSpec

  const SHORT_CODE: seq<Byte> := [0, 0, 1]
  const LONG_CODE: seq<Byte> := [0, 0, 0, 1]

  /** The frame begins with a start code that its prefix counts, or has no prefix at all. */
  ghost predicate Coded(f: Frame) {
    && f.Valid()
    && (f.prefix == 0 || (f.prefix == 3 && f.data[..3] == SHORT_CODE) || (f.prefix == 4 && f.data[..4] == LONG_CODE))
    && forall p :: !H264.CodeAt(f.Payload(), p)
  }

  /** The start code with which the frame is written: its own, or the long one. */
  function CodeOf(f: Frame): seq<Byte> {
    if f.prefix == 3 then SHORT_CODE else LONG_CODE
  }

  lemma EncodeIsCoded(f: Frame)
    requires Coded(f)
    ensures Encode(H264Prefix, f) == CodeOf(f) + f.Payload()
  {
    if f.prefix != 0 {
      assert f.data == f.data[..f.prefix] + f.data[f.prefix..];
    }
  }

  /** A zero at the end of a payload goes to a short code behind it, which it makes a long one. */
  predicate Loses(f: Frame, next: Frame)
    requires f.Valid()
  {
    next.prefix == 3 && f.Payload() != [] && f.Payload()[|f.Payload()| - 1] == 0
  }

  predicate LosesAt(frames: seq<Frame>, i: nat)
    requires AllValid(frames)
  {
    i + 1 < |frames| && Loses(frames[i], frames[i + 1])
  }

  /** What a reader of start codes finds of the frames. */
  function Found(frames: seq<Frame>): (r: seq<seq<Byte>>)
    requires AllValid(frames)
    ensures |r| == |frames|
  {
    if frames == [] then []
    else
      var p := frames[0].Payload();
      [if LosesAt(frames, 0) then p[..|p| - 1] else p] + Found(frames[1..])
  }

  ghost predicate AllCoded(frames: seq<Frame>) {
    && (forall i | 0 <= i < |frames| :: Coded(frames[i]))
    && (frames != [] ==> frames[|frames| - 1].Payload() != [])
  }

  function PayloadOf(s: seq<Byte>, g: H264.Segment): seq<Byte> {
    if g.Payload() <= g.End() <= |s| then s[g.Payload()..g.End()] else []
  }

  function PayloadsOf(s: seq<Byte>, segments: seq<H264.Segment>): (r: seq<seq<Byte>>)
    ensures |r| == |segments|
  {
    if segments == [] then [] else [PayloadOf(s, segments[0])] + PayloadsOf(s, segments[1..])
  }

  // ---------------------------------------------------------------- one payload and the code behind it

  /** Between `start` and the end nothing looks like a start code. */
  lemma NoCodeToEnd(s: seq<Byte>, start: nat, payload: seq<Byte>)
    requires start <= |s| && s[start..] == payload && forall p :: !H264.CodeAt(payload, p)
    ensures H264.FindCode(s, start) == -1
  {
    var p := H264.FindCode(s, start);
    if p != -1 {
      InPayload(s, start, payload, p);
    }
  }

  lemma InPayload(s: seq<Byte>, start: nat, payload: seq<Byte>, p: int)
    requires start <= p && start + |payload| <= |s| && s[start..start + |payload|] == payload
    requires H264.CodeAt(s, p) && p + 3 <= start + |payload|
    ensures H264.CodeAt(payload, p - start)
  {
    assert payload[p - start] == s[p] && payload[p - start + 1] == s[p + 1] && payload[p - start + 2] == s[p + 2];
  }

  lemma CodeBytes(s: seq<Byte>, end: nat, code: seq<Byte>)
    requires code == SHORT_CODE || code == LONG_CODE
    requires end + |code| <= |s| && s[end..end + |code|] == code
    ensures s[end] == s[end + 1] == 0 && s[end + |code| - 1] == 1 && (code == LONG_CODE ==> s[end + 2] == 0)
  {
    var t := s[end..end + |code|];
    assert t[0] == s[end] && t[1] == s[end + 1] && t[2] == s[end + 2] && t[|code| - 1] == s[end + |code| - 1];
  }

  /** The next code found behind a payload is the one written there. */
  lemma CodeBehind(s: seq<Byte>, start: nat, payload: seq<Byte>, code: seq<Byte>)
    requires code == SHORT_CODE || code == LONG_CODE
    requires start + |payload| + |code| < |s|
    requires s[start..start + |payload|] == payload
    requires s[start + |payload|..start + |payload| + |code|] == code
    requires forall p :: !H264.CodeAt(payload, p)
    ensures H264.FindCode(s, start) == start + |payload| + |code| - 3
  {
    var end := start + |payload|;
    var q := end + |code| - 3;
    CodeBytes(s, end, code);
    assert H264.SeenCode(s, q);
    var p := H264.FindCode(s, start);
    if p < q && p + 3 <= end {
      InPayload(s, start, payload, p);
    }
  }

  /** Where the segment in front of the code ends. */
  lemma CutBehind(s: seq<Byte>, start: nat, payload: seq<Byte>, code: seq<Byte>)
    requires code == SHORT_CODE || code == LONG_CODE
    requires start + |payload| + |code| < |s|
    requires s[start..start + |payload|] == payload
    requires s[start + |payload|..start + |payload| + |code|] == code
    ensures var q := start + |payload| + |code| - 3;
            H264.CutAt(s, start, q) ==
            start + |payload| - if code == SHORT_CODE && payload != [] && payload[|payload| - 1] == 0 then 1 else 0
  {
    assert code == LONG_CODE ==> s[start + |payload|] == code[0];
    assert payload != [] ==> s[start + |payload| - 1] == payload[|payload| - 1];
  }

  // ---------------------------------------------------------------- all frames

  ghost predicate Behind(s: seq<Byte>, start: nat, frames: seq<Frame>) {
    && AllCoded(frames) && AllValid(frames) && frames != [] && start <= |s|
    && s[start..] == frames[0].Payload() + EncodeAll(H264Prefix, frames[1..])
  }

  lemma CodedAreValid(frames: seq<Frame>)
    requires AllCoded(frames)
    ensures AllValid(frames)
  {
  }

  lemma SomethingLeft(frames: seq<Frame>)
    requires AllCoded(frames) && AllValid(frames) && frames != []
    ensures |frames[0].Payload() + EncodeAll(H264Prefix, frames[1..])| > 0
  {
    if |frames| > 1 {
      EncodeIsCoded(frames[1]);
    }
  }

  /** The next frame begins where the code behind the current payload ends. */
  lemma NextBehind(s: seq<Byte>, start: nat, frames: seq<Frame>)
    requires Behind(s, start, frames) && |frames| > 1
    ensures var payload, code := frames[0].Payload(), CodeOf(frames[1]);
            var end := start + |payload|;
            && end + |code| < |s| && s[start..end] == payload && s[end..end + |code|] == code
            && Behind(s, end + |code|, frames[1..])
  {
    var payload, code, rest := frames[0].Payload(), CodeOf(frames[1]), frames[1..];
    CodedAreValid(rest);
    var tail := rest[0].Payload() + EncodeAll(H264Prefix, rest[1..]);
    EncodeIsCoded(frames[1]);
    SomethingLeft(rest);
    ConcatAssociates(code, rest[0].Payload(), EncodeAll(H264Prefix, rest[1..]));
    assert s[start..] == payload + (code + tail);
    SliceOf(s, start, payload, code, tail);
  }

  lemma SliceOf(s: seq<Byte>, start: nat, a: seq<Byte>, b: seq<Byte>, c: seq<Byte>)
    requires start <= |s| && s[start..] == a + (b + c)
    ensures start + |a| + |b| + |c| == |s| && s[start..start + |a|] == a
    ensures s[start + |a|..start + |a| + |b|] == b && s[start + |a| + |b|..] == c
  {
    var t := s[start..];
    assert t[..|a|] == a && t[|a|..|a| + |b|] == b && t[|a| + |b|..] == c;
  }

  lemma {:induction false} SplitFinds(s: seq<Byte>, start: nat, prefix: nat, frames: seq<Frame>)
    requires prefix <= start && AllValid(frames) && Behind(s, start, frames)
    ensures PayloadsOf(s, H264.Split(s, start, prefix)) == Found(frames)
    decreases |frames|
  {
    hide Behind, AllCoded, Found, PayloadsOf, PayloadOf, H264.Split, LosesAt;
    BehindParts(s, start, frames);
    var payload := frames[0].Payload();
    FoundUnfold(frames);
    if |frames| == 1 {
      SplitLast(s, start, prefix, payload);
      LastKeeps(frames);
    } else {
      NextBehind(s, start, frames);
      var code := CodeOf(frames[1]);
      var q := start + |payload| + |code|;
      var cut := SplitNext(s, start, prefix, payload, code);
      SplitFinds(s, q, q - cut, frames[1..]);
      FirstPayload(s, H264.Segment(start - prefix, cut - start + prefix, prefix), H264.Split(s, q, q - cut));
      FirstLoses(frames, cut - start);
      assert s[start..cut] == payload[..cut - start] == s[start..start + |payload|][..cut - start];
    }
  }

  lemma LastKeeps(frames: seq<Frame>)
    requires AllValid(frames) && |frames| == 1
    ensures !LosesAt(frames, 0) && frames[1..] == []
  {
  }

  lemma FirstLoses(frames: seq<Frame>, n: nat)
    requires AllValid(frames) && |frames| > 1
    requires var p := frames[0].Payload();
             n == |p| - if CodeOf(frames[1]) == SHORT_CODE && p != [] && p[|p| - 1] == 0 then 1 else 0
    ensures var p := frames[0].Payload(); p[..n] == if LosesAt(frames, 0) then p[..|p| - 1] else p
  {
    var p := frames[0].Payload();
    assert |LONG_CODE| == 4 && |SHORT_CODE| == 3 && p[..|p|] == p;
  }

  lemma SplitLast(s: seq<Byte>, start: nat, prefix: nat, payload: seq<Byte>)
    requires prefix <= start <= |s| && s[start..] == payload && forall p :: !H264.CodeAt(payload, p)
    ensures PayloadsOf(s, H264.Split(s, start, prefix)) == [payload]
  {
    NoCodeToEnd(s, start, payload);
    H264.SplitUnfold(s, start, prefix);
    hide H264.Split;
    assert s[start..|s|] == s[start..];
    OnePayload(s, H264.Segment(start - prefix, |s| - start + prefix, prefix));
  }

  lemma SplitNext(s: seq<Byte>, start: nat, prefix: nat, payload: seq<Byte>, code: seq<Byte>) returns (cut: nat)
    requires code == SHORT_CODE || code == LONG_CODE
    requires prefix <= start && start + |payload| + |code| < |s|
    requires s[start..start + |payload|] == payload
    requires s[start + |payload|..start + |payload| + |code|] == code
    requires forall p :: !H264.CodeAt(payload, p)
    ensures cut ==
            start + |payload| - if code == SHORT_CODE && payload != [] && payload[|payload| - 1] == 0 then 1 else 0
    ensures var q := start + |payload| + |code|;
            && start <= cut <= q
            && H264.Split(s, start, prefix) ==
               [H264.Segment(start - prefix, cut - start + prefix, prefix)] + H264.Split(s, q, q - cut)
    ensures PayloadOf(s, H264.Segment(start - prefix, cut - start + prefix, prefix)) == s[start..cut]
  {
    CodeBehind(s, start, payload, code);
    CutBehind(s, start, payload, code);
    hide H264.Split, H264.CutAt, H264.CodeAt, H264.SeenCode;
    var q := start + |payload| + |code|;
    cut := H264.CutAt(s, start, q - 3);
    SplitAt(s, start, prefix, q, cut);
  }

  lemma SplitAt(s: seq<Byte>, start: nat, prefix: nat, q: nat, cut: nat)
    requires prefix <= start && start <= q - 3 < |s|
    requires H264.FindCode(s, start) == q - 3 && cut == H264.CutAt(s, start, q - 3)
    ensures start <= cut <= q
    ensures H264.Split(s, start, prefix) ==
            [H264.Segment(start - prefix, cut - start + prefix, prefix)] + H264.Split(s, q, q - cut)
  {
    hide H264.Split, H264.CutAt, H264.FindCode, H264.SeenCode;
    assert cut <= q && start <= cut by { CutInRange(s, start, q - 3); }
    H264.SplitUnfold(s, start, prefix);
  }

  lemma CutInRange(s: seq<Byte>, start: nat, p: nat)
    requires start <= p < |s|
    ensures start <= H264.CutAt(s, start, p) <= p
  {
  }

  lemma BehindParts(s: seq<Byte>, start: nat, frames: seq<Frame>)
    requires Behind(s, start, frames)
    ensures frames != [] && AllValid(frames) && start <= |s| && forall p :: !H264.CodeAt(frames[0].Payload(), p)
    ensures |frames| == 1 ==> s[start..] == frames[0].Payload()
  {
    assert Coded(frames[0]);
    if |frames| == 1 {
      assert frames[0].Payload() + [] == frames[0].Payload();
    }
  }

  lemma FoundUnfold(frames: seq<Frame>)
    requires AllValid(frames) && frames != []
    ensures var p := frames[0].Payload();
            Found(frames) ==
            [if LosesAt(frames, 0) then p[..|p| - 1] else p] + Found(frames[1..])
    ensures Found([]) == []
  {
  }

  lemma OnePayload(s: seq<Byte>, g: H264.Segment)
    ensures PayloadsOf(s, [g]) == [PayloadOf(s, g)]
  {
  }

  lemma FirstPayload(s: seq<Byte>, g: H264.Segment, rest: seq<H264.Segment>)
    ensures PayloadsOf(s, [g] + rest) == [PayloadOf(s, g)] + PayloadsOf(s, rest)
  {
    assert ([g] + rest)[1..] == rest;
  }

  /**
   * Splitting the output of a merger that writes start codes finds the payloads of the frames in their order, each
   * without the zero that it loses to a short code behind it.
   */
  lemma SplitFindsPayloads(frames: seq<Frame>)
    requires frames != [] && AllCoded(frames) && AllValid(frames)
    ensures var s := EncodeAll(H264Prefix, frames);
            PayloadsOf(s, H264.Segments(s, 0)) == Found(frames)
  {
    var s := EncodeAll(H264Prefix, frames);
    var code := CodeOf(frames[0]);
    var tail := frames[0].Payload() + EncodeAll(H264Prefix, frames[1..]);
    EncodeIsCoded(frames[0]);
    ConcatAssociates(code, frames[0].Payload(), EncodeAll(H264Prefix, frames[1..]));
    SomethingLeft(frames);
    assert s == code + tail && s[|code|..] == tail;
    assert H264.FirstPrefix(s, 0) == |code|;
    SplitFinds(s, |code|, |code|, frames);
  }

  /** So exactly the payloads come back if and only if none of them ends in a zero in front of a short code. */
  lemma PayloadsComeBack(frames: seq<Frame>)
    requires frames != [] && AllCoded(frames) && AllValid(frames)
    ensures var s := EncodeAll(H264Prefix, frames);
            PayloadsOf(s, H264.Segments(s, 0)) == Payloads(frames) <==>
            forall i | 0 <= i < |frames| :: !LosesAt(frames, i)
  {
    hide EncodeAll, PayloadsOf, Found, Loses;
    SplitFindsPayloads(frames);
    FoundIsPayloads(frames);
  }

  /** A frame that ends in a zero, and one with a short code behind it: the zero is not found again. */
  lemma ZeroIsLost(bare: Frame, short: Frame)
    requires bare.prefix == 0 && bare.data == [0x65, 0] && short.prefix == 3 && short.data == [0, 0, 1, 0x41]
    ensures AllValid([bare, short])
    ensures var s := EncodeAll(H264Prefix, [bare, short]);
            PayloadsOf(s, H264.Segments(s, 0)) == [[0x65], [0x41]]
  {
    var frames := [bare, short];
    assert bare.Payload() == [0x65, 0] && short.Payload() == [0x41];
    assert AllCoded(frames) by {
      assert short.data[..3] == SHORT_CODE;
    }
    SplitFindsPayloads(frames);
    hide EncodeAll, PayloadsOf;
    assert frames[1..] == [short] && [short][1..] == [];
    FoundUnfold(frames);
    FoundUnfold([short]);
    assert bare.Payload()[..1] == [0x65];
  }

  lemma {:induction false} FoundAt(frames: seq<Frame>, i: nat)
    requires AllValid(frames) && i < |frames|
    ensures var p := frames[i].Payload();
            Found(frames)[i] == if LosesAt(frames, i) then p[..|p| - 1] else p
  {
    FoundUnfold(frames);
    if i > 0 {
      FoundAt(frames[1..], i - 1);
    }
  }

  lemma FoundIsPayloads(frames: seq<Frame>)
    requires AllValid(frames)
    ensures Found(frames) == Payloads(frames) <==> forall i | 0 <= i < |frames| :: !LosesAt(frames, i)
  {
    hide Found, LosesAt;
    forall i | 0 <= i < |frames|
      ensures Found(frames)[i] == Payloads(frames)[i] <==> !LosesAt(frames, i)
    {
      FoundAt(frames, i);
      LosesOne(frames, i);
    }
  }

  lemma LosesOne(frames: seq<Frame>, i: nat)
    requires AllValid(frames) && i < |frames|
    ensures var p := frames[i].Payload(); LosesAt(frames, i) ==> p != [] && p[..|p| - 1] != p
  {
    var p := frames[i].Payload();
    assert p != [] ==> |p[..|p| - 1]| == |p| - 1;
  }

  /** A frame without a start code is written with the long one in front. */
  lemma BareFrameIsPrefixed(f: Frame)
    requires f.Valid() && f.prefix == 0
    ensures var e := Encode(H264Prefix, f);
            |e| == |f.data| + 4 && e[..4] == [0, 0, 0, 1] && e[4..] == f.data
  {
  }

  /** A run of a merger that writes start codes, read back: nothing is lost, split or reordered. */
  lemma RunComesBack(frames: seq<Frame>)
    requires frames != [] && AllCoded(frames) && AllValid(frames)
    requires forall i | 0 <= i < |frames| :: !LosesAt(frames, i)
    ensures var groups := Groups(NewMerger(H264Prefix), AllSome(frames) + [None]);
            && GroupsValid(groups)
            && var s := Emitted(H264Prefix, groups); PayloadsOf(s, H264.Segments(s, 0)) == Payloads(frames)
  {
    hide Loses, AllCoded;
    FramesOfAllSome(frames);
    RunEmitsAllFrames(H264Prefix, AllSome(frames) + [None]);
    PayloadsComeBack(frames);
  }
}
