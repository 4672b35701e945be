/** Grouping frames and encoding the groups: the merger as a function of its state, and what its runs promise. */
module FrameMergerSpec {
  import opened Bytes
  import H264
  import opened Options

  datatype Codec = CodecH264 | CodecH265 | CodecOther

  /** A frame as the merger sees it: `prefix` octets of start code, then the payload. */
  datatype Frame = Frame(codec: Codec, data: seq<Byte>, prefix: nat, dts: nat, pts: nat,
                         keyFrame: bool, configFrame: bool, decodeAble: bool)
  {
    ghost predicate Valid() {
      prefix <= |data| < 0x8000_0000
    }

    function Payload(): seq<Byte>
      requires Valid()
    {
      data[prefix..]
    }
  }

  datatype Mode = Plain | H264Prefix | Mp4NalSize | Unknown

  const MAX_FRAME_CACHE_SIZE := 100

  datatype Merger = Merger(mode: Mode, cache: seq<Frame>, haveDecodeAble: bool)

  // ---------------------------------------------------------------- grouping

  predicate HasDecodeAble(frames: seq<Frame>) {
    exists i :: 0 <= i < |frames| && frames[i].decodeAble
  }

  /** A frame that does not belong to the group collected so far. */
  predicate Breaks(mode: Mode, group: seq<Frame>, haveDecodeAble: bool, frame: Frame)
    requires group != []
  {
    var back := group[|group| - 1];
    match mode
    case Plain =>
      || (!frame.codec.CodecOther? && frame.prefix != 0)
      || back.dts != frame.dts || |group| > MAX_FRAME_CACHE_SIZE
    case Unknown => false
    case _ =>
      || (haveDecodeAble && (back.dts != frame.dts || frame.decodeAble || frame.configFrame))
      || |group| > MAX_FRAME_CACHE_SIZE
  }

  predicate WillFlush(m: Merger, frame: Option<Frame>) {
    m.cache != [] && (frame.None? || Breaks(m.mode, m.cache, m.haveDecodeAble, frame.value))
  }

  function Flush(m: Merger, frame: Option<Frame>): Merger {
    if WillFlush(m, frame) then m.(cache := [], haveDecodeAble := false) else m
  }

  function Collect(m: Merger, frame: Option<Frame>): Merger {
    match frame
    case None => m
    case Some(f) => m.(cache := m.cache + [f], haveDecodeAble := m.haveDecodeAble || f.decodeAble)
  }

  /** The group that the input completes, if any. */
  function Completed(m: Merger, frame: Option<Frame>): seq<seq<Frame>> {
    if WillFlush(m, frame) then [m.cache] else []
  }

  function InputFrame(m: Merger, frame: Option<Frame>): Merger {
    Collect(Flush(m, frame), frame)
  }

  function Final(m: Merger, inputs: seq<Option<Frame>>): Merger
    decreases |inputs|
  {
    if inputs == [] then m else Final(InputFrame(m, inputs[0]), inputs[1..])
  }

  function Groups(m: Merger, inputs: seq<Option<Frame>>): seq<seq<Frame>>
    decreases |inputs|
  {
    if inputs == [] then []
    else Completed(m, inputs[0]) + Groups(InputFrame(m, inputs[0]), inputs[1..])
  }

  function Frames(inputs: seq<Option<Frame>>): seq<Frame> {
    if inputs == [] then []
    else (if inputs[0].Some? then [inputs[0].value] else []) + Frames(inputs[1..])
  }

  function NewMerger(mode: Mode): Merger {
    Merger(mode, [], false)
  }

  // ---------------------------------------------------------------- conservation

  lemma {:induction false} RunConserves(m: Merger, inputs: seq<Option<Frame>>)
    ensures Flatten(Groups(m, inputs)) + Final(m, inputs).cache == m.cache + Frames(inputs)
    decreases |inputs|
  {
    if inputs != [] {
      var n := InputFrame(m, inputs[0]);
      RunConserves(n, inputs[1..]);
      FlattenAppend(Completed(m, inputs[0]), Groups(n, inputs[1..]));
      assert Flatten([m.cache]) == m.cache + Flatten([]);
      assert Flatten(Completed(m, inputs[0])) + n.cache == m.cache + Frames(inputs[..1]) by {
        assert inputs[..1][1..] == [];
      }
      StepConserves(Flatten(Completed(m, inputs[0])), Flatten(Groups(n, inputs[1..])), Final(m, inputs).cache,
                    n.cache, m.cache, Frames(inputs[..1]), Frames(inputs[1..]));
      assert Frames(inputs[..1]) + Frames(inputs[1..]) == Frames(inputs) by {
        assert inputs[..1][1..] == [];
      }
    }
  }

  lemma StepConserves<T>(a: seq<T>, b: seq<T>, c: seq<T>, n: seq<T>, m: seq<T>, f: seq<T>, g: seq<T>)
    requires b + c == n + g && a + n == m + f
    ensures (a + b) + c == m + (f + g)
  {
    assert (a + b) + c == a + (b + c) == a + (n + g) == (a + n) + g;
  }

  /** A final null frame leaves nothing behind. */
  lemma {:induction false} NullFlushes(m: Merger, inputs: seq<Option<Frame>>)
    requires inputs != [] && inputs[|inputs| - 1].None?
    ensures Final(m, inputs).cache == []
    decreases |inputs|
  {
    if |inputs| > 1 {
      NullFlushes(InputFrame(m, inputs[0]), inputs[1..]);
    } else {
      assert Final(m, inputs) == Final(InputFrame(m, inputs[0]), inputs[1..]) == InputFrame(m, inputs[0]);
    }
  }

  /** A run that ends with a null frame hands out exactly the frames it was given, in their order. */
  lemma RunKeepsAllFrames(mode: Mode, inputs: seq<Option<Frame>>)
    requires inputs != [] && inputs[|inputs| - 1].None?
    ensures Flatten(Groups(NewMerger(mode), inputs)) == Frames(inputs)
  {
    hide Groups, Final, Frames, Flatten;
    var m := NewMerger(mode);
    RunConserves(m, inputs);
    NullFlushes(m, inputs);
    var all := Flatten(Groups(m, inputs));
    assert all + [] == all && [] + Frames(inputs) == Frames(inputs);
  }

  // ---------------------------------------------------------------- shape of the groups

  /** No frame of the group, when it arrived, broke the group collected before it. */
  ghost predicate GroupOK(mode: Mode, g: seq<Frame>) {
    forall i | 0 < i < |g| :: !Breaks(mode, g[..i], HasDecodeAble(g[..i]), g[i])
  }

  ghost predicate Inv(m: Merger) {
    GroupOK(m.mode, m.cache) && (m.haveDecodeAble <==> HasDecodeAble(m.cache))
  }

  lemma InputKeeps(m: Merger, frame: Option<Frame>)
    requires Inv(m)
    ensures Inv(InputFrame(m, frame))
    ensures frame.Some? ==> InputFrame(m, frame).cache != []
  {
    if frame.Some? {
      var n := Flush(m, frame);
      var r := n.cache + [frame.value];
      HasDecodeAbleAppend(n.cache, frame.value);
      forall i | 0 < i < |r|
        ensures !Breaks(m.mode, r[..i], HasDecodeAble(r[..i]), r[i])
      {
        assert r[..i] == n.cache[..i];
        if i == |n.cache| {
          assert n.cache[..i] == n.cache;
        }
      }
    }
  }

  lemma HasDecodeAbleAppend(g: seq<Frame>, f: Frame)
    ensures HasDecodeAble(g + [f]) <==> HasDecodeAble(g) || f.decodeAble
  {
    if HasDecodeAble(g) {
      var i :| 0 <= i < |g| && g[i].decodeAble;
      assert (g + [f])[i].decodeAble;
    }
    if f.decodeAble {
      assert (g + [f])[|g|].decodeAble;
    }
  }

  lemma {:induction false} GroupsAreOK(m: Merger, inputs: seq<Option<Frame>>)
    requires Inv(m)
    ensures Inv(Final(m, inputs)) && Final(m, inputs).mode == m.mode
    ensures forall g | g in Groups(m, inputs) :: g != [] && GroupOK(m.mode, g)
    decreases |inputs|
  {
    hide GroupOK, HasDecodeAble;
    if inputs != [] {
      InputKeeps(m, inputs[0]);
      GroupsAreOK(InputFrame(m, inputs[0]), inputs[1..]);
    }
  }

  /** In a plain group all frames share one time stamp, and only the first may begin with a start code. */
  lemma {:induction false} PlainGroup(g: seq<Frame>, i: nat)
    requires GroupOK(Plain, g) && i < |g|
    ensures g[i].dts == g[0].dts
    ensures i > 0 && !g[i].codec.CodecOther? ==> g[i].prefix == 0
  {
    if i > 0 {
      PlainGroup(g, i - 1);
      assert !Breaks(Plain, g[..i], HasDecodeAble(g[..i]), g[i]);
      assert g[..i][|g[..i]| - 1] == g[i - 1];
    }
  }

  /** Behind the decodable frame of an H.264 group come neither decodable nor configuration frames, all of one time. */
  lemma {:induction false} DecodeAbleGroup(mode: Mode, g: seq<Frame>, d: nat, i: nat)
    requires mode.H264Prefix? || mode.Mp4NalSize?
    requires GroupOK(mode, g) && d < i < |g| && g[d].decodeAble
    ensures !g[i].decodeAble && !g[i].configFrame && g[i].dts == g[d].dts
    decreases i
  {
    if i > d + 1 {
      DecodeAbleGroup(mode, g, d, i - 1);
    }
    assert g[..i][d].decodeAble;
    assert !Breaks(mode, g[..i], HasDecodeAble(g[..i]), g[i]);
    assert g[..i][|g[..i]| - 1] == g[i - 1];
  }

  lemma GroupSize(mode: Mode, g: seq<Frame>)
    requires !mode.Unknown? && GroupOK(mode, g)
    ensures |g| <= MAX_FRAME_CACHE_SIZE + 1
  {
    if |g| > 1 {
      NotBroken(mode, g, |g| - 1);
    }
  }

  /**
   * Every group of every run, and what is still cached, is of the promised shape: at most 101 frames, one time stamp
   * in plain mode, and in the other modes at most one decodable frame with no configuration frame behind it.
   */
  lemma GroupsHaveShape(mode: Mode, inputs: seq<Option<Frame>>, g: seq<Frame>)
    requires !mode.Unknown?
    requires g in Groups(NewMerger(mode), inputs) || g == Final(NewMerger(mode), inputs).cache
    ensures |g| <= MAX_FRAME_CACHE_SIZE + 1
    ensures mode.Plain? ==> forall i | 0 <= i < |g| :: g[i].dts == g[0].dts
    ensures !mode.Plain? ==> forall d, i | 0 <= d < i < |g| && g[d].decodeAble ::
                               !g[i].decodeAble && !g[i].configFrame && g[i].dts == g[d].dts
  {
    GroupsAreOK(NewMerger(mode), inputs);
    GroupSize(mode, g);
    if mode.Plain? {
      forall i | 0 <= i < |g|
        ensures g[i].dts == g[0].dts
      {
        PlainGroup(g, i);
      }
    } else {
      forall d, i | 0 <= d < i < |g| && g[d].decodeAble
        ensures !g[i].decodeAble && !g[i].configFrame && g[i].dts == g[d].dts
      {
        DecodeAbleGroup(mode, g, d, i);
      }
    }
  }

  // ---------------------------------------------------------------- what joins a group

  /** Does the frame end the group collected so far? Written out for each mode. */
  ghost predicate Ends(mode: Mode, group: seq<Frame>, f: Frame) {
    group != [] &&
    var back := group[|group| - 1];
    match mode
    case Plain => |group| > 100 || back.dts != f.dts || (f.prefix != 0 && f.codec in {CodecH264, CodecH265})
    case Unknown => false
    case _ =>
      |group| > 100 ||
      ((exists i :: 0 <= i < |group| && group[i].decodeAble) &&
       (back.dts != f.dts || f.decodeAble || f.configFrame))
  }

  /**
   * After every run: a frame that does not end the group joins it, one that does hands the group out and starts the
   * next, and a null frame hands out what there is. So a frame of the same time that is neither decodable nor a
   * configuration frame joins its group as long as this has at most 100 frames.
   */
  lemma FramesJoin(mode: Mode, inputs: seq<Option<Frame>>, f: Frame)
    ensures var m := Final(NewMerger(mode), inputs);
            var n := InputFrame(m, Some(f));
            if Ends(mode, m.cache, f) then Completed(m, Some(f)) == [m.cache] && n.cache == [f]
            else Completed(m, Some(f)) == [] && n.cache == m.cache + [f]
    ensures var m := Final(NewMerger(mode), inputs);
            && Completed(m, None) == (if m.cache == [] then [] else [m.cache])
            && InputFrame(m, None).cache == []
  {
    hide Final, Groups, GroupOK, Ends, Breaks, HasDecodeAble;
    EmptyInv(mode);
    GroupsAreOK(NewMerger(mode), inputs);
    var m := Final(NewMerger(mode), inputs);
    if m.cache != [] {
      BreaksIsEnds(mode, m.cache, f);
    }
    EndsSomething(mode, m.cache, f);
  }

  lemma BreaksIsEnds(mode: Mode, group: seq<Frame>, f: Frame)
    requires group != []
    ensures Breaks(mode, group, HasDecodeAble(group), f) <==> Ends(mode, group, f)
  {
  }

  lemma EndsSomething(mode: Mode, group: seq<Frame>, f: Frame)
    ensures Ends(mode, group, f) ==> group != []
  {
  }

  /** In a mode that it does not know the merger emits nothing. */
  lemma UnknownEmitsNothing(f: Frame)
    requires f.Valid()
    ensures Encode(Unknown, f) == [] && Encode(Plain, f) == f.data
  {
  }

  // ---------------------------------------------------------------- the grouping is the greedy one

  /** Groups that are as long as the rules allow: each is broken by the first frame of the next. */
  ghost predicate Greedy(mode: Mode, groups: seq<seq<Frame>>) {
    && (forall i | 0 <= i < |groups| :: groups[i] != [] && GroupOK(mode, groups[i]))
    && (forall i | 0 < i < |groups| ::
          Breaks(mode, groups[i - 1], HasDecodeAble(groups[i - 1]), groups[i][0]))
  }

  function AllSome(frames: seq<Frame>): (r: seq<Option<Frame>>)
    ensures |r| == |frames|
  {
    seq(|frames|, i requires 0 <= i < |frames| => Some(frames[i]))
  }

  lemma {:induction false} RunIsGreedy(m: Merger, frames: seq<Frame>)
    requires Inv(m) && m.cache != []
    ensures Inv(Final(m, AllSome(frames))) && Final(m, AllSome(frames)).cache != []
    ensures var all := Groups(m, AllSome(frames)) + [Final(m, AllSome(frames)).cache];
            Greedy(m.mode, all) && m.cache <= all[0]
    decreases |frames|
  {
    hide Greedy, Inv, InputFrame, Completed;
    if frames != [] {
      var inputs := AllSome(frames);
      var n := InputFrame(m, inputs[0]);
      assert inputs[0] == Some(frames[0]) && inputs[1..] == AllSome(frames[1..]);
      InputKeeps(m, inputs[0]);
      ModeKept(m, inputs[0]);
      RunIsGreedy(n, frames[1..]);
      var rest := Groups(n, inputs[1..]) + [Final(n, inputs[1..]).cache];
      ConcatAssociates(Completed(m, inputs[0]), Groups(n, inputs[1..]), [Final(n, inputs[1..]).cache]);
      GroupBefore(m, frames[0], rest);
    } else {
      OneGroup(m);
      assert Groups(m, AllSome(frames)) + [m.cache] == [m.cache];
    }
  }

  lemma ModeKept(m: Merger, frame: Option<Frame>)
    ensures InputFrame(m, frame).mode == m.mode
  {
  }

  lemma OneGroup(m: Merger)
    requires Inv(m) && m.cache != []
    ensures Greedy(m.mode, [m.cache])
  {
  }

  /** The groups that follow an input, with the group that the input completed. */
  lemma GroupBefore(m: Merger, frame: Frame, rest: seq<seq<Frame>>)
    requires Inv(m) && m.cache != [] && rest != []
    requires Greedy(m.mode, rest) && InputFrame(m, Some(frame)).cache <= rest[0]
    ensures var all := Completed(m, Some(frame)) + rest;
            all != [] && Greedy(m.mode, all) && m.cache <= all[0]
  {
    hide GroupOK, HasDecodeAble, Breaks;
    if WillFlush(m, Some(frame)) {
      assert InputFrame(m, Some(frame)).cache == [frame];
      assert rest[0][0] == frame;
      var all := [m.cache] + rest;
      forall i | 0 < i < |all|
        ensures Breaks(m.mode, all[i - 1], HasDecodeAble(all[i - 1]), all[i][0])
      {
        if i > 1 {
          assert all[i] == rest[i - 1] && all[i - 1] == rest[i - 1 - 1];
        }
      }
    } else {
      assert Completed(m, Some(frame)) + rest == rest;
      assert InputFrame(m, Some(frame)).cache == m.cache + [frame];
    }
  }

  lemma NothingFromNothing(groups: seq<seq<Frame>>)
    requires forall i | 0 <= i < |groups| :: groups[i] != []
    ensures groups != [] ==> Flatten(groups) != []
  {
    assert groups != [] ==> groups[0] != [];
  }

  /** There is only one greedy grouping of the same frames. */
  lemma {:induction false} GreedyIsUnique(mode: Mode, a: seq<seq<Frame>>, b: seq<seq<Frame>>)
    requires Greedy(mode, a) && Greedy(mode, b) && Flatten(a) == Flatten(b)
    ensures a == b
    decreases |a|
  {
    NothingFromNothing(a);
    NothingFromNothing(b);
    if a != [] && b != [] {
      NotShorter(mode, a, b);
      NotShorter(mode, b, a);
      assert a[0] == Flatten(a)[..|a[0]|] && b[0] == Flatten(b)[..|b[0]|];
      assert Flatten(a[1..]) == Flatten(a)[|a[0]|..] && Flatten(b[1..]) == Flatten(b)[|b[0]|..];
      GreedyTail(mode, a);
      GreedyTail(mode, b);
      GreedyIsUnique(mode, a[1..], b[1..]);
      assert a == [a[0]] + a[1..] && b == [b[0]] + b[1..];
    }
  }

  lemma GreedyTail(mode: Mode, a: seq<seq<Frame>>)
    requires Greedy(mode, a) && a != []
    ensures Greedy(mode, a[1..])
  {
    hide GroupOK, HasDecodeAble, Breaks;
    var t := a[1..];
    forall i | 0 < i < |t|
      ensures Breaks(mode, t[i - 1], HasDecodeAble(t[i - 1]), t[i][0])
    {
      assert t[i - 1] == a[i] && t[i] == a[i + 1];
      assert Breaks(mode, a[i + 1 - 1], HasDecodeAble(a[i + 1 - 1]), a[i + 1][0]);
    }
  }

  lemma NotShorter(mode: Mode, a: seq<seq<Frame>>, b: seq<seq<Frame>>)
    requires Greedy(mode, a) && Greedy(mode, b) && Flatten(a) == Flatten(b) && a != [] && b != []
    ensures |a[0]| >= |b[0]|
  {
    hide Breaks, HasDecodeAble;
    var k := |a[0]|;
    if k < |b[0]| {
      GroupStarts(b, k);
      NotBroken(mode, b[0], k);
      SecondGroupStarts(a);
      assert false;
    }
  }

  lemma GroupStarts(b: seq<seq<Frame>>, k: nat)
    requires b != [] && k < |b[0]|
    ensures k < |Flatten(b)| && Flatten(b)[..k] == b[0][..k] && Flatten(b)[k] == b[0][k]
  {
  }

  lemma NotBroken(mode: Mode, g: seq<Frame>, k: nat)
    requires GroupOK(mode, g) && 0 < k < |g|
    ensures !Breaks(mode, g[..k], HasDecodeAble(g[..k]), g[k])
  {
  }

  lemma SecondGroupStarts(a: seq<seq<Frame>>)
    requires a != [] && |Flatten(a)| > |a[0]| && forall i | 0 <= i < |a| :: a[i] != []
    ensures |a| > 1 && Flatten(a)[..|a[0]|] == a[0] && Flatten(a)[|a[0]|] == a[1][0]
  {
    var k := |a[0]|;
    assert Flatten(a)[k..] == Flatten(a[1..]);
    assert |a| > 1;
    assert a[1..][0] == a[1];
    assert Flatten(a)[k] == Flatten(a[1..])[0];
  }

  /** Frames followed by a null frame come out in the greedy grouping: the one and only. */
  lemma RunMakesGreedyGroups(mode: Mode, frames: seq<Frame>)
    requires frames != []
    ensures var groups := Groups(NewMerger(mode), AllSome(frames) + [None]);
            Greedy(mode, groups) && Flatten(groups) == frames
  {
    hide GroupOK, HasDecodeAble;
    var m := NewMerger(mode);
    var inputs := AllSome(frames);
    var n := InputFrame(m, inputs[0]);
    assert n.cache == [frames[0]];
    InputKeeps(m, inputs[0]) by {
      EmptyInv(mode);
    }
    RunIsGreedy(n, frames[1..]);
    assert inputs[1..] == AllSome(frames[1..]);
    assert Groups(m, inputs) == Groups(n, inputs[1..]) && Final(m, inputs) == Final(n, inputs[1..]);
    RunAppends(m, inputs, None);
    var groups := Groups(m, inputs + [None]);
    assert groups == Groups(n, inputs[1..]) + [Final(n, inputs[1..]).cache];
    RunKeepsAllFrames(mode, inputs + [None]);
    FramesOfAllSome(frames);
  }

  lemma EmptyInv(mode: Mode)
    ensures Inv(NewMerger(mode))
  {
  }

  lemma {:induction false} RunAppends(m: Merger, inputs: seq<Option<Frame>>, last: Option<Frame>)
    ensures Groups(m, inputs + [last]) == Groups(m, inputs) + Completed(Final(m, inputs), last)
    ensures Final(m, inputs + [last]) == InputFrame(Final(m, inputs), last)
    decreases |inputs|
  {
    var all := inputs + [last];
    if inputs == [] {
      assert all[1..] == [];
    } else {
      assert all[1..] == inputs[1..] + [last] && all[0] == inputs[0];
      RunAppends(InputFrame(m, inputs[0]), inputs[1..], last);
    }
  }

  lemma {:induction false} FramesOfAllSome(frames: seq<Frame>)
    ensures Frames(AllSome(frames) + [None]) == frames
    decreases |frames|
  {
    var inputs := AllSome(frames) + [None];
    if frames == [] {
      assert inputs[1..] == [];
    } else {
      assert inputs[1..] == AllSome(frames[1..]) + [None];
      FramesOfAllSome(frames[1..]);
    }
  }

  // ---------------------------------------------------------------- encoding

  /** A 32-bit length in network byte order. */
  function BigEndian(n: nat): (r: seq<Byte>)
    requires n < 0x1_0000_0000
    ensures |r| == 4
  {
    [n / 0x100_0000, n / 0x1_0000 % 0x100, n / 0x100 % 0x100, n % 0x100]
  }

  function FromBigEndian(b: seq<Byte>): nat
    requires |b| == 4
  {
    var w: int, x: int, y: int, z: int := b[0], b[1], b[2], b[3];
    ((w * 0x100 + x) * 0x100 + y) * 0x100 + z
  }

  lemma BigEndianReadsBack(n: nat)
    requires n < 0x1_0000_0000
    ensures FromBigEndian(BigEndian(n)) == n
  {
    assert n / 0x1_0000 == n / 0x100 / 0x100 && n / 0x100_0000 == n / 0x100 / 0x100 / 0x100;
  }

  function Encode(mode: Mode, f: Frame): seq<Byte>
    requires f.Valid()
  {
    match mode
    case Plain => f.data
    case H264Prefix => if f.prefix != 0 then f.data else [0, 0, 0, 1] + f.data
    case Mp4NalSize => BigEndian(|f.data| - f.prefix) + f.Payload()
    case Unknown => []
  }

  ghost predicate AllValid(frames: seq<Frame>) {
    forall f | f in frames :: f.Valid()
  }

  function EncodeAll(mode: Mode, frames: seq<Frame>): seq<Byte>
    requires AllValid(frames)
  {
    if frames == [] then [] else Encode(mode, frames[0]) + EncodeAll(mode, frames[1..])
  }

  lemma {:induction false} EncodeAppends(mode: Mode, a: seq<Frame>, b: seq<Frame>)
    requires AllValid(a) && AllValid(b)
    ensures AllValid(a + b) && EncodeAll(mode, a + b) == EncodeAll(mode, a) + EncodeAll(mode, b)
  {
    hide Encode;
    if a == [] {
      assert a + b == b;
    } else {
      EncodeAppends(mode, a[1..], b);
      assert (a + b)[1..] == a[1..] + b && (a + b)[0] == a[0];
      ConcatAssociates(Encode(mode, a[0]), EncodeAll(mode, a[1..]), EncodeAll(mode, b));
    }
  }

  ghost predicate GroupsValid(groups: seq<seq<Frame>>) {
    forall g | g in groups :: AllValid(g)
  }

  /** What the callbacks of a run are given, put together. */
  function Emitted(mode: Mode, groups: seq<seq<Frame>>): seq<Byte>
    requires GroupsValid(groups)
  {
    if groups == [] then [] else EncodeAll(mode, groups[0]) + Emitted(mode, groups[1..])
  }

  lemma {:induction false} EmittedIsEncoded(mode: Mode, groups: seq<seq<Frame>>)
    requires AllValid(Flatten(groups))
    ensures GroupsValid(groups) && Emitted(mode, groups) == EncodeAll(mode, Flatten(groups))
  {
    if groups != [] {
      var rest := Flatten(groups[1..]);
      forall f | f in groups[0] || f in rest
        ensures f in Flatten(groups)
      {
      }
      EmittedIsEncoded(mode, groups[1..]);
      EncodeAppends(mode, groups[0], rest);
    }
  }

  /** Nothing is lost, duplicated or reordered: a run that ends with a null frame emits the encodings of its inputs. */
  lemma RunEmitsAllFrames(mode: Mode, inputs: seq<Option<Frame>>)
    requires inputs != [] && inputs[|inputs| - 1].None? && AllValid(Frames(inputs))
    ensures var groups := Groups(NewMerger(mode), inputs);
            GroupsValid(groups) && Emitted(mode, groups) == EncodeAll(mode, Frames(inputs))
  {
    hide Groups, Final, Frames, EncodeAll, Emitted, Flatten;
    RunKeepsAllFrames(mode, inputs);
    EmittedIsEncoded(mode, Groups(NewMerger(mode), inputs));
  }

  // ---------------------------------------------------------------- reading the output back

  function Parse(b: seq<Byte>): Option<seq<seq<Byte>>>
    decreases |b|
  {
    if b == [] then Some([])
    else if |b| < 4 || 4 + FromBigEndian(b[..4]) > |b| then None
    else
      var n := FromBigEndian(b[..4]);
      match Parse(b[4 + n..])
      case None => None
      case Some(rest) => Some([b[4..4 + n]] + rest)
  }

  function Payloads(frames: seq<Frame>): (r: seq<seq<Byte>>)
    requires AllValid(frames)
    ensures |r| == |frames| && forall i | 0 <= i < |r| :: r[i] == frames[i].Payload()
  {
    seq(|frames|, i requires 0 <= i < |frames| => frames[i].Payload())
  }

  /** A reader that follows the lengths finds exactly the payloads. */
  lemma {:induction false} LengthsReadBack(frames: seq<Frame>)
    requires AllValid(frames)
    ensures Parse(EncodeAll(Mp4NalSize, frames)) == Some(Payloads(frames))
  {
    hide BigEndian, FromBigEndian;
    if frames != [] {
      var n := |frames[0].data| - frames[0].prefix;
      var rest := EncodeAll(Mp4NalSize, frames[1..]);
      LengthsReadBack(frames[1..]);
      assert |frames[0].Payload()| == n;
      ParseOne(n, frames[0].Payload(), rest);
      ConcatAssociates(BigEndian(n), frames[0].Payload(), rest);
      assert Payloads(frames) == [frames[0].Payload()] + Payloads(frames[1..]);
    }
  }

  lemma ParseOne(n: nat, payload: seq<Byte>, rest: seq<Byte>)
    requires |payload| == n < 0x1_0000_0000 && Parse(rest).Some?
    ensures Parse(BigEndian(n) + (payload + rest)) == Some([payload] + Parse(rest).value)
  {
    var b := BigEndian(n) + (payload + rest);
    BigEndianReadsBack(n);
    assert b[..4] == BigEndian(n);
    assert b[4..4 + n] == payload && b[4 + n..] == rest;
  }

  // ---------------------------------------------------------------- split, then merge

  /** The frames hold the segments of the split input. */
  ghost predicate FramesOf(s: seq<Byte>, segments: seq<H264.Segment>, frames: seq<Frame>) {
    && H264.InBounds(s, segments) && AllValid(frames) && |frames| == |segments|
    && forall k | 0 <= k < |frames| :: frames[k].data == H264.Data(s, segments[k])
  }

  lemma {:induction false} PlainEncodingConcatenates(s: seq<Byte>, segments: seq<H264.Segment>, frames: seq<Frame>)
    requires FramesOf(s, segments, frames)
    ensures EncodeAll(Plain, frames) == Flatten(H264.Pieces(s, segments))
    decreases |frames|
  {
    if frames != [] {
      PlainEncodingConcatenates(s, segments[1..], frames[1..]);
      assert H264.Pieces(s, segments)[1..] == H264.Pieces(s, segments[1..]);
    }
  }

  /** Splitting a stream and feeding the pieces to a plain merger gives the stream back, byte for byte. */
  lemma SplitThenMerge(s: seq<Byte>, prefix: nat, frames: seq<Frame>)
    requires prefix <= |s| && FramesOf(s, H264.Segments(s, prefix), frames)
    ensures var groups := Groups(NewMerger(Plain), AllSome(frames) + [None]);
            GroupsValid(groups) && Emitted(Plain, groups) == s
  {
    FramesOfAllSome(frames);
    RunEmitsAllFrames(Plain, AllSome(frames) + [None]);
    PlainEncodingConcatenates(s, H264.Segments(s, prefix), frames);
    H264.SegmentsPartitionInput(s, prefix);
  }
}
