/** What every reachable dispatcher state satisfies, and that pops and making room keep it. */
module DispatcherInvariant {
  import opened Media
  import opened DispatcherSpec

  ghost predicate ConfigOK(cfg: Config) {
    INITIAL_BUFFER_CAPACITY <= cfg.maxCapacity < 0x8000_0000 && cfg.increment < UINT32
  }

  ghost predicate SizingOK(z: Sizing, cfg: Config, size: nat) {
    && INITIAL_BUFFER_CAPACITY <= z.base <= cfg.maxCapacity
    && INITIAL_BUFFER_CAPACITY <= z.capacity <= cfg.maxCapacity
    && size <= z.capacity
  }

  ghost predicate CountersOK(q: Queue) {
    q.audioCnt == CountAudio(q.frames) && q.videoCnt == |q.frames| - CountAudio(q.frames)
  }

  /** keyIndexList_ is increasing, names key frames only, and ends at the last key frame. */
  ghost predicate KeysOK(frames: seq<DataSpec>, keys: seq<nat>) {
    && (forall i, j | 0 <= i < j < |keys| :: keys[i] < keys[j])
    && (forall i | 0 <= i < |keys| :: keys[i] < |frames| && IsKeyVideo(frames[keys[i]].media))
    && (forall p | 0 <= p < |frames| && IsKeyVideo(frames[p].media) :: keys != [] && p <= keys[|keys| - 1])
  }

  ghost predicate Ordered(frames: seq<DataSpec>) {
    forall i, j | 0 <= i < j < |frames| :: frames[i].seqNo < frames[j].seqNo
  }

  ghost predicate Before(frames: seq<DataSpec>, next: nat) {
    forall i | 0 <= i < |frames| :: frames[i].seqNo < next
  }

  ghost predicate ReserveOK(frames: seq<DataSpec>) {
    forall i, b | 0 <= i < |frames| && b in frames[i].reserve :: b < MAX_RECEIVER_SIZE
  }

  /** A position, the invalid index, or the 0 that an index keeps while its frame is being popped. */
  predicate Clamped(index: nat, size: nat) {
    index == INVALID_INDEX || index < size || index == 0
  }

  ghost predicate NotifiersClamped(ns: Notifiers, size: nat) {
    forall id | id in ns :: Clamped(ns[id].audioIndex, size) && Clamped(ns[id].videoIndex, size)
  }

  ghost predicate IndicesClamped(q: Queue) {
    && Clamped(q.lastAudio, |q.frames|) && Clamped(q.lastVideo, |q.frames|)
    && NotifiersClamped(q.notifiers, |q.frames|)
  }

  ghost predicate AllInvalid(q: Queue) {
    && q.lastAudio == q.lastVideo == INVALID_INDEX
    && forall id | id in q.notifiers :: q.notifiers[id].audioIndex == q.notifiers[id].videoIndex == INVALID_INDEX
  }

  /** lastAudioIndex_ and lastVideoIndex_ name the last frame of their kind whenever one is buffered. */
  ghost predicate LastOK(frames: seq<DataSpec>, last: nat, audio: bool) {
    forall p | 0 <= p < |frames| && IsAudio(frames[p].media) == audio ::
      p <= last < |frames| && IsAudio(frames[last].media) == audio
  }

  /** Live receivers own distinct slots, and the free slots are silent. */
  ghost predicate SlotsOK(ns: Notifiers, refs: Refs) {
    && (forall id | id in ns :: ns[id].readIndex < MAX_RECEIVER_SIZE)
    && (forall a, b | a in ns && b in ns && a != b :: ns[a].readIndex != ns[b].readIndex)
    && refs.readRef == (set id | id in ns :: ns[id].readIndex)
    && (forall b | b in refs.recvRef :: b / 2 in refs.readRef)
  }

  /** What single pops keep. */
  ghost predicate QueueOK(q: Queue) {
    && |q.frames| <= INVALID_INDEX
    && KeysOK(q.frames, q.keys)
    && Ordered(q.frames)
    && ReserveOK(q.frames)
    && IndicesClamped(q)
    && LastOK(q.frames, q.lastAudio, true)
    && LastOK(q.frames, q.lastVideo, false)
    && CountersOK(q)
  }

  /** An index is invalid or names a buffered frame, except that pops may leave a 0 behind. */
  ghost predicate Inv(s: State) {
    && ConfigOK(s.cfg)
    && SizingOK(s.z, s.cfg, |s.q.frames|)
    && QueueOK(s.q)
    && Before(s.q.frames, s.nextSeq)
    && SlotsOK(s.q.notifiers, s.refs)
    && (s.q.frames == [] ==> AllInvalid(s.q))
  }

  // ---------------------------------------------------------------- pops

  lemma ShiftKeysValues(keys: seq<nat>)
    requires forall i, j | 0 <= i < j < |keys| :: keys[i] < keys[j]
    ensures var drop := if keys != [] && keys[0] == 0 then 1 else 0;
            |ShiftKeys(keys)| == |keys| - drop &&
            forall i | 0 <= i < |keys| - drop :: ShiftKeys(keys)[i] == keys[i + drop] - 1
  {
    if keys != [] {
      assert forall i | 0 < i < |keys| :: keys[0] < keys[i];
    }
  }

  lemma ShiftKeysKeeps(frames: seq<DataSpec>, keys: seq<nat>)
    requires frames != [] && KeysOK(frames, keys)
    ensures KeysOK(frames[1..], ShiftKeys(keys))
  {
    ShiftKeysValues(keys);
    var out := ShiftKeys(keys);
    var drop := |keys| - |out|;
    forall i | 0 <= i < |out|
      ensures out[i] < |frames| - 1 && IsKeyVideo(frames[1..][out[i]].media)
    {
      assert frames[1..][out[i]] == frames[keys[i + drop]];
    }
    forall p | 0 <= p < |frames| - 1 && IsKeyVideo(frames[1..][p].media)
      ensures out != [] && p <= out[|out| - 1]
    {
      assert IsKeyVideo(frames[p + 1].media);
      assert keys[|keys| - 1] >= p + 1;
    }
  }

  lemma PopKeepsLast(frames: seq<DataSpec>, last: nat, audio: bool)
    requires frames != [] && |frames| <= INVALID_INDEX && LastOK(frames, last, audio)
    ensures LastOK(frames[1..], Dec(last), audio)
  {
    forall p | 0 <= p < |frames| - 1 && IsAudio(frames[1..][p].media) == audio
      ensures p <= Dec(last) < |frames| - 1 && IsAudio(frames[1..][Dec(last)].media) == audio
    {
      assert IsAudio(frames[p + 1].media) == audio;
      assert p + 1 <= last < |frames|;
    }
  }

  lemma PopKeepsFrames(frames: seq<DataSpec>)
    requires frames != [] && Ordered(frames) && ReserveOK(frames)
    ensures Ordered(frames[1..]) && ReserveOK(frames[1..])
  {
    assert forall i | 0 <= i < |frames| - 1 :: frames[1..][i] == frames[i + 1];
  }

  lemma PopKeepsIndices(q: Queue, audio: bool)
    requires q.frames != [] && |q.frames| <= INVALID_INDEX && IndicesClamped(q)
    ensures IndicesClamped(PopAs(q, audio))
  {
    var t := PopAs(q, audio);
    assert forall id | id in t.notifiers :: t.notifiers[id] == DecNotifier(q.notifiers[id]);
  }

  lemma PopKeepsCounters(q: Queue)
    requires q.frames != [] && CountersOK(q)
    ensures CountersOK(PopHead(q))
  {
    CountAudioBound(q.frames[1..]);
  }

  lemma PopKeeps(q: Queue)
    requires q.frames != [] && QueueOK(q)
    ensures QueueOK(PopHead(q))
  {
    PopKeepsCounters(q);
    hide CountersOK;
    ShiftKeysKeeps(q.frames, q.keys);
    PopKeepsLast(q.frames, q.lastAudio, true);
    PopKeepsLast(q.frames, q.lastVideo, false);
    PopKeepsFrames(q.frames);
    PopKeepsIndices(q, IsAudio(q.frames[0].media));
  }

  lemma {:induction false} PopHeadsKeeps(q: Queue, n: nat)
    requires QueueOK(q)
    ensures QueueOK(PopHeads(q, n))
    decreases n
  {
    hide QueueOK, PopAs;
    if n > 0 && q.frames != [] {
      PopKeeps(q);
      PopHeadsKeeps(PopHead(q), n - 1);
    }
  }

  lemma {:induction false} PopHeadsFrames(q: Queue, n: nat)
    ensures PopHeads(q, n).frames == q.frames[Min(n, |q.frames|)..]
    decreases n
  {
    hide PopAs;
    if n > 0 && q.frames != [] {
      HeadGone(q);
      PopHeadsFrames(PopHead(q), n - 1);
    }
  }

  /** Same receivers in the same slots. */
  ghost predicate SameSlots(a: Notifiers, b: Notifiers) {
    a.Keys == b.Keys && forall id | id in a :: a[id].readIndex == b[id].readIndex
  }

  lemma {:induction false} PopHeadsSlots(q: Queue, n: nat)
    ensures SameSlots(q.notifiers, PopHeads(q, n).notifiers)
    decreases n
  {
    if n > 0 && q.frames != [] {
      PopHeadsSlots(PopHead(q), n - 1);
    }
  }

  lemma SameSlotsKeeps(a: Notifiers, b: Notifiers, refs: Refs)
    requires SlotsOK(a, refs) && SameSlots(a, b)
    ensures SlotsOK(b, refs)
  {
    assert (set id | id in a :: a[id].readIndex) == set id | id in b :: b[id].readIndex;
  }

  /** On an all-audio buffer the untyped decrement of the restore loop charges the right counter. */
  lemma {:induction false} PopAudiosIsPopHeads(q: Queue, n: nat)
    requires forall i | 0 <= i < |q.frames| :: IsAudio(q.frames[i].media)
    ensures PopAudios(q, n) == PopHeads(q, n)
    decreases n
  {
    if n > 0 && q.frames != [] {
      assert forall i | 0 <= i < |q.frames| - 1 :: q.frames[1..][i] == q.frames[i + 1];
      PopAudiosIsPopHeads(PopHead(q), n - 1);
    }
  }

  lemma HeadGone(q: Queue)
    requires q.frames != []
    ensures PopHead(q).frames == q.frames[1..]
  {
  }

  lemma {:induction false} DeleteLoopIsPopHeads(q: Queue, readRef: set<nat>, n: nat, force: bool) returns (k: nat)
    ensures k <= n && k <= |q.frames| && DeleteLoop(q, readRef, n, force) == PopHeads(q, k)
    ensures force ==> k == Min(n, |q.frames|)
    ensures !force ==> forall i | 0 <= i < k :: q.frames[i].reserve == readRef
    ensures !force && k < n && k < |q.frames| ==> q.frames[k].reserve != readRef
    decreases n
  {
    hide PopAs;
    if n == 0 || (HeadNeedReserve(q, readRef) && !force) || q.frames == [] {
      k := 0;
    } else {
      var t := PopHead(q);
      HeadGone(q);
      var m := DeleteLoopIsPopHeads(t, readRef, n - 1, force);
      k := m + 1;
      assert PopHeads(q, k) == PopHeads(t, m);
      forall i | 0 <= i < k && !force
        ensures q.frames[i].reserve == readRef
      {
        if i > 0 { assert q.frames[i] == t.frames[i - 1]; }
      }
      assert k < |q.frames| ==> q.frames[k] == t.frames[m];
    }
  }

  // ---------------------------------------------------------------- making room

  /** The queue of `t` is that of `s` after some pops. */
  ghost predicate Shortened(s: State, t: State) {
    && QueueOK(t.q) && SameSlots(s.q.notifiers, t.q.notifiers)
    && |t.q.frames| <= |s.q.frames|
    && t.q.frames == s.q.frames[|s.q.frames| - |t.q.frames|..]
  }

  /** Only the queue and the sizing differ. */
  ghost predicate SameRest(s: State, t: State) {
    && t.cfg == s.cfg && t.nextSeq == s.nextSeq && t.refs == s.refs && t.keyOnly == s.keyOnly
    && t.waitingKey == s.waitingKey && t.redirect == s.redirect && t.rapid == s.rapid
    && t.audioNeedActivate == s.audioNeedActivate && t.videoNeedActivate == s.videoNeedActivate
    && t.z.baseCounter == s.z.baseCounter && t.z.evaluating == s.z.evaluating && t.z.gop == s.z.gop
  }

  ghost predicate Sized(s: State) {
    ConfigOK(s.cfg) && SizingOK(s.z, s.cfg, |s.q.frames|)
  }

  lemma ExtendKeeps(s: State)
    requires Sized(s)
    ensures var t := Extend(s); Sized(t) && SameRest(s, t) && t.q == s.q && t.z.capacity >= s.z.capacity
  {
  }

  /** The restore loop pops audio frames only, because the audio count has reached the capacity. */
  lemma RestoreKeeps(s: State)
    requires Sized(s) && QueueOK(s.q)
    ensures NeedRestore(s) ==> forall i | 0 <= i < |s.q.frames| :: IsAudio(s.q.frames[i].media)
    ensures var t := Restore(s); Sized(t) && SameRest(s, t) && Shortened(s, t)
  {
    if NeedRestore(s) {
      CountAudioBound(s.q.frames);
      var n := Excess(|s.q.frames|);
      PopAudiosIsPopHeads(s.q, n);
      PopHeadsKeeps(s.q, n);
      PopHeadsFrames(s.q, n);
      PopHeadsSlots(s.q, n);
    }
  }

  lemma DeleteLoopKeeps(q: Queue, readRef: set<nat>, n: nat, force: bool) returns (k: nat)
    requires QueueOK(q)
    ensures k <= n && k <= |q.frames|
    ensures force ==> k == Min(n, |q.frames|)
    ensures !force ==> forall i | 0 <= i < k :: q.frames[i].reserve == readRef
    ensures !force && k < n && k < |q.frames| ==> q.frames[k].reserve != readRef
    ensures var t := DeleteLoop(q, readRef, n, force);
            QueueOK(t) && SameSlots(q.notifiers, t.notifiers) && t.frames == q.frames[k..]
  {
    k := DeleteLoopIsPopHeads(q, readRef, n, force);
    PopHeadsKeeps(q, k);
    PopHeadsFrames(q, k);
    PopHeadsSlots(q, k);
  }

  lemma ShrunkOK(z: Sizing, cfg: Config, before: Queue, after: Queue, n: nat)
    requires SizingOK(z, cfg, |before.frames|) && |after.frames| <= |before.frames|
    ensures var y := Shrunk(z, before, after, n);
            && SizingOK(y, cfg, |after.frames|)
            && y.baseCounter == z.baseCounter && y.evaluating == z.evaluating && y.gop == z.gop
  {
  }

  lemma DeleteHeadsParts(s: State, n: nat, force: bool)
    ensures var t := DeleteHeads(s, n, force);
            && t.q == DeleteLoop(s.q, s.refs.readRef, n, force) && t.z == Shrunk(s.z, s.q, t.q, n)
            && t.cfg == s.cfg && SameRest(s, t)
  {
  }

  lemma DeleteHeadsKeeps(s: State, n: nat, force: bool) returns (k: nat)
    requires Sized(s) && QueueOK(s.q)
    ensures k <= n && k <= |s.q.frames|
    ensures force ==> k == Min(n, |s.q.frames|)
    ensures !force ==> forall i | 0 <= i < k :: s.q.frames[i].reserve == s.refs.readRef
    ensures !force && k < n && k < |s.q.frames| ==> s.q.frames[k].reserve != s.refs.readRef
    ensures var t := DeleteHeads(s, n, force);
            && Sized(t) && SameRest(s, t) && QueueOK(t.q) && SameSlots(s.q.notifiers, t.q.notifiers)
            && t.q.frames == s.q.frames[k..]
  {
    DeleteHeadsParts(s, n, force);
    k := DeleteLoopKeeps(s.q, s.refs.readRef, n, force);
    ShrunkOK(s.z, s.cfg, s.q, DeleteHeads(s, n, force).q, n);
    hide QueueOK, SameSlots, DeleteLoop, Shrunk, SizingOK, SameRest, DeleteHeads;
  }

  lemma {:induction false} FirstVideoFromSpec(frames: seq<DataSpec>, i: nat)
    requires i <= |frames|
    ensures var r := FirstVideoFrom(frames, i);
            && i <= r <= |frames|
            && (r < |frames| ==> IsVideo(frames[r].media))
            && forall j | i <= j < r :: !IsVideo(frames[j].media)
    decreases |frames| - i
  {
    if i < |frames| && !IsVideo(frames[i].media) {
      FirstVideoFromSpec(frames, i + 1);
    }
  }

  lemma FlushKeeps(s: State)
    requires Sized(s)
    ensures var t := Flush(s);
            Sized(t) && QueueOK(t.q) && AllInvalid(t.q) && SameSlots(s.q.notifiers, t.q.notifiers)
  {
  }

  ghost predicate IsLastKey(frames: seq<DataSpec>, p: nat) {
    && p < |frames| && IsKeyVideo(frames[p].media)
    && forall i | p < i < |frames| :: !IsKeyVideo(frames[i].media)
  }

  ghost predicate HasVideo(frames: seq<DataSpec>) {
    exists p :: 0 <= p < |frames| && IsVideo(frames[p].media)
  }

  /**
   * The polite deletion stops at the last key frame or at the first frame that is not marked by exactly the live
   * receivers, whichever comes first, and nowhere before; without a key frame it takes nothing.
   */
  lemma PoliteDeletion(s: State) returns (a: nat)
    requires Sized(s) && QueueOK(s.q)
    ensures var t := ErasePolitely(s);
            && Sized(t) && SameRest(s, t) && QueueOK(t.q) && SameSlots(s.q.notifiers, t.q.notifiers)
            && a <= |s.q.frames| && t.q.frames == s.q.frames[a..]
    ensures a > 0 ==> s.q.keys != [] && a <= s.q.keys[|s.q.keys| - 1]
    ensures forall i | 0 <= i < a :: s.q.frames[i].reserve == s.refs.readRef
    ensures forall p | IsLastKey(s.q.frames, p) :: a == p || (a < p && s.q.frames[a].reserve != s.refs.readRef)
  {
    var k := LastKey(s.q.keys);
    var u := s.(q := s.q.(keys := if k > 0 then [k] else s.q.keys));
    assert QueueOK(u.q);
    a := DeleteHeadsKeeps(u, k, false);
    forall p | IsLastKey(s.q.frames, p)
      ensures p == k
    {
      LastKeyListed(s.q, p);
    }
    hide QueueOK, Sized, SameRest, SameSlots, IsLastKey, DeleteHeads;
  }

  lemma LastKeyListed(q: Queue, p: nat)
    requires QueueOK(q) && IsLastKey(q.frames, p)
    ensures p == LastKey(q.keys)
  {
    assert p <= q.keys[|q.keys| - 1];
  }

  lemma NextDeleteVideoSpec(frames: seq<DataSpec>)
    ensures var v := NextDeleteVideo(frames);
            && v <= |frames|
            && (forall i | 0 <= i < v :: !IsVideo(frames[i].media))
            && (if HasVideo(frames) then v < |frames| && IsVideo(frames[v].media) else v == 0)
  {
    FirstVideoFromSpec(frames, 0);
  }

  /** The forced deletion removes what precedes the first video frame. */
  lemma ForcedDeletion(t: State) returns (b: nat)
    requires Sized(t) && QueueOK(t.q)
    ensures b <= |t.q.frames| && EraseToVideo(t).q.frames == t.q.frames[b..]
    ensures forall i | 0 <= i < b :: !IsVideo(t.q.frames[i].media)
    ensures if HasVideo(t.q.frames) then b < |t.q.frames| && IsVideo(t.q.frames[b].media) else b == 0
  {
    hide QueueOK, SameSlots, Sized, SameRest, DeleteHeads, NextDeleteVideo, HasVideo, IsVideo;
    NextDeleteVideoSpec(t.q.frames);
    b := DeleteHeadsKeeps(t, NextDeleteVideo(t.q.frames), true);
  }

  lemma ForcedDeletionKeeps(t: State)
    requires Sized(t) && QueueOK(t.q)
    ensures var u := EraseToVideo(t);
            Sized(u) && SameRest(t, u) && QueueOK(u.q) && SameSlots(t.q.notifiers, u.q.notifiers)
  {
    hide QueueOK, SameSlots, Sized, SameRest, DeleteHeads, NextDeleteVideo;
    var b := DeleteHeadsKeeps(t, NextDeleteVideo(t.q.frames), true);
  }

  lemma EraseOldGopKeeps(s: State)
    requires Sized(s) && QueueOK(s.q) && s.cfg.mode != AudioOnly
    ensures var t := EraseOldGop(s);
            Sized(t) && SameRest(s, t) && QueueOK(t.q) && SameSlots(s.q.notifiers, t.q.notifiers)
  {
    var a := PoliteDeletion(s);
    ForcedDeletionKeeps(ErasePolitely(s));
  }

  /**
   * Erasing old groups of pictures pops the frames before position `a + b`. The first `a` of them lie before
   * the last key frame and are reserved by exactly the live receivers, and the one behind them is that key frame
   * or is not; the other `b` are not video. A video frame is left at the head whenever one is buffered; otherwise
   * nothing is erased.
   */
  lemma EraseOldGopPops(s: State) returns (a: nat, b: nat)
    requires Sized(s) && QueueOK(s.q) && s.cfg.mode != AudioOnly
    ensures a + b <= |s.q.frames| && EraseOldGop(s).q.frames == s.q.frames[a + b..]
    ensures HasVideo(s.q.frames) ==> a + b < |s.q.frames| && IsVideo(s.q.frames[a + b].media)
    ensures !HasVideo(s.q.frames) ==> a + b == 0
    ensures a > 0 ==> exists p :: IsLastKey(s.q.frames, p)
    ensures forall p: nat | IsLastKey(s.q.frames, p) ::
              a + b <= p && (a == p || s.q.frames[a].reserve != s.refs.readRef)
    ensures forall i | 0 <= i < a :: s.q.frames[i].reserve == s.refs.readRef
    ensures forall i | a <= i < a + b :: !IsVideo(s.q.frames[i].media)
  {
    hide QueueOK, SameSlots, Sized, SameRest, ErasePolitely, EraseToVideo, HasVideo, KeysOK, IsLastKey, IsVideo;
    a := PoliteDeletion(s);
    var t := ErasePolitely(s);
    b := ForcedDeletion(t);
    assert KeysOK(s.q.frames, s.q.keys) by { KeysPart(s.q); }
    if a > 0 {
      ListsLastKey(s.q);
    }
    ErasedFrames(s.q, t.q.frames, a, b);
    if !HasVideo(s.q.frames) {
      NothingErased(s.q, a, t.q.frames);
    }
  }

  /**
   * When exactly the live receivers have read everything before the last key frame, exactly that goes.
   */
  lemma ReadGroupGoes(s: State, p: nat)
    requires Sized(s) && QueueOK(s.q) && s.cfg.mode != AudioOnly
    requires IsLastKey(s.q.frames, p) && forall i | 0 <= i < p :: s.q.frames[i].reserve == s.refs.readRef
    ensures EraseOldGop(s).q.frames == s.q.frames[p..]
  {
    hide QueueOK, Sized, EraseOldGop;
    var a, b := EraseOldGopPops(s);
  }

  lemma ListsLastKey(q: Queue)
    requires KeysOK(q.frames, q.keys) && q.keys != []
    ensures IsLastKey(q.frames, q.keys[|q.keys| - 1])
  {
  }

  lemma KeysPart(q: Queue)
    requires QueueOK(q)
    ensures KeysOK(q.frames, q.keys)
  {
  }

  lemma NothingErased(q: Queue, a: nat, rest: seq<DataSpec>)
    requires KeysOK(q.frames, q.keys) && !HasVideo(q.frames)
    requires a <= |q.frames| && rest == q.frames[a..] && (a > 0 ==> q.keys != [])
    ensures a == 0 && !HasVideo(rest)
  {
    KeyIsVideo(q);
  }

  lemma KeyIsVideo(q: Queue)
    requires KeysOK(q.frames, q.keys)
    ensures q.keys != [] ==> HasVideo(q.frames)
  {
    if q.keys != [] {
      assert IsVideo(q.frames[q.keys[0]].media);
    }
  }

  lemma ErasedFrames(q: Queue, rest: seq<DataSpec>, a: nat, b: nat)
    requires KeysOK(q.frames, q.keys)
    requires a <= |q.frames| && rest == q.frames[a..] && b <= |rest|
    requires a > 0 ==> q.keys != [] && a <= q.keys[|q.keys| - 1]
    requires forall i | 0 <= i < b :: !IsVideo(rest[i].media)
    requires if HasVideo(rest) then b < |rest| && IsVideo(rest[b].media) else b == 0
    ensures rest[b..] == q.frames[a + b..]
    ensures HasVideo(q.frames) ==> a + b < |q.frames| && IsVideo(q.frames[a + b].media)
    ensures forall p: nat | IsLastKey(q.frames, p) :: a + b <= p
    ensures forall i | a <= i < a + b :: !IsVideo(q.frames[i].media)
  {
    assert forall i | a <= i < |q.frames| :: q.frames[i] == rest[i - a];
    if HasVideo(q.frames) {
      var p :| 0 <= p < |q.frames| && IsVideo(q.frames[p].media);
      var at := if a <= p then p else q.keys[|q.keys| - 1];
      assert IsVideo(rest[at - a].media);
    }
    forall p: nat | IsLastKey(q.frames, p)
      ensures a + b <= p
    {
      assert a <= p;
      assert IsVideo(rest[p - a].media);
    }
  }
}
