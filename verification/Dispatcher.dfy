/** The dispatcher itself: its operations in place, each proved against its description in DispatcherSpec. */
module Dispatcher {
  import opened Media
  import opened CircularBuffers
  import opened Options
  import S = DispatcherSpec
  import I = DispatcherInvariant
  import C = DispatcherCore

  class BufferDispatcher {
    const cfg: S.Config
    const ring: CircularBuffer<DataSpec>
    var nextSeq: nat
    var notifiers: S.Notifiers
    var keyIndexList: seq<nat>
    var lastAudioIndex: nat
    var lastVideoIndex: nat
    var audioFrameCnt: nat
    var videoFrameCnt: nat
    var baseBufferCapacity: nat
    var doubleBufferCapacity: nat
    var baseCounter: nat
    var gop: nat
    var capacityEvaluating: bool
    var keyOnly: bool
    var waitingKey: bool
    var keyRedirect: bool
    var rapidMode: bool
    var audioNeedActivate: bool
    var videoNeedActivate: bool
    var readRefFlag: set<nat>
    var recvBitRef: set<nat>
    var dataBitRef: set<nat>

    ghost function Q(): S.Queue
      reads this, ring
    {
      S.Queue(ring.items, notifiers, keyIndexList, lastAudioIndex, lastVideoIndex, audioFrameCnt, videoFrameCnt)
    }

    ghost function Z(): S.Sizing
      reads this, ring
    {
      S.Sizing(ring.capacity, baseBufferCapacity, doubleBufferCapacity, baseCounter, gop, capacityEvaluating)
    }

    /** The state that the specification speaks about. */
    ghost function Abs(): S.State
      reads this, ring
    {
      S.State(cfg, nextSeq, Q(), Z(), S.Refs(readRefFlag, recvBitRef, dataBitRef), keyOnly, waitingKey,
              keyRedirect, rapidMode, audioNeedActivate, videoNeedActivate)
    }

    ghost predicate Valid()
      reads this, ring
    {
      C.Core(Abs())
    }

    constructor (maxCapacity: nat, increment: nat, mode: S.Mode)
      requires maxCapacity != 1 && maxCapacity < 0x8000_0000 && increment < S.UINT32
      ensures Valid() && fresh(ring)
      ensures Abs() == S.Initial(S.Config(maxCapacity, increment, mode))
    {
      cfg := S.Config(maxCapacity, increment, mode);
      ring := new CircularBuffer<DataSpec>();
      nextSeq, notifiers, keyIndexList := 0, map[], [];
      lastAudioIndex, lastVideoIndex := S.INVALID_INDEX, S.INVALID_INDEX;
      audioFrameCnt, videoFrameCnt := 0, 0;
      baseBufferCapacity, doubleBufferCapacity := S.INITIAL_BUFFER_CAPACITY, S.INITIAL_BUFFER_CAPACITY * 2;
      baseCounter, gop, capacityEvaluating := 0, 0, false;
      keyOnly, waitingKey, keyRedirect, rapidMode := false, true, false, false;
      audioNeedActivate, videoNeedActivate := false, false;
      readRefFlag, recvBitRef, dataBitRef := {}, {}, {};
      new;
      ring.SetCapacity(S.INITIAL_BUFFER_CAPACITY);
      C.InitialCore(cfg);
    }

    // -------------------------------------------------------------- head of the ring

    method HeadFrameNeedReserve() returns (need: bool)
      ensures need <==> S.HeadNeedReserve(Q(), readRefFlag)
    {
      need := ring.items != [] && readRefFlag != ring.items[0].reserve;
    }

    method ShiftKeyIndices()
      modifies this`keyIndexList
      ensures keyIndexList == S.ShiftKeys(old(keyIndexList))
    {
      if keyIndexList != [] && keyIndexList[0] == 0 {
        keyIndexList := keyIndexList[1..];
      }
      ghost var keys := keyIndexList;
      for i := 0 to |keyIndexList|
        invariant |keyIndexList| == |keys|
        invariant forall j | 0 <= j < i :: keyIndexList[j] == if keys[j] > 0 then keys[j] - 1 else keys[j]
        invariant forall j | i <= j < |keys| :: keyIndexList[j] == keys[j]
      {
        if keyIndexList[i] > 0 {
          keyIndexList := keyIndexList[i := keyIndexList[i] - 1];
        }
      }
    }

    method DecrementReceivers()
      modifies this`notifiers
      ensures notifiers == map id | id in old(notifiers) :: S.DecNotifier(old(notifiers)[id])
    {
      ghost var before := notifiers;
      var todo := notifiers.Keys;
      while todo != {}
        invariant todo <= notifiers.Keys == before.Keys
        invariant forall id | id in before ::
            notifiers[id] == if id in todo then before[id] else S.DecNotifier(before[id])
        decreases todo
      {
        var id :| id in todo;
        var n := notifiers[id];
        if n.videoIndex > 0 && n.videoIndex != S.INVALID_INDEX {
          n := n.(videoIndex := n.videoIndex - 1);
        }
        if n.audioIndex > 0 && n.audioIndex != S.INVALID_INDEX {
          n := n.(audioIndex := n.audioIndex - 1);
        }
        notifiers := notifiers[id := n];
        todo := todo - {id};
      }
    }

    /** Re-bases every index after the head frame has been popped. */
    method UpdateIndex()
      modifies this`keyIndexList, this`notifiers, this`lastVideoIndex, this`lastAudioIndex
      ensures Q() == S.UpdateIndex(old(Q()))
    {
      ShiftKeyIndices();
      DecrementReceivers();
      if lastVideoIndex > 0 && lastVideoIndex != S.INVALID_INDEX {
        lastVideoIndex := lastVideoIndex - 1;
      }
      if lastAudioIndex > 0 && lastAudioIndex != S.INVALID_INDEX {
        lastAudioIndex := lastAudioIndex - 1;
      }
    }

    /** pop_front, the decrement of a counter and UpdateIndex, which every popping loop performs together. */
    method PopFrontAs(audio: bool)
      requires ring.items != []
      modifies this`keyIndexList, this`notifiers, this`lastVideoIndex, this`lastAudioIndex,
        this`audioFrameCnt, this`videoFrameCnt, ring`items
      ensures Q() == S.PopAs(old(Q()), audio)
    {
      ring.PopFront();
      if audio {
        audioFrameCnt := S.Down(audioFrameCnt);
      } else {
        videoFrameCnt := S.Down(videoFrameCnt);
      }
      UpdateIndex();
    }

    static lemma PopStep(q: S.Queue, n: nat)
      requires n > 0 && q.frames != []
      ensures S.PopHeads(q, n) == S.PopHeads(S.PopAs(q, IsAudio(q.frames[0].media)), n - 1)
      ensures S.PopAudios(q, n) == S.PopAudios(S.PopAs(q, true), n - 1)
      ensures |S.PopAs(q, true).frames| == |S.PopAs(q, false).frames| == |q.frames| - 1
    {
    }

    static lemma PopEnd(q: S.Queue)
      ensures S.PopHeads(q, 0) == q && S.PopAudios(q, 0) == q
    {
    }

    static lemma DeleteStep(q: S.Queue, readRef: set<nat>, n: nat, force: bool)
      requires n > 0
      ensures S.DeleteLoop(q, readRef, n, force) ==
              if (S.HeadNeedReserve(q, readRef) && !force) || q.frames == [] then q
              else S.DeleteLoop(S.PopAs(q, IsAudio(q.frames[0].media)), readRef, n - 1, force)
      ensures S.DeleteLoop(q, readRef, 0, force) == q
    {
    }

    /** The restore loop: every pop is charged to the audio counter. */
    method PopAudioFronts(n: nat)
      requires n <= |ring.items|
      modifies this`keyIndexList, this`notifiers, this`lastVideoIndex, this`lastAudioIndex,
        this`audioFrameCnt, this`videoFrameCnt, ring`items
      ensures Q() == S.PopAudios(old(Q()), n)
    {
      hide S.PopAs, S.PopAudios;
      ghost var q := Q();
      for i := 0 to n
        invariant |Q().frames| == |q.frames| - i
        invariant S.PopAudios(Q(), n - i) == S.PopAudios(q, n)
      {
        PopStep(Q(), n - i);
        PopFrontAs(true);
      }
      PopEnd(Q());
    }

    /** The eviction loop. */
    method PopFronts(n: nat)
      requires n <= |ring.items|
      modifies this`keyIndexList, this`notifiers, this`lastVideoIndex, this`lastAudioIndex,
        this`audioFrameCnt, this`videoFrameCnt, ring`items
      ensures Q() == S.PopHeads(old(Q()), n)
    {
      hide S.PopAs, S.PopHeads;
      ghost var q := Q();
      for i := 0 to n
        invariant |Q().frames| == |q.frames| - i
        invariant S.PopHeads(Q(), n - i) == S.PopHeads(q, n)
      {
        PopStep(Q(), n - i);
        PopFrontAs(IsAudio(ring.items[0].media));
      }
      PopEnd(Q());
    }

    /** The deletion loop: stops at a needed frame unless forced, and reports whether it ran out of frames. */
    method DeleteFronts(size: nat, forceDelete: bool) returns (dry: bool)
      requires size > 0
      modifies this`keyIndexList, this`notifiers, this`lastVideoIndex, this`lastAudioIndex,
        this`audioFrameCnt, this`videoFrameCnt, ring`items
      ensures Q() == S.DeleteLoop(old(Q()), readRefFlag, size, forceDelete)
      ensures dry <==> S.RanDry(old(Q()), Q(), size)
    {
      hide S.PopAs, S.DeleteLoop;
      ghost var q := Q();
      var i := 0;
      dry := false;
      while i < size
        invariant 0 <= i <= size && |Q().frames| == |q.frames| - i
        invariant S.DeleteLoop(Q(), readRefFlag, size - i, forceDelete) ==
                  S.DeleteLoop(q, readRefFlag, size, forceDelete)
        invariant !dry
      {
        DeleteStep(Q(), readRefFlag, size - i, forceDelete);
        var need := HeadFrameNeedReserve();
        if need && !forceDelete {
          return;
        }
        if ring.items == [] {
          dry := true;
          return;
        }
        PopStep(Q(), size - i);
        PopFrontAs(IsAudio(ring.items[0].media));
        i := i + 1;
      }
      DeleteStep(Q(), readRefFlag, 1, forceDelete);
    }

    // -------------------------------------------------------------- capacity

    method SetBufferCapacity(capacity: nat)
      modifies ring`capacity
      ensures Z() == S.SetCapacity(old(Z()), cfg.maxCapacity, capacity)
    {
      if capacity == 0 || capacity > cfg.maxCapacity {
        return;
      }
      ring.SetCapacity(capacity);
    }

    method ReCalculateCapacity(keyFrame: bool)
      modifies this`baseCounter, this`doubleBufferCapacity, this`baseBufferCapacity, this`gop,
        this`capacityEvaluating, ring`capacity
      ensures Z() == S.Recalculate(old(Z()), cfg, keyFrame)
    {
      baseCounter := S.Wrap(baseCounter + 1);
      if baseCounter >= ring.capacity && !keyFrame {
        var size := if ring.capacity + cfg.increment < cfg.maxCapacity
                    then ring.capacity + cfg.increment else cfg.maxCapacity;
        doubleBufferCapacity := if S.Wrap(size * 2) < cfg.maxCapacity then S.Wrap(size * 2) else cfg.maxCapacity;
        SetBufferCapacity(size);
        return;
      }
      if keyFrame {
        baseBufferCapacity := if S.Wrap(baseCounter + cfg.increment) < cfg.maxCapacity
                              then S.Wrap(baseCounter + cfg.increment) else cfg.maxCapacity;
        if baseBufferCapacity < S.INITIAL_BUFFER_CAPACITY {
          baseBufferCapacity := S.INITIAL_BUFFER_CAPACITY;
        }
        doubleBufferCapacity := if S.Wrap(baseBufferCapacity * 2) < cfg.maxCapacity
                                then S.Wrap(baseBufferCapacity * 2) else cfg.maxCapacity;
        gop := baseCounter;
        capacityEvaluating := !(gop > 0);
        SetBufferCapacity(baseBufferCapacity);
        baseCounter := 0;
      }
    }

    /** The head of WriteDataIntoBuffer up to the restore loop. */
    method ExtendCapacity()
      modifies ring`capacity
      ensures Abs() == S.Extend(old(Abs()))
    {
      var need := HeadFrameNeedReserve();
      if |ring.items| >= ring.capacity && ring.capacity < doubleBufferCapacity && need {
        SetBufferCapacity(doubleBufferCapacity);
      }
    }

    method ResetSizing()
      modifies this`baseBufferCapacity, this`doubleBufferCapacity, ring`capacity
      ensures Z() == old(Z()).(base := S.INITIAL_BUFFER_CAPACITY, dbl := S.INITIAL_BUFFER_CAPACITY * 2,
                               capacity := S.INITIAL_BUFFER_CAPACITY)
    {
      baseBufferCapacity := S.INITIAL_BUFFER_CAPACITY;
      doubleBufferCapacity := S.INITIAL_BUFFER_CAPACITY * 2;
      ring.SetCapacity(baseBufferCapacity);
    }

    static lemma RestoreParts(s: S.State)
      ensures S.NeedRestore(s) ==>
                S.Restore(s) == s.(q := S.PopAudios(s.q, S.Excess(|s.q.frames|)),
                                   z := s.z.(base := S.INITIAL_BUFFER_CAPACITY,
                                             dbl := S.INITIAL_BUFFER_CAPACITY * 2,
                                             capacity := S.INITIAL_BUFFER_CAPACITY))
      ensures !S.NeedRestore(s) ==> S.Restore(s) == s
    {
    }

    method RestoreCapacity()
      modifies this`keyIndexList, this`notifiers, this`lastVideoIndex, this`lastAudioIndex,
        this`audioFrameCnt, this`videoFrameCnt, this`baseBufferCapacity, this`doubleBufferCapacity, ring
      ensures Abs() == S.Restore(old(Abs()))
    {
      hide S.PopAudios, S.Restore;
      RestoreParts(Abs());
      if audioFrameCnt >= ring.capacity && ring.capacity != S.INITIAL_BUFFER_CAPACITY {
        PopAudioFronts(S.Excess(|ring.items|));
        ResetSizing();
      }
    }

    // -------------------------------------------------------------- erasing

    static lemma NoDeletion(s: S.State, force: bool)
      ensures S.DeleteHeads(s, 0, force) == s
    {
    }

    method DeleteHeadDatas(size: nat, forceDelete: bool)
      modifies this`keyIndexList, this`notifiers, this`lastVideoIndex, this`lastAudioIndex,
        this`audioFrameCnt, this`videoFrameCnt, ring
      ensures Abs() == S.DeleteHeads(old(Abs()), size, forceDelete)
    {
      hide S.DeleteLoop;
      if size == 0 {
        NoDeletion(Abs(), forceDelete);
        return;
      }
      var dry := DeleteFronts(size, forceDelete);
      if dry {
        return;
      }
      if |ring.items| < baseBufferCapacity && ring.capacity > baseBufferCapacity {
        ring.SetCapacity(baseBufferCapacity);
      }
    }

    /** Position of the first video frame, or 0 when there is none. */
    method FindNextDeleteVideoIndex() returns (index: nat)
      ensures index == S.NextDeleteVideo(ring.items)
    {
      for i := 0 to |ring.items|
        invariant S.FirstVideoFrom(ring.items, i) == S.FirstVideoFrom(ring.items, 0)
      {
        if ring.items[i].media.mediaType == Video {
          return i;
        }
      }
      return 0;
    }

    method InvalidateReceivers()
      modifies this`notifiers
      ensures notifiers == map id | id in old(notifiers) ::
                old(notifiers)[id].(audioIndex := S.INVALID_INDEX, videoIndex := S.INVALID_INDEX)
    {
      ghost var before := notifiers;
      var todo := notifiers.Keys;
      while todo != {}
        invariant todo <= notifiers.Keys == before.Keys
        invariant forall id | id in before :: notifiers[id] == if id in todo then before[id] else
            before[id].(audioIndex := S.INVALID_INDEX, videoIndex := S.INVALID_INDEX)
        decreases todo
      {
        var id :| id in todo;
        notifiers := notifiers[id := notifiers[id].(videoIndex := S.INVALID_INDEX, audioIndex := S.INVALID_INDEX)];
        todo := todo - {id};
      }
    }

    method ResetAllIndex()
      modifies this`keyIndexList, this`notifiers, this`videoNeedActivate, this`audioNeedActivate,
        this`lastAudioIndex, this`lastVideoIndex
      ensures Q() == S.ResetAllIndex(old(Q())) && videoNeedActivate && audioNeedActivate
    {
      keyIndexList := [];
      InvalidateReceivers();
      videoNeedActivate, audioNeedActivate := true, true;
      lastAudioIndex, lastVideoIndex := S.INVALID_INDEX, S.INVALID_INDEX;
    }

    method DropAll()
      modifies this`keyIndexList, this`notifiers, this`videoNeedActivate, this`audioNeedActivate,
        this`lastAudioIndex, this`lastVideoIndex, this`waitingKey, this`gop, this`audioFrameCnt,
        this`videoFrameCnt, ring`items
      ensures Abs() == S.Flush(old(Abs()))
    {
      hide S.ResetAllIndex;
      ring.Clear();
      waitingKey := true;
      gop := 0;
      audioFrameCnt, videoFrameCnt := 0, 0;
      assert Q() == old(Q()).(frames := [], audioCnt := 0, videoCnt := 0);
      ResetAllIndex();
      assert Z() == old(Z()).(gop := 0);
    }

    method FlushBuffer()
      requires Valid()
      modifies this, ring`items
      ensures Valid() && Abs() == S.Flush(old(Abs()))
    {
      C.StepCore(Abs(), S.OpFlush);
      DropAll();
    }

    method EraseOldGopDatas()
      modifies this`keyIndexList, this`notifiers, this`lastVideoIndex, this`lastAudioIndex,
        this`audioFrameCnt, this`videoFrameCnt, this`videoNeedActivate, this`audioNeedActivate,
        this`waitingKey, this`gop, ring
      ensures Abs() == S.EraseOldGop(old(Abs()))
    {
      if cfg.mode == S.AudioOnly {
        DropAll();
        return;
      }
      var nextKey := 0;
      if keyIndexList != [] && keyIndexList[|keyIndexList| - 1] > 0 {
        nextKey := keyIndexList[|keyIndexList| - 1];
        keyIndexList := [nextKey];
      }
      DeleteHeadDatas(nextKey, false);
      assert Abs() == S.ErasePolitely(old(Abs()));
      nextKey := FindNextDeleteVideoIndex();
      DeleteHeadDatas(nextKey, true);
    }

    // -------------------------------------------------------------- writing

    /** The receivers that a loop over the notifiers has visited. */
    static ghost function Seen(ns: S.Notifiers, todo: set<nat>): S.Notifiers {
      map id | id in ns && id !in todo :: ns[id]
    }

    static lemma SeenStep(ns: S.Notifiers, todo: set<nat>, id: nat)
      requires id in todo && todo <= ns.Keys
      ensures id !in Seen(ns, todo) && Seen(ns, todo - {id}) == Seen(ns, todo)[id := ns[id]]
      ensures forall keyFrame :: BitsAdded(Seen(ns, todo), Seen(ns, todo - {id}), ns[id], keyFrame)
      ensures S.AllAudioValid(Seen(ns, todo - {id})) <==>
              (S.AllAudioValid(Seen(ns, todo)) && ns[id].audioIndex != S.INVALID_INDEX)
      ensures S.AllVideoValid(Seen(ns, todo - {id})) <==>
              (S.AllVideoValid(Seen(ns, todo)) && ns[id].videoIndex != S.INVALID_INDEX)
    {
      var a := Seen(ns, todo);
      var b := Seen(ns, todo - {id});
      assert id in b;
      assert forall k | k in a :: k in b && b[k] == a[k];
      assert forall k | k in b && k != id :: k in a && b[k] == a[k];
    }

    static lemma NobodySeen(ns: S.Notifiers)
      ensures Seen(ns, ns.Keys) == map[] && Seen(ns, {}) == ns
      ensures S.ActiveAudioBits(map[]) == {} && forall keyFrame :: S.ActiveVideoBits(map[], keyFrame) == {}
    {
    }

    /** `b` is `a` with one more receiver `n`. */
    static ghost predicate BitsAdded(a: S.Notifiers, b: S.Notifiers, n: S.Notifier, keyFrame: bool) {
      && S.ActiveAudioBits(b) == S.ActiveAudioBits(a) + {S.AudioBit(n.readIndex)}
      && S.ActiveVideoBits(b, keyFrame) ==
         S.ActiveVideoBits(a, keyFrame) + if !n.keyMode || keyFrame then {S.VideoBit(n.readIndex)} else {}
    }

    /** Raises the data bits of the receivers; a key frame also attracts key-mode receivers that wait for one. */
    method ActiveDataRef(audio: bool, keyFrame: bool)
      requires ring.items != []
      modifies this`dataBitRef, this`notifiers
      ensures dataBitRef == old(dataBitRef) + if audio then S.ActiveAudioBits(old(notifiers))
                                              else S.ActiveVideoBits(old(notifiers), keyFrame)
      ensures notifiers == if !audio && keyFrame && keyIndexList == []
                           then S.JumpToKey(old(notifiers), |ring.items| - 1) else old(notifiers)
    {
      hide S.ActiveAudioBits, S.ActiveVideoBits;
      ghost var before := notifiers;
      NobodySeen(before);
      ghost var jump := !audio && keyFrame && keyIndexList == [];
      ghost var jumped := S.JumpToKey(before, |ring.items| - 1);
      var bitRef := {};
      var todo := notifiers.Keys;
      while todo != {}
        invariant todo <= notifiers.Keys == before.Keys
        invariant forall id | id in before ::
            notifiers[id] == if id in todo || !jump then before[id] else jumped[id]
        invariant dataBitRef == old(dataBitRef)
        invariant bitRef == if audio then S.ActiveAudioBits(Seen(before, todo))
                            else S.ActiveVideoBits(Seen(before, todo), keyFrame)
        decreases todo
      {
        var id :| id in todo;
        var n := notifiers[id];
        SeenStep(before, todo, id);
        assert BitsAdded(Seen(before, todo), Seen(before, todo - {id}), before[id], keyFrame);
        todo := todo - {id};
        if audio {
          bitRef := bitRef + {S.AudioBit(n.readIndex)};
        } else {
          if keyFrame && n.keyMode && keyIndexList == [] {
            notifiers := notifiers[id := n.(videoIndex := |ring.items| - 1)];
          }
          if !n.keyMode || keyFrame {
            bitRef := bitRef + {S.VideoBit(n.readIndex)};
          }
        }
      }
      assert notifiers == if jump then jumped else before;
      assert Seen(before, todo) == before;
      assert bitRef == if audio then S.ActiveAudioBits(before) else S.ActiveVideoBits(before, keyFrame);
      dataBitRef := dataBitRef + bitRef;
    }

    method ActivateAudioIndex(index: nat)
      modifies this`notifiers, this`audioNeedActivate
      ensures notifiers == S.ActivateAudio(old(notifiers), index)
      ensures audioNeedActivate <==> old(audioNeedActivate) && S.AllAudioValid(old(notifiers))
    {
      ghost var before := notifiers;
      var todo := notifiers.Keys;
      while todo != {}
        invariant todo <= notifiers.Keys == before.Keys
        invariant forall id | id in before ::
            notifiers[id] == if id in todo then before[id] else S.ActivateAudio(before, index)[id]
        invariant audioNeedActivate <==> (old(audioNeedActivate) && S.AllAudioValid(Seen(before, todo)))
        decreases todo
      {
        var id :| id in todo;
        SeenStep(before, todo, id);
        todo := todo - {id};
        if notifiers[id].audioIndex == S.INVALID_INDEX {
          notifiers := notifiers[id := notifiers[id].(audioIndex := index)];
          audioNeedActivate := false;
        }
      }
      assert notifiers == S.ActivateAudio(before, index);
      assert Seen(before, todo) == before;
    }

    method ActivateVideoIndex(index: nat)
      modifies this`notifiers, this`videoNeedActivate
      ensures notifiers == S.ActivateVideo(old(notifiers), index)
      ensures videoNeedActivate <==> old(videoNeedActivate) && S.AllVideoValid(old(notifiers))
    {
      ghost var before := notifiers;
      var todo := notifiers.Keys;
      while todo != {}
        invariant todo <= notifiers.Keys == before.Keys
        invariant forall id | id in before ::
            notifiers[id] == if id in todo then before[id] else S.ActivateVideo(before, index)[id]
        invariant videoNeedActivate <==> (old(videoNeedActivate) && S.AllVideoValid(Seen(before, todo)))
        decreases todo
      {
        var id :| id in todo;
        SeenStep(before, todo, id);
        todo := todo - {id};
        if notifiers[id].videoIndex == S.INVALID_INDEX {
          notifiers := notifiers[id := notifiers[id].(videoIndex := index)];
          videoNeedActivate := false;
        }
      }
      assert notifiers == S.ActivateVideo(before, index);
      assert Seen(before, todo) == before;
    }

    /** Sets a receiver's read bit in the frames at positions lo .. hi - 1. */
    method MarkFrames(lo: nat, hi: nat, slot: nat)
      requires hi <= |ring.items|
      modifies ring`items
      ensures ring.items == S.MarkRange(old(ring.items), lo, hi, slot)
    {
      ghost var before := ring.items;
      var i := lo;
      while i < hi
        invariant lo <= i && (lo <= hi ==> i <= hi) && |ring.items| == |before|
        invariant forall k | 0 <= k < |before| ::
            ring.items[k] == if lo <= k < i && k < hi then S.AddMarks(before[k], {slot}) else before[k]
      {
        ring.items := ring.items[i := S.AddMarks(ring.items[i], {slot})];
        i := i + 1;
      }
    }

    /** The marks set on position `i` by the receivers that have been redirected so far. */
    static ghost function DoneMarks(ns: S.Notifiers, todo: set<nat>, i: nat, next: nat): set<nat> {
      S.RedirectMarks(Seen(ns, todo), i, next)
    }

    static lemma DoneMarksStep(ns: S.Notifiers, todo: set<nat>, id: nat, i: nat, next: nat)
      requires id in todo && todo <= ns.Keys
      ensures DoneMarks(ns, todo - {id}, i, next) ==
              DoneMarks(ns, todo, i, next) +
              if ns[id].keyRedirect && ns[id].videoIndex <= i < next then {ns[id].readIndex} else {}
    {
      SeenStep(ns, todo, id);
      RedirectMarksAdd(Seen(ns, todo), id, ns[id], i, next);
    }

    static lemma RedirectMarksAdd(ns: S.Notifiers, id: nat, n: S.Notifier, i: nat, next: nat)
      requires id !in ns
      ensures S.RedirectMarks(ns[id := n], i, next) ==
              S.RedirectMarks(ns, i, next) +
              if n.keyRedirect && n.videoIndex <= i < next then {n.readIndex} else {}
    {
      var ms := ns[id := n];
      assert forall k | k in ns :: k in ms && ms[k] == ns[k];
      assert id in ms;
    }

    static lemma DoneMarksEnds(ns: S.Notifiers, i: nat, next: nat)
      ensures DoneMarks(ns, {}, i, next) == S.RedirectMarks(ns, i, next)
      ensures DoneMarks(ns, ns.Keys, i, next) == {}
    {
      assert Seen(ns, {}) == ns;
      assert Seen(ns, ns.Keys) == map[];
    }

    static lemma MarkStep(d: DataSpec, a: set<nat>, b: set<nat>)
      ensures S.AddMarks(S.AddMarks(d, a), b) == S.AddMarks(d, a + b)
      ensures S.AddMarks(d, {}) == d
    {
      assert d.reserve + a + b == d.reserve + (a + b);
      assert d.reserve + {} == d.reserve;
    }

    /** One receiver of OnKeyRedirect. */
    method RedirectOne(id: nat, nextIndex: nat)
      requires id in notifiers && nextIndex <= |ring.items|
      modifies this`notifiers, ring`items
      ensures notifiers == old(notifiers)[id := S.RedirectNotifier(old(notifiers)[id], nextIndex, rapidMode)]
      ensures |ring.items| == old(|ring.items|)
      ensures forall k | 0 <= k < |ring.items| :: ring.items[k] ==
                (if old(notifiers)[id].keyRedirect && old(notifiers)[id].videoIndex <= k < nextIndex
                 then S.AddMarks(old(ring.items)[k], {old(notifiers)[id].readIndex}) else old(ring.items)[k])
    {
      var n := notifiers[id];
      if n.keyRedirect {
        var curIndex := n.videoIndex;
        notifiers := notifiers[id := n.(videoIndex := nextIndex)];
        MarkFrames(curIndex, nextIndex, n.readIndex);
        if !rapidMode {
          notifiers := notifiers[id := notifiers[id].(keyRedirect := false)];
        }
      } else {
        notifiers := notifiers[id := n];
      }
    }

    method OnKeyRedirect()
      requires keyIndexList != [] ==> keyIndexList[|keyIndexList| - 1] < |ring.items|
      modifies this`notifiers, ring`items
      ensures Q() == S.OnKeyRedirect(old(Q()), rapidMode)
    {
      if keyIndexList == [] {
        return;
      }
      var nextIndex := keyIndexList[|keyIndexList| - 1];
      ghost var ns := notifiers;
      ghost var items := ring.items;
      var todo := notifiers.Keys;
      forall k | 0 <= k < |items| ensures items[k] == S.AddMarks(items[k], DoneMarks(ns, todo, k, nextIndex)) {
        DoneMarksEnds(ns, k, nextIndex);
        MarkStep(items[k], {}, {});
      }
      while todo != {}
        invariant todo <= notifiers.Keys == ns.Keys && |ring.items| == |items|
        invariant forall id | id in ns ::
            notifiers[id] == if id in todo then ns[id] else S.RedirectNotifier(ns[id], nextIndex, rapidMode)
        invariant forall k | 0 <= k < |items| ::
            ring.items[k] == S.AddMarks(items[k], DoneMarks(ns, todo, k, nextIndex))
        decreases todo
      {
        var id :| id in todo;
        RedirectOne(id, nextIndex);
        forall k | 0 <= k < |items|
          ensures ring.items[k] == S.AddMarks(items[k], DoneMarks(ns, todo - {id}, k, nextIndex))
        {
          DoneMarksStep(ns, todo, id, k, nextIndex);
          MarkStep(items[k], DoneMarks(ns, todo, k, nextIndex), {ns[id].readIndex});
          MarkStep(items[k], DoneMarks(ns, todo, k, nextIndex), {});
        }
        todo := todo - {id};
      }
      forall k | 0 <= k < |items| ensures ring.items[k] == S.AddMarks(items[k], S.RedirectMarks(ns, k, nextIndex)) {
        DoneMarksEnds(ns, k, nextIndex);
      }
      assert Q() == S.RedirectTo(old(Q()), nextIndex, rapidMode);
    }

    // -------------------------------------------------------------- the write itself

    method MakeRoomFor(media: MediaData)
      requires C.CoreSized(Abs()) && C.CoreQ(Abs().q)
      modifies this`keyIndexList, this`notifiers, this`lastVideoIndex, this`lastAudioIndex,
        this`audioFrameCnt, this`videoFrameCnt, this`baseBufferCapacity, this`doubleBufferCapacity,
        this`videoNeedActivate, this`audioNeedActivate, this`waitingKey, this`gop, ring
      ensures Abs() == S.MakeRoom(old(Abs()), media)
    {
      hide C.CoreQ, C.CoreSized, C.CoreStage, S.Extend, S.Restore, S.EraseOldGop, S.Evict, Abs, Q, Z;
      ghost var s := Abs();
      C.ExtendRestoreCore(s);
      C.StageParts(s, S.Restore(S.Extend(s)));
      ExtendCapacity();
      RestoreCapacity();
      AbsFields();
      if IsKeyVideo(media) && !keyOnly {
        ghost var t := Abs();
        C.EraseCore(t);
        C.StageParts(t, S.EraseOldGop(t));
        EraseOldGopDatas();
      }
      EvictHeads(media);
    }

    lemma AbsFields()
      ensures Abs().cfg == cfg && Abs().keyOnly == keyOnly && Abs().q == Q() && Abs().z == Z()
    {
    }

    method EvictHeads(media: MediaData)
      requires C.CoreSized(Abs())
      modifies this`keyIndexList, this`notifiers, this`lastVideoIndex, this`lastAudioIndex,
        this`audioFrameCnt, this`videoFrameCnt, ring`items
      ensures Abs() == S.Evict(old(Abs()), media)
    {
      hide S.PopHeads;
      if |ring.items| >= ring.capacity {
        var nextDeleteIndex := 1;
        if IsVideo(media) {
          nextDeleteIndex := FindNextDeleteVideoIndex();
          I.FirstVideoFromSpec(ring.items, 0);
        }
        PopFronts(nextDeleteIndex + 1);
      }
    }

    /** A push at capacity has something to evict. */
    ghost predicate Pushable()
      reads ring
    {
      |ring.items| >= ring.capacity ==> ring.items != []
    }

    method PushAudio(data: DataSpec)
      requires Pushable() && IsAudio(data.media)
      modifies this`lastAudioIndex, this`dataBitRef, this`notifiers, this`audioFrameCnt,
        this`audioNeedActivate, ring`items
      ensures ring.items == S.PushBack(old(ring.items), ring.capacity, data)
      ensures lastAudioIndex == |ring.items| - 1 && audioFrameCnt == S.Up(old(audioFrameCnt))
      ensures dataBitRef == old(dataBitRef) + S.ActiveAudioBits(old(notifiers))
      ensures notifiers == if old(audioNeedActivate) then S.ActivateAudio(old(notifiers), |ring.items| - 1)
                           else old(notifiers)
      ensures audioNeedActivate <==> (old(audioNeedActivate) && S.AllAudioValid(old(notifiers)))
    {
      ring.PushBack(data);
      lastAudioIndex := |ring.items| - 1;
      ActiveDataRef(true, false);
      audioFrameCnt := S.Up(audioFrameCnt);
      if audioNeedActivate {
        ActivateAudioIndex(|ring.items| - 1);
      }
    }

    method PushOther(data: DataSpec)
      requires Pushable() && !IsAudio(data.media)
      modifies this`lastVideoIndex, this`dataBitRef, this`notifiers, this`videoFrameCnt, ring`items
      ensures ring.items == S.PushBack(old(ring.items), ring.capacity, data)
      ensures lastVideoIndex == |ring.items| - 1 && videoFrameCnt == S.Up(old(videoFrameCnt))
      ensures dataBitRef == old(dataBitRef) + S.ReadyBits(old(Abs()), data.media)
      ensures notifiers == S.Jumped(old(Abs()), data.media, |ring.items| - 1)
    {
      ring.PushBack(data);
      lastVideoIndex := |ring.items| - 1;
      if !keyOnly || IsKeyVideo(data.media) {
        ActiveDataRef(false, IsKeyVideo(data.media));
      }
      videoFrameCnt := S.Up(videoFrameCnt);
    }

    /** The key frame bookkeeping, up to the redirect. */
    method RecordKey()
      requires ring.items != []
      modifies this`keyIndexList, this`notifiers, this`videoNeedActivate
      ensures keyIndexList == old(keyIndexList) + [|ring.items| - 1]
      ensures notifiers == if old(videoNeedActivate) then S.ActivateVideo(old(notifiers), |ring.items| - 1)
                           else old(notifiers)
      ensures videoNeedActivate <==> (old(videoNeedActivate) && S.AllVideoValid(old(notifiers)))
    {
      var keyIndex := |ring.items| - 1;
      keyIndexList := keyIndexList + [keyIndex];
      if videoNeedActivate {
        ActivateVideoIndex(keyIndex);
      }
    }

    method AppendAudio(media: MediaData)
      requires Pushable() && IsAudio(media)
      modifies this`lastAudioIndex, this`dataBitRef, this`notifiers, this`audioFrameCnt,
        this`audioNeedActivate, ring`items
      ensures Abs() == S.Append(old(Abs()), media)
    {
      hide S.ActivateAudio, S.ActiveAudioBits, S.AllAudioValid;
      PushAudio(DataSpec(nextSeq, media, {}));
    }

    method AppendPlain(media: MediaData)
      requires Pushable() && !IsAudio(media) && !IsKeyVideo(media)
      modifies this`lastVideoIndex, this`dataBitRef, this`notifiers, this`videoFrameCnt, ring`items
      ensures Abs() == S.Append(old(Abs()), media)
    {
      hide S.ActiveVideoBits;
      PushOther(DataSpec(nextSeq, media, {}));
    }

    /** A key frame also enters the index list, activates waiting receivers and redirects others. */
    method AppendKey(media: MediaData)
      requires Pushable() && IsKeyVideo(media)
      modifies this`lastVideoIndex, this`dataBitRef, this`notifiers, this`videoFrameCnt,
        this`videoNeedActivate, this`keyIndexList, this`keyRedirect, ring`items
      ensures Abs() == S.Append(old(Abs()), media)
    {
      hide S.OnKeyRedirect, S.Jumped, S.ActivateVideo, S.AllVideoValid, S.ReadyBits;
      PushOther(DataSpec(nextSeq, media, {}));
      RecordKey();
      assert Q() == S.AppendQueue(old(Abs()), media);
      if keyRedirect {
        OnKeyRedirect();
        keyRedirect := false;
      }
    }

    method AppendFrame(media: MediaData)
      requires Pushable()
      modifies this`lastAudioIndex, this`lastVideoIndex, this`dataBitRef, this`notifiers, this`audioFrameCnt,
        this`videoFrameCnt, this`audioNeedActivate, this`videoNeedActivate, this`keyIndexList,
        this`keyRedirect, ring`items
      ensures Abs() == S.Append(old(Abs()), media)
    {
      hide Abs, Q, Z, S.Append;
      if IsAudio(media) {
        AppendAudio(media);
      } else if IsKeyVideo(media) {
        AppendKey(media);
      } else {
        AppendPlain(media);
      }
    }

    lemma CapacityIsPositive()
      requires C.CoreSized(Abs())
      ensures Pushable()
    {
    }

    method WriteDataIntoBuffer(media: MediaData)
      requires Valid()
      modifies this, ring
      ensures Abs() == S.Write(old(Abs()), media)
    {
      hide C.CoreQ, C.CoreSized, S.MakeRoom, S.Append, Q, Z;
      C.CoreParts(Abs());
      C.MakeRoomCore(Abs(), media);
      C.StageParts(Abs(), S.MakeRoom(Abs(), media));
      MakeRoomFor(media);
      CapacityIsPositive();
      AppendFrame(media);
    }

    /** A key frame that ends a gap restarts the buffer. */
    method RestartFromKey()
      modifies this`keyIndexList, this`notifiers, this`videoNeedActivate, this`audioNeedActivate,
        this`lastAudioIndex, this`lastVideoIndex, this`waitingKey, this`gop, this`audioFrameCnt,
        this`videoFrameCnt, this`baseCounter, this`capacityEvaluating, ring`items
      ensures Abs() == S.Restart(old(Abs()))
    {
      DropAll();
      hide S.Flush;
      baseCounter := S.Wrap(baseCounter + 1);
      capacityEvaluating := true;
      waitingKey := false;
    }

    method PreProcessDataSpec(media: MediaData)
      requires Valid() && cfg.mode != S.AudioOnly
      modifies this, ring
      ensures Abs() == S.Admitted(old(Abs()), media)
    {
      hide C.Core, S.Write, S.Restart, S.Recalculate, S.Flush;
      C.AdmitCore(Abs(), media);
      if waitingKey {
        if IsAudio(media) {
          hide Abs, Q, Z;
          WriteDataIntoBuffer(media);
        } else if IsKeyVideo(media) {
          hide Abs, Q, Z;
          RestartFromKey();
          WriteDataIntoBuffer(media);
        }
      } else if capacityEvaluating {
        ReCalculateCapacity(IsKeyVideo(media));
        hide Abs, Q, Z;
        WriteDataIntoBuffer(media);
      } else {
        hide Abs, Q, Z;
        WriteDataIntoBuffer(media);
      }
    }

    method CountInput()
      modifies this`nextSeq
      ensures Abs() == old(Abs()).(nextSeq := old(Abs()).nextSeq + 1)
    {
      nextSeq := nextSeq + 1;
    }

    /** Writes the frame unless it is dropped. */
    method AdmitData(media: MediaData)
      requires Valid()
      modifies this, ring
      ensures Abs() == S.Admitted(old(Abs()), media)
    {
      hide C.Core, S.Write, S.Restart, S.Recalculate, S.Flush;
      C.AdmitCore(Abs(), media);
      if cfg.mode == S.AudioOnly {
        hide Q, Z;
        WriteDataIntoBuffer(media);
      } else {
        hide S.Admitted, Q, Z;
        PreProcessDataSpec(media);
      }
    }

    method InputData(media: MediaData)
      requires Valid()
      modifies this, ring
      ensures Valid() && Abs() == S.Input(old(Abs()), media)
    {
      hide C.Core, S.Admitted, Abs, Q, Z;
      ghost var s := Abs();
      C.InputCore(s, media);
      C.AdmittedSeq(s, media);
      AdmitData(media);
      CountInput();
    }

    // -------------------------------------------------------------- reading

    /** The next frame the receiver stops at, marking what a key-mode reader skips; its own index if there is none. */
    method FindNextIndex(index: nat, mediaType: MediaType, id: nat) returns (next: nat)
      requires id in notifiers && index < |ring.items|
      modifies ring`items
      ensures next == S.NextIndex(old(ring.items), index, mediaType, S.KeysOnly(old(Abs()), id))
      ensures ring.items == if S.KeysOnly(old(Abs()), id) && mediaType == Video
                            then S.MarkRange(old(ring.items), index + 1, next, notifiers[id].readIndex)
                            else old(ring.items)
    {
      ghost var keysOnly := S.KeysOnly(Abs(), id);
      ghost var items := ring.items;
      if index + 1 >= |ring.items| {
        assert S.MarkRange(items, index + 1, index, notifiers[id].readIndex) == items;
        return index;
      }
      if mediaType == AV {
        return index + 1;
      }
      for i := index + 1 to |ring.items|
        invariant ring.items == items
        invariant S.NextStop(items, i, mediaType, keysOnly) == S.NextStop(items, index + 1, mediaType, keysOnly)
      {
        if ring.items[i].media.mediaType == mediaType {
          if (keyOnly || notifiers[id].keyMode) && mediaType == Video {
            if IsKeyVideo(ring.items[i].media) {
              MarkFrames(index + 1, i, notifiers[id].readIndex);
              return i;
            }
          } else {
            return i;
          }
        }
      }
      assert S.MarkRange(items, index + 1, index, notifiers[id].readIndex) == items;
      return index;
    }

    method UpdateReceiverReadIndex(id: nat, readIndex: nat, mediaType: MediaType)
      requires id in notifiers && readIndex < |ring.items|
      modifies this`notifiers, ring`items
      ensures Abs() == S.Advance(old(Abs()), id, readIndex, mediaType)
    {
      hide S.NextIndex, S.MarkRange;
      var nextIndex := FindNextIndex(readIndex, mediaType, id);
      if mediaType == Video {
        notifiers := notifiers[id := notifiers[id].(videoIndex := nextIndex)];
      } else if mediaType == Audio {
        notifiers := notifiers[id := notifiers[id].(audioIndex := nextIndex)];
      } else {
        notifiers := notifiers[id := notifiers[id].(videoIndex := nextIndex, audioIndex := nextIndex)];
      }
    }

    /** Marks the frame at `i` as read by the receiver. */
    method SetReceiverReadFlag(id: nat, i: nat)
      requires id in notifiers && i < |ring.items|
      modifies ring`items
      ensures ring.items == old(ring.items)[i := S.AddMarks(old(ring.items)[i], {notifiers[id].readIndex})]
    {
      ring.items := ring.items[i := S.AddMarks(ring.items[i], {notifiers[id].readIndex})];
    }

    /** The frame at `readIndex` goes to the callback, and is marked as read. */
    method Deliver(id: nat, mediaType: MediaType, readIndex: nat) returns (data: MediaData)
      requires S.HasFrame(Abs(), id, mediaType) && S.Delivers(Abs(), id, mediaType)
      requires readIndex == S.ReadIndex(notifiers[id], mediaType)
      modifies ring`items
      ensures Abs() == S.AfterCallback(old(Abs()), id, mediaType)
      ensures data == old(ring.items)[readIndex].media
    {
      data := ring.items[readIndex].media;
      SetReceiverReadFlag(id, readIndex);
    }

    /** May the receiver be given the frame at its read index? */
    method MayDeliver(id: nat, mediaType: MediaType, readIndex: nat) returns (may: bool)
      requires S.HasFrame(Abs(), id, mediaType) && readIndex == S.ReadIndex(notifiers[id], mediaType)
      ensures may <==> S.Delivers(Abs(), id, mediaType)
      ensures !may ==> S.AfterCallback(Abs(), id, mediaType) == Abs()
    {
      if (keyOnly || notifiers[id].keyMode) && mediaType == Video && !IsKeyVideo(ring.items[readIndex].media) {
        return false;
      }
      if notifiers[id].readIndex in ring.items[readIndex].reserve {
        return false;
      }
      return true;
    }

    /** `data` is what the callback is given; the return code is 0 exactly when it is called. */
    method ReadBufferData(id: nat, mediaType: MediaType) returns (ret: int, data: Option<MediaData>)
      requires Valid()
      modifies this`notifiers, ring`items
      ensures Valid() && Abs() == S.Read(old(Abs()), id, mediaType).0
      ensures data == match S.Read(old(Abs()), id, mediaType).1
                      case None => None
                      case Some(d) => Some(d.media)
      ensures ret == if data.Some? then 0 else -1
    {
      hide C.Core, S.Advance, S.AfterCallback, S.Delivers;
      C.ReadCore(Abs(), id, mediaType);
      ret, data := -1, None;
      if id !in notifiers {
        return;
      }
      var readIndex := S.ReadIndex(notifiers[id], mediaType);
      if readIndex >= |ring.items| {
        return;
      }
      var may := MayDeliver(id, mediaType, readIndex);
      if may {
        var media := Deliver(id, mediaType, readIndex);
        ret, data := 0, Some(media);
        C.CallbackShape(old(Abs()), id, mediaType);
      }
      UpdateReceiverReadIndex(id, readIndex, mediaType);
    }

    // -------------------------------------------------------------- receivers

    method SetReceiverReadRef(id: nat, mediaType: MediaType, ready: bool)
      requires id in notifiers
      modifies this`recvBitRef
      ensures recvBitRef == S.SetBits(old(recvBitRef), S.Bits(notifiers[id].readIndex, mediaType), ready)
    {
      recvBitRef := S.SetBits(recvBitRef, S.Bits(notifiers[id].readIndex, mediaType), ready);
    }

    method SetReceiverDataRef(id: nat, mediaType: MediaType, ready: bool)
      requires id in notifiers
      modifies this`dataBitRef
      ensures dataBitRef == S.SetBits(old(dataBitRef), S.Bits(notifiers[id].readIndex, mediaType), ready)
    {
      dataBitRef := S.SetBits(dataBitRef, S.Bits(notifiers[id].readIndex, mediaType), ready);
    }

    /** The next audio frame after `index`, or `index` itself. */
    method FindNextAudio(index: nat) returns (next: nat)
      ensures next == S.NextIndex(ring.items, index, Audio, false)
    {
      if index + 1 >= |ring.items| {
        return index;
      }
      for i := index + 1 to |ring.items|
        invariant S.NextStop(ring.items, i, Audio, false) == S.NextStop(ring.items, index + 1, Audio, false)
      {
        if ring.items[i].media.mediaType == Audio {
          return i;
        }
      }
      return index;
    }

    /** Where a new receiver starts: at the last key frame when there is one. */
    method FindStart() returns (audio: nat, video: nat, audioReady: bool, videoReady: bool)
      ensures (audio, video, audioReady, videoReady) == S.StartPosition(Abs())
    {
      audio, video, audioReady, videoReady := S.INVALID_INDEX, S.INVALID_INDEX, false, false;
      if ring.items == [] {
        return;
      }
      if cfg.mode == S.AudioOnly {
        audio, audioReady := |ring.items| - 1, true;
      } else if keyIndexList != [] {
        var key := keyIndexList[|keyIndexList| - 1];
        var temp := FindNextAudio(key);
        audio := if temp == key then S.INVALID_INDEX else temp;
        video, audioReady, videoReady := key, true, true;
      } else {
        audio, audioReady := lastAudioIndex, true;
      }
    }

    /** A new receiver takes its slot. */
    method TakeSlot(id: nat, n: S.Notifier, audioReady: bool, videoReady: bool)
      requires id !in notifiers
      modifies this`readRefFlag, this`notifiers, this`dataBitRef
      ensures Abs() == old(Abs()).(
                q := old(Q()).(notifiers := old(notifiers)[id := n]),
                refs := S.Refs(old(readRefFlag) + {n.readIndex}, recvBitRef,
                               S.SetBits(S.SetBits(old(dataBitRef), {S.AudioBit(n.readIndex)}, audioReady),
                                         {S.VideoBit(n.readIndex)}, videoReady)))
    {
      readRefFlag := readRefFlag + {n.readIndex};
      notifiers := notifiers[id := n];
      SetReceiverDataRef(id, Audio, audioReady);
      SetReceiverDataRef(id, Video, videoReady);
    }

    /** A receiver that starts without a frame waits to be activated. */
    method RequestActivation()
      modifies this`videoNeedActivate, this`audioNeedActivate
      ensures Abs() == old(Abs()).(
                videoNeedActivate := old(videoNeedActivate) || ring.items == [],
                audioNeedActivate := old(audioNeedActivate) || ring.items == [] ||
                                     (cfg.mode != S.AudioOnly && lastAudioIndex == S.INVALID_INDEX))
    {
      if ring.items == [] {
        videoNeedActivate, audioNeedActivate := true, true;
      } else if cfg.mode != S.AudioOnly && lastAudioIndex == S.INVALID_INDEX {
        audioNeedActivate := true;
      }
    }

    method Enroll(id: nat, keyMode: bool, redirected: bool)
      requires id !in notifiers && S.LowestFree(readRefFlag, 0) != S.MAX_RECEIVER_SIZE
      modifies this`readRefFlag, this`notifiers, this`dataBitRef, this`videoNeedActivate, this`audioNeedActivate
      ensures Abs() == S.Attach(old(Abs()), id, keyMode, redirected)
    {
      hide S.LowestFree, S.StartPosition, S.SetBits;
      var slot := S.LowestFree(readRefFlag, 0);
      var audio, video, audioReady, videoReady := FindStart();
      TakeSlot(id, S.Notifier(slot, audio, video, keyMode, redirected), audioReady, videoReady);
      RequestActivation();
    }

    method AttachReceiver(id: nat, keyMode: bool, redirected: bool) returns (ret: int)
      requires Valid()
      modifies this`readRefFlag, this`notifiers, this`dataBitRef, this`videoNeedActivate, this`audioNeedActivate
      ensures Valid() && Abs() == S.Attach(old(Abs()), id, keyMode, redirected)
      ensures ret == if id in old(notifiers) || |old(notifiers)| < S.MAX_RECEIVER_SIZE then 0 else -1
    {
      hide C.Core, S.StartPosition;
      C.AttachCore(Abs(), id, keyMode, redirected);
      C.CoreParts(Abs());
      C.SlotsLeft(notifiers, S.Refs(readRefFlag, recvBitRef, dataBitRef));
      if id in notifiers {
        return 0;
      }
      if S.LowestFree(readRefFlag, 0) == S.MAX_RECEIVER_SIZE {
        return -1;
      }
      C.LowestFreeSpec(readRefFlag, 0);
      hide S.Attach, S.LowestFree;
      Enroll(id, keyMode, redirected);
      return 0;
    }

    method DetachReceiver(id: nat)
      requires Valid()
      modifies this`recvBitRef, this`readRefFlag, this`notifiers
      ensures Valid() && Abs() == S.Detach(old(Abs()), id)
    {
      hide C.Core;
      C.DetachCore(Abs(), id);
      if id in notifiers {
        SetReceiverReadRef(id, Audio, false);
        SetReceiverReadRef(id, Video, false);
        readRefFlag := readRefFlag - {notifiers[id].readIndex};
        notifiers := notifiers - {id};
        assert recvBitRef == old(recvBitRef) - S.Bits(old(notifiers)[id].readIndex, AV);
      }
    }

    method NotifyReadReady(id: nat, mediaType: MediaType)
      requires Valid()
      modifies this`recvBitRef, this`dataBitRef
      ensures Valid() && Abs() == S.NotifyReadReady(old(Abs()), id, mediaType)
    {
      hide C.Core, S.DataAvailable;
      C.NotifyReadReadyCore(Abs(), id, mediaType);
      if id in notifiers {
        SetReceiverReadRef(id, mediaType, true);
        var available := IsDataAvailable(id, mediaType);
        SetReceiverDataRef(id, mediaType, available);
      }
    }

    method IsRead(id: nat, index: nat) returns (read: bool)
      requires id in notifiers
      ensures read <==> S.IsRead(Q(), notifiers[id].readIndex, index)
    {
      if index >= |ring.items| {
        read := true;
      } else {
        read := notifiers[id].readIndex in ring.items[index].reserve;
      }
    }

    method IsDataAvailable(id: nat, mediaType: MediaType) returns (available: bool)
      requires id in notifiers
      ensures available <==> S.DataAvailable(Q(), notifiers[id], mediaType)
    {
      var n := notifiers[id];
      var index := if mediaType == Audio then n.audioIndex else n.videoIndex;
      if index == S.INVALID_INDEX {
        return false;
      }
      var read := IsRead(id, index + 1);
      match mediaType
      case Audio => available := index < lastAudioIndex || !read;
      case Video => available := index < lastVideoIndex || !read;
      case AV => available := (|ring.items| > 0 && index < |ring.items| - 1) || !read;
    }

    method ClearReadBit(id: nat, mediaType: MediaType)
      requires Valid()
      modifies this`recvBitRef
      ensures Valid() && Abs() == S.ClearReadBit(old(Abs()), id, mediaType)
    {
      hide C.Core;
      C.ClearReadBitCore(Abs(), id, mediaType);
      if id in notifiers {
        SetReceiverReadRef(id, mediaType, false);
      }
    }

    method ClearDataBit(id: nat, mediaType: MediaType)
      requires Valid()
      modifies this`dataBitRef
      ensures Valid() && Abs() == S.ClearDataBit(old(Abs()), id, mediaType)
    {
      hide C.Core;
      C.ClearDataBitCore(Abs(), id, mediaType);
      if id in notifiers {
        SetReceiverDataRef(id, mediaType, false);
      }
    }

    // -------------------------------------------------------------- switches

    static lemma FlagSteps(s: S.State, enable: bool)
      ensures S.Step(s, S.OpKeyMode(enable)).0 == s.(keyOnly := enable)
      ensures S.Step(s, S.OpRedirect(enable)).0 == s.(redirect := enable)
      ensures S.Step(s, S.OpRapid(enable)).0 == s.(rapid := enable)
    {
    }

    method EnableKeyMode(enable: bool)
      requires Valid()
      modifies this`keyOnly
      ensures Valid() && Abs() == S.Step(old(Abs()), S.OpKeyMode(enable)).0
    {
      hide C.Core, S.Step;
      FlagSteps(Abs(), enable);
      C.FlagsCore(Abs(), Abs().(keyOnly := enable));
      keyOnly := enable;
    }

    method EnableKeyRedirect(enable: bool)
      requires Valid()
      modifies this`keyRedirect
      ensures Valid() && Abs() == S.Step(old(Abs()), S.OpRedirect(enable)).0
    {
      hide C.Core, S.Step;
      FlagSteps(Abs(), enable);
      C.FlagsCore(Abs(), Abs().(redirect := enable));
      keyRedirect := enable;
    }

    method EnableRapidMode(enable: bool)
      requires Valid()
      modifies this`rapidMode
      ensures Valid() && Abs() == S.Step(old(Abs()), S.OpRapid(enable)).0
    {
      hide C.Core, S.Step;
      FlagSteps(Abs(), enable);
      C.FlagsCore(Abs(), Abs().(rapid := enable));
      rapidMode := enable;
    }

    /** The receiver switches its key mode; entering it withdraws the video data bit. */
    method SetReceiverKeyMode(id: nat, enable: bool)
      requires Valid()
      modifies this`notifiers, this`dataBitRef
      ensures Valid() && Abs() == S.ReceiverKeyMode(old(Abs()), id, enable)
    {
      hide C.Core;
      C.StepCore(Abs(), S.OpReceiverKeyMode(id, enable));
      if id in notifiers {
        notifiers := notifiers[id := notifiers[id].(keyMode := enable)];
        if enable {
          SetReceiverDataRef(id, Video, false);
        }
      }
    }

    /** The receiver asks for a redirect to the next key frame. */
    method SetReceiverRedirect(id: nat, enable: bool)
      requires Valid()
      modifies this`notifiers, this`keyRedirect
      ensures Valid() && Abs() == S.ReceiverRedirect(old(Abs()), id, enable)
    {
      hide C.Core;
      C.StepCore(Abs(), S.OpReceiverRedirect(id, enable));
      if id in notifiers {
        if enable {
          keyRedirect := true;
        }
        notifiers := notifiers[id := notifiers[id].(keyRedirect := enable)];
      }
    }
  }
}
