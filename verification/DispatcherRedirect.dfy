/** Key redirect: a redirected receiver is served the next key frame, and what it skips counts as read. */
module DispatcherRedirect {
  import opened Media
  import opened Options
  import opened DispatcherSpec
  import opened DispatcherInvariant
  import opened DispatcherCore

  // ---------------------------------------------------------------- one push

  /** A push moves the video index of a receiver to the new frame, or not at all. */
  lemma PushMoves(s: State, media: MediaData, last: nat, id: nat)
    requires id in s.q.notifiers
    ensures var n := s.q.notifiers[id];
            var ms := AppendNotifiers(s, media, last);
            && id in ms && ms[id] == n.(audioIndex := ms[id].audioIndex, videoIndex := ms[id].videoIndex)
            && (ms[id].videoIndex != n.videoIndex ==>
                  && ms[id].videoIndex == last
                  && (n.videoIndex == INVALID_INDEX || (n.keyMode && s.q.keys == [])))
  {
  }

  lemma RedirectedFrames(q: Queue, next: nat, rapid: bool, id: nat)
    requires id in q.notifiers && next < |q.frames| && q.frames[next].reserve == {}
    requires forall a, b | a in q.notifiers && b in q.notifiers && a != b ::
               q.notifiers[a].readIndex != q.notifiers[b].readIndex
    ensures var t := RedirectTo(q, next, rapid);
            var n := q.notifiers[id];
            && |t.frames| == |q.frames| && t.frames[next] == q.frames[next]
            && id in t.notifiers && t.notifiers[id] == RedirectNotifier(n, next, rapid)
            && forall k | 0 <= k < |t.frames| ::
                 n.readIndex in t.frames[k].reserve <==>
                 n.readIndex in q.frames[k].reserve || (n.keyRedirect && n.videoIndex <= k < next)
  {
    var t := RedirectTo(q, next, rapid);
    assert forall i | 0 <= i < |t.frames| :: t.frames[i] == AddMarks(q.frames[i], RedirectMarks(q.notifiers, i, next));
    assert RedirectMarks(q.notifiers, next, next) == {};
    hide RedirectTo;
  }

  /** What a receiver finds after a key frame was pushed while a redirect was wanted. */
  ghost predicate Redirected(s: State, media: MediaData, id: nat)
    requires id in s.q.notifiers
  {
    var t := Append(s, media);
    var n := s.q.notifiers[id];
    var before := Kept(s.q.frames, s.z.capacity);
    var last := |before|;
    && |t.q.frames| == last + 1 && t.q.frames[last] == NewFrame(s, media) && id in t.q.notifiers && !t.redirect
    && t.q.notifiers[id].readIndex == n.readIndex
    && (n.keyRedirect ==>
          && t.q.notifiers[id].videoIndex == last && (t.q.notifiers[id].keyRedirect <==> s.rapid)
          && (!(n.keyMode && s.q.keys == []) ==>
                forall k | n.videoIndex <= k < last :: n.readIndex in t.q.frames[k].reserve))
    && (!n.keyRedirect ==>
          && !t.q.notifiers[id].keyRedirect
          && t.q.notifiers[id].videoIndex == AppendNotifiers(s, media, last)[id].videoIndex
          && forall k | 0 <= k < last :: n.readIndex in t.q.frames[k].reserve <==> n.readIndex in before[k].reserve)
  }

  /**
   * A key frame pushed while a redirect is wanted sends every redirected receiver to itself and marks what the
   * receiver skips as read by it, unless the receiver is in key mode and this is the only key frame buffered; the
   * other receivers and their marks are left alone. This is so in every reachable state of every configuration.
   */
  lemma KeyRedirectMarks(s: State, media: MediaData, id: nat)
    requires Core(s) && id in s.q.notifiers && IsKeyVideo(media) && s.redirect
    ensures Redirected(s, media, id)
  {
    var q := AppendQueue(s, media);
    var last := |Kept(s.q.frames, s.z.capacity)|;
    QueueToRedirect(s, media);
    QueueSlots(s, media);
    hide Core, AppendQueue, AppendNotifiers, RedirectTo, Kept;
    AppendRedirects(s, media);
    PushMoves(s, media, last, id);
    RedirectedFrames(q, last, s.rapid, id);
    hide Append;
  }

  lemma QueueToRedirect(s: State, media: MediaData)
    requires IsKeyVideo(media)
    ensures var q := AppendQueue(s, media);
            var before := Kept(s.q.frames, s.z.capacity);
            && q.frames == before + [NewFrame(s, media)] && q.keys == s.q.keys + [|before|]
            && q.notifiers == AppendNotifiers(s, media, |before|)
  {
    hide AppendNotifiers;
  }

  lemma QueueSlots(s: State, media: MediaData)
    requires Core(s)
    ensures var ns := AppendQueue(s, media).notifiers;
            forall a, b | a in ns && b in ns && a != b :: ns[a].readIndex != ns[b].readIndex
  {
    CoreParts(s);
    hide Core, CoreSized, CoreQ, AppendQueue, SameSlots, Before, SlotsOK;
    AppendQueueCore(s, media);
    SameSlotsKeeps(s.q.notifiers, AppendQueue(s, media).notifiers, s.refs);
    SlotsDiffer(AppendQueue(s, media).notifiers, s.refs);
  }

  lemma SlotsDiffer(ns: Notifiers, refs: Refs)
    requires SlotsOK(ns, refs)
    ensures forall a, b | a in ns && b in ns && a != b :: ns[a].readIndex != ns[b].readIndex
  {
  }

  lemma AppendRedirects(s: State, media: MediaData)
    requires IsKeyVideo(media) && s.redirect
    requires AppendQueue(s, media).keys == s.q.keys + [|Kept(s.q.frames, s.z.capacity)|]
    ensures !Append(s, media).redirect
    ensures Append(s, media).q ==
            RedirectTo(AppendQueue(s, media), |Kept(s.q.frames, s.z.capacity)|, s.rapid)
  {
    hide AppendQueue, RedirectTo, Kept, ReadyBits, Jumped;
  }

  // ---------------------------------------------------------------- making room keeps the wish for a redirect

  /** The receivers are the same but for their indices. */
  ghost predicate SameWishes(a: Notifiers, b: Notifiers) {
    && a.Keys == b.Keys
    && forall id | id in a :: a[id] == b[id].(audioIndex := a[id].audioIndex, videoIndex := a[id].videoIndex)
  }

  /** `t` has the receivers, the redirect flag and the frame numbers of `s`. */
  ghost predicate Wished(s: State, t: State) {
    SameWishes(s.q.notifiers, t.q.notifiers) && t.redirect == s.redirect && t.nextSeq == s.nextSeq
  }

  lemma WishesThen(a: Notifiers, b: Notifiers, c: Notifiers)
    requires SameWishes(a, b) && SameWishes(b, c)
    ensures SameWishes(a, c)
  {
  }

  lemma PopWishes(q: Queue, audio: bool)
    requires q.frames != []
    ensures SameWishes(q.notifiers, PopAs(q, audio).notifiers)
  {
  }

  lemma {:induction false} PopHeadsWishes(q: Queue, n: nat)
    ensures SameWishes(q.notifiers, PopHeads(q, n).notifiers)
    decreases n
  {
    if n > 0 && q.frames != [] {
      hide PopAs;
      var t := PopHead(q);
      PopWishes(q, IsAudio(q.frames[0].media));
      PopHeadsWishes(t, n - 1);
      WishesThen(q.notifiers, t.notifiers, PopHeads(t, n - 1).notifiers);
    }
  }

  lemma {:induction false} PopAudiosWishes(q: Queue, n: nat)
    ensures SameWishes(q.notifiers, PopAudios(q, n).notifiers)
    decreases n
  {
    if n > 0 && q.frames != [] {
      hide PopAs;
      var t := PopAs(q, true);
      PopWishes(q, true);
      PopAudiosWishes(t, n - 1);
      WishesThen(q.notifiers, t.notifiers, PopAudios(t, n - 1).notifiers);
    }
  }

  lemma DeleteHeadsWishes(s: State, n: nat, force: bool)
    ensures Wished(s, DeleteHeads(s, n, force))
  {
    hide DeleteLoop, PopHeads;
    var k := DeleteLoopIsPopHeads(s.q, s.refs.readRef, n, force);
    PopHeadsWishes(s.q, k);
  }

  lemma EraseWishes(s: State)
    ensures Wished(s, EraseOldGop(s))
  {
    if s.cfg.mode != AudioOnly {
      var k := LastKey(s.q.keys);
      hide DeleteHeads, SameWishes, LastKey;
      DeleteHeadsWishes(s.(q := s.q.(keys := if k > 0 then [k] else s.q.keys)), k, false);
      var t := ErasePolitely(s);
      DeleteHeadsWishes(t, NextDeleteVideo(t.q.frames), true);
      WishesThen(s.q.notifiers, t.q.notifiers, EraseToVideo(t).q.notifiers);
    }
  }

  lemma EvictWishes(s: State, media: MediaData)
    ensures Wished(s, Evict(s, media))
  {
    PopHeadsWishes(s.q, (if IsVideo(media) then NextDeleteVideo(s.q.frames) else 1) + 1);
    hide PopHeads;
  }

  lemma RestoreWishes(s: State)
    ensures Wished(s, Restore(Extend(s)))
  {
    PopAudiosWishes(s.q, Excess(|s.q.frames|));
    hide PopAudios;
  }

  lemma MakeRoomWishes(s: State, media: MediaData)
    ensures Wished(s, MakeRoom(s, media))
  {
    var t := Restore(Extend(s));
    var u := if IsKeyVideo(media) && !t.keyOnly then EraseOldGop(t) else t;
    hide Restore, Extend, EraseOldGop, Evict, SameWishes;
    RestoreWishes(s);
    if IsKeyVideo(media) && !t.keyOnly {
      EraseWishes(t);
      WishesThen(s.q.notifiers, t.q.notifiers, u.q.notifiers);
    }
    EvictWishes(u, media);
    WishesThen(s.q.notifiers, u.q.notifiers, Evict(u, media).q.notifiers);
  }

  /** A key frame is always admitted. */
  lemma AdmitWishes(s: State, media: MediaData)
    requires IsKeyVideo(media)
    ensures Admit(s, media).Some? && Wished(s, Admit(s, media).value)
  {
  }

  // ---------------------------------------------------------------- the next key frame is served

  lemma AppendServes(s: State, media: MediaData, id: nat)
    requires Core(s) && id in s.q.notifiers && IsKeyVideo(media) && s.redirect && s.q.notifiers[id].keyRedirect
    ensures Read(Append(s, media).(nextSeq := s.nextSeq + 1), id, Video).1 == Some(NewFrame(s, media))
  {
    KeyRedirectMarks(s, media, id);
    hide Core, Append, Kept, Advance, AppendNotifiers;
  }

  /**
   * After every run, for every configuration: when a redirect is wanted, the first video read of a redirected
   * receiver after the next key frame is handed that frame, however much the receiver had left unread.
   */
  lemma RedirectServesKeyFrame(cfg: Config, ops: seq<Op>, id: nat, media: MediaData)
    requires CoreConfig(cfg) && IsKeyVideo(media)
    requires var s := Run(Initial(cfg), ops); s.redirect && id in s.q.notifiers && s.q.notifiers[id].keyRedirect
    ensures var s := Run(Initial(cfg), ops);
            Read(Input(s, media), id, Video).1 == Some(DataSpec(s.nextSeq, media, {}))
  {
    hide Core, Run, Initial, Admit, MakeRoom, Append, Read, CoreSized, CoreQ, Before, SlotsOK;
    var s := Run(Initial(cfg), ops);
    ReachableCore(cfg, ops);
    AdmitCore(s, media);
    AdmitWishes(s, media);
    var t := Admit(s, media).value;
    CoreParts(t);
    MakeRoomCore(t, media);
    var u := MakeRoom(t, media);
    StageCore(t, u);
    MakeRoomWishes(t, media);
    AppendServes(u, media, id);
  }
}
