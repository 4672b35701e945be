/** What a pushed frame tells the receivers: which data bits it raises and which indices it moves. */
module DispatcherWakes {
  import opened Media
  import opened Options
  import opened DispatcherSpec
  import opened DispatcherInvariant
  import opened DispatcherCore
  import opened DispatcherSafety
  import opened DispatcherRedirect

  // ---------------------------------------------------------------- data bits

  lemma AppendRefs(s: State, media: MediaData)
    ensures Append(s, media).refs == s.refs.(dataRef := s.refs.dataRef + ReadyBits(s, media))
  {
    hide ReadyBits, AppendQueue, OnKeyRedirect;
  }

  /**
   * An audio frame raises the audio bit of every receiver. Any other frame raises the video bit: of every receiver
   * if it is a key video frame, and otherwise, unless the dispatcher is in key mode, of the receivers that are not.
   * No other bit changes.
   */
  lemma FramesRaiseBits(s: State, media: MediaData, bit: nat)
    ensures var t := Append(s, media);
            var audio := media.mediaType == Audio;
            var key := media.mediaType == Video && media.keyFrame;
            && t.refs.readRef == s.refs.readRef && t.refs.recvRef == s.refs.recvRef
            && (bit in t.refs.dataRef <==>
                  || bit in s.refs.dataRef
                  || exists id :: id in s.q.notifiers &&
                       if audio then bit == 2 * s.q.notifiers[id].readIndex
                       else bit == 2 * s.q.notifiers[id].readIndex + 1 &&
                            (key || (!s.keyOnly && !s.q.notifiers[id].keyMode)))
  {
    AppendRefs(s, media);
    hide Append;
  }

  // ---------------------------------------------------------------- indices

  /** The indices that a push gives to receiver `id`; `last` is the position of the new frame. */
  ghost predicate Moves(s: State, media: MediaData, id: nat)
    requires id in s.q.notifiers
  {
    var n := s.q.notifiers[id];
    var t := Append(s, media);
    var last := |t.q.frames| - 1;
    && t.q.frames != [] && id in t.q.notifiers
    && var m := t.q.notifiers[id];
    && m.readIndex == n.readIndex && m.keyMode == n.keyMode
    && m.audioIndex == (if media.mediaType == Audio && s.audioNeedActivate && n.audioIndex == INVALID_INDEX
                        then last else n.audioIndex)
    && m.videoIndex == (if media.mediaType == Video && media.keyFrame &&
                           ((s.redirect && n.keyRedirect) || (n.keyMode && s.q.keys == []) ||
                            (s.videoNeedActivate && n.videoIndex == INVALID_INDEX))
                        then last else n.videoIndex)
    && m.keyRedirect ==
       (n.keyRedirect && !(media.mediaType == Video && media.keyFrame && s.redirect && !s.rapid))
  }

  lemma PlainAppend(s: State, media: MediaData)
    requires Core(s) && !(IsKeyVideo(media) && s.redirect)
    ensures var t := Append(s, media);
            && t.q.notifiers == AppendNotifiers(s, media, |t.q.frames| - 1) && t.q.frames != []
  {
    CoreParts(s);
    AppendQueueCore(s, media);
    hide Core, CoreQ, CoreSized, AppendNotifiers, ReadyBits, PushBack, Jumped;
  }

  lemma NotifierMoves(s: State, media: MediaData, last: nat, id: nat)
    requires id in s.q.notifiers
    ensures var n := s.q.notifiers[id];
            var ms := AppendNotifiers(s, media, last);
            && id in ms
            && ms[id] == n.(
                 audioIndex := if media.mediaType == Audio && s.audioNeedActivate && n.audioIndex == INVALID_INDEX
                               then last else n.audioIndex,
                 videoIndex := if media.mediaType == Video && media.keyFrame &&
                                  ((n.keyMode && s.q.keys == []) ||
                                   (s.videoNeedActivate && n.videoIndex == INVALID_INDEX))
                               then last else n.videoIndex)
  {
  }

  /**
   * A push moves the index of a receiver to the new frame in four cases only: an audio index that is invalid, on
   * request; and for a key video frame the video index of a redirected receiver, of a receiver in key mode when no
   * key frame is buffered, and of one whose index is invalid, on request.
   */
  lemma PushMovesIndices(s: State, media: MediaData, id: nat)
    requires Core(s) && id in s.q.notifiers
    ensures Moves(s, media, id)
  {
    hide Core, Append, AppendNotifiers;
    if IsKeyVideo(media) && s.redirect {
      AppendRedirected(s, media, id);
    } else {
      PlainAppend(s, media);
      NotifierMoves(s, media, |Append(s, media).q.frames| - 1, id);
    }
  }

  lemma AppendRedirected(s: State, media: MediaData, id: nat)
    requires Core(s) && id in s.q.notifiers && IsKeyVideo(media) && s.redirect
    ensures Moves(s, media, id)
  {
    QueueToRedirect(s, media);
    hide Core, AppendNotifiers, AppendQueue, Kept, RedirectTo;
    AppendRedirects(s, media);
    hide Append;
    var last := |Kept(s.q.frames, s.z.capacity)|;
    NotifierMoves(s, media, last, id);
    RedirectedNotifier(AppendQueue(s, media), last, s.rapid, id);
  }

  lemma RedirectedNotifier(q: Queue, next: nat, rapid: bool, id: nat)
    requires id in q.notifiers
    ensures var t := RedirectTo(q, next, rapid);
            && |t.frames| == |q.frames| && id in t.notifiers
            && t.notifiers[id] == RedirectNotifier(q.notifiers[id], next, rapid)
  {
  }

  /**
   * After a key video frame a receiver has a video index if and only if it had one, or is redirected, or is in key
   * mode with no key frame buffered, or the dispatcher has been asked to activate video indices.
   */
  lemma VideoIndexAfterKey(s: State, media: MediaData, id: nat)
    requires Core(s) && id in s.q.notifiers && media.mediaType == Video && media.keyFrame
    ensures var t := Append(s, media);
            var n := s.q.notifiers[id];
            id in t.q.notifiers &&
            (t.q.notifiers[id].videoIndex != INVALID_INDEX <==>
               || n.videoIndex != INVALID_INDEX || (s.redirect && n.keyRedirect)
               || (n.keyMode && s.q.keys == []) || s.videoNeedActivate)
  {
    PushMovesIndices(s, media, id);
    CoreParts(s);
    AppendQueueCore(s, media);
    AppendCore(s, media);
    hide Core, Append, AppendQueue, CoreQ;
  }

  /** A request to activate indices is dropped by the frame that meets a receiver without one. */
  lemma RequestsEnd(s: State, media: MediaData)
    requires Core(s)
    ensures var t := Append(s, media);
            && t.audioNeedActivate ==
               (s.audioNeedActivate && (media.mediaType == Audio ==>
                  forall id | id in s.q.notifiers :: s.q.notifiers[id].audioIndex != INVALID_INDEX))
            && t.videoNeedActivate ==
               (s.videoNeedActivate && (media.mediaType == Video && media.keyFrame ==>
                  forall id | id in s.q.notifiers ::
                    s.q.notifiers[id].videoIndex != INVALID_INDEX || (s.q.notifiers[id].keyMode && s.q.keys == [])))
            && t.redirect == (s.redirect && !(media.mediaType == Video && media.keyFrame))
  {
    CoreParts(s);
    AppendQueueCore(s, media);
    hide Core, CoreQ, CoreSized, AppendQueue, OnKeyRedirect, ReadyBits;
  }

  // ---------------------------------------------------------------- counters

  /** A push counts its frame, and a pop uncounts the head, each in the counter of its kind and modulo 2^32. */
  lemma FramesAreCounted(s: State, media: MediaData, q: Queue)
    requires s.q.audioCnt < 0x1_0000_0000 && s.q.videoCnt < 0x1_0000_0000
    requires q.audioCnt < 0x1_0000_0000 && q.videoCnt < 0x1_0000_0000 && q.frames != []
    ensures var t := Append(s, media).q;
            var audio := if media.mediaType == Audio then 1 else 0;
            && t.audioCnt == (s.q.audioCnt + audio) % 0x1_0000_0000
            && t.videoCnt == (s.q.videoCnt + 1 - audio) % 0x1_0000_0000
    ensures var t := PopHead(q);
            var audio := if q.frames[0].media.mediaType == Audio then 1 else 0;
            && t.audioCnt == (q.audioCnt - audio) % 0x1_0000_0000
            && t.videoCnt == (q.videoCnt - 1 + audio) % 0x1_0000_0000
  {
    hide PushBack, AppendNotifiers, ReadyBits, RedirectMarks;
  }
}
