/** Media frames and the element stored by the dispatcher's ring buffer. */
module Media {
  /** MEDIA_TYPE_AV is a legal enumerator, so a frame may carry it although the producers never send it. */
  datatype MediaType = AV | Audio | Video

  datatype MediaData = MediaData(mediaType: MediaType, keyFrame: bool, pts: nat)

  /** `seqNo` is the input sequence number; `reserve` is the set of bit positions set in reserveFlag. */
  datatype DataSpec = DataSpec(seqNo: nat, media: MediaData, reserve: set<nat>)

  predicate IsAudio(media: MediaData) {
    media.mediaType == Audio
  }

  predicate IsVideo(media: MediaData) {
    media.mediaType == Video
  }

  predicate IsKeyVideo(media: MediaData) {
    media.mediaType == Video && media.keyFrame
  }

  function CountAudio(frames: seq<DataSpec>): nat {
    if frames == [] then 0 else (if IsAudio(frames[0].media) then 1 else 0) + CountAudio(frames[1..])
  }

  lemma {:induction false} CountAudioBound(frames: seq<DataSpec>)
    ensures CountAudio(frames) <= |frames|
    ensures CountAudio(frames) == |frames| <==> forall i | 0 <= i < |frames| :: IsAudio(frames[i].media)
  {
    if frames != [] {
      CountAudioBound(frames[1..]);
      assert forall i | 0 < i < |frames| :: frames[i] == frames[1..][i - 1];
    }
  }

  lemma {:induction false} CountAudioAppend(frames: seq<DataSpec>, d: DataSpec)
    ensures CountAudio(frames + [d]) == CountAudio(frames) + if IsAudio(d.media) then 1 else 0
  {
    if frames != [] {
      assert (frames + [d])[1..] == frames[1..] + [d];
      CountAudioAppend(frames[1..], d);
    }
  }

  lemma {:induction false} CountAudioSameMedia(a: seq<DataSpec>, b: seq<DataSpec>)
    requires |a| == |b|
    requires forall i | 0 <= i < |a| :: a[i].media == b[i].media
    ensures CountAudio(a) == CountAudio(b)
  {
    if a != [] {
      CountAudioSameMedia(a[1..], b[1..]);
    }
  }
}
