/** The merger object: it collects frames in place and appends the encoding of a completed group to a buffer. */
module FrameMergers {
  import opened Bytes
  import opened FrameMergerSpec
  import opened DataBuffers
  import opened Options

  /** The arguments of the output callback, which also receives the buffer. */
  datatype Output = Output(dts: nat, pts: nat, haveKeyFrame: bool)

  class FrameMerger {
    var mode: Mode
    var frameCache: seq<Frame>
    var haveDecodeAbleFrame: bool

    ghost function Abs(): Merger
      reads this
    {
      Merger(mode, frameCache, haveDecodeAbleFrame)
    }

    constructor (m: Mode)
      ensures Abs() == NewMerger(m)
    {
      mode, frameCache, haveDecodeAbleFrame := m, [], false;
    }

    method Clear()
      modifies this
      ensures Abs() == NewMerger(old(mode))
    {
      frameCache, haveDecodeAbleFrame := [], false;
    }

    method WillFlush(frame: Option<Frame>) returns (r: bool)
      ensures r == FrameMergerSpec.WillFlush(Abs(), frame)
    {
      if frameCache == [] {
        return false;
      }
      if frame.None? {
        return true;
      }
      var f := frame.value;
      var back := frameCache[|frameCache| - 1];
      match mode {
        case Plain =>
          var newFrame := false;
          if f.codec == CodecH264 || f.codec == CodecH265 {
            newFrame := f.prefix != 0;
          }
          return newFrame || back.dts != f.dts || |frameCache| > MAX_FRAME_CACHE_SIZE;
        case Unknown =>
          return false;
        case _ =>
          if !haveDecodeAbleFrame {
            return |frameCache| > MAX_FRAME_CACHE_SIZE;
          }
          if back.dts != f.dts || f.decodeAble || f.configFrame {
            return true;
          }
          return |frameCache| > MAX_FRAME_CACHE_SIZE;
      }
    }

    method DoMerge(merged: DataBuffer, frame: Frame)
      requires frame.Valid() && merged.Valid() && merged.size + |Encode(mode, frame)| <= INT32_MAX
      modifies merged, merged.data
      ensures merged.Valid() && (merged.data == old(merged.data) || fresh(merged.data))
      ensures merged.Contents() == old(merged.Contents()) + Encode(mode, frame)
    {
      ghost var before := merged.Contents();
      match mode {
        case Plain => merged.Append(frame.data);
        case H264Prefix =>
          if frame.prefix != 0 {
            merged.Append(frame.data);
          } else {
            merged.Append([0, 0, 0, 1]);
            merged.Append(frame.data);
            ConcatAssociates(before, [0, 0, 0, 1], frame.data);
          }
        case Mp4NalSize =>
          var length := BigEndian(|frame.data| - frame.prefix);
          merged.Append(length);
          merged.Append(frame.data[frame.prefix..]);
          ConcatAssociates(before, length, frame.Payload());
        case Unknown =>
      }
    }

    /** Appends the encodings of all cached frames; `key` says whether one of them is a key frame. */
    method MergeCache(merged: DataBuffer) returns (key: bool)
      requires AllValid(frameCache) && merged.Valid()
      requires merged.size + |EncodeAll(mode, frameCache)| <= INT32_MAX
      modifies merged, merged.data
      ensures merged.Valid() && (merged.data == old(merged.data) || fresh(merged.data))
      ensures merged.Contents() == old(merged.Contents()) + EncodeAll(mode, frameCache)
      ensures key == exists i :: 0 <= i < |frameCache| && frameCache[i].keyFrame
    {
      hide EncodeAll, Encode, AllValid;
      key := false;
      ghost var before := merged.Contents();
      var i := 0;
      EncodedNothing(mode);
      while i < |frameCache|
        invariant 0 <= i <= |frameCache| && merged.Valid()
        invariant merged.data == old(merged.data) || fresh(merged.data)
        invariant AllValid(frameCache[..i]) && merged.Contents() == before + EncodeAll(mode, frameCache[..i])
        invariant key == exists k :: 0 <= k < i && frameCache[k].keyFrame
      {
        EncodedSoFar(mode, frameCache, i);
        ghost var soFar := EncodeAll(mode, frameCache[..i]);
        DoMerge(merged, frameCache[i]);
        ConcatAssociates(before, soFar, Encode(mode, frameCache[i]));
        key := key || frameCache[i].keyFrame;
        i := i + 1;
      }
      assert frameCache[..i] == frameCache;
    }

    method InputFrame(frame: Option<Frame>, buffer: DataBuffer?) returns (accepted: bool, output: Option<Output>)
      requires AllValid(frameCache)
      requires buffer != null ==>
                 buffer.Valid() && buffer.size + |EncodeAll(mode, frameCache)| <= INT32_MAX
      modifies this, buffer, if buffer != null then {buffer.data} else {}
      ensures buffer == null ==> Abs() == old(Abs()) && !accepted && output.None?
      ensures buffer != null ==>
                && Abs() == FrameMergerSpec.InputFrame(old(Abs()), frame) && accepted == frame.Some?
                && buffer.Valid() && (buffer.data == old(buffer.data) || fresh(buffer.data))
                && (if FrameMergerSpec.WillFlush(old(Abs()), frame) then
                      && var group := old(frameCache);
                      && buffer.Contents() == old(buffer.Contents()) + EncodeAll(mode, group)
                      && output == Some(Output(group[|group| - 1].dts, group[|group| - 1].pts,
                                               exists i :: 0 <= i < |group| && group[i].keyFrame))
                    else buffer.Contents() == old(buffer.Contents()) && output.None?)
    {
      output := None;
      if buffer == null {
        return false, None;
      }
      var flush := WillFlush(frame);
      if flush {
        var back := frameCache[|frameCache| - 1];
        var key := MergeCache(buffer);
        output := Some(Output(back.dts, back.pts, key));
        frameCache, haveDecodeAbleFrame := [], false;
      }
      if frame.None? {
        return false, output;
      }
      if frame.value.decodeAble {
        haveDecodeAbleFrame := true;
      }
      frameCache := frameCache + [frame.value];
      return true, output;
    }
  }

  lemma EncodedNothing(mode: Mode)
    ensures AllValid([]) && EncodeAll(mode, []) == []
  {
  }

  lemma EncodedSoFar(mode: Mode, frames: seq<Frame>, i: nat)
    requires AllValid(frames) && i < |frames|
    ensures frames[i].Valid() && AllValid(frames[..i + 1])
    ensures EncodeAll(mode, frames[..i + 1]) == EncodeAll(mode, frames[..i]) + Encode(mode, frames[i])
    ensures |EncodeAll(mode, frames[..i])| + |Encode(mode, frames[i])| <= |EncodeAll(mode, frames)|
  {
    EncodeAppends(mode, frames[..i], [frames[i]]);
    assert frames[..i + 1] == frames[..i] + [frames[i]];
    EncodeAppends(mode, frames[..i + 1], frames[i + 1..]);
    assert frames == frames[..i + 1] + frames[i + 1..];
    assert EncodeAll(mode, [frames[i]]) == Encode(mode, frames[i]) + EncodeAll(mode, []);
  }
}
