/**
  The read-only view the rules query: the whole-file report, the format record
  of the audio-only re-mux, the loudness measurement, and the stream indices
  resolved once when the view is built.
 */
module WebmView {
  import opened Outcomes
  import opened Media

  const VideoRole: string := "video"
  const AudioRole: string := "audio"

  /** Some stream has codec_type role. */
  predicate HasRole(streams: seq<Stream>, role: string) {
    exists i | 0 <= i < |streams| :: streams[i].codecType == role
  }

  /**
    i is the answer the resolver owes: the first stream with codec_type role
    when there is one, and 0 when there is none.
   */
  predicate ResolvesTo(streams: seq<Stream>, role: string, i: nat) {
    if HasRole(streams, role) then
      && i < |streams|
      && streams[i].codecType == role
      && forall j | 0 <= j < i :: streams[j].codecType != role
    else
      i == 0
  }

  /** get_stream_index: scan the streams in order for the first one with the role; 0 when none has it. */
  function StreamIndex(streams: seq<Stream>, role: string): (i: nat)
    ensures ResolvesTo(streams, role, i)
  {
    ScanFrom(streams, role, 0)
  }

  /** The scan of StreamIndex from position start, every earlier stream having another role. */
  function ScanFrom(streams: seq<Stream>, role: string, start: nat): (i: nat)
    requires start <= |streams|
    requires forall j | 0 <= j < start :: streams[j].codecType != role
    ensures ResolvesTo(streams, role, i)
    decreases |streams| - start
  {
    if start == |streams| then 0
    else if streams[start].codecType == role then start
    else ScanFrom(streams, role, start + 1)
  }

  /** At most one index answers a resolution, so the same streams and role always give the same index. */
  lemma ResolutionIsUnique(streams: seq<Stream>, role: string, i: nat, k: nat)
    requires ResolvesTo(streams, role, i) && ResolvesTo(streams, role, k)
    ensures i == k
  {
  }

  /** The metadata view of one file. */
  datatype View = View(
    container: Container,
    audioFormat: map<string, string>,
    loudness: map<string, real>,
    videoIndex: nat,
    audioIndex: nat)

  /** Build the view from the three probed sources, resolving the video and audio indices once. */
  function Open(container: Container, audioFormat: map<string, string>, loudness: map<string, real>): (v: View)
    ensures v.container == container && v.audioFormat == audioFormat && v.loudness == loudness
    ensures ResolvesTo(container.streams, VideoRole, v.videoIndex)
    ensures ResolvesTo(container.streams, AudioRole, v.audioIndex)
  {
    View(
      container, audioFormat, loudness,
      StreamIndex(container.streams, VideoRole),
      StreamIndex(container.streams, AudioRole))
  }

  /** streams[index].get(name, ""): raises IndexError past the end of the list. */
  function StreamEntry(streams: seq<Stream>, index: nat, name: string): (r: Result<string>)
    ensures r.Err? <==> index >= |streams|
    ensures r.Err? ==> r.fault == IndexOutOfRange(index)
    ensures r.Ok? && name in streams[index].fields ==> r.value == streams[index].fields[name]
    ensures r.Ok? && name !in streams[index].fields ==> r.value == ""
  {
    if index < |streams| then Ok(Get(streams[index].fields, name)) else Err(IndexOutOfRange(index))
  }

  /** get_video_stream_entry: a field of the stream at the resolved video index. */
  function VideoEntry(v: View, name: string): (r: Result<string>)
    ensures r.Err? <==> v.videoIndex >= |v.container.streams|
    ensures r.Err? ==> r.fault == IndexOutOfRange(v.videoIndex)
    ensures r.Ok? ==> r.value == Get(v.container.streams[v.videoIndex].fields, name)
  {
    StreamEntry(v.container.streams, v.videoIndex, name)
  }

  /** get_audio_stream_entry: a field of the stream at the resolved audio index. */
  function AudioEntry(v: View, name: string): (r: Result<string>)
    ensures r.Err? <==> v.audioIndex >= |v.container.streams|
    ensures r.Err? ==> r.fault == IndexOutOfRange(v.audioIndex)
    ensures r.Ok? ==> r.value == Get(v.container.streams[v.audioIndex].fields, name)
  {
    StreamEntry(v.container.streams, v.audioIndex, name)
  }

  /** get_audio_format_entry: a field of the audio-only re-mux's format record, "" when missing. */
  function AudioFormatEntry(v: View, name: string): (r: string)
    ensures name in v.audioFormat ==> r == v.audioFormat[name]
    ensures name !in v.audioFormat ==> r == ""
  {
    Get(v.audioFormat, name)
  }

  /** get_loudness_entry: a loudness measurement; None stands for the "" a missing entry reads as. */
  function LoudnessEntry(v: View, name: string): (r: Option<real>)
    ensures r.Some? <==> name in v.loudness
    ensures r.Some? ==> r.value == v.loudness[name]
  {
    if name in v.loudness then Some(v.loudness[name]) else None
  }

  /** When stream i is the first video stream, the video accessor of the opened view reads stream i and no other. */
  lemma VideoEntryReadsFirstVideoStream(
    c: Container, audioFormat: map<string, string>, loudness: map<string, real>, i: nat, name: string)
    requires i < |c.streams| && c.streams[i].codecType == VideoRole
    requires forall j | 0 <= j < i :: c.streams[j].codecType != VideoRole
    ensures VideoEntry(Open(c, audioFormat, loudness), name) == Ok(Get(c.streams[i].fields, name))
  {
    var v := Open(c, audioFormat, loudness);
    assert ResolvesTo(c.streams, VideoRole, i);
    ResolutionIsUnique(c.streams, VideoRole, i, v.videoIndex);
  }

  /** When stream i is the first audio stream, the audio accessor of the opened view reads stream i and no other. */
  lemma AudioEntryReadsFirstAudioStream(
    c: Container, audioFormat: map<string, string>, loudness: map<string, real>, i: nat, name: string)
    requires i < |c.streams| && c.streams[i].codecType == AudioRole
    requires forall j | 0 <= j < i :: c.streams[j].codecType != AudioRole
    ensures AudioEntry(Open(c, audioFormat, loudness), name) == Ok(Get(c.streams[i].fields, name))
  {
    var v := Open(c, audioFormat, loudness);
    assert ResolvesTo(c.streams, AudioRole, i);
    ResolutionIsUnique(c.streams, AudioRole, i, v.audioIndex);
  }

  /**
    Without a stream of the role, the accessors fall back to stream 0: they
    read it when there is one and raise IndexError on an empty stream list.
   */
  lemma MissingRoleFallsBackToFirstStream(
    c: Container, audioFormat: map<string, string>, loudness: map<string, real>, name: string)
    ensures var v := Open(c, audioFormat, loudness);
      && (!HasRole(c.streams, VideoRole) && |c.streams| > 0 ==> VideoEntry(v, name) == Ok(Get(c.streams[0].fields, name)))
      && (!HasRole(c.streams, AudioRole) && |c.streams| > 0 ==> AudioEntry(v, name) == Ok(Get(c.streams[0].fields, name)))
      && (|c.streams| == 0 ==> VideoEntry(v, name) == Err(IndexOutOfRange(0)) && AudioEntry(v, name) == Err(IndexOutOfRange(0)))
  {
  }

  /** The layout the standard expects, video first and audio second, resolves to indices 0 and 1. */
  lemma ExpectedLayoutResolves(c: Container, audioFormat: map<string, string>, loudness: map<string, real>)
    requires |c.streams| >= 2
    requires c.streams[0].codecType == VideoRole && c.streams[1].codecType == AudioRole
    ensures Open(c, audioFormat, loudness).videoIndex == 0
    ensures Open(c, audioFormat, loudness).audioIndex == 1
  {
    var v := Open(c, audioFormat, loudness);
    assert ResolvesTo(c.streams, VideoRole, 0);
    ResolutionIsUnique(c.streams, VideoRole, 0, v.videoIndex);
    assert ResolvesTo(c.streams, AudioRole, 1);
    ResolutionIsUnique(c.streams, AudioRole, 1, v.audioIndex);
  }
}
