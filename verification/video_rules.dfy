/**
  The VIDEO rule group. Every rule reads the stream at the resolved video
  index, so each raises IndexError (an Error verdict) exactly when that index
  is past the end of the stream list; a missing field reads as "".
 */
module VideoRules {
  import opened Outcomes
  import opened Media
  import opened WebmView

  const VideoCodec: string := "vp9"
  const PixelFormat: string := "yuv420p"

  /** The values accepted for each of color_space, color_transfer and color_primaries. */
  const AcceptedColorValues: set<string> := {"bt709", "smpte170m", "bt470bg"}

  /** The average frame rates accepted: the 23.976, 24, 29.97 and 30 fps variants as the prober writes them. */
  const AcceptedFrameRates: set<string> := {
    "24000/1001", "2997/125", "23976/1000", "24/1", "30000/1001",
    "19001/634", "1990/83", "2997/100", "30/1"
  }

  /** assertIn(video_stream.get(name, ""), accepted, message). */
  function ExpectVideoEntryIn(v: View, name: string, accepted: set<string>, message: string): (r: Verdict)
    ensures r.Error? <==> VideoEntry(v, name).Err?
    ensures r.Error? ==> r.fault == IndexOutOfRange(v.videoIndex)
    ensures r.Pass? <==> VideoEntry(v, name).Ok? && VideoEntry(v, name).value in accepted
    ensures r.Fail? ==> r.message == message
  {
    match VideoEntry(v, name)
    case Err(fault) => Error(fault)
    case Ok(value) => Expect(value in accepted, message)
  }

  /** test_video_codec: codec_name is "vp9". */
  function CheckVideoCodec(v: View): (r: Verdict)
    ensures r.Error? <==> v.videoIndex >= |v.container.streams|
    ensures r.Error? ==> r.fault == IndexOutOfRange(v.videoIndex)
    ensures r.Pass? <==> VideoEntry(v, "codec_name") == Ok(VideoCodec)
    ensures r.Fail? ==> r.message == "Incorrect video codec"
  {
    ExpectVideoEntryIn(v, "codec_name", {VideoCodec}, "Incorrect video codec")
  }

  /** test_pix_fmt: pix_fmt is "yuv420p". */
  function CheckPixelFormat(v: View): (r: Verdict)
    ensures r.Error? <==> v.videoIndex >= |v.container.streams|
    ensures r.Error? ==> r.fault == IndexOutOfRange(v.videoIndex)
    ensures r.Pass? <==> VideoEntry(v, "pix_fmt") == Ok(PixelFormat)
    ensures r.Fail? ==> r.message == "Incorrect pixel format"
  {
    ExpectVideoEntryIn(v, "pix_fmt", {PixelFormat}, "Incorrect pixel format")
  }

  /** test_color_space: color_space is one of the accepted values; a missing one reads as "" and fails. */
  function CheckColorSpace(v: View): (r: Verdict)
    ensures r.Error? <==> v.videoIndex >= |v.container.streams|
    ensures r.Error? ==> r.fault == IndexOutOfRange(v.videoIndex)
    ensures r.Pass? <==> VideoEntry(v, "color_space").Ok? && VideoEntry(v, "color_space").value in AcceptedColorValues
    ensures r.Fail? ==> r.message == "Unexpected color_space"
  {
    ExpectVideoEntryIn(v, "color_space", AcceptedColorValues, "Unexpected color_space")
  }

  /** test_color_transfer: color_transfer is one of the accepted values. */
  function CheckColorTransfer(v: View): (r: Verdict)
    ensures r.Error? <==> v.videoIndex >= |v.container.streams|
    ensures r.Error? ==> r.fault == IndexOutOfRange(v.videoIndex)
    ensures r.Pass? <==> VideoEntry(v, "color_transfer").Ok? && VideoEntry(v, "color_transfer").value in AcceptedColorValues
    ensures r.Fail? ==> r.message == "Unexpected color_transfer"
  {
    ExpectVideoEntryIn(v, "color_transfer", AcceptedColorValues, "Unexpected color_transfer")
  }

  /** test_color_primaries: color_primaries is one of the accepted values. */
  function CheckColorPrimaries(v: View): (r: Verdict)
    ensures r.Error? <==> v.videoIndex >= |v.container.streams|
    ensures r.Error? ==> r.fault == IndexOutOfRange(v.videoIndex)
    ensures r.Pass? <==> VideoEntry(v, "color_primaries").Ok? && VideoEntry(v, "color_primaries").value in AcceptedColorValues
    ensures r.Fail? ==> r.message == "Unexpected color_primaries"
  {
    ExpectVideoEntryIn(v, "color_primaries", AcceptedColorValues, "Unexpected color_primaries")
  }

  /** test_framerate: avg_frame_rate is one of the listed rational strings, compared as text. */
  function CheckFrameRate(v: View): (r: Verdict)
    ensures r.Error? <==> v.videoIndex >= |v.container.streams|
    ensures r.Error? ==> r.fault == IndexOutOfRange(v.videoIndex)
    ensures r.Pass? <==> VideoEntry(v, "avg_frame_rate").Ok? && VideoEntry(v, "avg_frame_rate").value in AcceptedFrameRates
    ensures r.Fail? ==> r.message == "Unexpected framerate"
  {
    ExpectVideoEntryIn(v, "avg_frame_rate", AcceptedFrameRates, "Unexpected framerate")
  }

  /** The view with one field of the resolved video stream set to value. */
  function WithVideoField(v: View, name: string, value: string): (w: View)
    requires v.videoIndex < |v.container.streams|
    ensures VideoEntry(w, name) == Ok(value)
    ensures forall other | other != name :: VideoEntry(w, other) == VideoEntry(v, other)
  {
    var s := v.container.streams[v.videoIndex];
    v.(container := v.container.(streams := v.container.streams[v.videoIndex := s.(fields := s.fields[name := value])]))
  }

  /** The three colour rules are independent: each one's verdict is unaffected by the other two fields. */
  lemma ColorRulesIndependent(v: View, name: string, value: string)
    requires v.videoIndex < |v.container.streams|
    ensures name != "color_space" ==> CheckColorSpace(WithVideoField(v, name, value)) == CheckColorSpace(v)
    ensures name != "color_transfer" ==> CheckColorTransfer(WithVideoField(v, name, value)) == CheckColorTransfer(v)
    ensures name != "color_primaries" ==> CheckColorPrimaries(WithVideoField(v, name, value)) == CheckColorPrimaries(v)
  {
  }

  /** A video stream with the given avg_frame_rate, as the only stream of an opened view. */
  function FrameRateView(rate: string): View {
    var video := Stream(VideoRole, map["avg_frame_rate" := rate], None);
    Open(Container([video], FormatInfo(map[], Some([])), []), map[], map[])
  }

  /** NTSC film rate passes; a motion-interpolated 59.94 fps rate fails; a stream without the field fails. */
  lemma FrameRateExamples()
    ensures CheckFrameRate(FrameRateView("30000/1001")) == Pass
    ensures CheckFrameRate(FrameRateView("60000/1001")) == Fail("Unexpected framerate")
    ensures CheckFrameRate(FrameRateView("")) == Fail("Unexpected framerate")
  {
  }

  /** The video rules follow the resolved index: with audio first and video second, they read stream 1. */
  lemma VideoRulesFollowResolvedIndex(audio: Stream, video: Stream)
    requires audio.codecType == AudioRole && video.codecType == VideoRole
    ensures var v := Open(Container([audio, video], FormatInfo(map[], Some([])), []), map[], map[]);
      && v.videoIndex == 1
      && (CheckVideoCodec(v).Pass? <==> Get(video.fields, "codec_name") == VideoCodec)
  {
    var c := Container([audio, video], FormatInfo(map[], Some([])), []);
    VideoEntryReadsFirstVideoStream(c, map[], map[], 1, "codec_name");
    assert ResolvesTo(c.streams, VideoRole, 1);
    ResolutionIsUnique(c.streams, VideoRole, 1, Open(c, map[], map[]).videoIndex);
  }
}
