/**
  The AUDIO rule group: codec, loudness normalisation, the bitrate of the
  audio-only re-mux, sample rate and channel layout. Stream fields are read at
  the resolved audio index; the loudness values are the measurement's numbers.
 */
module AudioRules {
  import opened Outcomes
  import opened Text
  import opened Media
  import opened WebmView

  const AudioCodec: string := "opus"

  /** Integrated loudness must lie within 0.25 LU of the -16 LUFS target, both ends included. */
  const LoudnessLow: real := -16.25
  const LoudnessHigh: real := -15.75

  /** True peak must not exceed -1.0 dB. */
  const TruePeakMax: real := -1.0

  /** The 192 kbps and 320 kbps targets, each with a tolerance band for variable bitrate. */
  predicate InBitrateBands(bitRate: int) {
    (167000 <= bitRate <= 217000) || (295000 <= bitRate <= 345000)
  }

  const SampleRate: int := 48000
  const Channels: int := 2
  const ChannelLayout: string := "stereo"

  /** test_audio_codec: codec_name is "opus". */
  function CheckAudioCodec(v: View): (r: Verdict)
    ensures r.Error? <==> v.audioIndex >= |v.container.streams|
    ensures r.Error? ==> r.fault == IndexOutOfRange(v.audioIndex)
    ensures r.Pass? <==> AudioEntry(v, "codec_name") == Ok(AudioCodec)
    ensures r.Fail? ==> r.message == "Incorrect audio codec"
  {
    match AudioEntry(v, "codec_name")
    case Err(fault) => Error(fault)
    case Ok(codec) => Expect(codec == AudioCodec, "Incorrect audio codec")
  }

  /** float(loudness.get(name, "")): a missing measurement reads as "" and float("") raises ValueError. */
  function LoudnessValue(v: View, name: string): (r: Result<real>)
    ensures r.Ok? <==> name in v.loudness
    ensures r.Ok? ==> r.value == v.loudness[name]
    ensures r.Err? ==> r.fault == NotAFloat("")
  {
    match LoudnessEntry(v, name)
    case None => Err(NotAFloat(""))
    case Some(x) => Ok(x)
  }

  /** test_loudness_i: -16.25 <= input_i <= -15.75. */
  function CheckIntegratedLoudness(v: View): (r: Verdict)
    ensures r.Error? <==> "input_i" !in v.loudness
    ensures r.Error? ==> r.fault == NotAFloat("")
    ensures r.Pass? <==> "input_i" in v.loudness && LoudnessLow <= v.loudness["input_i"] <= LoudnessHigh
    ensures r.Fail? ==> r.message == "Unexpected target loudness"
  {
    match LoudnessValue(v, "input_i")
    case Err(fault) => Error(fault)
    case Ok(inputI) => Expect(LoudnessLow <= inputI <= LoudnessHigh, "Unexpected target loudness")
  }

  /** test_loudness_tp: input_tp <= -1.0. */
  function CheckTruePeak(v: View): (r: Verdict)
    ensures r.Error? <==> "input_tp" !in v.loudness
    ensures r.Error? ==> r.fault == NotAFloat("")
    ensures r.Pass? <==> "input_tp" in v.loudness && v.loudness["input_tp"] <= TruePeakMax
    ensures r.Fail? ==> r.message == "Unexpected true peak"
  {
    match LoudnessValue(v, "input_tp")
    case Err(fault) => Error(fault)
    case Ok(inputTp) => Expect(inputTp <= TruePeakMax, "Unexpected true peak")
  }

  /**
    test_audio_bitrate: int(bit_rate of the audio-only re-mux) lies in one of the
    two bands. A missing bit_rate reads as "" and int("") raises ValueError.
   */
  function CheckAudioBitrate(v: View): (r: Verdict)
    ensures r.Error? <==> ParseInt(AudioFormatEntry(v, "bit_rate")).None?
    ensures r.Error? ==> r.fault == NotAnInteger(AudioFormatEntry(v, "bit_rate"))
    ensures r.Pass? <==>
      && ParseInt(AudioFormatEntry(v, "bit_rate")).Some?
      && InBitrateBands(ParseInt(AudioFormatEntry(v, "bit_rate")).value)
    ensures r.Fail? ==> r.message == "Unexpected audio bitrate"
  {
    var text := AudioFormatEntry(v, "bit_rate");
    match ParseInt(text)
    case None => Error(NotAnInteger(text))
    case Some(bitRate) => Expect(InBitrateBands(bitRate), "Unexpected audio bitrate")
  }

  /** assertEqual(int(audio_stream.get(name, "")), expected, message). */
  function ExpectAudioInt(v: View, name: string, expected: int, message: string): (r: Verdict)
    ensures r.Error? <==> AudioEntry(v, name).Err? || ParseInt(AudioEntry(v, name).value).None?
    ensures r.Error? && v.audioIndex >= |v.container.streams| ==> r.fault == IndexOutOfRange(v.audioIndex)
    ensures r.Error? && v.audioIndex < |v.container.streams| ==> r.fault == NotAnInteger(AudioEntry(v, name).value)
    ensures r.Pass? <==> AudioEntry(v, name).Ok? && ParseInt(AudioEntry(v, name).value) == Some(expected)
    ensures r.Fail? ==> r.message == message
  {
    match AudioEntry(v, name)
    case Err(fault) => Error(fault)
    case Ok(text) =>
      match ParseInt(text)
      case None => Error(NotAnInteger(text))
      case Some(n) => Expect(n == expected, message)
  }

  /** test_sample_rate: int(sample_rate) == 48000; a missing field raises ValueError. */
  function CheckSampleRate(v: View): (r: Verdict)
    ensures r.Error? <==> AudioEntry(v, "sample_rate").Err? || ParseInt(AudioEntry(v, "sample_rate").value).None?
    ensures r.Error? && v.audioIndex >= |v.container.streams| ==> r.fault == IndexOutOfRange(v.audioIndex)
    ensures r.Error? && v.audioIndex < |v.container.streams| ==> r.fault == NotAnInteger(AudioEntry(v, "sample_rate").value)
    ensures r.Pass? <==> AudioEntry(v, "sample_rate").Ok? && ParseInt(AudioEntry(v, "sample_rate").value) == Some(SampleRate)
    ensures r.Fail? ==> r.message == "Incorrect sample rate"
  {
    ExpectAudioInt(v, "sample_rate", SampleRate, "Incorrect sample rate")
  }

  /** test_channels: int(channels) == 2; a missing field raises ValueError. */
  function CheckChannels(v: View): (r: Verdict)
    ensures r.Error? <==> AudioEntry(v, "channels").Err? || ParseInt(AudioEntry(v, "channels").value).None?
    ensures r.Error? && v.audioIndex >= |v.container.streams| ==> r.fault == IndexOutOfRange(v.audioIndex)
    ensures r.Error? && v.audioIndex < |v.container.streams| ==> r.fault == NotAnInteger(AudioEntry(v, "channels").value)
    ensures r.Pass? <==> AudioEntry(v, "channels").Ok? && ParseInt(AudioEntry(v, "channels").value) == Some(Channels)
    ensures r.Fail? ==> r.message == "Incorrect audio channels"
  {
    ExpectAudioInt(v, "channels", Channels, "Incorrect audio channels")
  }

  /** test_layout: channel_layout is "stereo". */
  function CheckChannelLayout(v: View): (r: Verdict)
    ensures r.Error? <==> v.audioIndex >= |v.container.streams|
    ensures r.Error? ==> r.fault == IndexOutOfRange(v.audioIndex)
    ensures r.Pass? <==> AudioEntry(v, "channel_layout") == Ok(ChannelLayout)
    ensures r.Fail? ==> r.message == "Incorrect audio layout"
  {
    match AudioEntry(v, "channel_layout")
    case Err(fault) => Error(fault)
    case Ok(layout) => Expect(layout == ChannelLayout, "Incorrect audio layout")
  }

  /** The bitrate rule reads the audio-only re-mux: the whole file's format record does not affect it. */
  lemma AudioBitrateIgnoresFileFormat(v: View, format: FormatInfo)
    ensures CheckAudioBitrate(v.(container := v.container.(format := format))) == CheckAudioBitrate(v)
  {
  }

  /** A view whose audio-only re-mux reports the given bit_rate text. */
  function BitrateView(bitRate: string): View {
    Open(Container([], FormatInfo(map[], Some([])), []), map["bit_rate" := bitRate], map[])
  }

  /**
    For every bitrate the prober writes as an integer, the rule passes exactly
    inside the bands, unless the integer has more digits than int() converts.
   */
  lemma AudioBitrateOfWrittenInteger(bitRate: int)
    ensures |NatToString(if bitRate < 0 then -bitRate else bitRate)| <= MaxStrDigits ==>
      CheckAudioBitrate(BitrateView(IntToString(bitRate))) == Expect(InBitrateBands(bitRate), "Unexpected audio bitrate")
    ensures |NatToString(if bitRate < 0 then -bitRate else bitRate)| > MaxStrDigits ==>
      CheckAudioBitrate(BitrateView(IntToString(bitRate))) == Error(NotAnInteger(IntToString(bitRate)))
  {
    ParseIntToString(bitRate);
    assert AudioFormatEntry(BitrateView(IntToString(bitRate)), "bit_rate") == IntToString(bitRate);
  }

  /** A bitrate below 1000000 is written in six digits or fewer, well within what int() converts. */
  lemma AudioBitrateBelowAMillion(bitRate: nat)
    requires bitRate < 1000000
    ensures CheckAudioBitrate(BitrateView(IntToString(bitRate))) == Expect(InBitrateBands(bitRate), "Unexpected audio bitrate")
  {
    assert Pow10(6) == 1000000;
    NatToStringLength(bitRate, 6);
    AudioBitrateOfWrittenInteger(bitRate);
  }

  /** The two targets, 192000 and 320000, pass. */
  lemma AudioBitrateTargetsPass(bitRate: nat)
    requires bitRate == 192000 || bitRate == 320000
    ensures CheckAudioBitrate(BitrateView(IntToString(bitRate))) == Pass
  {
    AudioBitrateBelowAMillion(bitRate);
  }

  /** Every bitrate below the lower band or in the gap between the bands fails. */
  lemma AudioBitrateGapFails(bitRate: nat)
    requires bitRate < 167000 || 217000 < bitRate < 295000
    ensures CheckAudioBitrate(BitrateView(IntToString(bitRate))) == Fail("Unexpected audio bitrate")
  {
    AudioBitrateBelowAMillion(bitRate);
  }

  /** A re-mux without a bit_rate field is an Error: int("") raises. */
  lemma AudioBitrateMissingIsError()
    ensures CheckAudioBitrate(Open(Container([], FormatInfo(map[], Some([])), []), map[], map[])) == Error(NotAnInteger(""))
  {
  }

  /** A view whose loudness measurement has the given integrated loudness and true peak. */
  function LoudnessView(inputI: real, inputTp: real): View {
    Open(Container([], FormatInfo(map[], Some([])), []), map[], map["input_i" := inputI, "input_tp" := inputTp])
  }

  /** The loudness window is closed: -16.25 and -15.75 pass, values just outside fail. */
  lemma LoudnessExamples()
    ensures CheckIntegratedLoudness(LoudnessView(-16.0, -1.0)) == Pass
    ensures CheckIntegratedLoudness(LoudnessView(-16.25, -1.0)) == Pass
    ensures CheckIntegratedLoudness(LoudnessView(-15.75, -1.0)) == Pass
    ensures CheckIntegratedLoudness(LoudnessView(-16.26, -1.0)) == Fail("Unexpected target loudness")
    ensures CheckIntegratedLoudness(LoudnessView(-15.74, -1.0)) == Fail("Unexpected target loudness")
    ensures CheckTruePeak(LoudnessView(-16.0, -1.0)) == Pass
    ensures CheckTruePeak(LoudnessView(-16.0, -0.9)) == Fail("Unexpected true peak")
  {
  }
}
