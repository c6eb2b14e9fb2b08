/**
  The FORMAT rule group: stream layout, encoder identity and version, container
  type, the overall bitrate envelope, leaked source metadata and chapters.
 */
module FormatRules {
  import opened Outcomes
  import opened Text
  import opened Release
  import opened Media
  import opened WebmView

  /** The oldest FFmpeg muxer (libavformat) release the standard accepts. */
  const MinimumEncoderVersion: string := "61.7.100"
  const MinimumEncoderRelease: seq<nat> := [61, 7, 100]

  /** libavformat writes its name and version into the encoder tag as "Lavf<version>". */
  const EncoderPrefix: string := "Lavf"

  const WebmFormatName: string := "matroska,webm"

  /** The overall bitrate must stay below Height * BitRatePerLine + BitRateBase. */
  const BitRatePerLine: int := 5000
  const BitRateBase: int := 683300

  lemma MinimumEncoderVersionParses()
    ensures ParseRelease(MinimumEncoderVersion) == Ok(MinimumEncoderRelease)
  {
    assert NatToString(61) == "61";
    assert NatToString(7) == "7";
    assert NatToString(100) == "100" by {
      assert NatToString(10) == "10";
    }
    assert ReleaseToString(MinimumEncoderRelease) == MinimumEncoderVersion;
    assert ComponentsFit(MinimumEncoderRelease) by {
      assert forall i | 0 <= i < 3 :: |NatToString(MinimumEncoderRelease[i])| <= 3;
    }
    ParseReleaseToString(MinimumEncoderRelease);
  }

  /** test_video_stream: stream 0 is the video stream; IndexError on an empty stream list. */
  function CheckVideoStream(v: View): (r: Verdict)
    ensures r.Error? <==> |v.container.streams| == 0
    ensures r.Error? ==> r.fault == IndexOutOfRange(0)
    ensures r.Pass? <==> |v.container.streams| > 0 && v.container.streams[0].codecType == VideoRole
    ensures r.Fail? ==> r.message == "First stream is not video"
  {
    var streams := v.container.streams;
    if |streams| <= 0 then Error(IndexOutOfRange(0))
    else Expect(streams[0].codecType == VideoRole, "First stream is not video")
  }

  /** test_audio_stream: stream 1 is the audio stream; IndexError with fewer than two streams. */
  function CheckAudioStream(v: View): (r: Verdict)
    ensures r.Error? <==> |v.container.streams| < 2
    ensures r.Error? ==> r.fault == IndexOutOfRange(1)
    ensures r.Pass? <==> |v.container.streams| >= 2 && v.container.streams[1].codecType == AudioRole
    ensures r.Fail? ==> r.message == "Second stream is not audio"
  {
    var streams := v.container.streams;
    if |streams| <= 1 then Error(IndexOutOfRange(1))
    else Expect(streams[1].codecType == AudioRole, "Second stream is not audio")
  }

  /** test_stream_count: exactly one video and one audio stream, so exactly two streams. */
  function CheckStreamCount(v: View): (r: Verdict)
    ensures r.Pass? <==> |v.container.streams| == 2
    ensures r.Fail? <==> |v.container.streams| != 2
    ensures r.Fail? ==> r.message == "Unexpected number of streams"
  {
    Expect(|v.container.streams| == 2, "Unexpected number of streams")
  }

  /** A tag key that lower-cases to "encoder". */
  predicate IsEncoderKey(key: string) {
    Lower(key) == "encoder"
  }

  /** Every encoder tag among tags names libavformat. */
  function EncoderNamesOk(tags: seq<Tag>): (ok: bool)
    ensures ok <==> forall tag | tag in tags :: IsEncoderKey(tag.key) ==> StartsWith(tag.value, EncoderPrefix)
    decreases |tags|
  {
    if |tags| == 0 then true
    else
      assert forall tag :: tag in tags <==> tag == tags[0] || tag in tags[1..] by {
        assert tags == [tags[0]] + tags[1..];
      }
      (IsEncoderKey(tags[0].key) ==> StartsWith(tags[0].value, EncoderPrefix)) && EncoderNamesOk(tags[1..])
  }

  /**
    test_encoder_name: every format tag whose key lower-cases to "encoder" starts
    with "Lavf"; passes when there is no such tag; KeyError when the format
    record has no tag dictionary.
   */
  function CheckEncoderName(v: View): (r: Verdict)
    ensures r.Error? <==> v.container.format.tags.None?
    ensures r.Error? ==> r.fault == MissingKey("tags")
    ensures r.Pass? <==>
      && v.container.format.tags.Some?
      && forall tag | tag in v.container.format.tags.value :: IsEncoderKey(tag.key) ==> StartsWith(tag.value, EncoderPrefix)
    ensures r.Fail? ==> r.message == "Incorrect Encoder"
  {
    match v.container.format.tags
    case None => Error(MissingKey("tags"))
    case Some(tags) => Expect(EncoderNamesOk(tags), "Incorrect Encoder")
  }

  /** The release an encoder tag names: its value without the "Lavf" prefix, parsed as a version. */
  function EncoderRelease(value: string): Result<seq<nat>> {
    ParseRelease(RemovePrefix(value, EncoderPrefix))
  }

  /**
    The fault version.parse raises on the text after the prefix: InvalidVersion
    when it is not a release at all, the ValueError of int() when it is one
    with a component over the digit limit.
   */
  predicate IsVersionFault(text: string, f: Fault) {
    if IsReleaseText(text) then IsOverlongField(f) else f == InvalidVersion(text)
  }

  /** The encoder tag value names a release at least as new as the minimum. */
  predicate UpToDate(value: string) {
    var release := EncoderRelease(value);
    release.Ok? && AtLeast(release.value, MinimumEncoderRelease)
  }

  /** Every encoder tag before position i names an up-to-date release. */
  predicate UpToDateBefore(tags: seq<Tag>, i: nat)
    requires i <= |tags|
  {
    forall j | 0 <= j < i :: IsEncoderKey(tags[j].key) ==> UpToDate(tags[j].value)
  }

  /** Position i holds the first encoder tag that does not name an up-to-date release: the scan stops there. */
  predicate StopsAt(tags: seq<Tag>, i: nat) {
    && i < |tags|
    && IsEncoderKey(tags[i].key)
    && !UpToDate(tags[i].value)
    && UpToDateBefore(tags, i)
  }

  /** The loop of test_encoder_version from position start on, every earlier encoder tag being up to date. */
  function VersionScan(tags: seq<Tag>, start: nat): (r: Verdict)
    requires start <= |tags| && UpToDateBefore(tags, start)
    ensures r.Pass? <==> UpToDateBefore(tags, |tags|)
    ensures r.Error? <==> exists i | start <= i < |tags| :: StopsAt(tags, i) && EncoderRelease(tags[i].value).Err?
    ensures r.Error? ==> exists i | start <= i < |tags| ::
      StopsAt(tags, i) && IsVersionFault(RemovePrefix(tags[i].value, EncoderPrefix), r.fault)
    ensures r.Fail? ==> r.message == "Build is out of date"
    decreases |tags| - start
  {
    if start == |tags| then Pass
    else if !IsEncoderKey(tags[start].key) then VersionScan(tags, start + 1)
    else
      match EncoderRelease(tags[start].value)
      case Err(fault) =>
        assert StopsAt(tags, start);
        Error(fault)
      case Ok(release) =>
        if AtLeast(release, MinimumEncoderRelease) then VersionScan(tags, start + 1)
        else
          assert StopsAt(tags, start);
          Fail("Build is out of date")
  }

  /** An encoder tag naming a release whose one component is longer than int() converts errs with ValueError, not InvalidVersion. */
  lemma OverlongEncoderVersionErrs(digits: string)
    requires |digits| > MaxStrDigits && AllDigits(digits)
    ensures VersionScan([Tag("encoder", EncoderPrefix + digits)], 0) == Error(NotAnInteger(digits))
  {
    var value := EncoderPrefix + digits;
    assert StartsWith(value, EncoderPrefix);
    assert RemovePrefix(value, EncoderPrefix) == digits;
    ReadSingleField(digits);
    assert IsEncoderKey("encoder");
  }

  /**
    test_encoder_version: the encoder tags are read in order; the first one whose
    release is older than 61.7.100 fails the rule, and the first one whose value
    is not a release at all raises InvalidVersion (or ValueError, for a release
    component over the digit limit of int()), whichever comes first.
   */
  function CheckEncoderVersion(v: View): (r: Verdict)
    ensures r.Error? <==>
      || v.container.format.tags.None?
      || exists i | 0 <= i < |v.container.format.tags.value| ::
           StopsAt(v.container.format.tags.value, i) && EncoderRelease(v.container.format.tags.value[i].value).Err?
    ensures r.Error? && v.container.format.tags.None? ==> r.fault == MissingKey("tags")
    ensures r.Error? && v.container.format.tags.Some? ==>
      exists i | 0 <= i < |v.container.format.tags.value| ::
        && StopsAt(v.container.format.tags.value, i)
        && IsVersionFault(RemovePrefix(v.container.format.tags.value[i].value, EncoderPrefix), r.fault)
    ensures r.Pass? <==>
      && v.container.format.tags.Some?
      && forall i | 0 <= i < |v.container.format.tags.value| ::
           IsEncoderKey(v.container.format.tags.value[i].key) ==> UpToDate(v.container.format.tags.value[i].value)
    ensures r.Fail? ==> r.message == "Build is out of date"
  {
    match v.container.format.tags
    case None => Error(MissingKey("tags"))
    case Some(tags) => VersionScan(tags, 0)
  }

  /**
    test_encoder_version on a Python before 3.9, which the package's declared
    python_requires admits: str has no removeprefix there, so the first
    encoder tag raises AttributeError whatever its value.
   */
  function CheckEncoderVersionBeforePython39(v: View): (r: Verdict)
    ensures r.Error? <==>
      || v.container.format.tags.None?
      || exists i | 0 <= i < |v.container.format.tags.value| :: IsEncoderKey(v.container.format.tags.value[i].key)
    ensures v.container.format.tags.None? ==> r == Error(MissingKey("tags"))
    ensures r.Error? && v.container.format.tags.Some? ==> r.fault == MissingAttribute("removeprefix")
    ensures !r.Fail?
  {
    match v.container.format.tags
    case None => Error(MissingKey("tags"))
    case Some(tags) =>
      if exists i | 0 <= i < |tags| :: IsEncoderKey(tags[i].key) then Error(MissingAttribute("removeprefix"))
      else Pass
  }

  /** Before Python 3.9 a file whose encoder tags are all up to date ends in an error instead of passing. */
  lemma UpToDateEncoderErrsBeforePython39(v: View)
    requires v.container.format.tags.Some?
    requires exists i | 0 <= i < |v.container.format.tags.value| :: IsEncoderKey(v.container.format.tags.value[i].key)
    requires forall i | 0 <= i < |v.container.format.tags.value| ::
      IsEncoderKey(v.container.format.tags.value[i].key) ==> UpToDate(v.container.format.tags.value[i].value)
    ensures CheckEncoderVersionBeforePython39(v) == Error(MissingAttribute("removeprefix"))
    ensures CheckEncoderVersion(v) == Pass
  {
  }

  /** test_file_format: format_name is "matroska,webm"; KeyError when the field is missing. */
  function CheckFileFormat(v: View): (r: Verdict)
    ensures r.Error? <==> "format_name" !in v.container.format.fields
    ensures r.Error? ==> r.fault == MissingKey("format_name")
    ensures r.Pass? <==> "format_name" in v.container.format.fields && v.container.format.fields["format_name"] == WebmFormatName
    ensures r.Fail? ==> r.message == "Incorrect file format"
  {
    var fields := v.container.format.fields;
    if "format_name" !in fields then Error(MissingKey("format_name"))
    else Expect(fields["format_name"] == WebmFormatName, "Incorrect file format")
  }

  /** int(text) succeeds. */
  predicate IsIntText(text: string) {
    ParseInt(text).Some?
  }

  /**
    test_filesize: int(format bit_rate) < int(video height) * 5000 + 683300,
    strictly. Error when bit_rate is missing (KeyError), when the video index
    is past the streams (IndexError), or when either value is not an integer
    (a missing height reads as "" and int("") raises ValueError).
   */
  function CheckFilesize(v: View): (r: Verdict)
    ensures r.Error? <==>
      || "bit_rate" !in v.container.format.fields
      || !IsIntText(v.container.format.fields["bit_rate"])
      || VideoEntry(v, "height").Err?
      || !IsIntText(VideoEntry(v, "height").value)
    ensures "bit_rate" !in v.container.format.fields ==> r == Error(MissingKey("bit_rate"))
    ensures "bit_rate" in v.container.format.fields && !IsIntText(v.container.format.fields["bit_rate"]) ==>
      r == Error(NotAnInteger(v.container.format.fields["bit_rate"]))
    ensures "bit_rate" in v.container.format.fields && IsIntText(v.container.format.fields["bit_rate"]) ==>
      && (VideoEntry(v, "height").Err? ==> r == Error(IndexOutOfRange(v.videoIndex)))
      && (VideoEntry(v, "height").Ok? && !IsIntText(VideoEntry(v, "height").value) ==>
            r == Error(NotAnInteger(VideoEntry(v, "height").value)))
    ensures r.Pass? <==>
      && "bit_rate" in v.container.format.fields
      && IsIntText(v.container.format.fields["bit_rate"])
      && VideoEntry(v, "height").Ok?
      && IsIntText(VideoEntry(v, "height").value)
      && ParseInt(v.container.format.fields["bit_rate"]).value
         < ParseInt(VideoEntry(v, "height").value).value * BitRatePerLine + BitRateBase
    ensures r.Fail? ==> r.message == "File size restriction violated"
  {
    var fields := v.container.format.fields;
    if "bit_rate" !in fields then Error(MissingKey("bit_rate"))
    else
      match ParseInt(fields["bit_rate"])
      case None => Error(NotAnInteger(fields["bit_rate"]))
      case Some(bitRate) =>
        match VideoEntry(v, "height")
        case Err(fault) => Error(fault)
        case Ok(heightText) =>
          match ParseInt(heightText)
          case None => Error(NotAnInteger(heightText))
          case Some(height) =>
            Expect(bitRate < height * BitRatePerLine + BitRateBase, "File size restriction violated")
  }

  /** A stream-level tag key other than encoder and duration, in any letter case. */
  predicate StreamTagLeaks(key: string) {
    Lower(key) != "encoder" && Lower(key) != "duration"
  }

  /** A format-level tag key other than encoder, in any letter case. */
  predicate FormatTagLeaks(key: string) {
    Lower(key) != "encoder"
  }

  /** Some tag of a stream's dictionary leaks source metadata; a stream without a dictionary leaks nothing. */
  predicate StreamLeaks(s: Stream) {
    s.tags.Some? && exists tag | tag in s.tags.value :: StreamTagLeaks(tag.key)
  }

  function AnyStreamTagLeaks(tags: seq<Tag>): (b: bool)
    ensures b <==> exists tag | tag in tags :: StreamTagLeaks(tag.key)
    decreases |tags|
  {
    if |tags| == 0 then false
    else
      assert forall tag :: tag in tags <==> tag == tags[0] || tag in tags[1..] by {
        assert tags == [tags[0]] + tags[1..];
      }
      StreamTagLeaks(tags[0].key) || AnyStreamTagLeaks(tags[1..])
  }

  function AnyFormatTagLeaks(tags: seq<Tag>): (b: bool)
    ensures b <==> exists tag | tag in tags :: FormatTagLeaks(tag.key)
    decreases |tags|
  {
    if |tags| == 0 then false
    else
      assert forall tag :: tag in tags <==> tag == tags[0] || tag in tags[1..] by {
        assert tags == [tags[0]] + tags[1..];
      }
      FormatTagLeaks(tags[0].key) || AnyFormatTagLeaks(tags[1..])
  }

  /** The stream loop of test_metadata: some stream's tags leak. */
  function AnyStreamLeaks(streams: seq<Stream>): (b: bool)
    ensures b <==> exists s | s in streams :: StreamLeaks(s)
    decreases |streams|
  {
    if |streams| == 0 then false
    else
      assert forall s :: s in streams <==> s == streams[0] || s in streams[1..] by {
        assert streams == [streams[0]] + streams[1..];
      }
      var first := match streams[0].tags case None => false case Some(tags) => AnyStreamTagLeaks(tags);
      assert first == StreamLeaks(streams[0]);
      first || AnyStreamLeaks(streams[1..])
  }

  /**
    test_metadata: fails when some stream tag key is neither encoder nor
    duration, or some format tag key is not encoder (letter case ignored).
    The format tag dictionary is read after the streams, without a default, so
    its absence is a KeyError whatever the streams hold.
   */
  function CheckMetadata(v: View): (r: Verdict)
    ensures r.Error? <==> v.container.format.tags.None?
    ensures r.Error? ==> r.fault == MissingKey("tags")
    ensures r.Fail? <==>
      && v.container.format.tags.Some?
      && ((exists s | s in v.container.streams :: StreamLeaks(s))
          || exists tag | tag in v.container.format.tags.value :: FormatTagLeaks(tag.key))
    ensures r.Fail? ==> r.message == "Extraneous source file metadata"
  {
    var foundInStreams := AnyStreamLeaks(v.container.streams);
    match v.container.format.tags
    case None => Error(MissingKey("tags"))
    case Some(tags) =>
      Expect(!(foundInStreams || AnyFormatTagLeaks(tags)), "Extraneous source file metadata")
  }

  /** test_chapters: the chapter list is empty. */
  function CheckChapters(v: View): (r: Verdict)
    ensures r.Pass? <==> |v.container.chapters| == 0
    ensures r.Fail? <==> |v.container.chapters| > 0
    ensures r.Fail? ==> r.message == "Extraneous menu data"
  {
    Expect(|v.container.chapters| == 0, "Extraneous menu data")
  }

  /** When both layout rules pass, the opened view's accessors read stream 0 for video and stream 1 for audio. */
  lemma LayoutRulesFixAccessors(c: Container, audioFormat: map<string, string>, loudness: map<string, real>, name: string)
    requires CheckVideoStream(Open(c, audioFormat, loudness)).Pass?
    requires CheckAudioStream(Open(c, audioFormat, loudness)).Pass?
    ensures VideoEntry(Open(c, audioFormat, loudness), name) == Ok(Get(c.streams[0].fields, name))
    ensures AudioEntry(Open(c, audioFormat, loudness), name) == Ok(Get(c.streams[1].fields, name))
  {
    ExpectedLayoutResolves(c, audioFormat, loudness);
  }
}
