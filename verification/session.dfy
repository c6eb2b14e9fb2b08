/**
  A verification session for one file: the selected rule groups are looked up
  by name, and every rule of every selected group runs against the one view of
  the file, in the test loader's order, none skipped because another failed.
 */
module Session {
  import opened Outcomes
  import opened Text
  import opened WebmView
  import FormatRules
  import VideoRules
  import AudioRules

  /** The selectable rule groups. */
  datatype Group = Format | Video | Audio

  /** The name a group is selected by. */
  function GroupName(g: Group): string {
    match g
    case Format => "format"
    case Video => "video"
    case Audio => "audio"
  }

  /** Every group, in declaration order: the default selection. */
  const AllGroups: seq<Group> := [Format, Video, Audio]

  /** Look a group up by its name, as TestGroup(name) does; ValueError for any other name. */
  function GroupByName(name: string): (r: Result<Group>)
    ensures r.Ok? ==> GroupName(r.value) == name
    ensures r.Err? ==> forall g: Group :: GroupName(g) != name
  {
    if name == "format" then Ok(Format)
    else if name == "video" then Ok(Video)
    else if name == "audio" then Ok(Audio)
    else Err(NotAMember(name))
  }

  /** Selecting a group by its own name gives that group back. */
  lemma GroupByNameOfName(g: Group)
    ensures GroupByName(GroupName(g)) == Ok(g)
  {
  }

  /** The rules: one per test method of the three test classes. */
  datatype Rule =
    | VideoStream | AudioStream | StreamCount | EncoderName | EncoderVersion
    | FileFormat | Filesize | Metadata | Chapters
    | VideoCodec | PixFmt | ColorSpace | ColorTransfer | ColorPrimaries | Framerate
    | AudioCodec | LoudnessI | LoudnessTp | AudioBitrate | SampleRate | Channels | Layout

  /** The test method name of a rule. */
  function RuleName(r: Rule): string {
    match r
    case VideoStream => "test_video_stream"
    case AudioStream => "test_audio_stream"
    case StreamCount => "test_stream_count"
    case EncoderName => "test_encoder_name"
    case EncoderVersion => "test_encoder_version"
    case FileFormat => "test_file_format"
    case Filesize => "test_filesize"
    case Metadata => "test_metadata"
    case Chapters => "test_chapters"
    case VideoCodec => "test_video_codec"
    case PixFmt => "test_pix_fmt"
    case ColorSpace => "test_color_space"
    case ColorTransfer => "test_color_transfer"
    case ColorPrimaries => "test_color_primaries"
    case Framerate => "test_framerate"
    case AudioCodec => "test_audio_codec"
    case LoudnessI => "test_loudness_i"
    case LoudnessTp => "test_loudness_tp"
    case AudioBitrate => "test_audio_bitrate"
    case SampleRate => "test_sample_rate"
    case Channels => "test_channels"
    case Layout => "test_layout"
  }

  /** The test class, and so the group, a rule is declared in. */
  function GroupOf(r: Rule): Group {
    match r
    case VideoStream | AudioStream | StreamCount | EncoderName | EncoderVersion
      | FileFormat | Filesize | Metadata | Chapters => Format
    case VideoCodec | PixFmt | ColorSpace | ColorTransfer | ColorPrimaries | Framerate => Video
    case AudioCodec | LoudnessI | LoudnessTp | AudioBitrate | SampleRate | Channels | Layout => Audio
  }

  /** The rules of a group in the order the test loader runs them, sorted by test method name: exactly the rules its test class declares. */
  function RulesOf(g: Group): (rules: seq<Rule>)
    ensures forall r :: r in rules <==> GroupOf(r) == g
  {
    match g
    case Format => [AudioStream, Chapters, EncoderName, EncoderVersion, FileFormat, Filesize, Metadata, StreamCount, VideoStream]
    case Video => [ColorPrimaries, ColorSpace, ColorTransfer, Framerate, PixFmt, VideoCodec]
    case Audio => [AudioBitrate, AudioCodec, Channels, Layout, LoudnessI, LoudnessTp, SampleRate]
  }

  /** Rule names strictly increase along the list: the loader's order, each rule once. */
  predicate InLoaderOrder(rules: seq<Rule>) {
    forall i | 0 < i < |rules| :: StrLess(RuleName(rules[i - 1]), RuleName(rules[i]))
  }

  /** Each group lists its rules in strictly increasing name order, so in loader order and each once. */
  lemma RulesOfInLoaderOrder(g: Group)
    ensures InLoaderOrder(RulesOf(g))
  {
    forall i | 0 < i < |RulesOf(g)|
      ensures StrLess(RuleName(RulesOf(g)[i - 1]), RuleName(RulesOf(g)[i]))
    {
      match g
      case Format => if i <= 4 { FormatRulesInOrderUpTo4(i); } else { FormatRulesInOrderFrom5(i); }
      case Video => if i <= 3 { VideoRulesInOrderUpTo3(i); } else { VideoRulesInOrderFrom4(i); }
      case Audio => if i <= 3 { AudioRulesInOrderUpTo3(i); } else { AudioRulesInOrderFrom4(i); }
    }
  }

  /** Adjacent rule names of each group, a few positions at a time. */
  lemma FormatRulesInOrderUpTo4(i: nat)
    requires 1 <= i <= 4 && i < |RulesOf(Format)|
    ensures StrLess(RuleName(RulesOf(Format)[i - 1]), RuleName(RulesOf(Format)[i]))
  {
    if i == 1 {
      RuleNamesDifferFirstAt(AudioStream, Chapters, 5);
    } else if i == 2 {
      RuleNamesDifferFirstAt(Chapters, EncoderName, 5);
    } else if i == 3 {
      RuleNamesDifferFirstAt(EncoderName, EncoderVersion, 13);
    } else {
      RuleNamesDifferFirstAt(EncoderVersion, FileFormat, 5);
    }
  }

  lemma FormatRulesInOrderFrom5(i: nat)
    requires 5 <= i <= 8 && i < |RulesOf(Format)|
    ensures StrLess(RuleName(RulesOf(Format)[i - 1]), RuleName(RulesOf(Format)[i]))
  {
    if i == 5 {
      RuleNamesDifferFirstAt(FileFormat, Filesize, 9);
    } else if i == 6 {
      RuleNamesDifferFirstAt(Filesize, Metadata, 5);
    } else if i == 7 {
      RuleNamesDifferFirstAt(Metadata, StreamCount, 5);
    } else {
      RuleNamesDifferFirstAt(StreamCount, VideoStream, 5);
    }
  }

  lemma VideoRulesInOrderUpTo3(i: nat)
    requires 1 <= i <= 3 && i < |RulesOf(Video)|
    ensures StrLess(RuleName(RulesOf(Video)[i - 1]), RuleName(RulesOf(Video)[i]))
  {
    if i == 1 {
      RuleNamesDifferFirstAt(ColorPrimaries, ColorSpace, 11);
    } else if i == 2 {
      RuleNamesDifferFirstAt(ColorSpace, ColorTransfer, 11);
    } else {
      RuleNamesDifferFirstAt(ColorTransfer, Framerate, 5);
    }
  }

  lemma VideoRulesInOrderFrom4(i: nat)
    requires 4 <= i <= 5 && i < |RulesOf(Video)|
    ensures StrLess(RuleName(RulesOf(Video)[i - 1]), RuleName(RulesOf(Video)[i]))
  {
    if i == 4 {
      RuleNamesDifferFirstAt(Framerate, PixFmt, 5);
    } else {
      RuleNamesDifferFirstAt(PixFmt, VideoCodec, 5);
    }
  }

  lemma AudioRulesInOrderUpTo3(i: nat)
    requires 1 <= i <= 3 && i < |RulesOf(Audio)|
    ensures StrLess(RuleName(RulesOf(Audio)[i - 1]), RuleName(RulesOf(Audio)[i]))
  {
    if i == 1 {
      RuleNamesDifferFirstAt(AudioBitrate, AudioCodec, 11);
    } else if i == 2 {
      RuleNamesDifferFirstAt(AudioCodec, Channels, 5);
    } else {
      RuleNamesDifferFirstAt(Channels, Layout, 5);
    }
  }

  lemma AudioRulesInOrderFrom4(i: nat)
    requires 4 <= i <= 6 && i < |RulesOf(Audio)|
    ensures StrLess(RuleName(RulesOf(Audio)[i - 1]), RuleName(RulesOf(Audio)[i]))
  {
    if i == 4 {
      RuleNamesDifferFirstAt(Layout, LoudnessI, 6);
    } else if i == 5 {
      RuleNamesDifferFirstAt(LoudnessI, LoudnessTp, 14);
    } else {
      RuleNamesDifferFirstAt(LoudnessTp, SampleRate, 5);
    }
  }

  /** Rule a's name sorts before rule b's when they agree before position k and a's character is smaller there. */
  lemma RuleNamesDifferFirstAt(a: Rule, b: Rule, k: nat)
    requires k < |RuleName(a)| && k < |RuleName(b)|
    requires RuleName(a)[..k] == RuleName(b)[..k] && RuleName(a)[k] < RuleName(b)[k]
    ensures StrLess(RuleName(a), RuleName(b))
  {
    StrLessAtFirstDifference(RuleName(a), RuleName(b), k);
  }

  /** The assertion message each test method fails with. */
  function FailMessage(r: Rule): string {
    match r
    case VideoStream => "First stream is not video"
    case AudioStream => "Second stream is not audio"
    case StreamCount => "Unexpected number of streams"
    case EncoderName => "Incorrect Encoder"
    case EncoderVersion => "Build is out of date"
    case FileFormat => "Incorrect file format"
    case Filesize => "File size restriction violated"
    case Metadata => "Extraneous source file metadata"
    case Chapters => "Extraneous menu data"
    case VideoCodec => "Incorrect video codec"
    case PixFmt => "Incorrect pixel format"
    case ColorSpace => "Unexpected color_space"
    case ColorTransfer => "Unexpected color_transfer"
    case ColorPrimaries => "Unexpected color_primaries"
    case Framerate => "Unexpected framerate"
    case AudioCodec => "Incorrect audio codec"
    case LoudnessI => "Unexpected target loudness"
    case LoudnessTp => "Unexpected true peak"
    case AudioBitrate => "Unexpected audio bitrate"
    case SampleRate => "Incorrect sample rate"
    case Channels => "Incorrect audio channels"
    case Layout => "Incorrect audio layout"
  }

  /**
    One rule's verdict on the view. Every video rule raises only when the
    video stream is missing, the audio codec and layout rules only when the
    audio stream is, and the stream-count and chapter rules never raise.
   */
  function Evaluate(r: Rule, v: View): (res: Verdict)
    ensures res.Fail? ==> res.message == FailMessage(r)
    ensures GroupOf(r) == Video ==> (res.Error? <==> v.videoIndex >= |v.container.streams|)
    ensures GroupOf(r) == Video && res.Error? ==> res.fault == IndexOutOfRange(v.videoIndex)
    ensures (r == AudioCodec || r == Layout) ==> (res.Error? <==> v.audioIndex >= |v.container.streams|)
    ensures (r == StreamCount || r == Chapters) ==> !res.Error?
  {
    match GroupOf(r)
    case Format => EvaluateFormat(r, v)
    case Video => EvaluateVideo(r, v)
    case Audio => EvaluateAudio(r, v)
  }

  function EvaluateFormat(r: Rule, v: View): (res: Verdict)
    ensures res.Fail? ==> res.message == FailMessage(r)
    requires GroupOf(r) == Format
    ensures (r == StreamCount || r == Chapters) ==> !res.Error?
  {
    match r
    case VideoStream => FormatRules.CheckVideoStream(v)
    case AudioStream => FormatRules.CheckAudioStream(v)
    case StreamCount => FormatRules.CheckStreamCount(v)
    case EncoderName => FormatRules.CheckEncoderName(v)
    case EncoderVersion => FormatRules.CheckEncoderVersion(v)
    case FileFormat => FormatRules.CheckFileFormat(v)
    case Filesize => FormatRules.CheckFilesize(v)
    case Metadata => FormatRules.CheckMetadata(v)
    case Chapters => FormatRules.CheckChapters(v)
  }

  function EvaluateVideo(r: Rule, v: View): (res: Verdict)
    ensures res.Fail? ==> res.message == FailMessage(r)
    requires GroupOf(r) == Video
    ensures res.Error? <==> v.videoIndex >= |v.container.streams|
    ensures res.Error? ==> res.fault == IndexOutOfRange(v.videoIndex)
  {
    match r
    case VideoCodec => VideoRules.CheckVideoCodec(v)
    case PixFmt => VideoRules.CheckPixelFormat(v)
    case ColorSpace => VideoRules.CheckColorSpace(v)
    case ColorTransfer => VideoRules.CheckColorTransfer(v)
    case ColorPrimaries => VideoRules.CheckColorPrimaries(v)
    case Framerate => VideoRules.CheckFrameRate(v)
  }

  function EvaluateAudio(r: Rule, v: View): (res: Verdict)
    ensures res.Fail? ==> res.message == FailMessage(r)
    requires GroupOf(r) == Audio
    ensures (r == AudioCodec || r == Layout) ==> (res.Error? <==> v.audioIndex >= |v.container.streams|)
  {
    match r
    case AudioCodec => AudioRules.CheckAudioCodec(v)
    case LoudnessI => AudioRules.CheckIntegratedLoudness(v)
    case LoudnessTp => AudioRules.CheckTruePeak(v)
    case AudioBitrate => AudioRules.CheckAudioBitrate(v)
    case SampleRate => AudioRules.CheckSampleRate(v)
    case Channels => AudioRules.CheckChannels(v)
    case Layout => AudioRules.CheckChannelLayout(v)
  }

  /** One line of the report: a rule and its verdict. */
  datatype RuleVerdict = RuleVerdict(rule: Rule, verdict: Verdict)

  /** The verdicts of a list of rules, in order. */
  function RunRules(rules: seq<Rule>, v: View): (out: seq<RuleVerdict>)
    ensures |out| == |rules|
    ensures forall i | 0 <= i < |rules| :: out[i] == RuleVerdict(rules[i], Evaluate(rules[i], v))
    decreases |rules|
  {
    if |rules| == 0 then []
    else [RuleVerdict(rules[0], Evaluate(rules[0], v))] + RunRules(rules[1..], v)
  }

  /** The number of rules the selected groups hold. */
  function RuleCount(groups: seq<Group>): nat
    decreases |groups|
  {
    if |groups| == 0 then 0 else |RulesOf(groups[0])| + RuleCount(groups[1..])
  }

  /** The suite of one file: the rules of each selected group, group after group. */
  function RunGroups(groups: seq<Group>, v: View): (out: seq<RuleVerdict>)
    ensures |out| == RuleCount(groups)
    decreases |groups|
  {
    if |groups| == 0 then []
    else RunRules(RulesOf(groups[0]), v) + RunGroups(groups[1..], v)
  }

  /** Selecting a + b runs a's suite and then b's: no group's verdicts depend on which other groups run. */
  lemma {:induction false} RunGroupsAppend(a: seq<Group>, b: seq<Group>, v: View)
    ensures RunGroups(a + b, v) == RunGroups(a, v) + RunGroups(b, v)
    decreases |a|
  {
    if |a| > 0 {
      assert (a + b)[0] == a[0];
      assert (a + b)[1..] == a[1..] + b;
      RunGroupsAppend(a[1..], b, v);
      calc {
        RunGroups(a + b, v);
        RunRules(RulesOf(a[0]), v) + RunGroups(a[1..] + b, v);
        RunRules(RulesOf(a[0]), v) + (RunGroups(a[1..], v) + RunGroups(b, v));
        (RunRules(RulesOf(a[0]), v) + RunGroups(a[1..], v)) + RunGroups(b, v);
        RunGroups(a, v) + RunGroups(b, v);
      }
    } else {
      assert a + b == b;
    }
  }

  /**
    No short-circuit and group isolation: in the suite of any selection, the
    block for the k-th selected group holds the verdict of each of its rules,
    exactly as running that group alone gives them.
   */
  lemma {:induction false} EveryRuleOfEverySelectedGroupRuns(groups: seq<Group>, v: View, k: nat, i: nat)
    requires k < |groups| && i < |RulesOf(groups[k])|
    ensures RuleCount(groups[..k]) + i < RuleCount(groups)
    ensures RunGroups(groups, v)[RuleCount(groups[..k]) + i]
         == RuleVerdict(RulesOf(groups[k])[i], Evaluate(RulesOf(groups[k])[i], v))
  {
    var pre, own, post := RunGroups(groups[..k], v), RunRules(RulesOf(groups[k]), v), RunGroups(groups[k + 1..], v);
    RunGroupsSplitAt(groups, v, k);
    assert |pre| == RuleCount(groups[..k]);
    ElementOfMiddle(pre, own, post, i);
    assert own[i] == RuleVerdict(RulesOf(groups[k])[i], Evaluate(RulesOf(groups[k])[i], v));
  }

  /** The suite of a selection is the suite before group k, then group k's rules, then the suite after it. */
  lemma {:induction false} RunGroupsSplitAt(groups: seq<Group>, v: View, k: nat)
    requires k < |groups|
    ensures RunGroups(groups, v)
         == RunGroups(groups[..k], v) + (RunRules(RulesOf(groups[k]), v) + RunGroups(groups[k + 1..], v))
  {
    var before, rest := groups[..k], groups[k + 1..];
    assert groups == before + ([groups[k]] + rest);
    RunGroupsAppend(before, [groups[k]] + rest, v);
    RunGroupsAppend([groups[k]], rest, v);
    assert [groups[k]][1..] == [];
  }

  lemma ElementOfMiddle<T>(x: seq<T>, y: seq<T>, z: seq<T>, i: nat)
    requires i < |y|
    ensures |x| + i < |x + (y + z)|
    ensures (x + (y + z))[|x| + i] == y[i]
  {
  }

  /** The suite of a + b, past a's verdicts, is b's suite. */
  lemma RunGroupsDrop(a: seq<Group>, b: seq<Group>, v: View)
    ensures RuleCount(a) <= |RunGroups(a + b, v)|
    ensures RunGroups(a + b, v)[RuleCount(a)..] == RunGroups(b, v)
  {
    RunGroupsAppend(a, b, v);
  }

  /** Running only the audio group gives the same audio verdicts as running every group. */
  lemma AudioAloneMatchesFullRun(v: View)
    ensures RunGroups(AllGroups, v)[|RulesOf(Format)| + |RulesOf(Video)|..] == RunGroups([Audio], v)
  {
    AllGroupsEndWithAudio();
    RunGroupsDrop([Format, Video], [Audio], v);
  }

  /** All groups are the format and video groups followed by the audio group. */
  lemma AllGroupsEndWithAudio()
    ensures AllGroups == [Format, Video] + [Audio]
    ensures RuleCount([Format, Video]) == |RulesOf(Format)| + |RulesOf(Video)|
  {
    assert [Format, Video][1..] == [Video];
    assert [Video][1..] == [];
  }

  /** The group lookup as written: TestGroup defines no value_of, so the attribute access raises for every name. */
  function GroupByNameAsWritten(name: string): (r: Result<Group>)
    ensures r.Err? && r.fault == MissingAttribute("value_of")
    ensures IsGroupChoice(name) ==> GroupByName(name).Ok? && r != GroupByName(name)
  {
    Err(MissingAttribute("value_of"))
  }

  /** The loop over the selected names as written: the first lookup raises, so no group is ever selected. */
  function SelectGroupsAsWritten(names: seq<string>): (r: Result<seq<Group>>)
    ensures |names| > 0 ==> r.Err?
    ensures |names| == 0 ==> r == Ok([])
  {
    if |names| == 0 then Ok([])
    else
      match GroupByNameAsWritten(names[0])
      case Err(fault) => Err(fault)
      case Ok(g) => Ok([g])
  }

  /** The loop over the selected names, each looked up by value; the first unknown name raises. */
  function SelectGroups(names: seq<string>): (r: Result<seq<Group>>)
    ensures r.Ok? ==> |r.value| == |names|
    ensures r.Ok? ==> forall i | 0 <= i < |names| :: GroupName(r.value[i]) == names[i]
    decreases |names|
  {
    if |names| == 0 then Ok([])
    else
      match GroupByName(names[0])
      case Err(fault) => Err(fault)
      case Ok(g) =>
        match SelectGroups(names[1..])
        case Err(fault) => Err(fault)
        case Ok(rest) => Ok([g] + rest)
  }

  /** A name the command line accepts as a group choice. */
  predicate IsGroupChoice(name: string) {
    name == "format" || name == "video" || name == "audio"
  }

  /** The session of one file as written: any non-empty selection raises before a single rule runs. */
  function RunSelectedAsWritten(names: seq<string>, v: View): (r: Result<seq<RuleVerdict>>)
    ensures |names| > 0 ==> r == Err(MissingAttribute("value_of"))
    ensures |names| == 0 ==> r == Ok([])
  {
    match SelectGroupsAsWritten(names)
    case Err(fault) => Err(fault)
    case Ok(groups) => Ok(RunGroups(groups, v))
  }

  /** The session of one file with the lookup by value: every rule of every selected group runs. */
  function RunSelected(names: seq<string>, v: View): (r: Result<seq<RuleVerdict>>)
    ensures (forall i | 0 <= i < |names| :: IsGroupChoice(names[i])) ==> r.Ok?
    ensures r.Ok? ==> exists groups: seq<Group> ::
      |groups| == |names| && (forall i | 0 <= i < |names| :: GroupName(groups[i]) == names[i]) && r.value == RunGroups(groups, v)
  {
    SelectAcceptsChoices(names);
    match SelectGroups(names)
    case Err(fault) => Err(fault)
    case Ok(groups) => Ok(RunGroups(groups, v))
  }

  lemma {:induction false} SelectAcceptsChoices(names: seq<string>)
    ensures (forall i | 0 <= i < |names| :: IsGroupChoice(names[i])) ==> SelectGroups(names).Ok?
    decreases |names|
  {
    if |names| > 0 {
      SelectAcceptsChoices(names[1..]);
    }
  }

  /** The default selection, every group by name, crashes as written and runs every rule once looked up by value. */
  lemma DefaultSelectionCrashesAsWritten(v: View)
    ensures RunSelectedAsWritten(["format", "video", "audio"], v).Err?
    ensures RunSelected(["format", "video", "audio"], v) == Ok(RunGroups(AllGroups, v))
  {
    var names: seq<string> := ["format", "video", "audio"];
    SelectAcceptsChoices(names);
    var r := SelectGroups(names);
    assert GroupName(r.value[0]) == "format" && GroupName(r.value[1]) == "video" && GroupName(r.value[2]) == "audio";
    assert r.value == AllGroups;
  }
}
