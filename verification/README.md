# A verified model of the AnimeThemes WebM verifier's rule catalog

The AnimeThemes WebM verifier checks a video file against the /r/AnimeThemes
encoding standard. It probes the file three times: the whole-file stream,
format and chapter report; the format record of an audio-only re-mux; and a
loudness measurement. It then keeps the three results in one read-only
metadata view and runs groups of compliance rules against that view. There
are three groups: FORMAT, VIDEO and AUDIO. Each rule returns one of three
outcomes:

- it passes;
- it fails with its assertion message;
- it ends in an error, because the metadata had the wrong shape (a KeyError,
  IndexError, ValueError or InvalidVersion raised while reading it).

This project models the following, and proves what each part promises:

- The metadata view (`WebmView`):
  - how the video and audio stream indices are resolved when the view is
    built: the first stream of the wanted codec type, or 0 when there is none;
  - the accessors that read a named field of the resolved stream, with `""`
    when the field is missing and an IndexError past the end of the list.
- Every rule of the three groups (`FormatRules`, `VideoRules`, `AudioRules`),
  each characterised completely:
  - exactly when it passes;
  - exactly when it ends in an error, and with which fault;
  - the message it fails with.

  The stream-count and chapter rules never end in an error: they pass or fail.
- The value parsers the rules lean on:
  - Python's `int()` on text, and `str.lower`, `str.startswith` and
    `str.removeprefix` (`Text`);
  - `packaging.version` parsing and ordering of dotted numeric releases
    (`Release`).
- The session loop (`Session`): for each selected group, every rule of the
  group is added to one suite in the test loader's order (sorted by test
  method name), and the whole suite runs without stopping at a failure.

Module layout:

| module | file | models |
|---|---|---|
| `Outcomes` | outcomes.dfy | option, result and verdict types; `assertTrue`/`assertEqual` |
| `Text` | text.dfy | `int()`, ASCII `lower`, `startswith`, `removeprefix`, string order |
| `Release` | release.dfy | release parsing and packaging's release ordering |
| `Media` | media.dfy | the probed report: streams, format record, chapters, tags |
| `WebmView` | webm_view.dfy | `WebmFormat`: index resolution and the accessors |
| `FormatRules` | format_rules.dfy | `TestFormat` |
| `VideoRules` | video_rules.dfy | `TestVideo` |
| `AudioRules` | audio_rules.dfy | `TestAudio` |
| `Session` | session.dfy | `TestGroup` and the suite-building loop of the entry point |

Modelling choices:

- Tag dictionaries are ordered lists of `Tag(key, value)`. Python dictionaries
  keep the report's order, and the encoder-version rule stops at the first
  encoder tag that fails or raises, so order decides between Fail and Error.
  The type allows a key to appear twice, but decoded JSON objects hold one
  entry per key, so the reports never have duplicate keys. No result depends
  on this.
- A stream's or the format record's tag dictionary is an `Option`. A stream
  without one leaks no metadata. A format record without one is a KeyError in
  every rule that reads it.
- Numeric report fields (height, bit_rate, sample_rate, channels) are held as
  their decimal text, and the rules parse them with the model of `int()`.
- The loudness measurement's entries are already numbers (`real`). A missing
  entry reads as `""`, which `float()` rejects, so the rule ends in an error.
- Python's `int()` is modelled over ASCII. The white space it skips around the
  numeral is tab, line feed, vertical tab, form feed, carriage return and
  space. `str.strip()` would also remove the separators 0x1C to 0x1F, but
  `int()` rejects them. An optional sign is allowed, and single underscores
  may sit between digits.
- A release compares as packaging compares release segments: trailing zero
  components are dropped, then the lists are compared as Python tuples. The
  model proves this is the same as the padded, position-by-position numeric
  order (`Release.AtLeast`) and that it is a total preorder.

## Model

| member | source | states |
|---|---|---|
| WebmView.StreamIndex | test_webm/_webm_format.py:134-150 | the resolved index is that of the first stream whose codec_type is the role, with no earlier stream of that role, and 0 when no stream has the role |
| WebmView.ResolutionIsUnique | test_webm/_webm_format.py:146-150 | at most one index satisfies the resolution, so the resolver's answer is determined by the streams and role |
| WebmView.Open | test_webm/_webm_format.py:28-33 | the view keeps the three probed sources unchanged and its video and audio indices are the resolutions for "video" and "audio" |
| WebmView.StreamEntry | test_webm/_webm_format.py:161 | reading a stream field raises IndexError exactly when the index is past the list; otherwise it gives the stored field, or "" when the field is missing |
| WebmView.VideoEntry | test_webm/_webm_format.py:153-161 | the video accessor errs exactly when the resolved video index is past the stream list, and otherwise reads that stream's field with "" as default |
| WebmView.AudioEntry | test_webm/_webm_format.py:164-172 | the audio accessor errs exactly when the resolved audio index is past the stream list, and otherwise reads that stream's field with "" as default |
| WebmView.AudioFormatEntry | test_webm/_webm_format.py:175-183 | a field of the audio-only re-mux's format record, or "" when missing |
| WebmView.LoudnessEntry | test_webm/_webm_format.py:186-194 | a loudness entry is present exactly when the measurement holds it, with the measured value |
| WebmView.VideoEntryReadsFirstVideoStream | test_webm/_webm_format.py:146-161 | when stream i is the first video stream, every video field read on the opened view is stream i's field |
| WebmView.AudioEntryReadsFirstAudioStream | test_webm/_webm_format.py:164-172 | when stream i is the first audio stream, every audio field read on the opened view is stream i's field |
| WebmView.MissingRoleFallsBackToFirstStream | test_webm/_webm_format.py:146-150 | with no stream of a role, that role's accessor reads stream 0, and both accessors raise IndexError on an empty stream list |
| WebmView.ExpectedLayoutResolves | test_webm/_webm_format.py:131-150 | with video at 0 and audio at 1, the resolved indices are 0 and 1 |
| FormatRules.CheckVideoStream | test_webm/_test_format.py:11-14 | errs with IndexError on index 0 exactly on an empty stream list; passes exactly when stream 0's codec_type is "video" |
| FormatRules.CheckAudioStream | test_webm/_test_format.py:17-20 | errs with IndexError on index 1 exactly when there are fewer than two streams; passes exactly when stream 1's codec_type is "audio" |
| FormatRules.CheckStreamCount | test_webm/_test_format.py:23-26 | passes exactly when there are two streams, otherwise fails with "Unexpected number of streams" |
| FormatRules.LayoutRulesFixAccessors | test_webm/_test_format.py:11-20 | when both layout rules pass, the video accessor reads stream 0 and the audio accessor stream 1 |
| FormatRules.EncoderNamesOk | test_webm/_test_format.py:31-34 | true exactly when every tag whose key lower-cases to "encoder" has a value starting with "Lavf" |
| FormatRules.CheckEncoderName | test_webm/_test_format.py:29-34 | errs with KeyError "tags" exactly when the format record has no tags; passes exactly when every encoder tag starts with "Lavf", including when there is none |
| FormatRules.MinimumEncoderVersionParses | test_webm/_test_format.py:47 | the minimum version text "61.7.100" parses to the release [61, 7, 100] |
| FormatRules.VersionScan | test_webm/_test_format.py:39-50 | the scan passes exactly when every encoder tag names an up-to-date release, and errs exactly when the first encoder tag that is not up to date does not parse: with InvalidVersion on that tag's text without "Lavf" when the text is not a dotted release, and with int()'s ValueError on a component of more than 4300 digits when it is |
| FormatRules.CheckEncoderVersion | test_webm/_test_format.py:37-50 | errs exactly when tags are missing (KeyError "tags") or the first not-up-to-date encoder tag does not parse (InvalidVersion on its text when it is not a dotted release, ValueError on a component over 4300 digits when it is); passes exactly when every encoder tag, without its "Lavf" prefix, is a release at least 61.7.100 |
| FormatRules.OverlongEncoderVersionErrs | test_webm/_test_format.py:42-46 | an encoder tag "Lavf" followed by a digit run longer than 4300 digits errs with ValueError on that run, not with InvalidVersion and not with a verdict |
| FormatRules.CheckEncoderVersionBeforePython39 | test_webm/_test_format.py:39-45 | on a Python without str.removeprefix: errs with KeyError "tags" when tags are missing, errs with AttributeError "removeprefix" exactly when some encoder tag exists, and otherwise passes; it never fails |
| FormatRules.UpToDateEncoderErrsBeforePython39 | setup.py:29 | a file whose encoder tags are all up to date ends in AttributeError on such a Python, while the rule as intended passes |
| FormatRules.CheckFileFormat | test_webm/_test_format.py:53-56 | errs with KeyError "format_name" exactly when format_name is missing; passes exactly when it is "matroska,webm" |
| FormatRules.CheckFilesize | test_webm/_test_format.py:59-66 | errs exactly when bit_rate is missing (KeyError) or not an integer that int() converts (ValueError, which includes numerals over 4300 digits), or else the video stream is out of range (IndexError) or its height is not an integer (ValueError), the first of these in that order; passes exactly when bit_rate < height * 5000 + 683300 |
| FormatRules.AnyStreamTagLeaks | test_webm/_test_format.py:75-77 | true exactly when some stream tag key, lower-cased, is neither "encoder" nor "duration" |
| FormatRules.AnyFormatTagLeaks | test_webm/_test_format.py:80-82 | true exactly when some format tag key, lower-cased, is not "encoder" |
| FormatRules.AnyStreamLeaks | test_webm/_test_format.py:73-77 | true exactly when some stream has a tag dictionary with a leaking key; streams without one leak nothing |
| FormatRules.CheckMetadata | test_webm/_test_format.py:69-84 | errs with KeyError "tags" exactly when the format record has no tags, whatever the streams hold; fails exactly when some stream or format tag leaks |
| FormatRules.CheckChapters | test_webm/_test_format.py:87-91 | passes exactly when there are no chapters and fails otherwise, so it never errs |
| VideoRules.CheckVideoCodec | test_webm/_test_video.py:10-13 | errs with IndexError on the video index exactly when that index is out of range; passes exactly when codec_name is "vp9" |
| VideoRules.CheckPixelFormat | test_webm/_test_video.py:16-19 | errs with IndexError on the video index exactly when that index is out of range; passes exactly when pix_fmt is "yuv420p" |
| VideoRules.CheckColorSpace | test_webm/_test_video.py:22-29 | errs with IndexError on the video index exactly when that index is out of range; passes exactly when color_space is bt709, smpte170m or bt470bg, so a missing one fails |
| VideoRules.CheckColorTransfer | test_webm/_test_video.py:32-39 | the same for color_transfer |
| VideoRules.CheckColorPrimaries | test_webm/_test_video.py:42-49 | the same for color_primaries |
| VideoRules.CheckFrameRate | test_webm/_test_video.py:53-68 | errs with IndexError on the video index exactly when that index is out of range; passes exactly when avg_frame_rate is one of the nine accepted rational strings, compared as text |
| VideoRules.ColorRulesIndependent | test_webm/_test_video.py:22-49 | changing any other field of the video stream leaves each colour rule's verdict unchanged |
| VideoRules.FrameRateExamples | test_webm/_test_video.py:53-68 | 30000/1001 passes, the interpolated 60000/1001 fails, and a missing frame rate fails |
| VideoRules.VideoRulesFollowResolvedIndex | test_webm/_test_video.py:10-13 | with audio first and video second, the video index is 1 and the codec rule judges the second stream |
| AudioRules.CheckAudioCodec | test_webm/_test_audio.py:10-13 | errs with IndexError on the audio index exactly when that index is out of range; passes exactly when codec_name is "opus" |
| AudioRules.LoudnessValue | test_webm/_test_audio.py:18 | a loudness entry reads as its measured value, and a missing one raises ValueError on "" |
| AudioRules.CheckIntegratedLoudness | test_webm/_test_audio.py:16-19 | errs with ValueError on "" exactly when input_i is missing; passes exactly when -16.25 <= input_i <= -15.75 |
| AudioRules.CheckTruePeak | test_webm/_test_audio.py:22-25 | errs with ValueError on "" exactly when input_tp is missing; passes exactly when input_tp <= -1.0 |
| AudioRules.LoudnessExamples | test_webm/_test_audio.py:16-25 | both ends of the loudness window pass and values 0.01 outside fail; a true peak of -0.9 fails |
| AudioRules.CheckAudioBitrate | test_webm/_test_audio.py:30-37 | errs with ValueError on the text exactly when the re-mux's bit_rate (default "") is not an integer that int() converts, which includes numerals over 4300 digits; passes exactly when it lies in 167000..217000 or 295000..345000 |
| AudioRules.AudioBitrateOfWrittenInteger | test_webm/_test_audio.py:30-37 | for every integer written in decimal in at most 4300 digits, the bitrate rule passes exactly inside the two bands and otherwise fails with "Unexpected audio bitrate"; written in more digits, it errs with ValueError on the text |
| AudioRules.AudioBitrateBelowAMillion | test_webm/_test_audio.py:30-37 | every bitrate below 1000000 is within the digit limit, so the rule passes exactly inside the two bands |
| AudioRules.AudioBitrateIgnoresFileFormat | test_webm/_test_audio.py:33 | the bitrate rule reads only the audio-only re-mux: the whole file's format record does not change its verdict |
| AudioRules.AudioBitrateTargetsPass | test_webm/_test_audio.py:27-37 | the 192 kbps and 320 kbps targets, 192000 and 320000, pass |
| AudioRules.AudioBitrateGapFails | test_webm/_test_audio.py:30-37 | every bitrate below 167000 or strictly between 217000 and 295000 fails with "Unexpected audio bitrate" |
| AudioRules.AudioBitrateMissingIsError | test_webm/_test_audio.py:33 | a re-mux without a bit_rate reads as "", so the rule errs with ValueError on "" |
| AudioRules.CheckSampleRate | test_webm/_test_audio.py:40-43 | errs exactly when the audio index is out of range (IndexError) or sample_rate is not an integer that int() converts (ValueError on its text, which includes numerals over 4300 digits); passes exactly when it is 48000 |
| AudioRules.CheckChannels | test_webm/_test_audio.py:46-49 | errs exactly when the audio index is out of range (IndexError) or channels is not an integer that int() converts (ValueError on its text, which includes numerals over 4300 digits); passes exactly when it is 2 |
| AudioRules.CheckChannelLayout | test_webm/_test_audio.py:52-55 | errs with IndexError on the audio index exactly when that index is out of range; passes exactly when channel_layout is "stereo" |
| Text.ParseInt | test_webm/_test_format.py:61-62 | int() succeeds exactly on a signed or unsigned numeral (digits with single underscores between digits) of at most 4300 digits, leading zeros counted, once the surrounding white space is stripped; empty text and longer digit texts are rejected; the value is the decimal value of the digits, with underscores and a plus sign ignored and negated after a minus sign |
| Text.ParseIntSigned | test_webm/_test_audio.py:42 | a sign followed by a digit run reads as the run's value, negated after a minus sign, when the run has at most 4300 digits, and is rejected otherwise |
| Text.ParseIntPlusSign | test_webm/_test_audio.py:42 | a plus sign before a numeral is accepted, so "+48000" reads as 48000; past 4300 digits it is rejected |
| Text.ParseIntSeparated | test_webm/_test_audio.py:42 | one underscore between two digit runs is accepted and ignored, so "4_8000" reads as 48000, and only the digits count toward the 4300-digit limit |
| Text.ParseIntSkipsSurroundingSpace | test_webm/_test_audio.py:42 | any run of tab, line feed, vertical tab, form feed, carriage return or space around a decimal numeral is skipped, the numeral being read within the digit limit |
| Text.ParseIntRejectsSeparator | test_webm/_test_audio.py:48 | a numeral preceded by one of the separators 0x1C to 0x1F is rejected, though str.strip() would remove it |
| Text.ParseIntToString | test_webm/_test_format.py:61-62 | int() of the decimal text of any integer of at most 4300 digits gives that integer back, and raises for a longer one |
| Text.StrLessAtFirstDifference | test_webm/__main__.py:88 | two names that agree up to position k and differ there are ordered by their characters at k, as Python orders strings |
| Text.Lower | test_webm/_test_format.py:32 | the lower-cased key has the key's length and each character lower-cased |
| Text.LowerMatchesAnyCase | test_webm/_test_format.py:76 | a key lower-cases to a lower-case word exactly when it spells that word with each letter in either case |
| Text.StartsWith | test_webm/_test_format.py:34 | true exactly when the prefix is no longer than the text and agrees with it position by position |
| Text.RemovePrefix | test_webm/_test_format.py:45 | removing "Lavf" gives the rest when the value starts with it, and the value unchanged otherwise |
| Release.ParseRelease | test_webm/_test_format.py:42-47 | a text that is not dotted decimal (a digit first, every dot followed by a digit) raises InvalidVersion on the text; a dotted decimal one either parses to at least one component or raises int()'s ValueError on a digit field longer than 4300 digits |
| Release.ReadFields | test_webm/_test_format.py:42-47 | reading the fields of dotted decimal text gives at least one component, and its only fault is int()'s ValueError on an over-long field |
| Release.ParseReleaseOfFields | test_webm/_test_format.py:42-47 | dot-separated digit fields, leading zeros allowed, are dotted decimal text; when each field has at most 4300 digits they parse to each field's decimal value, so "61.07.100" reads as 61, 7, 100, and otherwise the first longer field raises ValueError |
| Release.ReleaseTextIsFields | test_webm/_test_format.py:42-47 | every text that parses is such a join of digit fields, so with the line above the components of every parsed text are determined |
| Release.ParseReleaseToString | test_webm/_test_format.py:42-47 | a release written as dotted decimals is dotted decimal text, and parses back to the same components when each is written in at most 4300 digits |
| Release.AtLeast | test_webm/_test_format.py:48-50 | the packaging comparison a >= b holds exactly when a is not below b in the numeric order on components, missing components counting as 0 |
| Release.AtLeastIsTotalPreorder | test_webm/_test_format.py:48-50 | the comparison is reflexive, total and transitive |
| Release.NumericNotLexical | test_webm/_test_format.py:48-50 | 61.10.0 is newer than 61.7.100, so components compare as numbers, not text |
| Release.TrailingZerosIgnored | test_webm/_test_format.py:48-50 | appending a zero component does not change a release's order |
| Session.GroupByName | test_webm/_test_group.py:18-20 | the lookup by value finds the group with that name, and no group has the name when it fails |
| Session.GroupByNameOfName | test_webm/_test_group.py:18-20 | looking a group up by its own name gives that group |
| Session.RulesOf | test_webm/__main__.py:87-88 | a group's rule list holds exactly the rules declared in its test class |
| Session.RulesOfInLoaderOrder | test_webm/__main__.py:88 | each group's rules are in strictly increasing test-method-name order, the test loader's order, so each appears once |
| Session.Evaluate | test_webm/__main__.py:90-93 | a rule run on the view fails only with its own test method's assertion message (`FailMessage`); any video rule errs, with IndexError on the video index, exactly when that index is out of range; the audio codec and layout rules err exactly when the audio index is; the stream-count and chapter rules never err |
| Session.RunRules | test_webm/__main__.py:90-93 | the suite has one verdict per rule, in order, each the rule's own verdict on the view |
| Session.RunGroups | test_webm/__main__.py:85-93 | the suite of a selection has as many verdicts as the selected groups have rules |
| Session.RunGroupsAppend | test_webm/__main__.py:85-91 | the suite of a + b is a's suite followed by b's |
| Session.EveryRuleOfEverySelectedGroupRuns | test_webm/__main__.py:85-93 | every rule of every selected group has its own verdict at its place in the suite, whatever the other rules gave |
| Session.AudioAloneMatchesFullRun | test_webm/__main__.py:85-91 | the audio verdicts of the default run equal those of running the audio group alone |
| Session.GroupByNameAsWritten | test_webm/__main__.py:86 | the lookup as written raises AttributeError for every name, including each of the three names the corrected lookup by value resolves |
| Session.SelectGroupsAsWritten | test_webm/__main__.py:85-86 | the selection as written raises on every non-empty list of names |
| Session.SelectGroups | test_webm/__main__.py:85-86 | a successful selection has one group per name, each named by its name |
| Session.SelectAcceptsChoices | test_webm/__main__.py:40-46 | every list of names the command line accepts as choices selects successfully |
| Session.RunSelectedAsWritten | test_webm/__main__.py:85-93 | as written, any non-empty selection raises AttributeError before a single rule runs |
| Session.RunSelected | test_webm/__main__.py:85-93 | with the lookup by value, a selection of valid names runs, and its suite is the suite of the groups so named |
| Session.DefaultSelectionCrashesAsWritten | test_webm/__main__.py:43-46 | the default selection, every group, raises as written, and with the lookup by value runs the suite of all three groups |

## Left out

- Running ffprobe and ffmpeg, decoding their JSON, and extracting the loudness block with a regular expression: the model starts from the decoded reports, given as parameters.
- The audio-only re-mux's report is reduced to its format record's fields. A report without a "format" key, which would raise KeyError in the accessor, is not modelled.
- `debug_dump`, logging, argument parsing, the `which` checks for the tools, `file_arg_type` and `setup.py`: they are I/O around the core.
- The test runner's report text: the model returns the list of verdicts instead of printing them.
- `float()` on the loudness entries: entries are taken as already-parsed reals, so texts such as "inf" or "nan" are not modelled.
- A report whose top level lacks "streams", "format" or "chapters", or a stream without codec_type: the prober always writes these, so the model's types require them.
- Text.ParseInt: covers ASCII white space, signs, ASCII digits and underscore separators. The Unicode white space and non-ASCII decimal digits that Python's `int()` also accepts are not modelled.
- Text.Lower: lower-cases ASCII letters only. Python also lower-cases non-ASCII letters, and one of them lower-cases to an ASCII letter: U+212A KELVIN SIGN gives "k". Neither "encoder" nor "duration" contains a k, so the model still decides every comparison the rules make exactly. (U+0130 gives "i" followed by a combining dot, which matches neither word.)
- Text.ParseInt: assumes the default integer digit limit (4300 digits) of CPython 3.11 and later and of the 3.10.7, 3.9.14, 3.8.14 and 3.7.14 security releases. Python 3.9.0 to 3.9.13 and 3.10.0 to 3.10.6 have no limit, so there a longer numeral parses instead of raising; the limit can also be changed with PYTHONINTMAXSTRDIGITS or `sys.set_int_max_str_digits`.
- Release.ParseRelease: packaging reads each release field with `int()`, so the same digit limit and the same version assumption apply to release fields.
- AudioRules.CheckAudioBitrate, AudioRules.CheckSampleRate, AudioRules.CheckChannels, FormatRules.CheckFilesize: these rules use the ASCII model of `int()`. A field padded with Unicode white space or written in non-ASCII digits is an error in the model, although Python would parse it. The prober writes plain ASCII decimals.
- FormatRules.CheckEncoderVersion: release parsing accepts only dotted decimal releases. The other PEP 440 forms packaging also accepts (an epoch, a pre-, post- or dev-release, a local label, a leading "v", surrounding white space) are treated as InvalidVersion, so for such tags the model reports an error where packaging might compare.
- FormatRules.CheckEncoderVersion: assumes packaging 22 or later, which raises InvalidVersion on text it cannot parse. setup.py declares no packaging dependency, and earlier packaging returns a LegacyVersion that sorts below every release, so an unparseable encoder tag would fail with "Build is out of date" instead of erring. It also assumes Python 3.9 or later for `str.removeprefix` (see "## Findings" for the earlier versions that setup.py admits).
- That the accessors do not mutate the view holds by construction, since the view is an immutable value.

## Findings

| source | as written | input that shows it | evidently intended | confidence | as-written member | corrected member |
|---|---|---|---|---|---|---|
| test_webm/__main__.py:86 | each selected group name is looked up with `TestGroup.value_of(group)`, but the enumeration defines no `value_of`, so the access raises AttributeError | the default selection ["format", "video", "audio"], or any `--groups` list that is not empty | look the group up by value, `TestGroup(group)`, so every rule of every selected group is added to the suite | high; not executed | Session.DefaultSelectionCrashesAsWritten | Session.RunSelected |
| setup.py:29 | `python_requires='>=3.6'` admits Python 3.6 to 3.8, but test_encoder_version (test_webm/_test_format.py:45) calls `str.removeprefix`, which only exists from 3.9 | on Python 3.8, any file with an encoder tag, even "Lavf61.7.100" | require Python 3.9 or later, so the rule compares the release | high; not executed | FormatRules.UpToDateEncoderErrsBeforePython39 | FormatRules.CheckEncoderVersion |
