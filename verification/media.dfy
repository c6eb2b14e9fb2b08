/**
  The probed metadata of one file, as the prober's JSON report gives it once
  decoded: the streams, the container format and the chapters.
 */
module Media {
  import opened Outcomes

  /** One metadata tag. A tag dictionary keeps the order of the report, so it is a list of tags. */
  datatype Tag = Tag(key: string, value: string)

  /**
    One elementary stream. codec_type is always reported; every other field
    (codec_name, pix_fmt, height, sample_rate, ...) may be missing. Numeric
    fields are held as their decimal text. The tag dictionary itself may be
    missing, which is not the same as being empty.
   */
  datatype Stream = Stream(codecType: string, fields: map<string, string>, tags: Option<seq<Tag>>)

  /** The container-level record: format_name, bit_rate and the other fields, plus the tag dictionary. */
  datatype FormatInfo = FormatInfo(fields: map<string, string>, tags: Option<seq<Tag>>)

  /** A chapter (menu) marker; only whether there are any matters to the rules. */
  datatype Chapter = Chapter(fields: map<string, string>)

  /** The whole-file report: streams in file order, the format record and the chapters. */
  datatype Container = Container(streams: seq<Stream>, format: FormatInfo, chapters: seq<Chapter>)

  /** dict.get(key, ""): the stored value, or the empty string when the key is missing. */
  function Get(m: map<string, string>, key: string): string {
    if key in m then m[key] else ""
  }
}
