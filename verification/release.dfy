/**
  Release versions as the encoder-version rule reads them: a dotted numeric
  release such as 61.7.100, parsed into its components and ordered the way
  packaging.version orders release segments (trailing zero components are
  dropped, then the components are compared as a Python tuple).
 */
module Release {
  import opened Outcomes
  import opened Text

  /** The length of the leading run of digits of s. */
  function DigitRun(s: string): (k: nat)
    ensures k <= |s|
    ensures AllDigits(s[..k])
    ensures k < |s| ==> !IsDigit(s[k])
    decreases |s|
  {
    if |s| == 0 || !IsDigit(s[0]) then 0
    else
      var k := 1 + DigitRun(s[1..]);
      assert s[..k] == [s[0]] + s[1..][..k - 1];
      k
  }

  /** Dotted decimal text: it starts with a digit, and every character is a digit or a dot followed by a digit. */
  predicate IsReleaseText(s: string) {
    && |s| > 0 && IsDigit(s[0])
    && forall i | 0 <= i < |s| :: IsDigit(s[i]) || (s[i] == '.' && i + 1 < |s| && IsDigit(s[i + 1]))
  }

  /**
    packaging.version.Version on a dotted numeric release N(.N)*: its
    components, InvalidVersion for any other text, and the ValueError of int()
    when a component is longer than the integer digit limit.
   */
  function ParseRelease(s: string): (r: Result<seq<nat>>)
    ensures r.Ok? ==> IsReleaseText(s) && |r.value| > 0
    ensures !IsReleaseText(s) ==> r == Err(InvalidVersion(s))
    ensures r.Err? && IsReleaseText(s) ==> IsOverlongField(r.fault)
  {
    if IsReleaseText(s) then ReadFields(s) else Err(InvalidVersion(s))
  }

  /** The fault int() raises on a run of more digits than it converts. */
  predicate IsOverlongField(f: Fault) {
    f.NotAnInteger? && |f.text| > MaxStrDigits && AllDigits(f.text)
  }

  /** The fields of release text read left to right with int(): the first field over the digit limit raises. */
  function ReadFields(s: string): (r: Result<seq<nat>>)
    requires IsReleaseText(s)
    ensures r.Ok? ==> |r.value| > 0
    ensures r.Err? ==> IsOverlongField(r.fault)
    decreases |s|
  {
    var k := DigitRun(s);
    if k > MaxStrDigits then Err(NotAnInteger(s[..k]))
    else if k == |s| then
      assert s[..k] == s;
      Ok([DigitsValue(s)])
    else
      assert s[k] == '.';
      assert k > 0 by {
        assert IsDigit(s[0]);
      }
      ReleaseTextAfterDot(s, k);
      match ReadFields(s[k + 1..])
      case Err(f) => Err(f)
      case Ok(rest) => Ok([DigitsValue(s[..k])] + rest)
  }

  /** Past a leading run of digits and a dot, the text is release text exactly when the rest is. */
  lemma ReleaseTextAfterDot(s: string, k: nat)
    requires 0 < k < |s| && AllDigits(s[..k]) && s[k] == '.'
    ensures IsReleaseText(s) <==> IsReleaseText(s[k + 1..])
  {
    var rest := s[k + 1..];
    if IsReleaseText(s) {
      assert IsDigit(rest[0]);
      forall j | 0 <= j < |rest|
        ensures IsDigit(rest[j]) || (rest[j] == '.' && j + 1 < |rest| && IsDigit(rest[j + 1]))
      {
        assert rest[j] == s[k + 1 + j];
        if j + 1 < |rest| {
          assert rest[j + 1] == s[k + 2 + j];
        }
      }
    }
    if IsReleaseText(rest) {
      assert IsDigit(s[0]) by {
        assert s[0] == s[..k][0];
      }
      forall i | 0 <= i < |s|
        ensures IsDigit(s[i]) || (s[i] == '.' && i + 1 < |s| && IsDigit(s[i + 1]))
      {
        if i < k {
          assert s[i] == s[..k][i];
        } else if i == k {
          assert s[k + 1] == rest[0];
        } else {
          assert s[i] == rest[i - k - 1];
          if i + 1 < |s| {
            assert s[i + 1] == rest[i - k];
          }
        }
      }
    }
  }

  /** The dotted text of a release, each component in its shortest numeral. */
  function ReleaseToString(v: seq<nat>): string
    requires |v| > 0
    decreases |v|
  {
    if |v| == 1 then NatToString(v[0])
    else NatToString(v[0]) + "." + ReleaseToString(v[1..])
  }

  lemma {:induction false} DigitRunOfNumeral(digits: string, tail: string)
    requires AllDigits(digits)
    requires |tail| > 0 ==> !IsDigit(tail[0])
    ensures DigitRun(digits + tail) == |digits|
    decreases |digits|
  {
    if |digits| > 0 {
      assert (digits + tail)[1..] == digits[1..] + tail;
      DigitRunOfNumeral(digits[1..], tail);
    } else {
      assert digits + tail == tail;
    }
  }

  /** A single field is release text, read as its value unless it is over the digit limit. */
  lemma ReadSingleField(head: string)
    requires |head| > 0 && AllDigits(head)
    ensures IsReleaseText(head)
    ensures ReadFields(head) == (if |head| > MaxStrDigits then Err(NotAnInteger(head)) else Ok([DigitsValue(head)]))
  {
    DigitRunOfNumeral(head, "");
    assert head + "" == head;
    assert IsDigit(head[0]);
    assert head[..|head|] == head;
  }

  /** A field, a dot and release text are release text, read field first: an over-long first field raises before the rest is read. */
  lemma ReadFieldThenRest(head: string, rest: string)
    requires |head| > 0 && AllDigits(head) && IsReleaseText(rest)
    ensures IsReleaseText(head + "." + rest)
    ensures |head| > MaxStrDigits ==> ReadFields(head + "." + rest) == Err(NotAnInteger(head))
    ensures |head| <= MaxStrDigits ==>
      ReadFields(head + "." + rest) == (if ReadFields(rest).Ok? then Ok([DigitsValue(head)] + ReadFields(rest).value) else ReadFields(rest))
  {
    var s := head + "." + rest;
    DigitRunOfNumeral(head, "." + rest);
    assert s == head + ("." + rest);
    assert DigitRun(s) == |head|;
    assert s[..|head|] == head;
    assert s[|head| + 1..] == rest;
    ReleaseTextAfterDot(s, |head|);
    if |head| <= MaxStrDigits {
      var tail := ReadFields(rest);
      assert ReadFields(s) == (match tail case Err(f) => Err(f) case Ok(r) => Ok([DigitsValue(head)] + r));
    }
  }

  /** Every component of the release is written in at most MaxStrDigits digits. */
  predicate ComponentsFit(v: seq<nat>) {
    forall i | 0 <= i < |v| :: |NatToString(v[i])| <= MaxStrDigits
  }

  /** Writing a release gives release text, and parsing it back gives the same components when int() can read each one. */
  lemma {:induction false} ParseReleaseToString(v: seq<nat>)
    requires |v| > 0
    ensures IsReleaseText(ReleaseToString(v))
    ensures ComponentsFit(v) ==> ParseRelease(ReleaseToString(v)) == Ok(v)
    decreases |v|
  {
    var head := NatToString(v[0]);
    if |v| == 1 {
      ReadSingleField(head);
      assert [v[0]] == v;
    } else {
      ParseReleaseToString(v[1..]);
      ReadFieldThenRest(head, ReleaseToString(v[1..]));
      if ComponentsFit(v) {
        assert ComponentsFit(v[1..]) by {
          forall i | 0 <= i < |v| - 1 ensures |NatToString(v[1..][i])| <= MaxStrDigits {
            assert v[1..][i] == v[i + 1];
          }
        }
        assert [v[0]] + v[1..] == v;
      }
    }
  }

  /** Dot-separated fields of a release text: at least one, each a non-empty run of digits, leading zeros allowed. */
  predicate AreFields(fields: seq<string>) {
    |fields| > 0 && forall i | 0 <= i < |fields| :: |fields[i]| > 0 && AllDigits(fields[i])
  }

  /** The fields joined with dots. */
  function JoinFields(fields: seq<string>): string
    requires AreFields(fields)
    decreases |fields|
  {
    if |fields| == 1 then fields[0]
    else fields[0] + "." + JoinFields(fields[1..])
  }

  /** The decimal value of each field, as packaging reads a release segment with int(). */
  function FieldValues(fields: seq<string>): (v: seq<nat>)
    requires AreFields(fields)
    ensures |v| == |fields|
    ensures forall i | 0 <= i < |fields| :: v[i] == DigitsValue(fields[i])
  {
    seq(|fields|, i requires 0 <= i < |fields| => DigitsValue(fields[i]))
  }

  /** Every field is within the digit limit of int(). */
  predicate FieldsFit(fields: seq<string>) {
    forall i | 0 <= i < |fields| :: |fields[i]| <= MaxStrDigits
  }

  /** Field i is the first one over the digit limit: the one int() raises on. */
  predicate FirstOverlong(fields: seq<string>, i: nat)
    requires i < |fields|
  {
    |fields[i]| > MaxStrDigits && FieldsFit(fields[..i])
  }

  /**
    Dotted fields are release text. Parsing them gives each field's decimal
    value, so "61.07.100" reads as 61, 7, 100; a field longer than the digit
    limit makes the first such field raise instead.
   */
  lemma {:induction false} ParseReleaseOfFields(fields: seq<string>)
    requires AreFields(fields)
    ensures IsReleaseText(JoinFields(fields))
    ensures FieldsFit(fields) ==> ParseRelease(JoinFields(fields)) == Ok(FieldValues(fields))
    ensures !FieldsFit(fields) ==> exists i | 0 <= i < |fields| ::
      FirstOverlong(fields, i) && ParseRelease(JoinFields(fields)) == Err(NotAnInteger(fields[i]))
    decreases |fields|
  {
    var head := fields[0];
    assert fields[..0] == [];
    if |fields| == 1 {
      ReadSingleField(head);
      if FieldsFit(fields) {
        assert [DigitsValue(head)] == FieldValues(fields);
      } else {
        assert FirstOverlong(fields, 0);
      }
    } else {
      var tail := fields[1..];
      assert AreFields(tail) by {
        assert forall i | 0 <= i < |tail| :: tail[i] == fields[i + 1];
      }
      ParseReleaseOfFields(tail);
      ReadFieldThenRest(head, JoinFields(tail));
      if |head| > MaxStrDigits {
        assert FirstOverlong(fields, 0);
      } else if FieldsFit(tail) {
        assert FieldsFit(fields) by {
          forall i | 0 <= i < |fields| ensures |fields[i]| <= MaxStrDigits {
            if i > 0 { assert fields[i] == tail[i - 1]; }
          }
        }
        assert [DigitsValue(head)] + FieldValues(tail) == FieldValues(fields);
      } else {
        var j :| 0 <= j < |tail| && FirstOverlong(tail, j) && ParseRelease(JoinFields(tail)) == Err(NotAnInteger(tail[j]));
        OverlongTail(fields, j);
        assert fields[j + 1] == tail[j];
      }
    }
  }

  /** When the first field fits, the first over-long field of the rest is the first over-long field of the whole. */
  lemma OverlongTail(fields: seq<string>, j: nat)
    requires j + 1 < |fields| && |fields[0]| <= MaxStrDigits
    requires FirstOverlong(fields[1..], j)
    ensures FirstOverlong(fields, j + 1)
  {
    assert fields[..j + 1] == [fields[0]] + fields[1..][..j];
  }

  /** Every text a release parses from is dotted fields. */
  lemma {:induction false} ReleaseTextIsFields(s: string)
    requires IsReleaseText(s)
    ensures exists fields :: AreFields(fields) && JoinFields(fields) == s
    decreases |s|
  {
    var k := DigitRun(s);
    assert k > 0;
    if k == |s| {
      assert s[..k] == s;
      assert AreFields([s]) && JoinFields([s]) == s;
    } else {
      assert s[k] == '.';
      ReleaseTextAfterDot(s, k);
      ReleaseTextIsFields(s[k + 1..]);
      var tail :| AreFields(tail) && JoinFields(tail) == s[k + 1..];
      var fields := [s[..k]] + tail;
      assert fields[1..] == tail;
      assert AreFields(fields);
      assert JoinFields(fields) == s[..k] + "." + s[k + 1..];
      assert s[..k] + "." + s[k + 1..] == s;
    }
  }

  /** The release with its trailing zero components dropped: 61.7.100.0 and 61.7.100 share it. */
  function TrimZeros(v: seq<nat>): (r: seq<nat>)
    ensures |r| <= |v| && r == v[..|r|]
    ensures |r| > 0 ==> r[|r| - 1] != 0
    ensures forall i | |r| <= i < |v| :: v[i] == 0
    decreases |v|
  {
    if |v| > 0 && v[|v| - 1] == 0 then TrimZeros(v[..|v| - 1]) else v
  }

  /** Python's tuple `<`: the first difference decides, and a proper prefix is smaller. */
  predicate TupleLess(a: seq<nat>, b: seq<nat>)
    decreases |a|
  {
    if |b| == 0 then false
    else if |a| == 0 then true
    else if a[0] != b[0] then a[0] < b[0]
    else TupleLess(a[1..], b[1..])
  }

  /**
    version.parse(a) >= version.parse(b) for two releases: packaging compares
    the releases with trailing zeros dropped as tuples, which is the padded,
    position-by-position numeric order.
   */
  function AtLeast(a: seq<nat>, b: seq<nat>): (r: bool)
    ensures r <==> !PaddedLess(a, b)
  {
    TupleLessIsPaddedLess(TrimZeros(a), TrimZeros(b));
    PaddedLessTrimZeros(a, b);
    !TupleLess(TrimZeros(a), TrimZeros(b))
  }

  /** Component i of a release, where components past the end read as 0. */
  function Component(v: seq<nat>, i: nat): nat {
    if i < |v| then v[i] else 0
  }

  /** The reference order: a is below b when, at the first position where they differ (missing components read as 0), a's component is smaller. */
  ghost predicate PaddedLess(a: seq<nat>, b: seq<nat>) {
    exists i: nat :: PaddedLessAt(a, b, i)
  }

  ghost predicate PaddedLessAt(a: seq<nat>, b: seq<nat>, i: nat) {
    (forall j: nat | j < i :: Component(a, j) == Component(b, j)) && Component(a, i) < Component(b, i)
  }

  function Tail(v: seq<nat>): seq<nat> {
    if |v| == 0 then [] else v[1..]
  }

  lemma TailComponent(v: seq<nat>, i: nat)
    ensures Component(Tail(v), i) == Component(v, i + 1)
  {
  }

  /** With equal first components, the padded order is decided by the rest. */
  lemma {:induction false} PaddedLessTail(a: seq<nat>, b: seq<nat>)
    requires Component(a, 0) == Component(b, 0)
    ensures PaddedLess(a, b) <==> PaddedLess(Tail(a), Tail(b))
  {
    if PaddedLess(a, b) {
      var i: nat :| PaddedLessAt(a, b, i);
      assert i > 0;
      forall j: nat | j < i - 1
        ensures Component(Tail(a), j) == Component(Tail(b), j)
      {
        TailComponent(a, j);
        TailComponent(b, j);
      }
      TailComponent(a, i - 1);
      TailComponent(b, i - 1);
      assert PaddedLessAt(Tail(a), Tail(b), i - 1);
    }
    if PaddedLess(Tail(a), Tail(b)) {
      var i: nat :| PaddedLessAt(Tail(a), Tail(b), i);
      forall j: nat | j < i + 1
        ensures Component(a, j) == Component(b, j)
      {
        if j > 0 {
          TailComponent(a, j - 1);
          TailComponent(b, j - 1);
        }
      }
      TailComponent(a, i);
      TailComponent(b, i);
      assert PaddedLessAt(a, b, i + 1);
    }
  }

  predicate NoTrailingZero(v: seq<nat>) {
    |v| == 0 || v[|v| - 1] != 0
  }

  /** On releases without trailing zeros, tuple order and padded order agree. */
  lemma {:induction false} TupleLessIsPaddedLess(a: seq<nat>, b: seq<nat>)
    requires NoTrailingZero(a) && NoTrailingZero(b)
    ensures TupleLess(a, b) <==> PaddedLess(a, b)
    decreases |a| + |b|
  {
    if |b| == 0 {
    } else if |a| == 0 {
      if b[0] != 0 {
        assert PaddedLessAt(a, b, 0);
      } else {
        assert |b| >= 2;
        TupleLessIsPaddedLess(a, b[1..]);
        PaddedLessTail(a, b);
      }
    } else if a[0] != b[0] {
      if a[0] < b[0] {
        assert PaddedLessAt(a, b, 0);
      }
    } else {
      TupleLessIsPaddedLess(a[1..], b[1..]);
      PaddedLessTail(a, b);
    }
  }

  /** The padded order only looks at components, which trimming zeros keeps. */
  lemma {:induction false} PaddedLessTrimZeros(a: seq<nat>, b: seq<nat>)
    ensures PaddedLess(TrimZeros(a), TrimZeros(b)) <==> PaddedLess(a, b)
  {
    var ta, tb := TrimZeros(a), TrimZeros(b);
    assert forall i: nat :: Component(ta, i) == Component(a, i);
    assert forall i: nat :: Component(tb, i) == Component(b, i);
    if PaddedLess(a, b) {
      var i: nat :| PaddedLessAt(a, b, i);
      assert PaddedLessAt(ta, tb, i);
    }
    if PaddedLess(ta, tb) {
      var i: nat :| PaddedLessAt(ta, tb, i);
      assert PaddedLessAt(a, b, i);
    }
  }

  /** AtLeast is a total preorder: reflexive, total and transitive. */
  lemma AtLeastIsTotalPreorder(a: seq<nat>, b: seq<nat>, c: seq<nat>)
    ensures AtLeast(a, a)
    ensures AtLeast(a, b) || AtLeast(b, a)
    ensures AtLeast(a, b) && AtLeast(b, c) ==> AtLeast(a, c)
  {
    if !PaddedLess(a, b) && !PaddedLess(b, c) && PaddedLess(a, c) {
      var i: nat :| PaddedLessAt(a, c, i);
      PaddedOrderSplit(a, b, c, i);
    }
  }

  /** If a is below c at position i, then a is below b or b is below c. */
  lemma {:induction false} PaddedOrderSplit(a: seq<nat>, b: seq<nat>, c: seq<nat>, i: nat)
    requires PaddedLessAt(a, c, i)
    ensures PaddedLess(a, b) || PaddedLess(b, c)
    decreases i
  {
    if Component(a, 0) < Component(b, 0) {
      assert PaddedLessAt(a, b, 0);
    } else if Component(b, 0) < Component(c, 0) {
      assert PaddedLessAt(b, c, 0);
    } else {
      // here a >= b >= c at position 0 while a <= c there, so all three agree and i > 0
      assert Component(a, 0) == Component(c, 0);
      forall j: nat | j < i - 1
        ensures Component(Tail(a), j) == Component(Tail(c), j)
      {
        TailComponent(a, j);
        TailComponent(c, j);
        assert Component(a, j + 1) == Component(c, j + 1);
      }
      TailComponent(a, i - 1);
      TailComponent(c, i - 1);
      PaddedOrderSplit(Tail(a), Tail(b), Tail(c), i - 1);
      PaddedLessTail(a, b);
      PaddedLessTail(b, c);
    }
  }

  /** Release order is numeric, not textual: 61.10.0 is newer than 61.7.100, although as text "61.1" sorts before "61.7". */
  lemma NumericNotLexical()
    ensures AtLeast([61, 10, 0], [61, 7, 100]) && !AtLeast([61, 7, 100], [61, 10, 0])
  {
    assert PaddedLessAt([61, 7, 100], [61, 10, 0], 1) by {
      assert Component([61, 7, 100], 0) == Component([61, 10, 0], 0);
    }
  }

  /** Trailing zero components do not change the version. */
  lemma TrailingZerosIgnored(v: seq<nat>)
    ensures AtLeast(v + [0], v) && AtLeast(v, v + [0])
  {
    assert (v + [0])[..|v|] == v;
    AtLeastIsTotalPreorder(v, v, v);
  }
}
