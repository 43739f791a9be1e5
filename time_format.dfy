/**
 * The component's elapsed-time formatter, `formatTime`, and the reading of its output
 * back into minutes and seconds that shows nothing is lost.
 */
module TimeFormat {
  import opened Wrappers
  import opened Decimal

  /**
   * "<seconds div 60>:<seconds mod 60, zero-padded to two digits>".
   * The counter is a non-negative integer, so Math.floor and % agree with Dafny's / and %.
   */
  function FormatTime(seconds: nat): (r: string)
    ensures |r| >= 4 && r[|r| - 3] == ':'
    ensures IsDigits(r[|r| - 2..])
  {
    PaddedSeconds(seconds % 60);
    JoinedFields(NatToString(seconds / 60), PadStart2(NatToString(seconds % 60)));
    NatToString(seconds / 60) + ":" + PadStart2(NatToString(seconds % 60))
  }

  /** The seconds field: a remainder below 60 always pads to exactly two digits. */
  lemma PaddedSeconds(x: nat)
    requires x < 60
    ensures var p := PadStart2(NatToString(x)); |p| == 2 && IsDigits(p) && (p[0] == '0' <==> x < 10)
  {
    if x >= 10 {
      assert NatToString(x) == NatToString(x / 10) + [DigitChar(x % 10)];
    }
  }

  /** Where the pieces of "<minutes>:<two-digit field>" sit in the joined text. */
  lemma JoinedFields(minutes: string, remaining: string)
    requires |remaining| == 2
    ensures var r := minutes + ":" + remaining;
      |r| == |minutes| + 3 && r[|r| - 3] == ':' && r[..|r| - 3] == minutes && r[|r| - 2..] == remaining
  {
    var r := minutes + ":" + remaining;
    assert r[..|r| - 3] == minutes;
    assert r[|r| - 2..] == remaining;
  }

  /**
   * The shape of every output: a plain decimal minute count, one colon, then exactly two
   * digits whose first is '0' exactly when fewer than ten seconds remain.
   */
  lemma FormatTimeShape(seconds: nat)
    ensures var r := FormatTime(seconds);
      && |r| >= 4 && r[|r| - 3] == ':'
      && IsCanonical(r[..|r| - 3])
      && (forall i :: 0 <= i < |r| - 3 ==> r[i] != ':')
      && IsDigits(r[|r| - 2..])
      && (r[|r| - 2] == '0' <==> seconds % 60 < 10)
  {
    PaddedSeconds(seconds % 60);
    JoinedFields(NatToString(seconds / 60), PadStart2(NatToString(seconds % 60)));
  }

  /** Position of the first ':' in t, if any. */
  function ColonIndex(t: string): (r: Option<nat>)
    ensures r.None? ==> forall i :: 0 <= i < |t| ==> t[i] != ':'
    ensures r.Some? ==> r.value < |t| && t[r.value] == ':'
    ensures r.Some? ==> forall i :: 0 <= i < r.value ==> t[i] != ':'
  {
    if |t| == 0 then None
    else if t[0] == ':' then Some(0)
    else match ColonIndex(t[1..])
      case None => None
      case Some(i) => Some(i + 1)
  }

  /** Splits "m:ss" at its colon and reads both sides as decimal numbers. */
  function ParseTime(t: string): Option<(nat, nat)> {
    match ColonIndex(t)
    case None => None
    case Some(i) =>
      match (ParseNat(t[..i]), ParseNat(t[i + 1..]))
      case (Some(m), Some(s)) => Some((m, s))
      case _ => None
  }

  lemma ColonAfterDigits(a: string, b: string)
    requires IsDigits(a)
    ensures ColonIndex(a + ":" + b) == Some(|a|)
  {
    var t := a + ":" + b;
    assert t[|a|] == ':';
    assert forall j :: 0 <= j < |a| ==> t[j] == a[j];
  }

  /** ParseTime reads "<digits>:<digits>" as the pair of numbers the two sides denote. */
  lemma ParseJoined(a: string, b: string)
    requires |a| >= 1 && IsDigits(a) && |b| >= 1 && IsDigits(b)
    ensures ParseTime(a + ":" + b) == Some((DigitsValue(a), DigitsValue(b)))
  {
    var t := a + ":" + b;
    ColonAfterDigits(a, b);
    assert t[..|a|] == a;
    assert t[|a| + 1..] == b;
  }

  /** Reading the output back yields exactly (seconds div 60, seconds mod 60). */
  lemma FormatTimeRoundTrip(seconds: nat)
    ensures ParseTime(FormatTime(seconds)) == Some((seconds / 60, seconds % 60))
  {
    var minutes := NatToString(seconds / 60);
    var digits := NatToString(seconds % 60);
    PaddedSeconds(seconds % 60);
    NatToStringRoundTrip(seconds / 60);
    NatToStringRoundTrip(seconds % 60);
    PadStart2Value(digits);
    ParseJoined(minutes, PadStart2(digits));
  }

  /** The parsed fields recombine to the input, and the seconds field stays below 60. */
  lemma FormatTimeRecombines(seconds: nat)
    ensures ParseTime(FormatTime(seconds)).Some?
    ensures var (m, s) := ParseTime(FormatTime(seconds)).value; m * 60 + s == seconds && s < 60
  {
    FormatTimeRoundTrip(seconds);
  }

  /** Distinct counter values are displayed differently. */
  lemma FormatTimeInjective(a: nat, b: nat)
    requires FormatTime(a) == FormatTime(b)
    ensures a == b
  {
    FormatTimeRecombines(a);
    FormatTimeRecombines(b);
  }

  lemma MinutesAndSeconds(m: nat, s: nat)
    requires s < 60
    ensures (m * 60 + s) / 60 == m && (m * 60 + s) % 60 == s
  {
  }

  /**
   * There is no hours rollover: for any minute count, however large, the display reads back
   * as exactly that many minutes and the remaining seconds.
   */
  lemma NoHourRollover(m: nat, s: nat)
    requires s < 60
    ensures ParseTime(FormatTime(m * 60 + s)) == Some((m, s))
  {
    MinutesAndSeconds(m, s);
    FormatTimeRoundTrip(m * 60 + s);
  }

  lemma FormatTimeExamples()
    ensures FormatTime(0) == "0:00"
    ensures FormatTime(3) == "0:03"
    ensures FormatTime(5) == "0:05"
    ensures FormatTime(59) == "0:59"
    ensures FormatTime(60) == "1:00"
  {
    assert NatToString(59) == "59";
  }

  lemma FormatTimeMoreExamples()
    ensures FormatTime(65) == "1:05"
    ensures FormatTime(125) == "2:05"
    ensures FormatTime(3600) == "60:00"
  {
    assert NatToString(60) == "60";
  }
}
