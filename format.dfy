/**
 * The plain line that `formatLog` builds (its `raw` field):
 *
 *   <date> <time> ¦ [CL] SYSTEM- ¦ SEVER ¦ message
 *
 * The date and time come from the clock and are parameters here.
 */
module Format {
  import opened Text
  import opened Wrappers

  const ClusterWidth: nat := 2
  const SystemWidth: nat := 7
  const SeverityWidth: nat := 5

  /** The " ¦ " separator between columns. */
  const Bar: string := " ¦ "

  function ClusterField(cluster: string): (r: string)
    ensures |r| == ClusterWidth
  {
    AlignText(cluster, ClusterWidth, '0')
  }

  function SystemField(system: string): (r: string)
    ensures |r| == SystemWidth
  {
    AlignText(Upper(system), SystemWidth, '-')
  }

  function SeverityField(severity: string): (r: string)
    ensures |r| == SeverityWidth
  {
    AlignText(Upper(severity), SeverityWidth, ' ')
  }

  /** The `raw` line for a message logged at `date` `time` (the clock's two slices). */
  function RawLine(date: string, time: string, severity: string, system: string, cluster: string, msg: string): string
  {
    date + " " + time + Bar + "[" + ClusterField(cluster) + "] " + SystemField(system)
      + Bar + SeverityField(severity) + Bar + msg
  }

  /** Everything before the message: the time stamp and the three fixed-width columns. */
  function HeaderLength(date: string, time: string): nat
  {
    |date| + |time| + 27
  }

  /**
   * The layout of the raw line, column by column: the time stamp, then the
   * cluster, system and severity fields at fixed offsets from it, and the
   * message verbatim at the end.
   */
  lemma RawLineLayout(date: string, time: string, severity: string, system: string, cluster: string, msg: string)
    ensures var line := RawLine(date, time, severity, system, cluster, msg);
      var h := |date| + 1 + |time|;
      |line| == HeaderLength(date, time) + |msg| &&
      line[..h] == date + " " + time &&
      line[h..h + 4] == Bar + "[" &&
      line[h + 4..h + 6] == AlignText(cluster, 2, '0') &&
      line[h + 6..h + 8] == "] " &&
      line[h + 8..h + 15] == AlignText(Upper(system), 7, '-') &&
      line[h + 15..h + 18] == Bar &&
      line[h + 18..h + 23] == AlignText(Upper(severity), 5, ' ') &&
      line[h + 23..h + 26] == Bar &&
      line[HeaderLength(date, time)..] == msg
  {
    var line := RawLine(date, time, severity, system, cluster, msg);
    var x1 := date + " " + time;
    var x3 := x1 + Bar + "[";
    var x4 := x3 + ClusterField(cluster);
    var x5 := x4 + "] ";
    var x6 := x5 + SystemField(system);
    var x7 := x6 + Bar;
    var x8 := x7 + SeverityField(severity);
    var x9 := x8 + Bar;
    assert line == x9 + msg;
    assert line[..|x9|] == x9 && line[|x9|..] == msg;
    SplitPrefix(x8, Bar, line);
    SplitPrefix(x7, SeverityField(severity), line);
    SplitPrefix(x6, Bar, line);
    SplitPrefix(x5, SystemField(system), line);
    SplitPrefix(x4, "] ", line);
    SplitPrefix(x3, ClusterField(cluster), line);
    assert x3 == x1 + (Bar + "[");
    SplitPrefix(x1, Bar + "[", line);
  }

  /** A prefix `a + b` of a line splits into its two parts. */
  lemma SplitPrefix(a: string, b: string, line: string)
    requires |a| + |b| <= |line| && line[..|a| + |b|] == a + b
    ensures line[..|a|] == a && line[|a|..|a| + |b|] == b
  {
    assert line[..|a|] == line[..|a| + |b|][..|a|];
    assert line[|a|..|a| + |b|] == line[..|a| + |b|][|a|..];
  }

  /** The columns of a raw line, as a reader of the log file sees them. */
  datatype Columns = Columns(stamp: string, cluster: string, system: string, severity: string, msg: string)

  /** An ISO date `YYYY-MM-DD` and time `hh:mm:ss` have these lengths. */
  const DateLength: nat := 10
  const TimeLength: nat := 8
  const StampLength: nat := DateLength + 1 + TimeLength

  /**
   * Splits a log file line back into its columns, checking the separators;
   * the partner of `RawLine`.
   */
  function ParseRawLine(line: string): (r: Option<Columns>)
    ensures r.Some? ==> |line| >= StampLength + 26 && line[StampLength + 26..] == r.value.msg
  {
    var h := StampLength;
    if |line| < h + 26 then None
    else if line[h..h + 4] != Bar + "[" || line[h + 6..h + 8] != "] "
         || line[h + 15..h + 18] != Bar || line[h + 23..h + 26] != Bar then None
    else Some(Columns(line[..h], line[h + 4..h + 6], line[h + 8..h + 15], line[h + 18..h + 23], line[h + 26..]))
  }

  /**
   * With a clock-shaped date and time, parsing a raw line gives back the
   * stamp, the three aligned fields and the message unchanged.
   */
  lemma ParseRawLineRoundTrip(date: string, time: string, severity: string, system: string, cluster: string, msg: string)
    requires |date| == DateLength && |time| == TimeLength
    ensures ParseRawLine(RawLine(date, time, severity, system, cluster, msg))
      == Some(Columns(date + " " + time, ClusterField(cluster), SystemField(system), SeverityField(severity), msg))
  {
    RawLineLayout(date, time, severity, system, cluster, msg);
  }

  /**
   * A worked line: a short cluster is zero-padded and a short severity
   * space-padded, both on the left; a seven-letter system fills its column.
   */
  lemma RawLineExample()
    ensures ParseRawLine(RawLine("2020-01-02", "03:04:05", "warn", "gateway", "3", "x"))
      == Some(Columns("2020-01-02 03:04:05", "03", "GATEWAY", " WARN", "x"))
  {
    SystemFieldExample();
    SeverityFieldExample();
    ClusterFieldExample();
    ParseRawLineRoundTrip("2020-01-02", "03:04:05", "warn", "gateway", "3", "x");
    assert "2020-01-02" + " " + "03:04:05" == "2020-01-02 03:04:05";
  }

  lemma SystemFieldExample()
    ensures SystemField("gateway") == "GATEWAY"
  {
    assert Upper("gateway") == "GATEWAY";
  }

  lemma SeverityFieldExample()
    ensures SeverityField("warn") == " WARN"
  {
    assert Upper("warn") == "WARN";
    assert Repeat(' ', 1) == " ";
  }

  lemma ClusterFieldExample()
    ensures ClusterField("3") == "03"
  {
    assert Repeat('0', 1) == "0";
  }

  /** Over-long system names are cut to six characters and the marker. */
  lemma SystemTruncationExample()
    ensures SystemField("collector") == "COLLEC-"
  {
    assert Upper("collector") == "COLLECTOR";
    assert Upper("collector")[..6] == "COLLEC";
  }
}
