/** The report parser of the ping plugin: the two summary lines at the end of
    `ping`'s output, matched against the overview and statistics patterns,
    and the eight-entry metric record built from their captures. */
module PingReport {
  import opened Outcome
  import opened Decimal
  import opened LineSplit
  import opened Pattern

  /** One metric of the record: its key and the captured text, kept verbatim
      (the plugin never converts it to a number). */
  datatype Sample = Sample(key: string, value: string)

  /** Why a run produced no metrics: `ping` exited with a non-zero status
      (carrying that status and the captured text, the parts of the plugin's
      failure message), or its summary block did not have the expected shape. */
  datatype Failure = ProbeFailed(status: int, output: string) | ReportMalformed

  // The literal parts of the two summary lines.
  const SentSep: string := " packets transmitted, "
  const ReceivedSep: string := " received, "
  const LossSep: string := "% packet loss, time "
  const OverviewEnd: string := "ms"
  const StatisticsStart: string := "rtt min/avg/max/mdev = "
  const FieldSep: string := "/"
  const StatisticsEnd: string := " ms"

  /** Keys of the overview captures, in order. */
  const OverviewKeys: seq<string> := ["packets_transmitted", "packets_received", "packet_loss", "time"]

  /** Keys of the statistics captures, in order; note `max` before `avg`. */
  const StatisticKeys: seq<string> := ["min", "max", "avg", "mdev"]

  /** `^(\d+) packets transmitted, (\d+) received, (\d+)% packet loss, time (\d+)ms` */
  const OverviewPattern: seq<Token> :=
    FourGroups(Digits, SentSep, ReceivedSep, LossSep, OverviewEnd)

  /** `^rtt min/avg/max/mdev = FLOAT/FLOAT/FLOAT/FLOAT ms` with FLOAT = `(\d+\.\d+)` */
  const StatisticsPattern: seq<Token> :=
    [Lit(StatisticsStart)] + FourGroups(Float, FieldSep, FieldSep, FieldSep, StatisticsEnd)

  /** The overview line `ping` prints, up to and including `ms`. */
  function OverviewText(sent: string, received: string, loss: string, time: string): string {
    sent + SentSep + received + ReceivedSep + loss + LossSep + time + OverviewEnd
  }

  /** The statistics line `ping` prints, fields in the order its labels give. */
  function StatisticsText(min: string, avg: string, max: string, mdev: string): string {
    StatisticsStart + min + FieldSep + avg + FieldSep + max + FieldSep + mdev + StatisticsEnd
  }

  /** The overview captures of `line`, or `None` when it has the wrong shape. */
  function Overview(line: string): (r: Option<seq<string>>)
    ensures r.Some? ==> |r.value| == 4
  {
    OverviewPatternWellFormed();
    Match(OverviewPattern, line)
  }

  /** The statistics captures of `line`, or `None` when it has the wrong shape. */
  function Statistics(line: string): (r: Option<seq<string>>)
    ensures r.Some? ==> |r.value| == 4
  {
    StatisticsPatternWellFormed();
    Match(StatisticsPattern, line)
  }

  /** The overview pattern has four groups and is well formed. */
  lemma OverviewPatternWellFormed()
    ensures CaptureCount(OverviewPattern) == 4
    ensures WellFormed(OverviewPattern)
  {
    FourGroupsCount(Digits, SentSep, ReceivedSep, LossSep, OverviewEnd);
  }

  lemma OverviewPatternShape(caps: seq<string>)
    ensures Fits(OverviewPattern, caps) <==>
      |caps| == 4 && IsDigitRun(caps[0]) && IsDigitRun(caps[1]) && IsDigitRun(caps[2]) && IsDigitRun(caps[3])
    ensures Fits(OverviewPattern, caps) ==>
      Render(OverviewPattern, caps) == OverviewText(caps[0], caps[1], caps[2], caps[3])
  {
    FourGroupsShape(Digits, SentSep, ReceivedSep, LossSep, OverviewEnd, caps);
  }

  /** The statistics pattern has four groups and is well formed. */
  lemma StatisticsPatternWellFormed()
    ensures CaptureCount(StatisticsPattern) == 4
    ensures WellFormed(StatisticsPattern)
  {
    var groups := FourGroups(Float, FieldSep, FieldSep, FieldSep, StatisticsEnd);
    FourGroupsCount(Float, FieldSep, FieldSep, FieldSep, StatisticsEnd);
    LiteralCons(StatisticsStart, groups, []);
  }

  lemma StatisticsPatternShape(caps: seq<string>)
    ensures Fits(StatisticsPattern, caps) <==>
      |caps| == 4 && IsFloatText(caps[0]) && IsFloatText(caps[1]) && IsFloatText(caps[2]) && IsFloatText(caps[3])
    ensures Fits(StatisticsPattern, caps) ==>
      Render(StatisticsPattern, caps) == StatisticsText(caps[0], caps[1], caps[2], caps[3])
  {
    var groups := FourGroups(Float, FieldSep, FieldSep, FieldSep, StatisticsEnd);
    FourGroupsShape(Float, FieldSep, FieldSep, FieldSep, StatisticsEnd, caps);
    LiteralCons(StatisticsStart, groups, caps);
    if Fits(groups, caps) {
      Regroup(StatisticsStart, caps[0], FieldSep, caps[1], FieldSep, caps[2], FieldSep, caps[3], StatisticsEnd);
    }
  }

  /** Re-association of a concatenation; a separate proof step so that the
      solver does not meet it inside a larger proof. */
  lemma Regroup(s: string, a: string, b: string, c: string, d: string, e: string, f: string, g: string, h: string)
    ensures s + (a + b + c + d + e + f + g + h) == s + a + b + c + d + e + f + g + h
  {
  }

  /** The overview matcher succeeds with `caps` exactly when the line starts
      with the overview text built from four digit runs `caps`; whatever
      follows `ms` is ignored. */
  lemma OverviewIff(line: string, caps: seq<string>)
    ensures Overview(line) == Some(caps) <==>
      && |caps| == 4
      && IsDigitRun(caps[0]) && IsDigitRun(caps[1]) && IsDigitRun(caps[2]) && IsDigitRun(caps[3])
      && OverviewText(caps[0], caps[1], caps[2], caps[3]) <= line
  {
    OverviewPatternWellFormed();
    MatchIff(OverviewPattern, line, caps);
    OverviewPatternShape(caps);
  }

  /** The statistics matcher succeeds with `caps` exactly when the line
      starts with the statistics text built from four decimal numbers `caps`
      in textual order; whatever follows ` ms` is ignored. */
  lemma StatisticsIff(line: string, caps: seq<string>)
    ensures Statistics(line) == Some(caps) <==>
      && |caps| == 4
      && IsFloatText(caps[0]) && IsFloatText(caps[1]) && IsFloatText(caps[2]) && IsFloatText(caps[3])
      && StatisticsText(caps[0], caps[1], caps[2], caps[3]) <= line
  {
    StatisticsPatternWellFormed();
    MatchIff(StatisticsPattern, line, caps);
    StatisticsPatternShape(caps);
  }

  /** The fields of the statistics line from the first of `fields` on, with
      the separators between them and the closing ` ms`. */
  function FieldsText(fields: seq<string>): string
    requires |fields| > 0
  {
    if |fields| == 1 then fields[0] + StatisticsEnd
    else fields[0] + (FieldSep + FieldsText(fields[1..]))
  }

  /** The statistics text is its opening label followed by its four fields. */
  lemma StatisticsTextFields(a: string, b: string, c: string, d: string)
    ensures StatisticsText(a, b, c, d) == StatisticsStart + FieldsText([a, b, c, d])
  {
    assert [a, b, c, d][1..] == [b, c, d];
    assert [b, c, d][1..] == [c, d];
    assert [c, d][1..] == [d];
    var t3 := d + StatisticsEnd;
    var t2 := c + (FieldSep + t3);
    var t1 := b + (FieldSep + t2);
    assert FieldsText([d]) == t3;
    assert FieldsText([c, d]) == t2;
    assert FieldsText([b, c, d]) == t1;
    assert FieldsText([a, b, c, d]) == a + (FieldSep + t1);
  }

  /** What follows the first field is a separator or ` ms`: it starts with a
      character that is neither a digit nor a decimal point. */
  lemma FieldEnd(fields: seq<string>)
    requires |fields| > 0
    ensures var rest := if |fields| == 1 then StatisticsEnd else FieldSep + FieldsText(fields[1..]);
      && FieldsText(fields) == fields[0] + rest
      && |rest| > 0 && !IsDigit(rest[0]) && rest[0] != '.'
  {
  }

  /** A field followed by the field separator, at the start of `u`. */
  lemma FieldAt(a: string, r: string, u: string)
    requires a + (FieldSep + r) <= u
    ensures a <= u && |a| < |u| && u[|a|] == '/' && r <= u[|a| + 1..]
  {
    assert u[|a|] == (a + (FieldSep + r))[|a|];
    assert u[|a| + 1..][..|r|] == (a + (FieldSep + r))[|a| + 1..];
  }

  /** Two decimal fields that both start `u` and end at a separator are the
      same field. */
  lemma SameField(u: string, a: string, b: string, ra: string, rb: string)
    requires IsFloatText(a) && IsFloatText(b)
    requires a + (FieldSep + ra) <= u && b + (FieldSep + rb) <= u
    ensures a == b && |a| < |u| && ra <= u[|a| + 1..] && rb <= u[|a| + 1..]
  {
    FieldAt(a, ra, u);
    FieldAt(b, rb, u);
    FloatAt(a, u);
    FloatAt(b, u);
    assert a == u[..|a|];
  }

  /** A digit run at the start of `u`, followed by a character that is
      neither a digit nor a point, leaves no room for a decimal number there. */
  lemma NoFloatAfterDigits(u: string, d: string, rest: string)
    requires IsDigitRun(d) && d + rest <= u
    requires |rest| > 0 && !IsDigit(rest[0]) && rest[0] != '.'
    ensures FloatSpan(u) == 0
  {
    PrefixSplit(d, rest, u);
    DigitsAt(d, u);
  }

  /** When the fields of `fields` before position `k` are decimal numbers and
      the one at `k` is a digit run, no four decimal numbers `caps` spell out
      a field text that also starts `u`. */
  lemma {:induction false} NoDecimalFields(u: string, caps: seq<string>, fields: seq<string>, k: nat)
    requires |caps| == |fields| && k < |fields|
    requires forall j :: 0 <= j < |caps| ==> IsFloatText(caps[j])
    requires forall j :: 0 <= j < k ==> IsFloatText(fields[j])
    requires IsDigitRun(fields[k])
    requires FieldsText(fields) <= u
    ensures !(FieldsText(caps) <= u)
    decreases k
  {
    if FieldsText(caps) <= u {
      FieldEnd(caps);
      FieldEnd(fields);
      if k == 0 {
        var rest := if |fields| == 1 then StatisticsEnd else FieldSep + FieldsText(fields[1..]);
        NoFloatAfterDigits(u, fields[0], rest);
        PrefixSplit(caps[0], FieldsText(caps)[|caps[0]|..], u);
        FloatAt(caps[0], u);
      } else {
        var tc, tf := caps[1..], fields[1..];
        SameField(u, caps[0], fields[0], FieldsText(tc), FieldsText(tf));
        var v := u[|caps[0]| + 1..];
        NoDecimalFields(v, tc, tf, k - 1);
      }
    }
  }

  /** A field without a decimal point makes the whole statistics line fail,
      wherever it stands and whatever follows it, as long as the fields
      before it are decimal numbers. */
  lemma StatisticsNeedsDecimalPoint(line: string, fields: seq<string>, k: nat)
    requires |fields| == 4 && k < 4
    requires forall j :: 0 <= j < k ==> IsFloatText(fields[j])
    requires IsDigitRun(fields[k])
    requires StatisticsText(fields[0], fields[1], fields[2], fields[3]) <= line
    ensures Statistics(line).None?
  {
    if Statistics(line).Some? {
      var caps := Statistics(line).value;
      StatisticsIff(line, caps);
      StatisticsTextFields(caps[0], caps[1], caps[2], caps[3]);
      StatisticsTextFields(fields[0], fields[1], fields[2], fields[3]);
      assert [caps[0], caps[1], caps[2], caps[3]] == caps;
      assert [fields[0], fields[1], fields[2], fields[3]] == fields;
      PrefixSplit(StatisticsStart, FieldsText(fields), line);
      PrefixSplit(StatisticsStart, FieldsText(caps), line);
      NoDecimalFields(line[|StatisticsStart|..], caps, fields, k);
    }
  }

  /** Pairs each key with the capture at the same position (Ruby's `zip`). */
  function Zip(keys: seq<string>, values: seq<string>): (r: seq<Sample>)
    requires |keys| == |values|
  {
    seq(|keys|, i requires 0 <= i < |keys| => Sample(keys[i], values[i]))
  }

  /** The plugin's `results`: the overview from the second-to-last line, the
      statistics from the last line, zipped onto the fixed keys. Too few
      lines or a line of the wrong shape leaves no record at all. */
  function Results(text: string): (r: Result<seq<Sample>, Failure>)
    ensures r.Err? ==> r.error == ReportMalformed
    ensures r.Ok? ==> |r.value| == 8
  {
    var lines := Split(text);
    if |lines| < 2 then Err(ReportMalformed)
    else
      match (Overview(lines[|lines| - 2]), Statistics(lines[|lines| - 1]))
      case (Some(o), Some(st)) => Ok(Zip(OverviewKeys, o) + Zip(StatisticKeys, st))
      case _ => Err(ReportMalformed)
  }

  /** The keys of a record, in order. */
  function Keys(rec: seq<Sample>): seq<string> {
    seq(|rec|, i requires 0 <= i < |rec| => rec[i].key)
  }

  /** A record the parser returns has the eight keys in their fixed order,
      digit runs under the overview keys and decimal numbers under the
      statistics keys; the second-to-last line starts with the overview text
      of its first four values, and the last line with the statistics text
      of the last four in record order, so the field the line labels `avg`
      is the value recorded under `max` and the field labelled `max` the
      value recorded under `avg` (keys are assigned by position, not by
      label). */
  lemma ResultsSound(text: string)
    requires Results(text).Ok?
    ensures var rec := Results(text).value;
      var lines := Split(text);
      && |lines| >= 2
      && |rec| == 8
      && Keys(rec) == OverviewKeys + StatisticKeys
      && (forall i :: 0 <= i < 4 ==> IsDigitRun(rec[i].value))
      && (forall i :: 4 <= i < 8 ==> IsFloatText(rec[i].value))
      && OverviewText(rec[0].value, rec[1].value, rec[2].value, rec[3].value) <= lines[|lines| - 2]
      && StatisticsText(rec[4].value, rec[5].value, rec[6].value, rec[7].value) <= lines[|lines| - 1]
  {
    var lines := Split(text);
    var o := Overview(lines[|lines| - 2]).value;
    var st := Statistics(lines[|lines| - 1]).value;
    OverviewIff(lines[|lines| - 2], o);
    StatisticsIff(lines[|lines| - 1], st);
    assert Results(text).value == Zip(OverviewKeys, o) + Zip(StatisticKeys, st);
    ZippedValues(o, st);
  }

  /** Zipping four overview and four statistics captures keeps them in
      order under the eight keys. */
  lemma ZippedValues(o: seq<string>, st: seq<string>)
    requires |o| == 4 && |st| == 4
    ensures var rec := Zip(OverviewKeys, o) + Zip(StatisticKeys, st);
      && |rec| == 8
      && Keys(rec) == OverviewKeys + StatisticKeys
      && (forall i :: 0 <= i < 4 ==> rec[i].value == o[i])
      && (forall i :: 4 <= i < 8 ==> rec[i].value == st[i - 4])
  {
    var rec := Zip(OverviewKeys, o) + Zip(StatisticKeys, st);
    assert forall i :: 0 <= i < 4 ==> rec[i] == Sample(OverviewKeys[i], o[i]);
    assert forall i :: 4 <= i < 8 ==> rec[i] == Sample(StatisticKeys[i - 4], st[i - 4]);
    assert Keys(rec) == OverviewKeys + StatisticKeys;
  }

  /** When the last two lines have the overview and statistics shapes, the
      parser returns exactly these eight samples: the statistics captures go
      to min, max, avg, mdev in textual order, so `max` receives the value
      labelled avg and `avg` the value labelled max. */
  lemma ResultsComplete(text: string, sent: string, received: string, loss: string, time: string,
                        min: string, avg: string, max: string, mdev: string)
    requires |Split(text)| >= 2
    requires IsDigitRun(sent) && IsDigitRun(received) && IsDigitRun(loss) && IsDigitRun(time)
    requires IsFloatText(min) && IsFloatText(avg) && IsFloatText(max) && IsFloatText(mdev)
    requires OverviewText(sent, received, loss, time) <= Split(text)[|Split(text)| - 2]
    requires StatisticsText(min, avg, max, mdev) <= Split(text)[|Split(text)| - 1]
    ensures Results(text) == Ok([
      Sample("packets_transmitted", sent), Sample("packets_received", received),
      Sample("packet_loss", loss), Sample("time", time),
      Sample("min", min), Sample("max", avg), Sample("avg", max), Sample("mdev", mdev)])
  {
    var lines := Split(text);
    var o := [sent, received, loss, time];
    var st := [min, avg, max, mdev];
    OverviewIff(lines[|lines| - 2], o);
    StatisticsIff(lines[|lines| - 1], st);
    assert Results(text) == Ok(Zip(OverviewKeys, o) + Zip(StatisticKeys, st));
    ZippedRecord(sent, received, loss, time, min, avg, max, mdev);
  }

  lemma ZippedRecord(sent: string, received: string, loss: string, time: string,
                     min: string, avg: string, max: string, mdev: string)
    ensures Zip(OverviewKeys, [sent, received, loss, time]) + Zip(StatisticKeys, [min, avg, max, mdev]) == [
      Sample("packets_transmitted", sent), Sample("packets_received", received),
      Sample("packet_loss", loss), Sample("time", time),
      Sample("min", min), Sample("max", avg), Sample("avg", max), Sample("mdev", mdev)]
  {
    var expected := [
      Sample("packets_transmitted", sent), Sample("packets_received", received),
      Sample("packet_loss", loss), Sample("time", time),
      Sample("min", min), Sample("max", avg), Sample("avg", max), Sample("mdev", mdev)];
    var rec := Zip(OverviewKeys, [sent, received, loss, time]) + Zip(StatisticKeys, [min, avg, max, mdev]);
    assert forall i :: 0 <= i < 8 ==> rec[i] == expected[i];
  }

  /** `line` starts with an overview text of four digit runs. */
  ghost predicate OverviewShaped(line: string) {
    exists a, b, c, d {:trigger OverviewText(a, b, c, d)} ::
      IsDigitRun(a) && IsDigitRun(b) && IsDigitRun(c) && IsDigitRun(d)
      && OverviewText(a, b, c, d) <= line
  }

  /** `line` starts with a statistics text of four decimal numbers. */
  ghost predicate StatisticsShaped(line: string) {
    exists a, b, c, d {:trigger StatisticsText(a, b, c, d)} ::
      IsFloatText(a) && IsFloatText(b) && IsFloatText(c) && IsFloatText(d)
      && StatisticsText(a, b, c, d) <= line
  }

  lemma OverviewSomeIffShaped(line: string)
    ensures Overview(line).Some? <==> OverviewShaped(line)
  {
    if Overview(line).Some? {
      var caps := Overview(line).value;
      OverviewIff(line, caps);
      assert IsDigitRun(caps[0]) && IsDigitRun(caps[1]) && IsDigitRun(caps[2]) && IsDigitRun(caps[3])
        && OverviewText(caps[0], caps[1], caps[2], caps[3]) <= line;
    }
    if OverviewShaped(line) {
      var a, b, c, d :| IsDigitRun(a) && IsDigitRun(b) && IsDigitRun(c) && IsDigitRun(d)
        && OverviewText(a, b, c, d) <= line;
      OverviewIff(line, [a, b, c, d]);
    }
  }

  lemma StatisticsSomeIffShaped(line: string)
    ensures Statistics(line).Some? <==> StatisticsShaped(line)
  {
    if Statistics(line).Some? {
      var caps := Statistics(line).value;
      StatisticsIff(line, caps);
      assert IsFloatText(caps[0]) && IsFloatText(caps[1]) && IsFloatText(caps[2]) && IsFloatText(caps[3])
        && StatisticsText(caps[0], caps[1], caps[2], caps[3]) <= line;
    }
    if StatisticsShaped(line) {
      var a, b, c, d :| IsFloatText(a) && IsFloatText(b) && IsFloatText(c) && IsFloatText(d)
        && StatisticsText(a, b, c, d) <= line;
      StatisticsIff(line, [a, b, c, d]);
    }
  }

  /** The parser fails exactly when the text has fewer than two lines, or its
      second-to-last line does not start with an overview text, or its last
      line does not start with a statistics text. */
  lemma ResultsFailure(text: string)
    ensures var lines := Split(text);
      Results(text).Err? <==>
        |lines| < 2 || !OverviewShaped(lines[|lines| - 2]) || !StatisticsShaped(lines[|lines| - 1])
  {
    var lines := Split(text);
    ResultsOkWhenBothMatch(text);
    if |lines| >= 2 {
      var o, st := lines[|lines| - 2], lines[|lines| - 1];
      OverviewSomeIffShaped(o);
      StatisticsSomeIffShaped(st);
      EitherFails(Overview(o).Some?, Statistics(st).Some?, OverviewShaped(o), StatisticsShaped(st), Results(text).Ok?);
    }
  }

  /** The propositional step of `ResultsFailure`, kept apart so that the
      shape predicates are not unfolded while it is taken. */
  lemma EitherFails(o: bool, st: bool, os: bool, ss: bool, ok: bool)
    requires ok <==> o && st
    requires o <==> os
    requires st <==> ss
    ensures !ok <==> !os || !ss
  {
  }

  lemma ResultsOkWhenBothMatch(text: string)
    ensures var lines := Split(text);
      Results(text).Ok? <==>
        |lines| >= 2 && Overview(lines[|lines| - 2]).Some? && Statistics(lines[|lines| - 1]).Some?
  {
  }
}
