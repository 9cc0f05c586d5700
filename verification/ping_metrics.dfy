/** One run of the plugin: the exit-status check of `ping`, then the parse of
    its summary block and the emission of the metric lines. */
module PingMetrics {
  import opened Outcome
  import opened Decimal
  import opened LineSplit
  import opened Pattern
  import opened PingReport
  import opened MetricOutput

  /** The plugin's `run` on the captured text and exit status of `ping`: a
      non-zero status fails at once with that status and the text, before
      any line is looked at; otherwise the record is built whole and only
      then rendered, so a malformed report yields no line at all. */
  function Run(status: int, text: string, scheme: string, timestamp: int): (r: Result<seq<string>, Failure>)
    ensures status != 0 ==> r == Err(ProbeFailed(status, text))
    ensures status == 0 ==> (r.Ok? <==> Results(text).Ok?)
    ensures status == 0 && r.Err? ==> r.error == ReportMalformed
    ensures r.Ok? ==> |r.value| == 8
  {
    if status != 0 then Err(ProbeFailed(status, text))
    else
      match Results(text)
      case Ok(rec) => Ok(Output(rec, scheme, timestamp))
      case Err(e) => Err(e)
  }

  /** All or nothing: a run yields no line at all exactly when `ping` failed,
      the text has fewer than two lines, or one of its last two lines lacks
      its shape; otherwise it yields all eight. */
  lemma RunFailure(status: int, text: string, scheme: string, timestamp: int)
    ensures var lines := Split(text);
      Run(status, text, scheme, timestamp).Err? <==>
        || status != 0
        || |lines| < 2
        || !OverviewShaped(lines[|lines| - 2])
        || !StatisticsShaped(lines[|lines| - 1])
    ensures Run(status, text, scheme, timestamp).Ok? ==> |Run(status, text, scheme, timestamp).value| == 8
  {
    ResultsFailure(text);
  }

  lemma DigitRunHasNoSpace(s: string)
    requires IsDigitRun(s)
    ensures ' ' !in s
  {
  }

  lemma FloatTextHasNoSpace(s: string)
    requires IsFloatText(s)
    ensures ' ' !in s
  {
    var i :| 0 < i < |s| - 1 && s[i] == '.' && IsDigitRun(s[..i]) && IsDigitRun(s[i + 1..]);
    assert s == s[..i] + ['.'] + s[i + 1..];
  }

  /** Every line of a successful run reads back, under the run's scheme, as
      the record entry at the same position (keys in the fixed order) and
      the run's single timestamp. */
  lemma RunReadsBack(status: int, text: string, scheme: string, timestamp: int)
    requires Run(status, text, scheme, timestamp).Ok?
    ensures status == 0
    ensures var lines := Run(status, text, scheme, timestamp).value;
      var rec := Results(text).value;
      && |lines| == 8
      && Keys(rec) == OverviewKeys + StatisticKeys
      && forall i :: 0 <= i < 8 ==> ParseLine(scheme, lines[i]) == Some((rec[i], timestamp))
  {
    var rec := Results(text).value;
    ResultsSound(text);
    RecordHasNoSpaces(rec);
    OutputReadsBack(rec, scheme, timestamp);
  }

  /** No key and no captured value of a parsed record holds a space. */
  lemma RecordHasNoSpaces(rec: seq<Sample>)
    requires |rec| == 8 && Keys(rec) == OverviewKeys + StatisticKeys
    requires forall i :: 0 <= i < 4 ==> IsDigitRun(rec[i].value)
    requires forall i :: 4 <= i < 8 ==> IsFloatText(rec[i].value)
    ensures forall i :: 0 <= i < |rec| ==> ' ' !in rec[i].key && ' ' !in rec[i].value
  {
    forall i | 0 <= i < |rec|
      ensures ' ' !in rec[i].key && ' ' !in rec[i].value
    {
      assert rec[i].key == Keys(rec)[i];
      KeysHaveNoSpace(i);
      if i < 4 {
        DigitRunHasNoSpace(rec[i].value);
      } else {
        FloatTextHasNoSpace(rec[i].value);
      }
    }
  }

  lemma KeysHaveNoSpace(i: int)
    requires 0 <= i < 8
    ensures ' ' !in (OverviewKeys + StatisticKeys)[i]
  {
    if i < 4 {
      assert (OverviewKeys + StatisticKeys)[i] == OverviewKeys[i];
    } else {
      assert (OverviewKeys + StatisticKeys)[i] == StatisticKeys[i - 4];
    }
  }

  /** After a successful probe, a newline at the end of `ping`'s text
      changes nothing. */
  lemma RunIgnoresTrailingNewline(text: string, scheme: string, timestamp: int)
    ensures Run(0, text + [Newline], scheme, timestamp) == Run(0, text, scheme, timestamp)
  {
    SplitIgnoresTrailingNewline(text);
  }

  lemma OverviewTextIsLine(a: string, b: string, c: string, d: string, tail: string)
    requires AllDigits(a) && AllDigits(b) && AllDigits(c) && AllDigits(d) && IsLine(tail)
    ensures IsLine(OverviewText(a, b, c, d) + tail)
  {
  }

  lemma StatisticsTextIsLine(a: string, b: string, c: string, d: string, tail: string)
    requires IsFloatText(a) && IsFloatText(b) && IsFloatText(c) && IsFloatText(d) && IsLine(tail)
    ensures IsLine(StatisticsText(a, b, c, d) + tail)
  {
    FloatTextHasNoNewline(a);
    FloatTextHasNoNewline(b);
    FloatTextHasNoNewline(c);
    FloatTextHasNoNewline(d);
  }

  lemma FloatTextHasNoNewline(s: string)
    requires IsFloatText(s)
    ensures IsLine(s)
  {
    var i :| 0 < i < |s| - 1 && s[i] == '.' && IsDigitRun(s[..i]) && IsDigitRun(s[i + 1..]);
    assert s == s[..i] + ['.'] + s[i + 1..];
  }

  /** End to end: `ping` exits with 0 and its text ends with an overview line
      and a statistics line (each possibly followed by more text on the same
      line, the pair possibly followed by newlines); the run emits these
      eight lines, the statistics values under min, max, avg, mdev in the
      order the statistics line gives them. */
  lemma RunOnReport(head: string, sent: string, received: string, loss: string, time: string, overviewTail: string,
                    min: string, avg: string, max: string, mdev: string, statisticsTail: string,
                    trailing: string, scheme: string, timestamp: int)
    requires head == "" || head[|head| - 1] == Newline
    requires IsDigitRun(sent) && IsDigitRun(received) && IsDigitRun(loss) && IsDigitRun(time)
    requires IsFloatText(min) && IsFloatText(avg) && IsFloatText(max) && IsFloatText(mdev)
    requires IsLine(overviewTail) && IsLine(statisticsTail) && AllNewlines(trailing)
    ensures var text := head + (OverviewText(sent, received, loss, time) + overviewTail) + [Newline]
                        + (StatisticsText(min, avg, max, mdev) + statisticsTail) + trailing;
      var t := IntToString(timestamp);
      Run(0, text, scheme, timestamp) == Ok([
        scheme + "." + "packets_transmitted" + " " + sent + " " + t,
        scheme + "." + "packets_received" + " " + received + " " + t,
        scheme + "." + "packet_loss" + " " + loss + " " + t,
        scheme + "." + "time" + " " + time + " " + t,
        scheme + "." + "min" + " " + min + " " + t,
        scheme + "." + "max" + " " + avg + " " + t,
        scheme + "." + "avg" + " " + max + " " + t,
        scheme + "." + "mdev" + " " + mdev + " " + t])
  {
    var x := OverviewText(sent, received, loss, time) + overviewTail;
    var y := StatisticsText(min, avg, max, mdev) + statisticsTail;
    var text := head + x + [Newline] + y + trailing;
    OverviewTextIsLine(sent, received, loss, time, overviewTail);
    StatisticsTextIsLine(min, avg, max, mdev, statisticsTail);
    LastTwoLines(head, x, y, trailing);
    ResultsComplete(text, sent, received, loss, time, min, avg, max, mdev);
    var rec := Results(text).value;
    assert Run(0, text, scheme, timestamp) == Ok(Output(rec, scheme, timestamp));
    OutputOfEight(rec, scheme, timestamp);
  }

  lemma OutputOfEight(rec: seq<Sample>, scheme: string, timestamp: int)
    requires |rec| == 8
    ensures Output(rec, scheme, timestamp) == [
      FormatLine(scheme, rec[0], timestamp), FormatLine(scheme, rec[1], timestamp),
      FormatLine(scheme, rec[2], timestamp), FormatLine(scheme, rec[3], timestamp),
      FormatLine(scheme, rec[4], timestamp), FormatLine(scheme, rec[5], timestamp),
      FormatLine(scheme, rec[6], timestamp), FormatLine(scheme, rec[7], timestamp)]
  {
  }

  /** The sample in the plugin's header comment: a summary block whose
      statistics line reads 0.016/0.017/0.019/0.004 gives the eight lines
      shown there, so the line named `max` carries 0.017, the value `ping`
      labels avg, and the line named `avg` carries 0.019, labelled max. */
  lemma RunHeaderExample(timestamp: int)
    ensures var text := "--- localhost ping statistics ---\n"
        + OverviewText("5", "5", "0", "3996") + "\n"
        + StatisticsText("0.016", "0.017", "0.019", "0.004") + "\n";
      var t := IntToString(timestamp);
      Run(0, text, "myhost.ping", timestamp) == Ok([
        "myhost.ping" + "." + "packets_transmitted" + " " + "5" + " " + t,
        "myhost.ping" + "." + "packets_received" + " " + "5" + " " + t,
        "myhost.ping" + "." + "packet_loss" + " " + "0" + " " + t,
        "myhost.ping" + "." + "time" + " " + "3996" + " " + t,
        "myhost.ping" + "." + "min" + " " + "0.016" + " " + t,
        "myhost.ping" + "." + "max" + " " + "0.017" + " " + t,
        "myhost.ping" + "." + "avg" + " " + "0.019" + " " + t,
        "myhost.ping" + "." + "mdev" + " " + "0.004" + " " + t])
  {
    var head := "--- localhost ping statistics ---\n";
    HeaderFields();
    HeaderText(head, OverviewText("5", "5", "0", "3996"), StatisticsText("0.016", "0.017", "0.019", "0.004"));
    RunOnReport(head, "5", "5", "0", "3996", "", "0.016", "0.017", "0.019", "0.004", "", "\n",
                "myhost.ping", timestamp);
  }

  /** The fields of the header comment's sample have the shapes the
      patterns capture. */
  lemma HeaderFields()
    ensures IsDigitRun("5") && IsDigitRun("0") && IsDigitRun("3996")
    ensures IsFloatText("0.016") && IsFloatText("0.017") && IsFloatText("0.019") && IsFloatText("0.004")
  {
    ZeroPoint("016");
    ZeroPoint("017");
    ZeroPoint("019");
    ZeroPoint("004");
    assert "0." + "016" == "0.016";
    assert "0." + "017" == "0.017";
    assert "0." + "019" == "0.019";
    assert "0." + "004" == "0.004";
  }

  /** `0.` followed by digits is a decimal number. */
  lemma ZeroPoint(d: string)
    requires IsDigitRun(d)
    ensures IsFloatText("0." + d)
  {
    var f := "0." + d;
    assert f[..1] == "0" && f[2..] == d;
  }

  /** Re-association of the sample text; a separate proof step so that the
      solver does not meet it inside a larger proof. */
  lemma HeaderText(head: string, ov: string, st: string)
    ensures head + ov + "\n" + st + "\n" == head + (ov + "") + [Newline] + (st + "") + "\n"
  {
    assert ov + "" == ov && st + "" == st;
  }
}
