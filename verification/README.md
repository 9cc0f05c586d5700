# metrics-ping, modelled in Dafny

`metrics-ping.rb` is a Sensu metrics plugin. It runs `ping` against a host,
takes the two summary lines at the end of `ping`'s output, and prints eight
metric lines of the form `<scheme>.<metric> <value> <timestamp>`.

This project models the plugin's text pipeline as a pure function
`PingMetrics.Run(status, text, scheme, timestamp)`. It returns either a
`Failure` or the eight output lines. The pipeline has four stages:

1. **Exit-status gate** (`Run`). A non-zero exit status of `ping` fails the run
   before any line is looked at. The failure value `ProbeFailed(status, text)`
   holds what the plugin's `critical` message is built from. That message is
   evidently never printed (see "## Left out").
2. **Summary block** (`LineSplit`). The text is split the way Ruby's
   `String#split("\n")` does it: at every newline, with the empty fields at the
   end dropped. The second-to-last line is the overview line and the last line
   is the statistics line. Fewer than two lines is a failure. In Ruby,
   `[-2]` yields `nil` there, and `nil.scan` raises.
3. **Two matchers** (`Pattern`, `PingReport`). The two regular expressions use
   only literal text, `(\d+)` and `(\d+\.\d+)`. They are anchored by `^` at the
   start of the line, and nothing anchors their end. `Pattern` is a small
   matcher for exactly this fragment. `Pattern.MatchIff` proves it agrees with
   the regular-expression reading: it succeeds with captures `caps` exactly
   when `caps` have the groups' shapes and the text they spell out is a prefix
   of the line. Ruby's `\d` is ASCII-only, and so is `Decimal.IsDigit`. A
   split line holds no newline, so `^` can only match at position 0.
4. **Record and lines** (`PingReport.Results`, `MetricOutput`). The captures
   stay strings. They are zipped by position onto
   `packets_transmitted, packets_received, packet_loss, time` and
   `min, max, avg, mdev`. Each entry becomes one line, and every line carries
   the same timestamp. A malformed line leaves no record at all, so a run
   either prints all eight lines or none.

The statistics line is labelled `min/avg/max/mdev`, but the key list is
`min, max, avg, mdev` (metrics-ping.rb:69), and `zip` assigns by position
(metrics-ping.rb:81). There is no swap of the second and third captures. So
the line named `max` carries the value `ping` labels avg, and the line named
`avg` carries the value labelled max. `PingReport.ResultsSound`,
`PingReport.ResultsComplete` and `PingMetrics.RunHeaderExample` state this
positional assignment. The header comment of the plugin (lines 10-17) shows
the same assignment.

There is no separate error for a malformed overview line or a malformed
statistics line. Either mismatch makes `scan(...)[0]` return `nil`, and
`zip(nil)` raises. The model therefore has a single `ReportMalformed` failure.

Modules: `Outcome` (Option, Result), `Decimal` (digits, `Integer#to_s` and
its reader), `LineSplit`, `Pattern`, `PingReport` (the parser), `MetricOutput`
(the emitter and a line reader used to state its properties), `PingMetrics`
(the run).

## Model

| member | source | states |
|---|---|---|
| PingMetrics.Run | metrics-ping.rb:92-101 | a non-zero exit status fails with that status and the raw text, whatever the text; with status 0 the run succeeds exactly when the parser does, and a success is eight lines |
| PingMetrics.RunFailure | metrics-ping.rb:80-100 | all or nothing: no line at all exactly when the status is non-zero, there are fewer than two lines, or a summary line lacks its shape; otherwise exactly eight lines |
| PingMetrics.RunReadsBack | metrics-ping.rb:84-90 | each output line reads back, under the scheme, as the record entry at the same position and the run's one timestamp; keys come in the fixed order |
| PingMetrics.RunOnReport | metrics-ping.rb:68-101 | end to end: for any text ending in an overview line and a statistics line (with any head, tails and trailing newlines), the run prints exactly these eight lines, with statistics values assigned by position |
| PingMetrics.RunIgnoresTrailingNewline | metrics-ping.rb:73-77 | with status 0, a trailing newline on the text changes nothing |
| PingMetrics.RunHeaderExample | metrics-ping.rb:10-17 | a summary block whose statistics read 0.016/0.017/0.019/0.004 gives eight lines of the header's form (scheme `myhost.ping`, any timestamp); the `max` line carries 0.017, which `ping` labels avg |
| LineSplit.Split | metrics-ping.rb:73 | Ruby `split("\n")` returns pieces without newlines, and the last piece is not empty |
| LineSplit.SplitSpec | metrics-ping.rb:73 | Ruby `split("\n")`: the pieces hold no newline, the last piece is non-empty, and joining them with newlines gives the text minus its trailing newlines |
| LineSplit.JoinFields | metrics-ping.rb:73 | cutting at every newline loses nothing: the fields joined back give the text |
| LineSplit.SplitIgnoresTrailingNewline | metrics-ping.rb:73-77 | one trailing newline does not shift the lines |
| LineSplit.SplitIgnoresTrailingNewlines | metrics-ping.rb:73-77 | any run of trailing newlines does not shift the lines |
| LineSplit.LastTwoLines | metrics-ping.rb:73-77 | when the text ends with lines x and y (y non-empty), possibly followed by newlines, the second-to-last split line is x and the last is y |
| Pattern.DigitSpan | metrics-ping.rb:73 | greedy `\d+`: the span is all digits and stops at the end or at a non-digit |
| Pattern.FloatSpan | metrics-ping.rb:70 | greedy `\d+\.\d+`: a non-zero span is a decimal number that ends at the end or at a non-digit |
| Pattern.DigitSpanOf | metrics-ping.rb:73 | a digit run followed by the end or by a non-digit is exactly what the greedy `\d+` takes |
| Pattern.FloatSpanOf | metrics-ping.rb:70 | a decimal number followed by the end or by a non-digit is exactly what the greedy `\d+\.\d+` takes |
| Pattern.Match | metrics-ping.rb:73-77 | a successful match returns one capture per group of the pattern |
| Pattern.MatchSound | metrics-ping.rb:73-77 | captures the matcher returns have their groups' shapes, and the text they spell out begins the line |
| Pattern.MatchComplete | metrics-ping.rb:73-77 | on a well-formed pattern, any captures whose text begins the line are the ones the matcher returns, so the match is unique |
| Pattern.MatchIff | metrics-ping.rb:73-77 | the matcher succeeds with caps exactly when caps fit the pattern and their text is a prefix of the line |
| PingReport.OverviewIff | metrics-ping.rb:73 | overview match succeeds with caps exactly when there are four digit runs and the line starts with `a packets transmitted, b received, c% packet loss, time dms`; any suffix is ignored |
| PingReport.StatisticsIff | metrics-ping.rb:70-77 | statistics match succeeds with caps exactly when there are four decimal numbers, in textual order, and the line starts with `rtt min/avg/max/mdev = a/b/c/d ms` |
| PingReport.StatisticsNeedsDecimalPoint | metrics-ping.rb:70-77 | a field without a decimal point makes the statistics match fail, at any of the four positions, whatever the fields after it hold |
| PingReport.Overview | metrics-ping.rb:72-74 | the overview matcher returns four captures when it succeeds |
| PingReport.Statistics | metrics-ping.rb:76-78 | the statistics matcher returns four captures when it succeeds |
| PingReport.Results | metrics-ping.rb:80-82 | the parser's only failure is ReportMalformed; a record has eight entries (built by `PingReport.Zip`, Ruby's positional `zip` of line 81; its contents are stated by ResultsSound and ResultsComplete) |
| PingReport.ResultsSound | metrics-ping.rb:68-82 | a record has the eight keys in fixed order, digit runs then decimals, read verbatim from the last two lines, with statistics in textual order under min, max, avg, mdev |
| PingReport.ResultsComplete | metrics-ping.rb:68-82 | well-shaped last two lines give exactly the record with min, max←avg field, avg←max field, mdev |
| PingReport.ResultsFailure | metrics-ping.rb:72-82 | the parser fails exactly when there are fewer than two lines or a summary line lacks its shape |
| MetricOutput.FormatLine | metrics-ping.rb:89 | an output line starts with the scheme and a dot, and its length is the scheme's, the key's, the value's and the timestamp's lengths plus three separators |
| MetricOutput.Output | metrics-ping.rb:88-90 | one line per record entry, in record order (contents stated by OutputReadsBack) |
| MetricOutput.LineRoundTrip | metrics-ping.rb:89 | `scheme.key value timestamp` reads back as key, value and timestamp when key and value hold no space |
| MetricOutput.OutputReadsBack | metrics-ping.rb:84-90 | one line per entry, in record order, each reading back as its entry and the shared timestamp |
| Decimal.IntToString | metrics-ping.rb:85-89 | the timestamp's text is a digit run with no leading zero, after a minus sign when negative |
| Decimal.IntRoundTrip | metrics-ping.rb:85-89 | the timestamp's text reads back as the same integer |
| Decimal.NatRoundTrip | metrics-ping.rb:85-89 | the decimal text of a natural number reads back as that number |

## Left out

- Option declarations and defaults (metrics-ping.rb:44-66), including `Socket.gethostname` for the default scheme: the scheme is a plain parameter of `Run`.
- Running `ping` through `Open3.capture2e` (metrics-ping.rb:93): its combined output and exit status are the parameters `text` and `status`.
- `Process::Status` is compared with `0`; the model takes the status as the integer that comparison sees.
- `Time.now.to_i` and its memo (metrics-ping.rb:85): the timestamp is a parameter, so the once-per-run value becomes the same value on every line.
- Sensu's `critical`, its handling of uncaught exceptions, `exit 0` and `puts` (metrics-ping.rb:95, 101, 89): failures are `Failure` values and output is a sequence of lines; the newline `puts` adds after each line is not modelled.
- The message of `critical` (metrics-ping.rb:95): the model keeps the status and text in `ProbeFailed` but does not claim they are reported. The sensu-plugin library passes that message to `output`, and this class redefines `output` with no parameters (metrics-ping.rb:88). So the call evidently raises `ArgumentError` before the status and text are printed. The library is not part of this model, so this reading is unconfirmed. Either way, no metric line is printed and the run does not succeed.
- Bytes and encodings: the text is taken as a sequence of valid characters. Ruby's `scan` raises `ArgumentError` on a line holding bytes that are invalid in its encoding, and the model has no such failure.
- Numeric conversion and range checks: the code has none, and the values stay verbatim strings.
- MetricOutput.Output: its contract states only that there is one line per record entry; what the lines contain is stated by `MetricOutput.OutputReadsBack`.
- MetricOutput.FormatLine: its contract gives only the scheme prefix and the length; that the line holds exactly the key, value and timestamp is stated by `MetricOutput.LineRoundTrip`.
- PingReport.Overview: its contract gives only the number of captures; when it succeeds and with what is stated by `PingReport.OverviewIff`.
- PingReport.Statistics: its contract gives only the number of captures; when it succeeds and with what is stated by `PingReport.StatisticsIff`.
- Pattern.Match: its contract gives only the number of captures; the captures themselves are characterised by `Pattern.MatchIff` (with `Pattern.MatchSound` and `Pattern.MatchComplete`).
- LineSplit.Split: its contract gives only the shape of the pieces; that they join back into the text without its trailing newlines is stated by `LineSplit.SplitSpec`.
