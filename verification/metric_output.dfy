/** The metric emitter: one `<scheme>.<key> <value> <timestamp>` line per
    record entry, in record order, every line carrying the same timestamp. */
module MetricOutput {
  import opened Outcome
  import opened Decimal
  import opened PingReport

  /** One output line of the plugin. */
  function FormatLine(scheme: string, s: Sample, timestamp: int): (r: string)
    ensures scheme + "." <= r
    ensures |r| == |scheme| + |s.key| + |s.value| + |IntToString(timestamp)| + 3
  {
    scheme + "." + s.key + " " + s.value + " " + IntToString(timestamp)
  }

  /** The plugin's `output`: the record's lines, one per entry, in order;
      the run's timestamp is captured once and shared by every line. */
  function Output(rec: seq<Sample>, scheme: string, timestamp: int): (r: seq<string>)
    ensures |r| == |rec|
  {
    seq(|rec|, i requires 0 <= i < |rec| => FormatLine(scheme, rec[i], timestamp))
  }

  /** Index of the first `c` in `s`, or `|s|` when there is none. */
  function IndexOf(s: string, c: char): (n: nat)
    ensures n <= |s|
    ensures c !in s[..n]
    ensures n < |s| ==> s[n] == c
  {
    if |s| == 0 then 0
    else if s[0] == c then 0
    else
      var k := IndexOf(s[1..], c);
      assert s[..k + 1] == [s[0]] + s[1..][..k];
      k + 1
  }

  /** How a consumer reads a line back, knowing the scheme: the key up to
      the first space, the value up to the next one, then the timestamp. */
  function ParseLine(scheme: string, line: string): Option<(Sample, int)> {
    var head := scheme + ".";
    if head <= line then ParseEntry(line[|head|..]) else None
  }

  /** Reads `<key> <value> <timestamp>`. */
  function ParseEntry(rest: string): Option<(Sample, int)> {
    var i := IndexOf(rest, ' ');
    if i == |rest| then None
    else
      match ParseValue(rest[i + 1..])
      case Some((v, t)) => Some((Sample(rest[..i], v), t))
      case None => None
  }

  /** Reads `<value> <timestamp>`. */
  function ParseValue(afterKey: string): Option<(string, int)> {
    var j := IndexOf(afterKey, ' ');
    if j == |afterKey| then None
    else
      match ParseInt(afterKey[j + 1..])
      case Some(t) => Some((afterKey[..j], t))
      case None => None
  }

  lemma {:induction false} IndexOfPrefix(a: string, c: char, rest: string)
    requires c !in a
    ensures IndexOf(a + [c] + rest, c) == |a|
  {
    if |a| > 0 {
      assert a[0] in a;
      assert (a + [c] + rest)[1..] == a[1..] + [c] + rest;
      assert forall x :: x in a[1..] ==> x in a;
      IndexOfPrefix(a[1..], c, rest);
    }
  }

  lemma FormatLineNested(scheme: string, s: Sample, t: string)
    ensures scheme + "." + s.key + " " + s.value + " " + t
      == (scheme + ".") + (s.key + [' '] + (s.value + [' '] + t))
  {
  }

  /** A line read back gives the key, value and timestamp it was made from,
      whenever key and value hold no space. */
  lemma LineRoundTrip(scheme: string, s: Sample, timestamp: int)
    requires ' ' !in s.key && ' ' !in s.value
    ensures ParseLine(scheme, FormatLine(scheme, s, timestamp)) == Some((s, timestamp))
  {
    var t := IntToString(timestamp);
    var rest := s.key + [' '] + (s.value + [' '] + t);
    FormatLineNested(scheme, s, t);
    CutAt(scheme + ".", rest);
    EntryRoundTrip(s.key, s.value, timestamp);
  }

  lemma EntryRoundTrip(key: string, value: string, timestamp: int)
    requires ' ' !in key && ' ' !in value
    ensures ParseEntry(key + [' '] + (value + [' '] + IntToString(timestamp)))
      == Some((Sample(key, value), timestamp))
  {
    CutAtFirst(key, ' ', value + [' '] + IntToString(timestamp));
    ValueRoundTrip(value, timestamp);
  }

  lemma ValueRoundTrip(value: string, timestamp: int)
    requires ' ' !in value
    ensures ParseValue(value + [' '] + IntToString(timestamp)) == Some((value, timestamp))
  {
    CutAtFirst(value, ' ', IntToString(timestamp));
    IntRoundTrip(timestamp);
  }

  /** Dropping a prefix gives back the rest; a separate proof step so that
      the solver does not meet it inside a larger proof. */
  lemma CutAt(head: string, rest: string)
    ensures head <= head + rest && (head + rest)[|head|..] == rest
  {
  }

  /** Cutting at the first `c` of `a + [c] + rest` gives back `a` and `rest`. */
  lemma CutAtFirst(a: string, c: char, rest: string)
    requires c !in a
    ensures var s := a + [c] + rest;
      IndexOf(s, c) == |a| && s[..|a|] == a && s[|a| + 1..] == rest
  {
    IndexOfPrefix(a, c, rest);
    var s := a + [c] + rest;
    assert s[..|a|] == a;
    assert s[|a| + 1..] == rest;
  }

  /** Read back, the `i`-th output line gives the `i`-th entry of the record
      and the one shared timestamp: nothing is dropped, reordered or
      reformatted. */
  lemma OutputReadsBack(rec: seq<Sample>, scheme: string, timestamp: int)
    requires forall i :: 0 <= i < |rec| ==> ' ' !in rec[i].key && ' ' !in rec[i].value
    ensures |Output(rec, scheme, timestamp)| == |rec|
    ensures forall i :: 0 <= i < |rec| ==>
      ParseLine(scheme, Output(rec, scheme, timestamp)[i]) == Some((rec[i], timestamp))
  {
    forall i | 0 <= i < |rec|
      ensures ParseLine(scheme, Output(rec, scheme, timestamp)[i]) == Some((rec[i], timestamp))
    {
      LineRoundTrip(scheme, rec[i], timestamp);
    }
  }
}
