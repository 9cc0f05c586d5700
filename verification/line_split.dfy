/** Ruby's `String#split("\n")`: cut the text at every newline, then drop the
    empty fields at the end (leading and inner empty fields are kept). */
module LineSplit {

  const Newline: char := '\n'

  /** No newline occurs in `s`. */
  predicate IsLine(s: string) {
    Newline !in s
  }

  /** Every field between newlines, empty ones included (a split without the
      trailing-field removal). */
  function Fields(s: string): (r: seq<string>)
    ensures |r| >= 1
    ensures forall i :: 0 <= i < |r| ==> IsLine(r[i])
  {
    if |s| == 0 then [""]
    else
      var rest := Fields(s[1..]);
      if s[0] == Newline then [""] + rest
      else [[s[0]] + rest[0]] + rest[1..]
  }

  /** Removes the empty fields at the end of `ls`. */
  function DropTrailingEmpty(ls: seq<string>): (r: seq<string>)
    ensures r <= ls
    ensures |r| == 0 || r[|r| - 1] != ""
    ensures forall k :: |r| <= k < |ls| ==> ls[k] == ""
  {
    if |ls| > 0 && ls[|ls| - 1] == "" then DropTrailingEmpty(ls[..|ls| - 1]) else ls
  }

  /** `s.split("\n")` in Ruby. */
  function Split(s: string): (r: seq<string>)
    ensures forall i :: 0 <= i < |r| ==> IsLine(r[i])
    ensures |r| == 0 || r[|r| - 1] != ""
  {
    var f := Fields(s);
    var r := DropTrailingEmpty(f);
    assert forall i :: 0 <= i < |r| ==> r[i] == f[i];
    r
  }

  /** Lines glued back together with a newline between neighbours. */
  function Join(ls: seq<string>): string {
    if |ls| == 0 then ""
    else if |ls| == 1 then ls[0]
    else ls[0] + [Newline] + Join(ls[1..])
  }

  /** `s` without the newlines at its end. */
  function TrimTrailingNewlines(s: string): (r: string)
    ensures r <= s
    ensures |r| == 0 || r[|r| - 1] != Newline
    ensures forall k :: |r| <= k < |s| ==> s[k] == Newline
  {
    if |s| > 0 && s[|s| - 1] == Newline then TrimTrailingNewlines(s[..|s| - 1]) else s
  }

  /** Cutting at newlines and gluing back restores the text exactly. */
  lemma {:induction false} JoinFields(s: string)
    ensures Join(Fields(s)) == s
  {
    if |s| > 0 {
      var rest := Fields(s[1..]);
      JoinFields(s[1..]);
      if s[0] == Newline {
        assert Fields(s) == [""] + rest;
        assert ([""] + rest)[1..] == rest;
        assert s == [Newline] + s[1..];
      } else {
        var f := Fields(s);
        assert f == [[s[0]] + rest[0]] + rest[1..];
        if |rest| == 1 {
          assert s == [s[0]] + rest[0];
        } else {
          assert f[1..] == rest[1..];
          assert Join(rest) == rest[0] + [Newline] + Join(rest[1..]);
          assert s == [s[0]] + s[1..];
        }
      }
    }
  }

  lemma {:induction false} JoinSnoc(ls: seq<string>, x: string)
    requires |ls| >= 1
    ensures Join(ls + [x]) == Join(ls) + [Newline] + x
    decreases |ls|
  {
    if |ls| == 1 {
      assert (ls + [x])[1..] == [x];
    } else {
      assert (ls + [x])[1..] == ls[1..] + [x];
      JoinSnoc(ls[1..], x);
    }
  }

  lemma TrimAfterNewline(s: string)
    ensures TrimTrailingNewlines(s + [Newline]) == TrimTrailingNewlines(s)
  {
    assert (s + [Newline])[..|s|] == s;
  }

  /** Glued lines end with the last line's last character. */
  lemma JoinEndsWithLast(ls: seq<string>)
    requires |ls| >= 1 && ls[|ls| - 1] != ""
    ensures |Join(ls)| > 0
    ensures Join(ls)[|Join(ls)| - 1] == ls[|ls| - 1][|ls[|ls| - 1]| - 1]
  {
    var last := ls[|ls| - 1];
    if |ls| > 1 {
      var init := ls[..|ls| - 1];
      assert ls == init + [last];
      JoinSnoc(init, last);
    }
  }

  /** Dropping empty trailing fields is trimming trailing newlines of the glued text. */
  lemma {:induction false} JoinDropTrailingEmpty(ls: seq<string>)
    requires |ls| >= 1
    requires forall i :: 0 <= i < |ls| ==> IsLine(ls[i])
    ensures Join(DropTrailingEmpty(ls)) == TrimTrailingNewlines(Join(ls))
    decreases |ls|
  {
    var last := ls[|ls| - 1];
    var init := ls[..|ls| - 1];
    if last == "" {
      if |ls| == 1 {
        assert DropTrailingEmpty(ls) == DropTrailingEmpty([]);
      } else {
        assert ls == init + [""];
        assert DropTrailingEmpty(ls) == DropTrailingEmpty(init);
        JoinSnoc(init, "");
        assert Join(ls) == Join(init) + [Newline];
        TrimAfterNewline(Join(init));
        assert forall i :: 0 <= i < |init| ==> init[i] == ls[i];
        JoinDropTrailingEmpty(init);
      }
    } else {
      assert DropTrailingEmpty(ls) == ls;
      JoinEndsWithLast(ls);
      assert IsLine(last);
      assert last[|last| - 1] in last;
      assert TrimTrailingNewlines(Join(ls)) == Join(ls);
    }
  }

  /** What Ruby's split returns, characterised: lines without newlines, the
      last one non-empty, which glue back into the text minus its trailing
      newlines. */
  lemma SplitSpec(s: string)
    ensures var parts := Split(s);
      && (forall i :: 0 <= i < |parts| ==> IsLine(parts[i]))
      && (|parts| == 0 || parts[|parts| - 1] != "")
      && Join(parts) == TrimTrailingNewlines(s)
  {
    SplitGlues(s);
  }

  lemma SplitGlues(s: string)
    ensures Join(Split(s)) == TrimTrailingNewlines(s)
  {
    var f := Fields(s);
    JoinFields(s);
    JoinDropTrailingEmpty(f);
  }

  /** Gluing two texts with a newline puts their fields side by side. */
  lemma {:induction false} FieldsAppend(a: string, b: string)
    ensures Fields(a + [Newline] + b) == Fields(a) + Fields(b)
  {
    var s := a + [Newline] + b;
    if |a| == 0 {
      assert s[1..] == b;
    } else {
      assert s[1..] == a[1..] + [Newline] + b;
      FieldsAppend(a[1..], b);
    }
  }

  /** A text without newlines is a single field. */
  lemma {:induction false} FieldsOfLine(s: string)
    requires IsLine(s)
    ensures Fields(s) == [s]
  {
    if |s| > 0 {
      assert s[0] in s;
      assert forall c :: c in s[1..] ==> c in s;
      FieldsOfLine(s[1..]);
      assert [s[0]] + s[1..] == s;
    }
  }

  /** A newline at the end of the text does not move the last lines. */
  lemma SplitIgnoresTrailingNewline(s: string)
    ensures Split(s + [Newline]) == Split(s)
  {
    FieldsAppend(s, "");
    assert s + [Newline] + "" == s + [Newline];
    FieldsOfLine("");
    var f := Fields(s);
    assert (f + [""])[..|f|] == f;
  }

  /** Every character of `s` is a newline. */
  predicate AllNewlines(s: string) {
    forall i :: 0 <= i < |s| ==> s[i] == Newline
  }

  /** Any number of newlines at the end of the text leaves the lines alone. */
  lemma {:induction false} SplitIgnoresTrailingNewlines(s: string, trailing: string)
    requires AllNewlines(trailing)
    ensures Split(s + trailing) == Split(s)
    decreases |trailing|
  {
    if |trailing| > 0 {
      var init := trailing[..|trailing| - 1];
      assert trailing == init + [Newline];
      assert s + trailing == (s + init) + [Newline];
      SplitIgnoresTrailingNewline(s + init);
      SplitIgnoresTrailingNewlines(s, init);
    } else {
      assert s + trailing == s;
    }
  }

  /** The summary block: when the text ends with two lines `x` and `y`
      (the last one non-empty), possibly followed by newlines, and whatever
      comes before them ends at a line break, the split's last two lines
      are exactly `x` and `y`. */
  lemma LastTwoLines(head: string, x: string, y: string, trailing: string)
    requires head == "" || head[|head| - 1] == Newline
    requires IsLine(x) && IsLine(y) && y != ""
    requires AllNewlines(trailing)
    ensures var lines := Split(head + x + [Newline] + y + trailing);
      |lines| >= 2 && lines[|lines| - 2] == x && lines[|lines| - 1] == y
  {
    var block := x + [Newline] + y;
    BlockFields(head, x, y);
    var f := Fields(head + block);
    assert Split(head + block) == f;
    assert head + x + [Newline] + y + trailing == (head + block) + trailing;
    SplitIgnoresTrailingNewlines(head + block, trailing);
  }

  /** The fields of a text that ends with the lines `x` and `y`. */
  lemma BlockFields(head: string, x: string, y: string)
    requires head == "" || head[|head| - 1] == Newline
    requires IsLine(x) && IsLine(y)
    ensures var f := Fields(head + (x + [Newline] + y));
      |f| >= 2 && f[|f| - 2] == x && f[|f| - 1] == y
  {
    var block := x + [Newline] + y;
    FieldsAppend(x, y);
    FieldsOfLine(x);
    FieldsOfLine(y);
    if head == "" {
      assert head + block == block;
    } else {
      var h := head[..|head| - 1];
      assert head + block == h + [Newline] + block;
      FieldsAppend(h, block);
    }
  }
}
