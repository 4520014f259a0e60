/**
 * The line splitter: `toLines` runs a `bufio.Scanner` with the ScanLines
 * split function over the text and re-appends one newline to every token.
 * ScanLines cuts at each "\n", drops one "\r" in front of it (and at the
 * end of input), and yields a final unterminated token if one is left.
 */
module Lines {
  import opened Seqs

  /** A line as `toLines` yields it: text, then exactly one newline at the end. */
  predicate IsLine(l: string)
  {
    |l| > 0 && l[|l| - 1] == '\n' && '\n' !in l[..|l| - 1]
  }

  /** Index of the first newline of `s` at or after `from`, or `|s|` when there is none. */
  function LineEnd(s: string, from: nat): (i: nat)
    requires from <= |s|
    ensures from <= i <= |s|
    ensures forall k :: from <= k < i ==> s[k] != '\n'
    ensures i < |s| ==> s[i] == '\n'
    decreases |s| - from
  {
    if from == |s| || s[from] == '\n' then from else LineEnd(s, from + 1)
  }

  /** ScanLines' `dropCR`: removes one trailing carriage return. */
  function DropCR(s: string): string
  {
    if |s| > 0 && s[|s| - 1] == '\r' then s[..|s| - 1] else s
  }

  /** The first line of a non-empty text: its first token, then one newline. */
  function FirstLine(s: string): string
    requires s != []
  {
    DropCR(s[..LineEnd(s, 0)]) + "\n"
  }

  /** What is left to scan after the first token and its newline. */
  function Rest(s: string): (r: string)
    requires s != []
    ensures |r| < |s|
  {
    var i := LineEnd(s, 0);
    if i < |s| then s[i + 1..] else []
  }

  /** `toLines`: one line per token, in order. */
  function ToLines(s: string): (r: seq<string>)
    ensures |r| <= |s|
    ensures r == [] <==> s == []
    decreases |s|
  {
    if s == [] then [] else [FirstLine(s)] + ToLines(Rest(s))
  }

  /** The search for the next newline that ScanLines makes. */
  method IndexNewline(data: string, start: nat) returns (end: nat)
    requires start <= |data|
    ensures end == LineEnd(data, start)
  {
    end := start;
    while end < |data| && data[end] != '\n'
      invariant start <= end <= |data|
      invariant forall k :: start <= k < end ==> data[k] != '\n'
    {
      end := end + 1;
    }
  }

  /** A newline found at `i` with none before it is where `LineEnd` stops. */
  lemma {:induction false} LineEndIs(s: string, from: nat, i: nat)
    requires from <= i <= |s|
    requires forall k :: from <= k < i ==> s[k] != '\n'
    requires i < |s| ==> s[i] == '\n'
    ensures LineEnd(s, from) == i
    decreases i - from
  {
    if from < i {
      LineEndIs(s, from + 1, i);
    }
  }

  /** Scanning from `start` is scanning the text that is left at `start`. */
  lemma ScanFrom(data: string, start: nat, end: nat)
    requires start < |data| && end == LineEnd(data, start)
    ensures FirstLine(data[start..]) == DropCR(data[start..end]) + "\n"
    ensures Rest(data[start..]) == data[if end < |data| then end + 1 else end..]
  {
    var t := data[start..];
    LineEndIs(t, 0, end - start);
    assert t[..end - start] == data[start..end];
    if end < |data| {
      assert t[end - start + 1..] == data[end + 1..];
    }
  }

  /**
   * `toLines` as the source writes it: a scanner loop that cuts one token
   * at a time and appends it, with a newline, to the result.
   */
  method ScanLines(data: string) returns (lines: seq<string>)
    ensures lines == ToLines(data)
  {
    lines := [];
    var start := 0;
    while start < |data|
      invariant 0 <= start <= |data|
      invariant ToLines(data) == lines + ToLines(data[start..])
    {
      var end := IndexNewline(data, start);
      var line := DropCR(data[start..end]) + "\n";
      var next := if end < |data| then end + 1 else end;
      ScanFrom(data, start, end);
      assert ToLines(data[start..]) == [line] + ToLines(data[next..]);
      AppendAssoc(lines, [line], ToLines(data[next..]));
      lines := lines + [line];
      start := next;
    }
    assert data[start..] == [];
  }

  lemma FirstLineIsLine(s: string)
    requires s != []
    ensures IsLine(FirstLine(s))
  {
    var token := DropCR(s[..LineEnd(s, 0)]);
    assert forall k :: 0 <= k < |token| ==> token[k] == s[k];
    assert (token + "\n")[..|token|] == token;
  }

  /** Every element of `toLines` ends in exactly one newline and holds no other. */
  lemma {:induction false} ToLinesAreLines(s: string)
    ensures forall k :: 0 <= k < |ToLines(s)| ==> IsLine(ToLines(s)[k])
    ensures s == [] <==> ToLines(s) == []
    decreases |s|
  {
    if s != [] {
      FirstLineIsLine(s);
      ToLinesAreLines(Rest(s));
      var all, rest := ToLines(s), ToLines(Rest(s));
      forall k | 0 <= k < |all|
        ensures IsLine(all[k])
      {
        if k > 0 {
          assert all[k] == rest[k - 1];
        }
      }
    }
  }

  /** The lines glued back together. */
  function Concat(ls: seq<string>): string
  {
    if ls == [] then [] else ls[0] + Concat(ls[1..])
  }

  lemma ConcatCons(l: string, ls: seq<string>)
    ensures Concat([l] + ls) == l + Concat(ls)
  {
    assert ([l] + ls)[1..] == ls;
  }

  /** `s` with a newline added unless it is empty or already ends in one. */
  function Terminated(s: string): string
  {
    if s == [] || s[|s| - 1] == '\n' then s else s + "\n"
  }

  lemma TerminatedCons(h: string, r: string)
    ensures h + "\n" + Terminated(r) == Terminated(h + "\n" + r)
  {
    if r != [] {
      assert (h + "\n" + r)[|h + "\n" + r| - 1] == r[|r| - 1];
    }
  }

  /** `Terminated` of a text, split at its first newline or at its end. */
  lemma TerminatedAt(s: string, i: nat)
    requires s != [] && i == LineEnd(s, 0)
    ensures Terminated(s) == s[..i] + "\n" + Terminated(if i < |s| then s[i + 1..] else [])
  {
    if i < |s| {
      assert s == s[..i] + "\n" + s[i + 1..] by {
        assert s == s[..i] + s[i..] && s[i..] == "\n" + s[i + 1..];
      }
      TerminatedCons(s[..i], s[i + 1..]);
    } else {
      assert s[..i] == s && s[|s| - 1] != '\n';
    }
  }

  /** Without carriage returns, the first line is the first token as it stands. */
  lemma PlainStep(s: string)
    requires s != [] && '\r' !in s
    ensures ToLines(s) == [s[..LineEnd(s, 0)] + "\n"] + ToLines(Rest(s))
    ensures '\r' !in Rest(s)
  {
    var i := LineEnd(s, 0);
    var head := s[..i];
    assert DropCR(head) == head by {
      if i > 0 {
        assert head[i - 1] == s[i - 1];
      }
    }
    if i < |s| {
      assert forall k :: 0 <= k < |Rest(s)| ==> Rest(s)[k] == s[i + 1 + k];
    }
  }

  /** Gluing the first line back onto the rest of a text without carriage returns. */
  lemma GlueFirstLine(s: string)
    requires s != [] && '\r' !in s
    requires Concat(ToLines(Rest(s))) == Terminated(Rest(s))
    ensures Concat(ToLines(s)) == Terminated(s)
  {
    var i := LineEnd(s, 0);
    var head := s[..i];
    var rest := Rest(s);
    assert Concat(ToLines(s)) == head + "\n" + Terminated(rest) by {
      PlainStep(s);
      ConcatCons(head + "\n", ToLines(rest));
    }
    TerminatedAt(s, i);
  }

  /**
   * For text without carriage returns the lines glue back to the text
   * itself, plus a final newline when the text lacked one.
   */
  lemma {:induction false} ConcatToLines(s: string)
    requires '\r' !in s
    ensures Concat(ToLines(s)) == Terminated(s)
    decreases |s|
  {
    if s != [] {
      PlainStep(s);
      ConcatToLines(Rest(s));
      GlueFirstLine(s);
    }
  }

  /** A line that a scanner gives back unchanged: no carriage return before its newline. */
  predicate IsPlainLine(l: string)
  {
    IsLine(l) && (|l| == 1 || l[|l| - 2] != '\r')
  }

  /** Splitting well-formed lines after gluing them gives the same lines back. */
  lemma {:induction false} ToLinesConcat(ls: seq<string>)
    requires forall k :: 0 <= k < |ls| ==> IsPlainLine(ls[k])
    ensures ToLines(Concat(ls)) == ls
  {
    if ls != [] {
      var l := ls[0];
      var x := l[..|l| - 1];
      var rest := Concat(ls[1..]);
      ToLinesConcat(ls[1..]);
      var s := Concat(ls);
      assert l == x + "\n";
      assert s == (x + "\n") + rest;
      assert LineEnd(s, 0) == |x| by {
        assert forall k :: 0 <= k < |x| ==> s[k] == x[k];
        LineEndIs(s, 0, |x|);
      }
      assert s[..|x|] == x && DropCR(x) == x;
      assert Rest(s) == rest;
    }
  }

  /** A missing final newline makes no difference to the lines. */
  lemma {:induction false} ToLinesFinalNewline(s: string)
    requires s != [] && s[|s| - 1] != '\n'
    ensures ToLines(s + "\n") == ToLines(s)
    decreases |s|
  {
    var t := s + "\n";
    var i := LineEnd(s, 0);
    assert LineEnd(t, 0) == i by {
      assert forall k :: 0 <= k < i ==> t[k] == s[k];
      LineEndIs(t, 0, i);
    }
    assert t[..i] == s[..i];
    assert FirstLine(t) == FirstLine(s);
    if i < |s| {
      assert Rest(t) == Rest(s) + "\n";
      assert Rest(s) != [] && Rest(s)[|Rest(s)| - 1] == s[|s| - 1];
      ToLinesFinalNewline(Rest(s));
    }
  }
}
