/**
 * Cutting a stream into frames at a delimiter, the way every incremental parser of the
 * repository does it: the bytes after the last complete frame stay in a buffer, and the next
 * piece is appended to that buffer before the search starts again.
 */
module Framing {
  import opened Prelude

  ghost predicate At(s: string, d: string, j: int)
  {
    0 <= j <= |s| - |d| && s[j..j + |d|] == d
  }

  /** First position of d in s at or after i, or -1. */
  function IndexFrom(s: string, d: string, i: nat): (r: int)
    requires d != "" && i <= |s|
    ensures r == -1 || i <= r <= |s| - |d|
    decreases |s| - i
  {
    if i + |d| > |s| then -1
    else if s[i..i + |d|] == d then i
    else IndexFrom(s, d, i + 1)
  }

  /** strings.Index, bytes.IndexByte and str::find. */
  function IndexOf(s: string, d: string): (r: int)
    requires d != ""
    ensures r == -1 || 0 <= r <= |s| - |d|
  {
    IndexFrom(s, d, 0)
  }

  lemma {:induction false} IndexFromFirst(s: string, d: string, i: nat)
    requires d != "" && i <= |s|
    ensures IndexFrom(s, d, i) != -1 ==> At(s, d, IndexFrom(s, d, i))
    ensures forall j :: i <= j && At(s, d, j) ==> 0 <= IndexFrom(s, d, i) <= j
    decreases |s| - i
  {
    if i + |d| <= |s| && s[i..i + |d|] != d {
      IndexFromFirst(s, d, i + 1);
    }
  }

  /** IndexOf finds an occurrence whenever there is one, and it finds the first. */
  lemma IndexOfFirst(s: string, d: string)
    requires d != ""
    ensures IndexOf(s, d) != -1 ==> At(s, d, IndexOf(s, d))
    ensures forall j :: At(s, d, j) ==> 0 <= IndexOf(s, d) <= j
  {
    IndexFromFirst(s, d, 0);
  }

  datatype Framed = Framed(frames: seq<string>, rest: string)

  /** The complete frames of s, without their delimiters, and what follows the last delimiter. */
  function Split(d: string, s: string): (r: Framed)
    requires d != ""
    decreases |s|
  {
    var i := IndexOf(s, d);
    if i == -1 then Framed([], s)
    else
      var tail := Split(d, s[i + |d|..]);
      Framed([s[..i]] + tail.frames, tail.rest)
  }

  /** strings.Split(s, d): the complete frames followed by the remainder, which may be empty. */
  function SplitAll(s: string, d: string): (r: seq<string>)
    requires d != ""
    ensures |r| > 0
  {
    var f := Split(d, s);
    f.frames + [f.rest]
  }

  /** Frames written back with their delimiters. */
  function Terminated(d: string, frames: seq<string>): string
  {
    if frames == [] then "" else frames[0] + d + Terminated(d, frames[1..])
  }

  lemma {:induction false} TerminatedAppend(d: string, a: seq<string>, b: seq<string>)
    ensures Terminated(d, a + b) == Terminated(d, a) + Terminated(d, b)
  {
    if a == [] {
      assert a + b == b;
    } else {
      assert (a + b)[1..] == a[1..] + b;
      TerminatedAppend(d, a[1..], b);
    }
  }

  /** A prefix that ends before the first delimiter holds none. */
  lemma BeforeFirst(s: string, d: string)
    requires d != "" && IndexOf(s, d) != -1
    ensures IndexOf(s[..IndexOf(s, d)], d) == -1
  {
    var i := IndexOf(s, d);
    hide IndexOf;
    IndexOfFirst(s, d);
    IndexOfFirst(s[..i], d);
    AtPrefix(s, i, d);
  }

  lemma AtPrefix(s: string, i: nat, d: string)
    requires i <= |s|
    ensures forall j :: At(s[..i], d, j) ==> At(s, d, j) && j + |d| <= i
  {
    forall j | At(s[..i], d, j) ensures At(s, d, j) && j + |d| <= i {
      assert s[..i][j..j + |d|] == s[j..j + |d|];
    }
  }

  lemma SplitStep(d: string, s: string)
    requires d != "" && IndexOf(s, d) != -1
    ensures Split(d, s).frames == [s[..IndexOf(s, d)]] + Split(d, s[IndexOf(s, d) + |d|..]).frames
    ensures Split(d, s).rest == Split(d, s[IndexOf(s, d) + |d|..]).rest
  {
  }

  lemma AroundFirst(s: string, d: string)
    requires d != "" && IndexOf(s, d) != -1
    ensures s == s[..IndexOf(s, d)] + d + s[IndexOf(s, d) + |d|..]
  {
    IndexOfFirst(s, d);
  }

  lemma TerminatedNone(d: string)
    ensures Terminated(d, []) == ""
  {
  }

  lemma TerminatedStep(d: string, head: string, frames: seq<string>)
    ensures Terminated(d, [head] + frames) == head + d + Terminated(d, frames)
  {
    assert ([head] + frames)[1..] == frames;
  }

  lemma LosslessStep(d: string, s: string, head: string, tail: string, f: Framed)
    requires s == head + d + tail
    requires Terminated(d, f.frames) + f.rest == tail
    ensures Terminated(d, [head] + f.frames) + f.rest == s
  {
    TerminatedStep(d, head, f.frames);
    assert head + d + Terminated(d, f.frames) + f.rest == head + d + (Terminated(d, f.frames) + f.rest);
  }

  /** Splitting loses nothing: the frames with their delimiters, then the remainder, are s. */
  lemma {:induction false} SplitLossless(d: string, s: string)
    requires d != ""
    ensures Terminated(d, Split(d, s).frames) + Split(d, s).rest == s
    decreases |s|
  {
    hide IndexOf, Terminated;
    var i := IndexOf(s, d);
    if i == -1 {
      TerminatedNone(d);
    } else {
      var tail := s[i + |d|..];
      SplitLossless(d, tail);
      AroundFirst(s, d);
      LosslessStep(d, s, s[..i], tail, Split(d, tail));
    }
  }

  /** No delimiter is left in the remainder or hidden inside a frame. */
  lemma {:induction false} SplitClean(d: string, s: string)
    requires d != ""
    ensures IndexOf(Split(d, s).rest, d) == -1
    ensures forall i :: 0 <= i < |Split(d, s).frames| ==> IndexOf(Split(d, s).frames[i], d) == -1
    decreases |s|
  {
    hide IndexOf;
    var i := IndexOf(s, d);
    if i != -1 {
      SplitClean(d, s[i + |d|..]);
      SplitStep(d, s);
      BeforeFirst(s, d);
    }
  }

  /** The first delimiter of a is still the first one when more text follows. */
  lemma FirstIndexStable(a: string, b: string, d: string)
    requires d != "" && IndexOf(a, d) != -1
    ensures IndexOf(a + b, d) == IndexOf(a, d)
  {
    IndexOfFirst(a, d);
    IndexOfFirst(a + b, d);
    var i := IndexOf(a, d);
    assert (a + b)[i..i + |d|] == a[i..i + |d|];
    assert At(a + b, d, i);
    var k := IndexOf(a + b, d);
    assert (a + b)[k..k + |d|] == a[k..k + |d|];
    assert At(a, d, k);
  }

  /** Splitting a + b is splitting a, and then its remainder followed by b. */
  lemma {:induction false} Feed(d: string, a: string, b: string)
    requires d != ""
    ensures Split(d, a + b).frames == Split(d, a).frames + Split(d, Split(d, a).rest + b).frames
    ensures Split(d, a + b).rest == Split(d, Split(d, a).rest + b).rest
    decreases |a|
  {
    hide IndexOf;
    var i := IndexOf(a, d);
    if i == -1 {
      assert Split(d, a) == Framed([], a);
    } else {
      var tail := a[i + |d|..];
      FirstIndexStable(a, b, d);
      SplitStep(d, a);
      SplitStep(d, a + b);
      SliceOfSum(a, b, i, i + |d|);
      Feed(d, tail, b);
      Regroup(a[..i], Split(d, tail).frames, Split(d, Split(d, tail).rest + b).frames);
    }
  }

  lemma SliceOfSum(a: string, b: string, i: nat, j: nat)
    requires i <= j <= |a|
    ensures (a + b)[..i] == a[..i] && (a + b)[j..] == a[j..] + b
  {
  }

  lemma Regroup(head: string, a: seq<string>, b: seq<string>)
    ensures [head] + (a + b) == ([head] + a) + b
  {
  }

  /** What a buffering parser sees when the pieces arrive one by one. */
  function FeedAll(d: string, buffer: string, pieces: seq<string>): Framed
    requires d != ""
    decreases |pieces|
  {
    if pieces == [] then Framed([], buffer)
    else
      var now := Split(d, buffer + pieces[0]);
      var later := FeedAll(d, now.rest, pieces[1..]);
      Framed(now.frames + later.frames, later.rest)
  }

  lemma CutStep(d: string, buffer: string, pieces: seq<string>)
    requires d != "" && pieces != []
    requires FeedAll(d, Split(d, buffer + pieces[0]).rest, pieces[1..])
          == Split(d, Split(d, buffer + pieces[0]).rest + Concat(pieces[1..]))
    ensures FeedAll(d, buffer, pieces) == Split(d, (buffer + pieces[0]) + Concat(pieces[1..]))
  {
    hide IndexOf, Split;
    Feed(d, buffer + pieces[0], Concat(pieces[1..]));
  }

  lemma NothingToCut(d: string, buffer: string)
    requires d != "" && IndexOf(buffer, d) == -1
    ensures Split(d, buffer) == Framed([], buffer)
  {
    hide IndexOf;
  }

  /** The frames and the retained buffer depend on the bytes only, not on how they were cut. */
  lemma {:induction false} CutIndependence(d: string, buffer: string, pieces: seq<string>)
    requires d != "" && IndexOf(buffer, d) == -1
    ensures FeedAll(d, buffer, pieces) == Split(d, buffer + Concat(pieces))
    decreases |pieces|
  {
    hide IndexOf, Split;
    if pieces == [] {
      assert buffer + Concat(pieces) == buffer;
      NothingToCut(d, buffer);
    } else {
      SplitClean(d, buffer + pieces[0]);
      CutIndependence(d, Split(d, buffer + pieces[0]).rest, pieces[1..]);
      CutStep(d, buffer, pieces);
      assert buffer + Concat(pieces) == (buffer + pieces[0]) + Concat(pieces[1..]);
    }
  }

  lemma NoNewline(s: string)
    ensures '\n' !in s <==> IndexOf(s, "\n") == -1
  {
    IndexOfFirst(s, "\n");
    forall j | 0 <= j < |s| && s[j] == '\n' ensures At(s, "\n", j) {
      assert s[j..j + 1] == "\n";
    }
    if IndexOf(s, "\n") != -1 {
      var i := IndexOf(s, "\n");
      assert At(s, "\n", i);
      assert s[i] == s[i..i + 1][0];
    }
  }

  /** A frame without a delimiter inside, once terminated, is exactly one frame. */
  lemma SplitOneLine(line: string, more: string)
    requires IndexOf(line, "\n") == -1
    ensures Split("\n", line + "\n" + more).frames == [line] + Split("\n", more).frames
    ensures Split("\n", line + "\n" + more).rest == Split("\n", more).rest
  {
    var s := line + "\n" + more;
    var i := IndexOf(s, "\n");
    assert s[|line|..|line| + 1] == "\n";
    assert At(s, "\n", |line|);
    IndexOfFirst(s, "\n");
    NoNewline(line);
    assert s[i] == s[i..i + 1][0];
    assert s[i + 1..] == more;
    assert s[..i] == line;
  }

  /** There is one way to read a text as newline-free lines and a newline-free remainder. */
  lemma {:induction false} SplitUnique(lines: seq<string>, rest: string)
    requires forall i :: 0 <= i < |lines| ==> IndexOf(lines[i], "\n") == -1
    requires IndexOf(rest, "\n") == -1
    ensures Split("\n", Terminated("\n", lines) + rest) == Framed(lines, rest)
  {
    hide IndexOf, Split;
    if lines == [] {
      assert "" + rest == rest;
      NoFrames(rest);
    } else {
      var more := Terminated("\n", lines[1..]) + rest;
      SplitUnique(lines[1..], rest);
      SplitOneLine(lines[0], more);
      assert lines[0] + "\n" + Terminated("\n", lines[1..]) + rest == lines[0] + "\n" + more;
      assert [lines[0]] + lines[1..] == lines;
    }
  }

  lemma NoFrames(s: string)
    requires IndexOf(s, "\n") == -1
    ensures Split("\n", s) == Framed([], s)
  {
  }

  predicate HasPrefix(s: string, p: string)
  {
    p <= s
  }

  predicate HasSuffix(s: string, p: string)
  {
    |p| <= |s| && s[|s| - |p|..] == p
  }

  /** A text ends in a newline exactly when it is not empty and nothing follows its last newline. */
  lemma {:induction false} NewlineSuffix(s: string)
    ensures HasSuffix(s, "\n") <==> s != "" && Split("\n", s).rest == ""
    decreases |s|
  {
    hide IndexOf, Split;
    var i := IndexOf(s, "\n");
    IndexOfFirst(s, "\n");
    if i == -1 {
      NoFrames(s);
      assert s != "" ==> At(s, "\n", |s| - 1) == (s[|s| - 1..] == "\n");
    } else {
      var tail := s[i + 1..];
      SplitStep("\n", s);
      NewlineSuffix(tail);
      if tail == "" {
        NoFrames("");
        assert i == |s| - 1 && s[i..i + 1] == "\n";
      } else {
        assert tail[|tail| - 1..] == s[|s| - 1..];
      }
    }
  }

  predicate IsSpace(c: char)
  {
    c == ' ' || '\t' <= c <= '\r'
  }

  predicate AllSpace(s: string)
  {
    forall i :: 0 <= i < |s| ==> IsSpace(s[i])
  }

  /** strings.TrimSpace on ASCII text. */
  function TrimSpace(s: string): (r: string)
    ensures r == "" || (!IsSpace(r[0]) && !IsSpace(r[|r| - 1]))
  {
    if s == "" then ""
    else if IsSpace(s[0]) then TrimSpace(s[1..])
    else if IsSpace(s[|s| - 1]) then TrimSpace(s[..|s| - 1])
    else s
  }

  /** Trimming takes away exactly the white space around a text that has none at its ends. */
  lemma {:induction false} TrimSpaceExact(a: string, s: string, b: string)
    requires AllSpace(a) && AllSpace(b)
    requires s == "" || (!IsSpace(s[0]) && !IsSpace(s[|s| - 1]))
    ensures TrimSpace(a + s + b) == s
    decreases |a| + |b|
  {
    var t := a + s + b;
    if a != "" {
      assert t[1..] == a[1..] + s + b;
      TrimSpaceExact(a[1..], s, b);
    } else if b != "" {
      var n := |b| - 1;
      if s == "" {
        assert t[1..] == a + s + b[1..];
        TrimSpaceExact(a, s, b[1..]);
      } else {
        assert t[..|t| - 1] == a + s + b[..n];
        TrimSpaceExact(a, s, b[..n]);
      }
    } else {
      assert t == s;
    }
  }

  // ---- Lines that carry data --------------------------------------------------------------

  const DATA := "data: "

  /** The payload of a line that carries data. */
  function DataOf(line: string): Option<string>
  {
    var t := TrimSpace(line);
    if HasPrefix(t, DATA) then Some(t[|DATA|..]) else None
  }

  /** A payload: not empty and without white space at its end. */
  predicate IsPayload(p: string)
  {
    p != "" && !IsSpace(p[|p| - 1])
  }

  /** A line of `data: ` and a payload, with any white space around both, carries that payload. */
  lemma DataOfExact(a: string, p: string, b: string)
    requires AllSpace(a) && AllSpace(b) && IsPayload(p)
    ensures DataOf(a + (DATA + p) + b) == Some(p)
  {
    hide TrimSpace;
    TrimSpaceExact(a, DATA + p, b);
    assert (DATA + p)[|DATA|..] == p;
  }

  /** Any other text is ignored, whatever white space is around it. */
  lemma DataOfNone(a: string, s: string, b: string)
    requires AllSpace(a) && AllSpace(b)
    requires s == "" || (!IsSpace(s[0]) && !IsSpace(s[|s| - 1]))
    requires !HasPrefix(s, DATA)
    ensures DataOf(a + s + b) == None
  {
    hide TrimSpace;
    TrimSpaceExact(a, s, b);
  }

  /** A whole upstream stream: each payload on a line of its own, followed by an empty line. */
  function Sent(payloads: seq<string>): string
  {
    if payloads == [] then "" else Sent(payloads[..|payloads| - 1]) + (DATA + payloads[|payloads| - 1] + "\n\n")
  }

  function SentLines(payloads: seq<string>): (lines: seq<string>)
    ensures |lines| == 2 * |payloads|
  {
    if payloads == [] then [] else SentLines(payloads[..|payloads| - 1]) + [DATA + payloads[|payloads| - 1], ""]
  }

  /** Such a stream consists of the data lines and empty lines, and leaves nothing behind. */
  lemma {:induction false} SentSplit(payloads: seq<string>)
    requires forall i :: 0 <= i < |payloads| ==> '\n' !in payloads[i]
    ensures Split("\n", Sent(payloads)) == Framed(SentLines(payloads), "")
  {
    hide Split, IndexOf;
    NoNewline("");
    if payloads == [] {
      NoFrames("");
    } else {
      var n := |payloads| - 1;
      var init, line := payloads[..n], DATA + payloads[n];
      SentSplit(init);
      Feed("\n", Sent(init), line + "\n\n");
      assert "" + (line + "\n\n") == line + "\n" + "\n";
      NoNewline(line);
      SplitOneLine(line, "\n");
      SplitOneLine("", "");
      NoFrames("");
      assert "" + "\n" + "" == "\n";
      assert [line] + ([""] + []) == [line, ""];
    }
  }
}
