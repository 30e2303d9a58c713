/**
 * Merging the service log and the engine log by timestamp. A line without a timestamp stays with
 * the timestamped line it follows; lines before the first timestamp come out first.
 */
module LogMerge {
  import opened Prelude
  import opened Framing

  /** The time in a line's bracket prefix, if there is one that parses. */
  type Clock = string -> Option<int>

  // ---- The lines of a file ----------------------------------------------------------------

  predicate IsLineEnd(c: char)
  {
    c == '\n' || c == '\r'
  }

  /** strings.TrimRight(line, "\r\n"): exactly the line-end characters at the end go. */
  function TrimRight(line: string): (t: string)
    ensures |t| <= |line| && t == line[..|t|]
    ensures t != "" ==> !IsLineEnd(t[|t| - 1])
    ensures forall i :: |t| <= i < |line| ==> IsLineEnd(line[i])
  {
    if line != "" && IsLineEnd(line[|line| - 1]) then TrimRight(line[..|line| - 1]) else line
  }

  function NonBlank(raw: seq<string>): (lines: seq<string>)
    ensures forall i :: 0 <= i < |lines| ==> lines[i] != ""
  {
    if raw == [] then []
    else (if TrimRight(raw[0]) == "" then [] else [TrimRight(raw[0])]) + NonBlank(raw[1..])
  }

  /** The lines of a file that are not blank, in order, without their line ends. */
  function FileLines(data: string): (lines: seq<string>)
    ensures forall i :: 0 <= i < |lines| ==> lines[i] != ""
  {
    NonBlank(SplitAll(data, "\n"))
  }

  /** The lines before the first one with a timestamp. */
  function Lead(clock: Clock, lines: seq<string>): (lead: seq<string>)
    ensures |lead| <= |lines| && lead == lines[..|lead|]
    ensures forall i :: 0 <= i < |lead| ==> clock(lead[i]) == None
  {
    if lines == [] || clock(lines[0]) != None then [] else [lines[0]] + Lead(clock, lines[1..])
  }

  /** From the first line with a timestamp on. */
  function Body(clock: Clock, lines: seq<string>): (body: seq<string>)
    ensures Lead(clock, lines) + body == lines
    ensures body != [] ==> clock(body[0]) != None
  {
    if lines == [] || clock(lines[0]) != None then lines else Body(clock, lines[1..])
  }

  // ---- The merge --------------------------------------------------------------------------

  datatype Tagged = Tagged(line: string, service: bool)

  function Tag(lines: seq<string>, service: bool): (t: seq<Tagged>)
    ensures |t| == |lines|
    ensures forall i :: 0 <= i < |t| ==> t[i] == Tagged(lines[i], service)
  {
    seq(|lines|, i requires 0 <= i < |lines| => Tagged(lines[i], service))
  }

  function Untag(t: seq<Tagged>): seq<string>
  {
    if t == [] then [] else [t[0].line] + Untag(t[1..])
  }

  /** The line with the earlier time goes first with its followers; the service log wins ties. */
  function Merge(clock: Clock, s: seq<string>, e: seq<string>): seq<Tagged>
    requires s != [] ==> clock(s[0]) != None
    requires e != [] ==> clock(e[0]) != None
    decreases |s| + |e|
  {
    if s == [] then Tag(e, false)
    else if e == [] then Tag(s, true)
    else if clock(e[0]).value >= clock(s[0]).value then
      Tag([s[0]] + Lead(clock, s[1..]), true) + Merge(clock, Body(clock, s[1..]), e)
    else
      Tag([e[0]] + Lead(clock, e[1..]), false) + Merge(clock, s, Body(clock, e[1..]))
  }

  /** Service lines without a time before the first, then the engine's, then the merge. */
  function MergedLines(clock: Clock, s: seq<string>, e: seq<string>): seq<Tagged>
  {
    Tag(Lead(clock, s), true) + Tag(Lead(clock, e), false) + Merge(clock, Body(clock, s), Body(clock, e))
  }

  // ---- The readers ------------------------------------------------------------------------

  class LogReader {
    const data: string
    const clock: Clock
    var offset: nat
    var eof: bool
    var pending: string
    var pendingTS: int

    ghost predicate Valid()
      reads this
    {
      && offset <= |data|
      && (eof ==> offset == |data|)
      && (pending != "" ==> clock(pending) == Some(pendingTS))
    }

    /** The non-blank lines not read yet. */
    ghost function Unread(): (lines: seq<string>)
      requires offset <= |data|
      reads this`offset, this`eof
      ensures forall i :: 0 <= i < |lines| ==> lines[i] != ""
    {
      if eof then [] else FileLines(data[offset..])
    }

    /** The pending line and those not read yet. */
    ghost function Rest(): (rest: seq<string>)
      requires Valid()
      reads this
      ensures rest == [] <==> pending == ""
      ensures rest != [] ==> rest[0] == pending && clock(pending) == Some(pendingTS)
    {
      if pending == "" then [] else [pending] + Unread()
    }

    constructor (data: string, clock: Clock)
      ensures Valid() && this.data == data && this.clock == clock
      ensures offset == 0 && !eof && pending == ""
    {
      this.data, this.clock := data, clock;
      offset, eof, pending, pendingTS := 0, false, "", 0;
    }

    /** ReadString: up to and including the next newline, or what is left. */
    method ReadLine() returns (line: string, atEnd: bool)
      requires Valid() && !eof
      modifies this`offset
      ensures offset <= |data| && (atEnd ==> offset == |data|)
      ensures var left := old(data[offset..]);
        && (atEnd <==> IndexOf(left, "\n") == -1)
        && FileLines(left) == (if line == "" then [] else [line]) + if atEnd then [] else FileLines(data[offset..])
      ensures !atEnd ==> offset > old(offset)
    {
      hide FileLines, TrimRight, IndexOf;
      var left := data[offset..];
      var i := IndexOf(left, "\n");
      LineStep(left);
      if i == -1 {
        line, atEnd := left, true;
        assert [] + NonBlankLine(left) == NonBlankLine(left) + [];
      } else {
        line, atEnd := left[..i + 1], false;
        DropMore(data, offset, i + 1);
      }
      offset := offset + |line|;
      line := TrimRight(line);
    }

    /**
     * Reads on to the next line with a timestamp, which becomes pending, and prints the lines
     * before it.
     */
    method Advance() returns (printed: seq<string>)
      requires Valid()
      modifies this
      ensures Valid()
      ensures printed == Lead(clock, old(Unread()))
      ensures Rest() == Body(clock, old(Unread()))
      ensures pending == "" ==> offset == |data| && eof
    {
      hide FileLines, Lead, Body, Unread;
      printed := [];
      pending := "";
      ghost var all := Unread();
      NothingRead(clock, all);
      if eof {
        AtEnd();
        return;
      }
      while true
        invariant Valid() && !eof && pending == ""
        invariant Lead(clock, all) == printed + Lead(clock, Unread())
        invariant Body(clock, all) == Body(clock, Unread())
        decreases |data| - offset
      {
        var line := NextLine();
        ghost var rest := Unread();
        if line != "" {
          LeadStep(clock, line, rest);
          var ts := clock(line);
          if ts != None {
            pending, pendingTS := line, ts.value;
            PendingFirst();
            assert printed + [] == printed;
            return;
          }
          AppendTwice(printed, [line], Lead(clock, rest));
          printed := printed + [line];
        }
        if eof {
          AtEnd();
          NothingRead(clock, printed);
          return;
        }
      }
    }

    /** Reads one line and notes the end of the file. */
    method NextLine() returns (line: string)
      requires Valid() && !eof && pending == ""
      modifies this`offset, this`eof
      ensures Valid()
      ensures old(Unread()) == if line == "" then Unread() else [line] + Unread()
      ensures !eof ==> offset > old(offset)
    {
      hide FileLines;
      var atEnd;
      line, atEnd := ReadLine();
      if atEnd {
        eof := true;
      }
      assert [] + Unread() == Unread();
    }

    lemma AtEnd()
      requires Valid() && eof
      ensures Unread() == [] && offset == |data|
      ensures pending == "" ==> Rest() == []
    {
    }

    lemma PendingFirst()
      requires Valid() && pending != ""
      ensures Rest() == [pending] + Unread() && Rest()[1..] == Unread()
    {
    }
  }

  lemma NothingRead(clock: Clock, lines: seq<string>)
    ensures Lead(clock, []) == [] && Body(clock, []) == []
    ensures [] + Lead(clock, lines) == Lead(clock, lines) && lines + [] == [] + lines == lines
  {
  }

  lemma AppendTwice<T>(a: seq<T>, b: seq<T>, c: seq<T>)
    ensures a + (b + c) == (a + b) + c
  {
  }

  lemma DropMore(data: string, from: nat, n: nat)
    requires from + n <= |data|
    ensures data[from..][n..] == data[from + n..]
  {
  }

  function NonBlankLine(raw: string): seq<string>
  {
    if TrimRight(raw) == "" then [] else [TrimRight(raw)]
  }

  lemma NonBlankStep(first: string, raw: seq<string>)
    ensures NonBlank([first] + raw) == NonBlankLine(first) + NonBlank(raw)
  {
    assert ([first] + raw)[1..] == raw;
  }

  lemma TrimNewline(line: string)
    ensures TrimRight(line + "\n") == TrimRight(line)
  {
    assert (line + "\n")[..|line|] == line;
  }

  lemma SplitAllStep(left: string)
    ensures var i := IndexOf(left, "\n");
      if i == -1 then SplitAll(left, "\n") == [left]
      else SplitAll(left, "\n") == [left[..i]] + SplitAll(left[i + 1..], "\n") && left[..i + 1] == left[..i] + "\n"
  {
    hide IndexOf;
    var i := IndexOf(left, "\n");
    if i == -1 {
      NoFrames(left);
    } else {
      SplitStep("\n", left);
      IndexOfFirst(left, "\n");
      assert left[..i + 1] == left[..i] + left[i..i + 1];
    }
  }

  lemma LineStep(left: string)
    ensures var i := IndexOf(left, "\n");
      FileLines(left) ==
        if i == -1 then NonBlankLine(left) else NonBlankLine(left[..i + 1]) + FileLines(left[i + 1..])
  {
    hide IndexOf, TrimRight, SplitAll, NonBlank;
    var i := IndexOf(left, "\n");
    SplitAllStep(left);
    if i == -1 {
      NonBlankStep(left, []);
      NonBlankNone();
      assert [left] + [] == [left];
    } else {
      NonBlankStep(left[..i], SplitAll(left[i + 1..], "\n"));
      TrimNewline(left[..i]);
    }
  }

  lemma NonBlankNone()
    ensures NonBlank([]) == []
  {
  }

  /** Reading one line without a time moves it to the printed ones. */
  lemma LeadStep(clock: Clock, line: string, rest: seq<string>)
    ensures clock(line) == None ==>
      Lead(clock, [line] + rest) == [line] + Lead(clock, rest) && Body(clock, [line] + rest) == Body(clock, rest)
    ensures clock(line) != None ==>
      Lead(clock, [line] + rest) == [] && Body(clock, [line] + rest) == [line] + rest
    ensures Lead(clock, []) == [] && Body(clock, []) == []
  {
    assert ([line] + rest)[1..] == rest;
  }

  // ---- Which lines a file has -------------------------------------------------------------

  /** A line as the merge prints it: not empty, no newline in it, no carriage return at its end. */
  predicate IsLine(s: string)
  {
    s != "" && '\n' !in s && s[|s| - 1] != '\r'
  }

  predicate Returns(s: string)
  {
    forall i :: 0 <= i < |s| ==> s[i] == '\r'
  }

  /** A file given by its lines, each with its end: carriage returns and a newline. */
  function FileText(lines: seq<string>, ends: seq<string>): string
    requires |lines| == |ends|
  {
    if lines == [] then "" else lines[0] + ends[0] + "\n" + FileText(lines[1..], ends[1..])
  }

  /** The lines that are not empty. */
  function NotEmpty(lines: seq<string>): seq<string>
  {
    if lines == [] then [] else (if lines[0] == "" then [] else [lines[0]]) + NotEmpty(lines[1..])
  }

  /** Trimming a line with its end gives the line. */
  lemma TrimRightExact(line: string, end: string)
    requires line == "" || IsLine(line)
    requires forall i :: 0 <= i < |end| ==> IsLineEnd(end[i])
    ensures TrimRight(line + end) == line
  {
    var t := TrimRight(line + end);
    assert forall i :: |line| <= i < |line + end| ==> IsLineEnd((line + end)[i]);
    assert |line| > 0 ==> (line + end)[|line| - 1] == line[|line| - 1];
    assert |t| == |line|;
  }

  /**
   * The lines of a file are its non-empty lines in order, without their ends: each with any number of
   * carriage returns before its newline, the last one perhaps without a newline.
   */
  lemma {:induction false} FileLinesExact(lines: seq<string>, ends: seq<string>, last: string, end: string)
    requires |lines| == |ends| && Returns(end) && (last == "" || IsLine(last))
    requires forall i :: 0 <= i < |lines| ==> (lines[i] == "" || IsLine(lines[i])) && Returns(ends[i])
    ensures FileLines(FileText(lines, ends) + (last + end))
      == NotEmpty(lines) + if last == "" then [] else [last]
    decreases |lines|
  {
    hide TrimRight, FileLines, IndexOf;
    if lines == [] {
      assert "" + (last + end) == last + end;
      LineEndsHere(last, end);
      assert [] + [last] == [last];
    } else {
      var rest := FileText(lines[1..], ends[1..]) + (last + end);
      var all := FileText(lines, ends) + (last + end);
      assert all == lines[0] + ends[0] + "\n" + rest;
      FirstLineOf(lines[0], ends[0], rest);
      FileLinesExact(lines[1..], ends[1..], last, end);
    }
  }

  lemma LineEndsHere(last: string, end: string)
    requires Returns(end) && (last == "" || IsLine(last))
    ensures FileLines(last + end) == if last == "" then [] else [last]
  {
    hide FileLines, IndexOf;
    NoNewline(last + end);
    LineStep(last + end);
    TrimRightExact(last, end);
  }

  lemma FirstLineOf(line: string, end: string, rest: string)
    requires Returns(end) && (line == "" || IsLine(line))
    ensures FileLines(line + end + "\n" + rest) == (if line == "" then [] else [line]) + FileLines(rest)
  {
    hide FileLines, IndexOf, TrimRight;
    var s := line + end + "\n" + rest;
    var n := |line + end|;
    NoNewline(line + end);
    assert s[..n] == line + end && s[n..n + 1] == "\n";
    assert At(s, "\n", n);
    IndexOfFirst(s, "\n");
    NewlineFirst(line + end, rest);
    LineStep(s);
    assert s[..n + 1] == line + (end + "\n") && s[n + 1..] == rest;
    TrimRightExact(line, end + "\n");
  }

  lemma NewlineFirst(head: string, rest: string)
    requires '\n' !in head
    ensures IndexOf(head + "\n" + rest, "\n") == |head|
  {
    hide IndexOf;
    var s := head + "\n" + rest;
    assert s[|head|..|head| + 1] == "\n";
    assert At(s, "\n", |head|);
    IndexOfFirst(s, "\n");
    var i := IndexOf(s, "\n");
    assert s[i] == s[i..i + 1][0];
    assert forall k :: 0 <= k < |head| ==> s[k] == head[k];
  }

  datatype Result = Missing | Merged(lines: seq<string>, serviceOffset: nat, engineOffset: nat)

  /**
   * The contents of the two log files, None for one that cannot be opened: a missing service log
   * is an error, a missing engine log counts as empty. The offsets are the full lengths read.
   */
  method MergeLogs(clock: Clock, service: Option<string>, engine: Option<string>) returns (r: Result)
    ensures r.Missing? <==> service == None
    ensures r.Merged? ==>
      var e := match engine case None => "" case Some(d) => d;
      && r.lines == Untag(MergedLines(clock, FileLines(service.value), FileLines(e)))
      && r.serviceOffset == |service.value|
      && r.engineOffset == |e|
  {
    if service == None {
      return Missing;
    }
    var sr := new LogReader(service.value, clock);
    var out := sr.Advance();
    if engine == None {
      var rest := Drain(sr);
      NoEngine(clock, FileLines(service.value));
      return Merged(out + rest, sr.offset, 0);
    }
    var er := new LogReader(engine.value, clock);
    var lead := er.Advance();
    out := out + lead;
    ghost var s, e := sr.Rest(), er.Rest();
    UntagAppend(Tag(Lead(clock, FileLines(service.value)), true), Tag(Lead(clock, FileLines(engine.value)), false));
    UntagAppend(Tag(Lead(clock, FileLines(service.value)), true) + Tag(Lead(clock, FileLines(engine.value)), false), Merge(clock, s, e));
    UntagTag(Lead(clock, FileLines(service.value)), true);
    UntagTag(Lead(clock, FileLines(engine.value)), false);
    var merged := MergeReaders(sr, er);
    return Merged(out + merged, sr.offset, er.offset);
  }

  /** The merge loop, then the two drains. */
  method MergeReaders(sr: LogReader, er: LogReader) returns (out: seq<string>)
    requires sr != er && sr.Valid() && er.Valid() && sr.clock == er.clock
    requires sr.pending == "" ==> sr.offset == |sr.data|
    requires er.pending == "" ==> er.offset == |er.data|
    modifies sr, er
    ensures sr.offset == |sr.data| && er.offset == |er.data|
    ensures out == Untag(Merge(sr.clock, old(sr.Rest()), old(er.Rest())))
  {
    hide FileLines, Merge, Untag, Lead, Body;
    hide LogReader.Unread, LogReader.Rest;
    out := [];
    ghost var goal := Untag(Merge(sr.clock, sr.Rest(), er.Rest()));
    while sr.pending != "" && er.pending != ""
      invariant sr.Valid() && er.Valid()
      invariant sr.pending == "" ==> sr.offset == |sr.data|
      invariant er.pending == "" ==> er.offset == |er.data|
      invariant goal == out + Untag(Merge(sr.clock, sr.Rest(), er.Rest()))
      decreases |sr.Rest()| + |er.Rest()|
    {
      ghost var before, s, e := out, sr.Rest(), er.Rest();
      MergeStep(sr.clock, s, e);
      if !(er.pendingTS < sr.pendingTS) {
        out := PrintAndAdvance(sr, out);
        AppendTwice(before, [s[0]] + Lead(sr.clock, s[1..]), Untag(Merge(sr.clock, sr.Rest(), e)));
      } else {
        out := PrintAndAdvance(er, out);
        AppendTwice(before, [e[0]] + Lead(er.clock, e[1..]), Untag(Merge(sr.clock, s, er.Rest())));
      }
    }
    MergeDrained(sr.clock, sr.Rest(), er.Rest());
    AppendTwice(out, sr.Rest(), er.Rest());
    var more := Drain(sr);
    out := out + more;
    more := Drain(er);
    out := out + more;
  }

  /** Prints the pending line and advances that reader. */
  method PrintAndAdvance(r: LogReader, printed: seq<string>) returns (out: seq<string>)
    requires r.Valid() && r.pending != ""
    modifies r
    ensures r.Valid() && (r.pending == "" ==> r.offset == |r.data|)
    ensures var rest := old(r.Rest());
      && rest != []
      && out == printed + ([rest[0]] + Lead(r.clock, rest[1..]))
      && r.Rest() == Body(r.clock, rest[1..])
      && |r.Rest()| < |rest|
      && rest == [rest[0]] + Lead(r.clock, rest[1..]) + r.Rest()
  {
    hide FileLines, Lead, Body;
    hide LogReader.Unread, LogReader.Rest;
    ghost var rest := r.Rest();
    r.PendingFirst();
    OneBlock(r.clock, rest);
    out := printed + [r.pending];
    var more := r.Advance();
    AppendTwice(printed, [rest[0]], more);
    out := out + more;
  }

  lemma BodyStarts(clock: Clock, lines: seq<string>)
    ensures Body(clock, lines) != [] ==> clock(Body(clock, lines)[0]) != None
  {
  }

  lemma LeadBody(clock: Clock, lines: seq<string>)
    ensures Lead(clock, lines) + Body(clock, lines) == lines
  {
  }

  /** Prints the pending line and everything after it. */
  method Drain(r: LogReader) returns (out: seq<string>)
    requires r.Valid()
    requires r.pending == "" ==> r.offset == |r.data|
    modifies r
    ensures r.Valid() && r.offset == |r.data|
    ensures out == old(r.Rest())
  {
    hide FileLines, Lead, Body;
    hide LogReader.Unread, LogReader.Rest;
    out := [];
    ghost var all := r.Rest();
    while r.pending != ""
      invariant r.Valid()
      invariant r.pending == "" ==> r.offset == |r.data|
      invariant all == out + r.Rest()
      decreases |r.Rest()|
    {
      ghost var before, rest := out, r.Rest();
      out := PrintAndAdvance(r, out);
      AppendTwice(before, [rest[0]] + Lead(r.clock, rest[1..]), r.Rest());
    }
  }

  lemma MergeDrained(clock: Clock, s: seq<string>, e: seq<string>)
    requires s == [] || e == []
    requires s != [] ==> clock(s[0]) != None
    requires e != [] ==> clock(e[0]) != None
    ensures Untag(Merge(clock, s, e)) == s + e
  {
    UntagTag(s, true);
    UntagTag(e, false);
  }

  // ---- Facts about tags -------------------------------------------------------------------

  lemma {:induction false} UntagAppend(a: seq<Tagged>, b: seq<Tagged>)
    ensures Untag(a + b) == Untag(a) + Untag(b)
  {
    if a == [] {
      assert a + b == b;
    } else {
      assert (a + b)[1..] == a[1..] + b;
      UntagAppend(a[1..], b);
    }
  }

  lemma {:induction false} UntagTag(lines: seq<string>, service: bool)
    ensures Untag(Tag(lines, service)) == lines
  {
    if lines != [] {
      assert Tag(lines, service)[1..] == Tag(lines[1..], service);
      UntagTag(lines[1..], service);
    }
  }

  lemma MergeStep(clock: Clock, s: seq<string>, e: seq<string>)
    requires s != [] && clock(s[0]) != None
    requires e != [] && clock(e[0]) != None
    ensures Untag(Merge(clock, s, e)) ==
      if clock(e[0]).value >= clock(s[0]).value
      then [s[0]] + Lead(clock, s[1..]) + Untag(Merge(clock, Body(clock, s[1..]), e))
      else [e[0]] + Lead(clock, e[1..]) + Untag(Merge(clock, s, Body(clock, e[1..])))
  {
    if clock(e[0]).value >= clock(s[0]).value {
      UntagAppend(Tag([s[0]] + Lead(clock, s[1..]), true), Merge(clock, Body(clock, s[1..]), e));
      UntagTag([s[0]] + Lead(clock, s[1..]), true);
    } else {
      UntagAppend(Tag([e[0]] + Lead(clock, e[1..]), false), Merge(clock, s, Body(clock, e[1..])));
      UntagTag([e[0]] + Lead(clock, e[1..]), false);
    }
  }

  lemma NoLines()
    ensures FileLines("") == []
  {
    assert SplitAll("", "\n") == [""];
    assert [""][1..] == [];
  }

  lemma NoEngine(clock: Clock, s: seq<string>)
    ensures FileLines("") == []
    ensures Untag(MergedLines(clock, s, [])) == s
  {
    NoLines();
    hide FileLines, Lead, Body, Untag, Tag;
    var lead, body := Tag(Lead(clock, s), true), Tag(Body(clock, s), true);
    assert Merge(clock, Body(clock, s), []) == body;
    assert MergedLines(clock, s, []) == lead + body;
    UntagAppend(lead, body);
    UntagTag(Lead(clock, s), true);
    UntagTag(Body(clock, s), true);
  }

  // ---- What the merge guarantees ----------------------------------------------------------

  function From(t: seq<Tagged>, service: bool): seq<string>
  {
    if t == [] then [] else (if t[0].service == service then [t[0].line] else []) + From(t[1..], service)
  }

  lemma {:induction false} FromAppend(a: seq<Tagged>, b: seq<Tagged>, service: bool)
    ensures From(a + b, service) == From(a, service) + From(b, service)
  {
    if a == [] {
      assert a + b == b;
    } else {
      assert (a + b)[1..] == a[1..] + b;
      FromAppend(a[1..], b, service);
    }
  }

  lemma {:induction false} FromTag(lines: seq<string>, tag: bool, service: bool)
    ensures From(Tag(lines, tag), service) == if tag == service then lines else []
  {
    if lines != [] {
      assert Tag(lines, tag)[1..] == Tag(lines[1..], tag);
      FromTag(lines[1..], tag, service);
    }
  }

  lemma OneBlock(clock: Clock, lines: seq<string>)
    requires lines != []
    ensures lines == [lines[0]] + Lead(clock, lines[1..]) + Body(clock, lines[1..])
    ensures |Body(clock, lines[1..])| < |lines|
    ensures Body(clock, lines[1..]) != [] ==> clock(Body(clock, lines[1..])[0]) != None
  {
    hide Lead, Body;
    LeadBody(clock, lines[1..]);
    BodyStarts(clock, lines[1..]);
    assert lines == [lines[0]] + (Lead(clock, lines[1..]) + Body(clock, lines[1..]));
  }

  lemma {:induction false} MergeKeepsFiles(clock: Clock, s: seq<string>, e: seq<string>)
    requires s != [] ==> clock(s[0]) != None
    requires e != [] ==> clock(e[0]) != None
    ensures From(Merge(clock, s, e), true) == s && From(Merge(clock, s, e), false) == e
    decreases |s| + |e|
  {
    hide From, Lead, Body;
    if s == [] {
      FromTag(e, false, true);
      FromTag(e, false, false);
    } else if e == [] {
      FromTag(s, true, true);
      FromTag(s, true, false);
    } else if clock(e[0]).value >= clock(s[0]).value {
      OneBlock(clock, s);
      KeepBlock([s[0]] + Lead(clock, s[1..]), true, Merge(clock, Body(clock, s[1..]), e));
      MergeKeepsFiles(clock, Body(clock, s[1..]), e);
    } else {
      OneBlock(clock, e);
      KeepBlock([e[0]] + Lead(clock, e[1..]), false, Merge(clock, s, Body(clock, e[1..])));
      MergeKeepsFiles(clock, s, Body(clock, e[1..]));
    }
  }

  lemma KeepBlock(block: seq<string>, tag: bool, rest: seq<Tagged>)
    ensures From(Tag(block, tag) + rest, tag) == block + From(rest, tag)
    ensures From(Tag(block, tag) + rest, !tag) == From(rest, !tag)
  {
    FromAppend(Tag(block, tag), rest, tag);
    FromAppend(Tag(block, tag), rest, !tag);
    FromTag(block, tag, tag);
    FromTag(block, tag, !tag);
  }

  /** Every non-blank line of either file comes out exactly once, in file order. */
  lemma EveryLineOnce(clock: Clock, s: seq<string>, e: seq<string>)
    ensures From(MergedLines(clock, s, e), true) == s
    ensures From(MergedLines(clock, s, e), false) == e
  {
    hide From, Merge, Lead, Body;
    var body := Merge(clock, Body(clock, s), Body(clock, e));
    LeadBody(clock, s);
    LeadBody(clock, e);
    BodyStarts(clock, s);
    BodyStarts(clock, e);
    var se := Tag(Lead(clock, e), false) + body;
    MergeKeepsFiles(clock, Body(clock, s), Body(clock, e));
    KeepBlock(Lead(clock, e), false, body);
    KeepBlock(Lead(clock, s), true, se);
    assert MergedLines(clock, s, e) == Tag(Lead(clock, s), true) + se;
  }

  lemma {:induction false} UntagIsLines(t: seq<Tagged>)
    ensures multiset(Untag(t)) == multiset(From(t, true)) + multiset(From(t, false))
  {
    if t != [] {
      UntagIsLines(t[1..]);
    }
  }

  /** A file without blank lines, each ended by a newline. */
  function PlainText(lines: seq<string>): string
  {
    if lines == [] then "" else lines[0] + "\n" + PlainText(lines[1..])
  }

  lemma {:induction false} PlainTextLines(lines: seq<string>)
    requires forall i :: 0 <= i < |lines| ==> IsLine(lines[i])
    ensures FileLines(PlainText(lines)) == lines
  {
    hide FileLines;
    if lines == [] {
      LineEndsHere("", "");
      assert "" + "" == "";
    } else {
      PlainTextLines(lines[1..]);
      FirstLineOf(lines[0], "", PlainText(lines[1..]));
      assert lines[0] + "" + "\n" + PlainText(lines[1..]) == lines[0] + "\n" + PlainText(lines[1..]);
      assert [lines[0]] + lines[1..] == lines;
    }
  }

  /**
   * For two files given as texts: what is printed consists of the lines of both, each once, and the
   * lines of either file come in their order.
   */
  lemma EveryTextLineOnce(clock: Clock, ss: seq<string>, es: seq<string>)
    requires forall i :: 0 <= i < |ss| ==> IsLine(ss[i])
    requires forall i :: 0 <= i < |es| ==> IsLine(es[i])
    ensures var merged := MergedLines(clock, FileLines(PlainText(ss)), FileLines(PlainText(es)));
      && From(merged, true) == ss && From(merged, false) == es
      && multiset(Untag(merged)) == multiset(ss) + multiset(es)
  {
    hide FileLines, MergedLines, From, Untag;
    PlainTextLines(ss);
    PlainTextLines(es);
    EveryLineOnce(clock, ss, es);
    UntagIsLines(MergedLines(clock, ss, es));
  }

  /** Lines before the first time come first: the service log's, then the engine log's. */
  lemma LeadsComeFirst(clock: Clock, sLead: seq<string>, s: seq<string>, eLead: seq<string>, e: seq<string>)
    requires forall i :: 0 <= i < |sLead| ==> clock(sLead[i]) == None
    requires forall i :: 0 <= i < |eLead| ==> clock(eLead[i]) == None
    requires (s != [] ==> clock(s[0]) != None) && (e != [] ==> clock(e[0]) != None)
    ensures var n, m := |sLead|, |eLead|;
      var merged := MergedLines(clock, sLead + s, eLead + e);
      && |merged| >= n + m
      && merged[..n] == Tag(sLead, true) && merged[n..n + m] == Tag(eLead, false)
      && From(merged[n + m..], true) == s && From(merged[n + m..], false) == e
  {
    hide From, Merge, Lead, Body, Tag;
    LeadIs(clock, sLead, s);
    LeadIs(clock, eLead, e);
    var rest := Merge(clock, s, e);
    MergeKeepsFiles(clock, s, e);
    var merged := MergedLines(clock, sLead + s, eLead + e);
    assert merged == Tag(sLead, true) + Tag(eLead, false) + rest;
  }

  lemma {:induction false} LeadIs(clock: Clock, lead: seq<string>, body: seq<string>)
    requires forall i :: 0 <= i < |lead| ==> clock(lead[i]) == None
    requires body != [] ==> clock(body[0]) != None
    ensures Lead(clock, lead + body) == lead && Body(clock, lead + body) == body
  {
    if lead == [] {
      assert lead + body == body;
    } else {
      assert (lead + body)[1..] == lead[1..] + body;
      LeadIs(clock, lead[1..], body);
    }
  }

  /**
   * The times never go back from lo on, and at equal times no engine line precedes a service line.
   * The key 2t, or 2t + 1 for the engine log, orders by time and then service first.
   */
  function Key(t: int, service: bool): int
  {
    2 * t + if service then 0 else 1
  }

  ghost predicate InOrder(clock: Clock, lo: int, t: seq<Tagged>)
    decreases |t|
  {
    t == [] ||
    match clock(t[0].line)
    case None => InOrder(clock, lo, t[1..])
    case Some(ts) => lo <= Key(ts, t[0].service) && InOrder(clock, Key(ts, t[0].service), t[1..])
  }

  /** A file whose times do not go back. */
  ghost predicate Sorted(clock: Clock, lo: int, lines: seq<string>)
    decreases |lines|
  {
    lines == [] ||
    match clock(lines[0])
    case None => Sorted(clock, lo, lines[1..])
    case Some(ts) => lo <= ts && Sorted(clock, ts, lines[1..])
  }

  lemma {:induction false} SortedBody(clock: Clock, lo: int, lines: seq<string>)
    requires Sorted(clock, lo, lines)
    ensures Sorted(clock, lo, Body(clock, lines))
    decreases |lines|
  {
    if lines != [] && clock(lines[0]) == None {
      SortedBody(clock, lo, lines[1..]);
    }
  }

  lemma {:induction false} InOrderSkip(clock: Clock, lo: int, lead: seq<string>, service: bool, rest: seq<Tagged>)
    requires forall i :: 0 <= i < |lead| ==> clock(lead[i]) == None
    requires InOrder(clock, lo, rest)
    ensures InOrder(clock, lo, Tag(lead, service) + rest)
    decreases |lead|
  {
    if lead == [] {
      assert Tag(lead, service) + rest == rest;
    } else {
      InOrderSkip(clock, lo, lead[1..], service, rest);
      assert (Tag(lead, service) + rest)[1..] == Tag(lead[1..], service) + rest;
    }
  }

  lemma {:induction false} InOrderOne(clock: Clock, lo: int, lines: seq<string>, service: bool, key: int)
    requires Sorted(clock, lo, lines) && key <= Key(lo, service)
    ensures InOrder(clock, key, Tag(lines, service))
    decreases |lines|
  {
    if lines != [] {
      assert Tag(lines, service)[1..] == Tag(lines[1..], service);
      match clock(lines[0])
      case None => InOrderOne(clock, lo, lines[1..], service, key);
      case Some(ts) => InOrderOne(clock, ts, lines[1..], service, Key(ts, service));
    }
  }

  lemma InOrderBlock(clock: Clock, head: string, lead: seq<string>, service: bool, rest: seq<Tagged>, key: int)
    requires clock(head) != None && key <= Key(clock(head).value, service)
    requires forall i :: 0 <= i < |lead| ==> clock(lead[i]) == None
    requires InOrder(clock, Key(clock(head).value, service), rest)
    ensures InOrder(clock, key, Tag([head] + lead, service) + rest)
  {
    InOrderSkip(clock, Key(clock(head).value, service), lead, service, rest);
    var all := Tag([head] + lead, service) + rest;
    assert all[1..] == Tag(lead, service) + rest;
    assert all[0] == Tagged(head, service);
  }

  lemma {:induction false} MergeInOrder(clock: Clock, s: seq<string>, e: seq<string>, a: int, b: int, key: int)
    requires s != [] ==> clock(s[0]) != None
    requires e != [] ==> clock(e[0]) != None
    requires Sorted(clock, a, s) && Sorted(clock, b, e)
    requires key <= Key(a, true) && key <= Key(b, false)
    ensures InOrder(clock, key, Merge(clock, s, e))
    decreases |s| + |e|
  {
    hide InOrder;
    if s == [] {
      InOrderOne(clock, b, e, false, key);
    } else if e == [] {
      InOrderOne(clock, a, s, true, key);
    } else {
      var ts, te := clock(s[0]).value, clock(e[0]).value;
      if te >= ts {
        SortedBody(clock, ts, s[1..]);
        MergeInOrder(clock, Body(clock, s[1..]), e, ts, te, Key(ts, true));
        InOrderBlock(clock, s[0], Lead(clock, s[1..]), true, Merge(clock, Body(clock, s[1..]), e), key);
      } else {
        SortedBody(clock, te, e[1..]);
        MergeInOrder(clock, s, Body(clock, e[1..]), ts, te, Key(te, false));
        InOrderBlock(clock, e[0], Lead(clock, e[1..]), false, Merge(clock, s, Body(clock, e[1..])), key);
      }
    }
  }

  /** Files whose times do not go back merge into lines whose times do not go back, service first on ties. */
  lemma SortedOutput(clock: Clock, s: seq<string>, e: seq<string>, lo: int)
    requires Sorted(clock, lo, s) && Sorted(clock, lo, e)
    ensures InOrder(clock, Key(lo, true), MergedLines(clock, s, e))
  {
    hide Merge, InOrder, Sorted, Lead, Body, Tag;
    SortedBody(clock, lo, s);
    SortedBody(clock, lo, e);
    BodyStarts(clock, s);
    BodyStarts(clock, e);
    var body := Merge(clock, Body(clock, s), Body(clock, e));
    MergeInOrder(clock, Body(clock, s), Body(clock, e), lo, lo, Key(lo, true));
    InOrderSkip(clock, Key(lo, true), Lead(clock, e), false, body);
    InOrderSkip(clock, Key(lo, true), Lead(clock, s), true, Tag(Lead(clock, e), false) + body);
    AppendTwice(Tag(Lead(clock, s), true), Tag(Lead(clock, e), false), body);
  }

  /** A line without a time comes right after a line of its own file. */
  ghost predicate Follows(clock: Clock, t: seq<Tagged>)
  {
    forall i, j :: 0 <= i && j == i + 1 && j < |t| && clock(t[j].line) == None ==> t[i].service == t[j].service
  }

  lemma FollowsAppend(clock: Clock, block: seq<string>, tag: bool, rest: seq<Tagged>)
    requires block != [] && Follows(clock, rest)
    requires rest != [] ==> clock(rest[0].line) != None
    ensures Follows(clock, Tag(block, tag) + rest)
  {
    var t := Tag(block, tag) + rest;
    assert rest != [] ==> t[|block|] == rest[0];
    forall i, j | 0 <= i && j == i + 1 && j < |t| && clock(t[j].line) == None ensures t[i].service == t[j].service {
      if i >= |block| {
        assert t[i] == rest[i - |block|] && t[j] == rest[j - |block|];
      }
    }
  }

  /** In the merged part, blocks stay together. */
  lemma {:induction false} BlocksStayTogether(clock: Clock, s: seq<string>, e: seq<string>)
    requires s != [] ==> clock(s[0]) != None
    requires e != [] ==> clock(e[0]) != None
    ensures Follows(clock, Merge(clock, s, e))
    ensures Merge(clock, s, e) != [] ==> clock(Merge(clock, s, e)[0].line) != None
    decreases |s| + |e|
  {
    if s != [] && e != [] {
      if clock(e[0]).value >= clock(s[0]).value {
        var rest := Merge(clock, Body(clock, s[1..]), e);
        BlocksStayTogether(clock, Body(clock, s[1..]), e);
        FollowsAppend(clock, [s[0]] + Lead(clock, s[1..]), true, rest);
      } else {
        var rest := Merge(clock, s, Body(clock, e[1..]));
        BlocksStayTogether(clock, s, Body(clock, e[1..]));
        FollowsAppend(clock, [e[0]] + Lead(clock, e[1..]), false, rest);
      }
    }
  }
}
