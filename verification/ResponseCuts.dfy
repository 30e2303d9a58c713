/**
 * How the streaming writer depends on the way the upstream bytes are cut into Write calls:
 * not at all while every envelope decodes, and exactly through the lines that one Write skips
 * after a line that does not decode.
 */
module ResponseCuts {
  import opened Prelude
  import opened Framing
  import opened ResponseTypes
  import opened ResponseStream

  // ---- Frame facts: which fields a line cannot touch --------------------------------------

  ghost predicate SameChannel(s: State, t: State)
  {
    && t.buffer == s.buffer
    && t.headersSent == s.headersSent
    && s.log <= t.log
  }

  lemma {:induction false} ToolStepsChannel(s: State, fs: seq<ToolFragment>)
    ensures SameChannel(s, ToolSteps(s, fs))
    decreases |fs|
  {
    if fs != [] {
      ToolStepsChannel(ToolStep(s, fs[0]), fs[1..]);
    }
  }

  lemma {:induction false} CloseCallsChannel(s: State, calls: seq<Item>)
    ensures SameChannel(s, CloseCalls(s, calls))
    ensures CloseCalls(s, calls).calls == s.calls
    decreases |calls|
  {
    if calls != [] {
      CloseCallsChannel(s, calls[..|calls| - 1]);
    }
  }

  lemma LineChannel(decode: Decoder, persist: bool, s: State, line: string)
    ensures SameChannel(s, ApplyLine(decode, persist, s, line))
  {
    hide ProcessChunk, Finalize, ApplyEnvelope, TrimSpace;
    FinalizeChannel(persist, s);
    match DataOf(line)
    case None =>
    case Some(data) =>
      ChunkChannel(decode, persist, s, data);
      match decode(data).envelope
      case None =>
      case Some(e) => ChunkChannel(decode, persist, s.(response := ApplyEnvelope(s.response, e)), data);
  }

  lemma FinalizeChannel(persist: bool, s: State)
    ensures SameChannel(s, Finalize(persist, s))
  {
    CloseCallsChannel(CloseMessage(s), s.calls);
  }

  lemma ChunkChannel(decode: Decoder, persist: bool, s: State, data: string)
    ensures SameChannel(s, ProcessChunk(decode, persist, s, data))
  {
    hide ToolSteps;
    match decode(data).choices
    case None =>
    case Some(choices) =>
      if choices != [] {
        ToolStepsChannel(s, choices[0].toolCalls);
      }
  }

  lemma {:induction false} ToolStepsBuffer(s: State, fs: seq<ToolFragment>, b: string)
    ensures ToolSteps(s.(buffer := b), fs) == ToolSteps(s, fs).(buffer := b)
    decreases |fs|
  {
    if fs != [] {
      assert ToolStep(s.(buffer := b), fs[0]) == ToolStep(s, fs[0]).(buffer := b);
      ToolStepsBuffer(ToolStep(s, fs[0]), fs[1..], b);
    }
  }

  lemma {:induction false} CloseCallsBuffer(s: State, calls: seq<Item>, b: string)
    ensures CloseCalls(s.(buffer := b), calls) == CloseCalls(s, calls).(buffer := b)
    decreases |calls|
  {
    if calls != [] {
      CloseCallsBuffer(s, calls[..|calls| - 1], b);
    }
  }

  lemma FinalizeBuffer(persist: bool, s: State, b: string)
    ensures Finalize(persist, s.(buffer := b)) == Finalize(persist, s).(buffer := b)
  {
    assert CloseMessage(s.(buffer := b)) == CloseMessage(s).(buffer := b);
    CloseCallsBuffer(CloseMessage(s), s.calls, b);
  }

  lemma ChunkBuffer(decode: Decoder, persist: bool, s: State, data: string, b: string)
    ensures ProcessChunk(decode, persist, s.(buffer := b), data) == ProcessChunk(decode, persist, s, data).(buffer := b)
  {
    match decode(data).choices
    case None =>
    case Some(choices) =>
      if choices != [] {
        ToolStepsBuffer(s, choices[0].toolCalls, b);
      }
  }

  /** A line does not look at the buffer. */
  lemma LineBuffer(decode: Decoder, persist: bool, s: State, line: string, b: string)
    ensures ApplyLine(decode, persist, s.(buffer := b), line) == ApplyLine(decode, persist, s, line).(buffer := b)
  {
    hide Finalize, ProcessChunk;
    FinalizeBuffer(persist, s, b);
    match DataOf(line)
    case None =>
    case Some(data) =>
      if !Breaks(decode, line) && data != DONE {
        var s1 := if HasEnvelope(data)
                  then s.(response := ApplyEnvelope(s.response, decode(data).envelope.value))
                  else s;
        ChunkBuffer(decode, persist, s1, data, b);
      }
  }

  // ---- Lines without skipping -------------------------------------------------------------

  /** Every line applied, none skipped. */
  function All(decode: Decoder, persist: bool, s: State, lines: seq<string>): State
    decreases |lines|
  {
    if lines == [] then s else All(decode, persist, ApplyLine(decode, persist, s, lines[0]), lines[1..])
  }

  /** The lines that one Write does apply. */
  function Kept(decode: Decoder, lines: seq<string>): seq<string>
  {
    if lines == [] then []
    else if Breaks(decode, lines[0]) then [lines[0]]
    else [lines[0]] + Kept(decode, lines[1..])
  }

  lemma {:induction false} AllAppend(decode: Decoder, persist: bool, s: State, a: seq<string>, b: seq<string>)
    ensures All(decode, persist, s, a + b) == All(decode, persist, All(decode, persist, s, a), b)
    decreases |a|
  {
    if a == [] {
      assert a + b == b;
    } else {
      assert (a + b)[1..] == a[1..] + b;
      AllAppend(decode, persist, ApplyLine(decode, persist, s, a[0]), a[1..], b);
    }
  }

  lemma {:induction false} AllChannel(decode: Decoder, persist: bool, s: State, lines: seq<string>)
    ensures SameChannel(s, All(decode, persist, s, lines))
    decreases |lines|
  {
    if lines != [] {
      LineChannel(decode, persist, s, lines[0]);
      AllChannel(decode, persist, ApplyLine(decode, persist, s, lines[0]), lines[1..]);
    }
  }

  lemma {:induction false} AllBuffer(decode: Decoder, persist: bool, s: State, lines: seq<string>, b: string)
    ensures All(decode, persist, s.(buffer := b), lines) == All(decode, persist, s, lines).(buffer := b)
    decreases |lines|
  {
    if lines != [] {
      LineBuffer(decode, persist, s, lines[0], b);
      AllBuffer(decode, persist, ApplyLine(decode, persist, s, lines[0]), lines[1..], b);
    }
  }

  lemma {:induction false} ProcessIsAllKept(decode: Decoder, persist: bool, s: State, lines: seq<string>)
    ensures ProcessLines(decode, persist, s, lines) == All(decode, persist, s, Kept(decode, lines))
    decreases |lines|
  {
    if lines != [] {
      var s1 := ApplyLine(decode, persist, s, lines[0]);
      if Breaks(decode, lines[0]) {
        assert [lines[0]][1..] == [];
      } else {
        ProcessIsAllKept(decode, persist, s1, lines[1..]);
        assert ([lines[0]] + Kept(decode, lines[1..]))[1..] == Kept(decode, lines[1..]);
      }
    }
  }

  // ---- Whole runs of Write calls ----------------------------------------------------------

  function WriteAll(decode: Decoder, persist: bool, s: State, pieces: seq<string>): State
    decreases |pieces|
  {
    if pieces == [] then s else WriteAll(decode, persist, Write(decode, persist, s, pieces[0]), pieces[1..])
  }

  /** The lines applied when the pieces are written one by one. */
  function KeptOf(decode: Decoder, buffer: string, pieces: seq<string>): seq<string>
    decreases |pieces|
  {
    if pieces == [] then []
    else
      var f := Split("\n", buffer + pieces[0]);
      Kept(decode, f.frames) + KeptOf(decode, f.rest, pieces[1..])
  }

  lemma WriteIsAllKept(decode: Decoder, persist: bool, s: State, data: string)
    ensures var f := Split("\n", s.buffer + data);
      Write(decode, persist, s, data)
      == All(decode, persist, Header(persist, s, OK), Kept(decode, f.frames)).(buffer := f.rest)
  {
    var s1 := Header(persist, s, OK);
    var f := Split("\n", s.buffer + data);
    ProcessIsAllKept(decode, persist, s1.(buffer := f.rest), f.frames);
    AllBuffer(decode, persist, s1, Kept(decode, f.frames), f.rest);
  }

  /**
   * Exact meaning of a run of Write calls, for every byte stream, malformed payloads included:
   * the lines that are not skipped applied in order, and the bytes after the last newline kept.
   */
  lemma {:induction false} WriteAllExact(decode: Decoder, persist: bool, s: State, pieces: seq<string>)
    requires pieces != []
    ensures WriteAll(decode, persist, s, pieces)
         == All(decode, persist, Header(persist, s, OK), KeptOf(decode, s.buffer, pieces))
              .(buffer := FeedAll("\n", s.buffer, pieces).rest)
    decreases |pieces|
  {
    hide Split;
    var f := Split("\n", s.buffer + pieces[0]);
    var h := Header(persist, s, OK);
    var kept := Kept(decode, f.frames);
    var more := KeptOf(decode, f.rest, pieces[1..]);
    WriteIsAllKept(decode, persist, s, pieces[0]);
    var s1 := Write(decode, persist, s, pieces[0]);
    AllChannel(decode, persist, h, kept);
    AllAppend(decode, persist, h, kept, more);
    if |pieces| == 1 {
      assert pieces[1..] == [];
      assert kept + more == kept;
    } else {
      WriteAllExact(decode, persist, s1, pieces[1..]);
      assert Header(persist, s1, OK) == s1;
      AllBuffer(decode, persist, All(decode, persist, h, kept), more, f.rest);
    }
  }

  ghost predicate AllDecode(decode: Decoder, lines: seq<string>)
  {
    forall i :: 0 <= i < |lines| ==> !Breaks(decode, lines[i])
  }

  lemma {:induction false} KeptIsAll(decode: Decoder, lines: seq<string>)
    requires AllDecode(decode, lines)
    ensures Kept(decode, lines) == lines
  {
    if lines != [] {
      KeptIsAll(decode, lines[1..]);
    }
  }

  lemma {:induction false} KeptOfIsAll(decode: Decoder, buffer: string, pieces: seq<string>)
    requires AllDecode(decode, FeedAll("\n", buffer, pieces).frames)
    ensures KeptOf(decode, buffer, pieces) == FeedAll("\n", buffer, pieces).frames
    decreases |pieces|
  {
    if pieces != [] {
      var f := Split("\n", buffer + pieces[0]);
      var more := FeedAll("\n", f.rest, pieces[1..]);
      assert AllDecode(decode, f.frames) by {
        forall i | 0 <= i < |f.frames| ensures !Breaks(decode, f.frames[i]) {
          assert (f.frames + more.frames)[i] == f.frames[i];
        }
      }
      assert AllDecode(decode, more.frames) by {
        forall i | 0 <= i < |more.frames| ensures !Breaks(decode, more.frames[i]) {
          assert (f.frames + more.frames)[|f.frames| + i] == more.frames[i];
        }
      }
      KeptIsAll(decode, f.frames);
      KeptOfIsAll(decode, f.rest, pieces[1..]);
    }
  }

  /**
   * When every complete line decodes, any way of cutting the bytes into at least one Write gives
   * the same events and the same final writer, with the bytes after the last newline buffered.
   */
  lemma CutsDoNotMatter(decode: Decoder, persist: bool, s: State, pieces: seq<string>)
    requires pieces != [] && IndexOf(s.buffer, "\n") == -1
    requires AllDecode(decode, Split("\n", s.buffer + Concat(pieces)).frames)
    ensures WriteAll(decode, persist, s, pieces) == Write(decode, persist, s, Concat(pieces))
    ensures WriteAll(decode, persist, s, pieces).buffer == Split("\n", s.buffer + Concat(pieces)).rest
  {
    hide Split;
    CutIndependence("\n", s.buffer, pieces);
    WriteAllExact(decode, persist, s, pieces);
    KeptOfIsAll(decode, s.buffer, pieces);
    WriteIsAllKept(decode, persist, s, Concat(pieces));
    KeptIsAll(decode, Split("\n", s.buffer + Concat(pieces)).frames);
  }

  // ---- The exact condition ----------------------------------------------------------------

  /** A line that emits nothing while `calls` are open. */
  ghost predicate Mute(decode: Decoder, calls: seq<Item>, line: string)
  {
    match DataOf(line)
    case None => true
    case Some(data) =>
      && !Breaks(decode, line)
      && data != DONE
      && match decode(data).choices
         case None => false
         case Some(choices) => choices == [] || MuteDelta(calls, choices[0])
  }

  ghost predicate MuteDelta(calls: seq<Item>, d: Delta)
  {
    if d.toolCalls == [] then d.content == ""
    else forall i :: 0 <= i < |d.toolCalls| ==> MuteFragment(calls, d.toolCalls[i])
  }

  ghost predicate MuteFragment(calls: seq<Item>, f: ToolFragment)
  {
    f.arguments == "" && FindCall(calls, f.id) < |calls|
  }

  /** After the first line that breaks, every further line is mute. */
  ghost predicate QuietAfterBreak(decode: Decoder, persist: bool, s: State, lines: seq<string>)
    decreases |lines|
  {
    lines == [] ||
    var s1 := ApplyLine(decode, persist, s, lines[0]);
    if Breaks(decode, lines[0])
    then forall i :: 1 <= i < |lines| ==> Mute(decode, s1.calls, lines[i])
    else QuietAfterBreak(decode, persist, s1, lines[1..])
  }

  lemma {:induction false} MuteSteps(s: State, fs: seq<ToolFragment>)
    ensures (forall i :: 0 <= i < |fs| ==> MuteFragment(s.calls, fs[i])) <==> ToolSteps(s, fs).log == s.log
    ensures (forall i :: 0 <= i < |fs| ==> MuteFragment(s.calls, fs[i])) ==> ToolSteps(s, fs) == s
    decreases |fs|
  {
    if fs != [] {
      var s1 := ToolStep(s, fs[0]);
      MuteSteps(s1, fs[1..]);
      ToolStepsChannel(s1, fs[1..]);
      if MuteFragment(s.calls, fs[0]) {
        assert s1 == s;
        assert forall i :: 1 <= i < |fs| ==> fs[i] == fs[1..][i - 1];
        assert forall i :: 0 <= i < |fs| - 1 ==> fs[1..][i] == fs[i + 1];
      } else {
        assert |s1.log| > |s.log|;
      }
    }
  }

  lemma MuteLine(decode: Decoder, persist: bool, s: State, line: string)
    ensures Mute(decode, s.calls, line) <==> ApplyLine(decode, persist, s, line).log == s.log
    ensures Mute(decode, s.calls, line) ==> ApplyLine(decode, persist, s, line).calls == s.calls
  {
    match DataOf(line)
    case None =>
    case Some(data) =>
      if Breaks(decode, line) {
      } else if data == DONE {
        CloseCallsChannel(CloseMessage(s), s.calls);
      } else {
        match decode(data).choices
        case None =>
        case Some(choices) =>
          if choices != [] {
            var s1 := if HasEnvelope(data)
                      then s.(response := ApplyEnvelope(s.response, decode(data).envelope.value))
                      else s;
            MuteSteps(s1, choices[0].toolCalls);
          }
      }
  }

  lemma {:induction false} MuteLines(decode: Decoder, persist: bool, s: State, lines: seq<string>)
    ensures (forall i :: 0 <= i < |lines| ==> Mute(decode, s.calls, lines[i]))
       <==> All(decode, persist, s, lines).log == s.log
    decreases |lines|
  {
    if lines != [] {
      var s1 := ApplyLine(decode, persist, s, lines[0]);
      MuteLine(decode, persist, s, lines[0]);
      LineChannel(decode, persist, s, lines[0]);
      AllChannel(decode, persist, s1, lines[1..]);
      MuteLines(decode, persist, s1, lines[1..]);
      assert forall i :: 1 <= i < |lines| ==> lines[i] == lines[1..][i - 1];
      assert forall i :: 0 <= i < |lines| - 1 ==> lines[1..][i] == lines[i + 1];
    }
  }

  /** Skipping after the first break is invisible in the events exactly when the tail is quiet. */
  lemma {:induction false} QuietIffSkippingInvisible(decode: Decoder, persist: bool, s: State, lines: seq<string>)
    ensures QuietAfterBreak(decode, persist, s, lines)
       <==> All(decode, persist, s, lines).log == All(decode, persist, s, Kept(decode, lines)).log
    decreases |lines|
  {
    if lines != [] {
      var s1 := ApplyLine(decode, persist, s, lines[0]);
      if Breaks(decode, lines[0]) {
        assert [lines[0]][1..] == [];
        MuteLines(decode, persist, s1, lines[1..]);
        assert forall i :: 1 <= i < |lines| ==> lines[i] == lines[1..][i - 1];
        assert forall i :: 0 <= i < |lines| - 1 ==> lines[1..][i] == lines[i + 1];
      } else {
        QuietIffSkippingInvisible(decode, persist, s1, lines[1..]);
        assert ([lines[0]] + Kept(decode, lines[1..]))[1..] == Kept(decode, lines[1..]);
      }
    }
  }

  lemma {:induction false} KeptSubset(decode: Decoder, lines: seq<string>)
    ensures forall l :: l in Kept(decode, lines) ==> l in lines
  {
    if lines != [] {
      KeptSubset(decode, lines[1..]);
    }
  }

  lemma {:induction false} KeptOfSubset(decode: Decoder, buffer: string, pieces: seq<string>)
    ensures forall l :: l in KeptOf(decode, buffer, pieces) ==> l in FeedAll("\n", buffer, pieces).frames
    decreases |pieces|
  {
    if pieces != [] {
      var f := Split("\n", buffer + pieces[0]);
      KeptSubset(decode, f.frames);
      KeptOfSubset(decode, f.rest, pieces[1..]);
    }
  }

  lemma {:induction false} QuietSuffix(decode: Decoder, persist: bool, s: State, a: seq<string>, b: seq<string>)
    requires QuietAfterBreak(decode, persist, s, a + b)
    ensures AllDecode(decode, a) ==> QuietAfterBreak(decode, persist, All(decode, persist, s, a), b)
    ensures !AllDecode(decode, a) ==>
      && Kept(decode, a + b) == Kept(decode, a)
      && forall l :: l in b ==> Mute(decode, All(decode, persist, s, Kept(decode, a)).calls, l)
    decreases |a|
  {
    if a == [] {
      assert a + b == b;
    } else {
      var s1 := ApplyLine(decode, persist, s, a[0]);
      assert (a + b)[1..] == a[1..] + b;
      if Breaks(decode, a[0]) {
        assert [a[0]][1..] == [];
        forall l | l in b ensures Mute(decode, s1.calls, l) {
          var k :| 0 <= k < |b| && b[k] == l;
          assert (a + b)[|a| + k] == l;
        }
      } else {
        QuietSuffix(decode, persist, s1, a[1..], b);
        assert AllDecode(decode, a) <==> AllDecode(decode, a[1..]) by {
          assert forall i :: 1 <= i < |a| ==> a[i] == a[1..][i - 1];
          assert forall i :: 0 <= i < |a| - 1 ==> a[1..][i] == a[i + 1];
        }
        assert ([a[0]] + Kept(decode, a[1..]))[1..] == Kept(decode, a[1..]);
      }
    }
  }

  /** With a quiet tail, what the various Writes skip or do not skip emits nothing. */
  lemma {:induction false} QuietCut(decode: Decoder, persist: bool, s: State, buffer: string, pieces: seq<string>)
    requires QuietAfterBreak(decode, persist, s, FeedAll("\n", buffer, pieces).frames)
    ensures All(decode, persist, s, KeptOf(decode, buffer, pieces)).log
         == All(decode, persist, s, Kept(decode, FeedAll("\n", buffer, pieces).frames)).log
    decreases |pieces|
  {
    if pieces != [] {
      hide Split;
      var f := Split("\n", buffer + pieces[0]);
      var later := FeedAll("\n", f.rest, pieces[1..]).frames;
      var more := KeptOf(decode, f.rest, pieces[1..]);
      var s1 := All(decode, persist, s, Kept(decode, f.frames));
      QuietSuffix(decode, persist, s, f.frames, later);
      AllAppend(decode, persist, s, Kept(decode, f.frames), more);
      if AllDecode(decode, f.frames) {
        KeptIsAll(decode, f.frames);
        QuietCut(decode, persist, s1, f.rest, pieces[1..]);
        KeptAppend(decode, f.frames, later);
        AllAppend(decode, persist, s, f.frames, Kept(decode, later));
      } else {
        KeptOfSubset(decode, f.rest, pieces[1..]);
        MuteLines(decode, persist, s1, more);
      }
    }
  }

  lemma {:induction false} KeptAppend(decode: Decoder, a: seq<string>, b: seq<string>)
    requires AllDecode(decode, a)
    ensures Kept(decode, a + b) == a + Kept(decode, b)
  {
    if a == [] {
      assert a + b == b;
    } else {
      assert (a + b)[1..] == a[1..] + b;
      KeptAppend(decode, a[1..], b);
    }
  }

  /** One Write per complete line, then one for the remainder. */
  function PerLine(lines: seq<string>, rest: string): (r: seq<string>)
    ensures |r| == |lines| + 1
  {
    if lines == [] then [rest] else [lines[0] + "\n"] + PerLine(lines[1..], rest)
  }

  lemma {:induction false} PerLineCut(decode: Decoder, lines: seq<string>, rest: string)
    requires forall i :: 0 <= i < |lines| ==> IndexOf(lines[i], "\n") == -1
    requires IndexOf(rest, "\n") == -1
    ensures Concat(PerLine(lines, rest)) == Terminated("\n", lines) + rest
    ensures KeptOf(decode, "", PerLine(lines, rest)) == lines
  {
    hide IndexOf, Split, Kept;
    var pieces := PerLine(lines, rest);
    if lines == [] {
      assert "" + rest == rest;
      NoFrames(rest);
      KeptNone(decode);
      assert pieces[1..] == [];
    } else {
      var line := lines[0];
      assert pieces[1..] == PerLine(lines[1..], rest);
      PerLineCut(decode, lines[1..], rest);
      OneLine(line);
      assert "" + pieces[0] == line + "\n";
      KeptOne(decode, line);
    }
  }

  /** Every cut of these bytes emits the same events. */
  ghost predicate AgreesOnEveryCut(decode: Decoder, persist: bool, s: State, bytes: string)
  {
    forall pieces :: pieces != [] && Concat(pieces) == bytes ==>
      WriteAll(decode, persist, s, pieces).log == Write(decode, persist, s, bytes).log
  }

  /**
   * The emitted events are the same for every cut if and only if no line after the first line
   * whose envelope does not decode would have emitted anything.
   */
  lemma CutsAgreeIffQuiet(decode: Decoder, persist: bool, s: State, bytes: string)
    requires s.buffer == ""
    ensures AgreesOnEveryCut(decode, persist, s, bytes)
       <==> QuietAfterBreak(decode, persist, Header(persist, s, OK), Split("\n", bytes).frames)
  {
    var h := Header(persist, s, OK);
    var f := Split("\n", bytes);
    WriteIsAllKept(decode, persist, s, bytes);
    assert s.buffer + bytes == bytes;
    if QuietAfterBreak(decode, persist, h, f.frames) {
      forall pieces | pieces != [] && Concat(pieces) == bytes
        ensures WriteAll(decode, persist, s, pieces).log == Write(decode, persist, s, bytes).log
      {
        hide Split;
        WriteAllExact(decode, persist, s, pieces);
        CutIndependence("\n", "", pieces);
        QuietCut(decode, persist, h, "", pieces);
      }
    }
    if AgreesOnEveryCut(decode, persist, s, bytes) {
      var pieces := PerLine(f.frames, f.rest);
      SplitClean("\n", bytes);
      SplitLossless("\n", bytes);
      PerLineCut(decode, f.frames, f.rest);
      WriteAllExact(decode, persist, s, pieces);
      QuietIffSkippingInvisible(decode, persist, h, f.frames);
    }
  }

  lemma OneLine(a: string)
    requires IndexOf(a, "\n") == -1
    ensures Split("\n", a + "\n") == Framed([a], "")
  {
    SplitOneLine(a, "");
    assert a + "\n" + "" == a + "\n";
    assert Split("\n", "") == Framed([], "");
  }

  /** Two clean lines written at once. */
  lemma TwoLinesTogether(decode: Decoder, a: string, b: string)
    requires IndexOf(a, "\n") == -1 && IndexOf(b, "\n") == -1
    ensures KeptOf(decode, "", [a + "\n" + b + "\n"]) == Kept(decode, [a, b])
  {
    hide Split, Kept, IndexOf;
    SplitOneLine(a, b + "\n");
    OneLine(b);
    var piece := a + "\n" + b + "\n";
    assert a + "\n" + (b + "\n") == piece;
    assert "" + piece == piece;
    assert [piece][1..] == [];
    assert Split("\n", piece).frames == [a, b];
  }

  lemma KeptNone(decode: Decoder)
    ensures Kept(decode, []) == []
  {
  }

  lemma KeptOne(decode: Decoder, line: string)
    ensures Kept(decode, [line]) == [line]
  {
    assert [line][1..] == [];
  }

  /** Two clean lines written one by one. */
  lemma TwoLinesApart(decode: Decoder, a: string, b: string)
    requires IndexOf(a, "\n") == -1 && IndexOf(b, "\n") == -1
    ensures KeptOf(decode, "", [a + "\n", b + "\n"]) == [a, b]
  {
    KeptOne(decode, a);
    KeptOne(decode, b);
    hide Split, Kept, IndexOf;
    OneLine(a);
    OneLine(b);
    var x, y := a + "\n", b + "\n";
    assert "" + x == x && "" + y == y;
    assert [x, y][1..] == [y] && [y][1..] == [];
    assert KeptOf(decode, "", [y]) == [b];
  }

  /** A line that breaks and a [DONE] line: one Write drops the second, two Writes do not. */
  lemma SkippedDone(decode: Decoder, persist: bool, s: State, bad: string, done: string)
    requires s.buffer == "" && '\n' !in bad && '\n' !in done
    requires Breaks(decode, bad) && DataOf(done) == Some(DONE)
    ensures WriteAll(decode, persist, s, [bad + "\n" + done + "\n"]).log
          < WriteAll(decode, persist, s, [bad + "\n", done + "\n"]).log
  {
    hide Split, ApplyLine, WriteAll, Breaks;
    var h := Header(persist, s, OK);
    NoNewline(bad);
    NoNewline(done);
    TwoLinesTogether(decode, bad, done);
    TwoLinesApart(decode, bad, done);
    WriteAllExact(decode, persist, s, [bad + "\n" + done + "\n"]);
    WriteAllExact(decode, persist, s, [bad + "\n", done + "\n"]);
    var s1 := ApplyLine(decode, persist, h, bad);
    assert [bad, done][1..] == [done] && [done][1..] == [] && [bad][1..] == [];
    assert Kept(decode, [bad, done]) == [bad];
    assert All(decode, persist, h, [bad]) == s1;
    assert All(decode, persist, s1, [done]) == ApplyLine(decode, persist, s1, done);
    LineChannel(decode, persist, s1, done);
    MuteLine(decode, persist, s1, done);
  }

  /** A concrete stream on which two cuts differ. */
  lemma SkippedDoneExample(decode: Decoder, persist: bool, r: Response)
    requires decode("x").envelope == None
    ensures WriteAll(decode, persist, Start(r), ["data: x\ndata: [DONE]\n"]).log
          < WriteAll(decode, persist, Start(r), ["data: x\n", "data: [DONE]\n"]).log
  {
    var bad, done := "data: x", "data: [DONE]";
    assert DataOf(bad) == Some("x") by { assert bad[6..] == "x"; }
    assert DataOf(done) == Some(DONE) by { assert done[6..] == DONE; }
    assert bad + "\n" + done + "\n" == "data: x\ndata: [DONE]\n";
    assert bad + "\n" == "data: x\n" && done + "\n" == "data: [DONE]\n";
    hide DataOf, WriteAll, Split;
    SkippedDone(decode, persist, Start(r), bad, done);
  }
}
