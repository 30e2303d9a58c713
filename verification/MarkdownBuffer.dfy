/**
 * The buffer through which a streamed answer reaches the terminal: text outside code blocks is shown
 * at once, a code block is held back until it can be rendered as a whole.
 */
module MarkdownBuffer {
  import opened Prelude
  import opened Framing

  const FENCE: string := "```"

  /** Text shown as it is, or handed to the renderer; both with the text they stand for. */
  datatype Segment = Plain(raw: string) | Block(raw: string)

  /** None when rendering fails. */
  type Renderer = string -> Option<string>

  function Show(s: Segment, render: Renderer): string
  {
    match s
    case Plain(raw) => raw
    case Block(raw) => match render(raw) { case None => raw case Some(t) => t }
  }

  /** The text not shown yet, and whether it is taken to be inside a code block. */
  datatype View = View(pending: string, inCode: bool)

  function Process(v: View): (Segment, View)
  {
    var p := v.pending;
    if !v.inCode then
      var i := IndexOf(p, FENCE);
      if i != -1 then (Plain(p[..i]), View(p[i..], true)) else (Plain(p), View("", false))
    else
      var i, j := IndexOf(p, FENCE + "\n"), IndexOf(p, FENCE);
      if i != -1 then (Block(p[..i + 4]), View(p[i + 4..], false))
      else if j != -1 && j + 3 == |p| then (Block(p), View("", false))
      else (Plain(""), v)
  }

  datatype Call = Call(content: string, markdown: bool)

  /** With markdown off the new content is shown alone, whatever was held back. */
  function Add(v: View, c: Call): (Segment, View)
  {
    if c.markdown then Process(View(v.pending + c.content, v.inCode))
    else (Plain(c.content), View("", v.inCode))
  }

  lemma Slice(s: string, from: nat, n: nat)
    requires from + n <= |s|
    ensures s[from..from + n] == s[from..][..n] && s[from + n..] == s[from..][n..]
    ensures n == |s| - from ==> s[from..][..n] == s[from..] && s[from..][n..] == ""
  {
  }

  class StreamingMarkdownBuffer {
    var buffer: string
    var inCodeBlock: bool
    var lastFlush: nat
    const render: Renderer

    ghost predicate Valid()
      reads this
    {
      lastFlush <= |buffer|
    }

    ghost function Held(): View
      requires Valid()
      reads this
    {
      View(buffer[lastFlush..], inCodeBlock)
    }

    constructor (render: Renderer)
      ensures Valid() && Held() == View("", false) && buffer == "" && this.render == render
    {
      buffer, inCodeBlock, lastFlush, this.render := "", false, 0, render;
    }

    method AddContent(content: string, shouldUseMarkdown: bool) returns (shown: string, s: Segment)
      requires Valid()
      modifies this
      ensures Valid() && buffer == old(buffer) + content && lastFlush >= old(lastFlush)
      ensures (s, Held()) == Add(old(Held()), Call(content, shouldUseMarkdown))
      ensures shown == Show(s, render)
    {
      ghost var pending := buffer[lastFlush..];
      buffer := buffer + content;
      assert buffer[lastFlush..] == pending + content;
      if !shouldUseMarkdown {
        lastFlush := |buffer|;
        assert buffer[lastFlush..] == "";
        return content, Plain(content);
      }
      shown, s := ProcessPartialMarkdown();
    }

    method ProcessPartialMarkdown() returns (shown: string, s: Segment)
      requires Valid()
      modifies this`inCodeBlock, this`lastFlush
      ensures Valid() && lastFlush >= old(lastFlush)
      ensures (s, Held()) == Process(old(Held()))
      ensures shown == Show(s, render)
    {
      hide IndexOf;
      var start := lastFlush;
      var p := buffer[start..];
      if !inCodeBlock {
        var i := IndexOf(p, FENCE);
        if i != -1 {
          inCodeBlock := true;
          lastFlush := start + i;
          s := Plain(buffer[start..start + i]);
          Slice(buffer, start, i);
        } else {
          lastFlush := |buffer|;
          s := Plain(p);
          assert buffer[lastFlush..] == "";
        }
        shown := s.raw;
      } else {
        var i := IndexOf(p, FENCE + "\n");
        var j := IndexOf(p, FENCE);
        if i != -1 || (j != -1 && start + j + |FENCE| == |buffer|) {
          var endPos := if i != -1 then start + i + |FENCE| + 1 else start + j + |FENCE|;
          s := Block(buffer[start..endPos]);
          Slice(buffer, start, endPos - start);
          var rendered := render(s.raw);
          lastFlush := endPos;
          inCodeBlock := false;
          shown := if rendered == None then s.raw else rendered.value;
        } else {
          shown, s := "", Plain("");
        }
      }
    }

    /** What is left when the answer ends; it stays in the buffer. */
    method Flush(shouldUseMarkdown: bool) returns (shown: string, s: Segment)
      requires Valid()
      ensures s.raw == Held().pending && shown == Show(s, render)
      ensures s.Block? <==> shouldUseMarkdown && Held().pending != ""
    {
      var remaining := buffer[lastFlush..];
      if remaining == "" || !shouldUseMarkdown {
        return remaining, Plain(remaining);
      }
      var rendered := render(remaining);
      shown, s := if rendered == None then remaining else rendered.value, Block(remaining);
    }
  }

  // ---- Nothing is lost or shown twice -----------------------------------------------------

  lemma ProcessConserves(v: View)
    ensures Process(v).0.raw + Process(v).1.pending == v.pending
  {
  }

  function Raws(segments: seq<Segment>): string
  {
    if segments == [] then "" else segments[0].raw + Raws(segments[1..])
  }

  lemma {:induction false} RawsSnoc(segments: seq<Segment>, s: Segment)
    ensures Raws(segments + [s]) == Raws(segments) + s.raw
  {
    if segments == [] {
      assert segments + [s] == [s];
    } else {
      assert (segments + [s])[1..] == segments[1..] + [s];
      RawsSnoc(segments[1..], s);
    }
  }

  /** All calls in order, from the last one back: the segments shown and what is held back. */
  function AddAll(calls: seq<Call>): (seq<Segment>, View)
  {
    if calls == [] then ([], View("", false))
    else
      var (before, v) := AddAll(calls[..|calls| - 1]);
      var (s, w) := Add(v, calls[|calls| - 1]);
      (before + [s], w)
  }

  function Input(calls: seq<Call>): string
  {
    if calls == [] then "" else Input(calls[..|calls| - 1]) + calls[|calls| - 1].content
  }

  /** Text was held back when call k turned markdown off. */
  ghost predicate Drops(calls: seq<Call>, k: nat)
    requires k < |calls|
  {
    !calls[k].markdown && AddAll(calls[..k]).1.pending != ""
  }

  function Last(calls: seq<Call>): Call
    requires calls != []
  {
    calls[|calls| - 1]
  }

  lemma AddAllStep(calls: seq<Call>)
    requires calls != []
    ensures var (before, v) := AddAll(calls[..|calls| - 1]);
      AddAll(calls) == (before + [Add(v, Last(calls)).0], Add(v, Last(calls)).1)
  {
  }

  /** Never more comes out than went in; less exactly when a call without markdown found text held back. */
  lemma {:induction false} ShownAtMost(calls: seq<Call>)
    ensures var (segments, v) := AddAll(calls);
      && |Raws(segments)| + |v.pending| <= |Input(calls)|
      && (|Raws(segments)| + |v.pending| == |Input(calls)| <==> NothingDropped(calls))
  {
    hide Process, Raws, NothingDropped;
    if calls == [] {
      RawsNone();
      assert NothingDropped(calls) by { NothingDroppedNone(); }
    } else {
      var init := calls[..|calls| - 1];
      var (before, v) := AddAll(init);
      ShownAtMost(init);
      AddAllStep(calls);
      RawsSnoc(before, Add(v, Last(calls)).0);
      ProcessConserves(View(v.pending + Last(calls).content, v.inCode));
      NothingDroppedStep(calls);
    }
  }

  lemma NothingDroppedNone()
    ensures NothingDropped([])
  {
  }

  lemma AddAllNone()
    ensures AddAll([]) == ([], View("", false))
  {
  }

  lemma RawsNone()
    ensures Raws([]) == ""
  {
  }

  ghost predicate NothingDropped(calls: seq<Call>)
  {
    forall k :: 0 <= k < |calls| ==> !Drops(calls, k)
  }

  lemma NothingDroppedStep(calls: seq<Call>)
    requires calls != []
    ensures NothingDropped(calls) <==>
      NothingDropped(calls[..|calls| - 1]) && (Last(calls).markdown || AddAll(calls[..|calls| - 1]).1.pending == "")
  {
    hide AddAll;
    var init := calls[..|calls| - 1];
    forall k | 0 <= k < |init| ensures Drops(calls, k) == Drops(init, k) {
      assert init[..k] == calls[..k];
    }
    assert Drops(calls, |init|) <==> !Last(calls).markdown && AddAll(init).1.pending != "";
    if NothingDropped(calls) {
      assert forall k :: 0 <= k < |init| ==> Drops(init, k) == Drops(calls, k);
    }
  }

  lemma {:induction false} ShownInOrder(calls: seq<Call>)
    requires NothingDropped(calls)
    ensures var (segments, v) := AddAll(calls); Raws(segments) + v.pending == Input(calls)
  {
    hide Process, Raws, NothingDropped, AddAll;
    if calls == [] {
      RawsNone();
      AddAllNone();
    } else {
      var init := calls[..|calls| - 1];
      var (before, v) := AddAll(init);
      NothingDroppedStep(calls);
      ShownInOrder(init);
      AddAllStep(calls);
      var c := Last(calls);
      var (s, w) := Add(v, c);
      RawsSnoc(before, s);
      ProcessConserves(View(v.pending + c.content, v.inCode));
      assert s.raw + w.pending == v.pending + c.content;
      assert Raws(before) + (s.raw + w.pending) == Raws(before) + v.pending + c.content;
    }
  }

  /** What is shown, and then flushed, is the input exactly when no call without markdown found text held back. */
  lemma ShownExactly(calls: seq<Call>)
    ensures var (segments, v) := AddAll(calls);
      Raws(segments) + v.pending == Input(calls) <==> NothingDropped(calls)
  {
    hide AddAll, Raws, Input, NothingDropped;
    ShownAtMost(calls);
    if NothingDropped(calls) {
      ShownInOrder(calls);
    }
  }

  lemma ProcessFence()
    ensures Process(View(FENCE, false)) == (Plain(""), View(FENCE, true))
  {
    hide IndexOf;
    assert FENCE[0..0 + 3] == FENCE;
    assert At(FENCE, FENCE, 0);
    IndexOfFirst(FENCE, FENCE);
    assert FENCE[..0] == "" && FENCE[0..] == FENCE;
  }

  /** Markdown turned off after the start of a block: the fence that was held back is never shown. */
  lemma ShownExactlyExample()
    ensures var calls := [Call("```", true), Call("x", false)];
      var (segments, v) := AddAll(calls);
      Raws(segments) + v.pending == "x" && Input(calls) == "```x"
  {
    var a, b := Call(FENCE, true), Call("x", false);
    var first, calls := [a], [a, b];
    AddAllNone();
    ProcessFence();
    RawsNone();
    assert "" + FENCE == FENCE && "" + "x" == "x" && FENCE + "x" == "```x";
    assert first[..0] == [] && calls[..1] == first && Last(first) == a && Last(calls) == b;
    hide Process, AddAll, Raws;
    AddAllStep(first);
    AddAllStep(calls);
    RawsSnoc([], Plain(""));
    RawsSnoc([] + [Plain("")], Plain("x"));
    assert "" + "" + "x" + "" == "x";
    assert Input(first) == Input(first[..0]) + FENCE;
    assert Input(calls) == Input(first) + "x";
  }

  function MarkdownOn(pieces: seq<string>): (calls: seq<Call>)
    ensures |calls| == |pieces| && forall i :: 0 <= i < |calls| ==> calls[i].markdown
  {
    if pieces == [] then [] else MarkdownOn(pieces[..|pieces| - 1]) + [Call(pieces[|pieces| - 1], true)]
  }

  /** Plain text is shown as it is, a block as it is rendered; when that fails the block is shown as it is. */
  predicate Displayed(s: Segment, render: Renderer, shown: string)
  {
    && (s.Plain? || render(s.raw) == None ==> shown == s.raw)
    && (s.Block? && render(s.raw) != None ==> Some(shown) == render(s.raw))
  }

  ghost predicate AllDisplayed(segments: seq<Segment>, render: Renderer, shown: seq<string>)
  {
    |shown| == |segments| && forall i :: 0 <= i < |segments| ==> Displayed(segments[i], render, shown[i])
  }

  /** A whole answer with markdown on, shown piece by piece and flushed at its end. */
  method StreamAnswer(pieces: seq<string>, render: Renderer) returns (segments: seq<Segment>, shown: seq<string>)
    ensures Raws(segments) == Concat(pieces)
    ensures AllDisplayed(segments, render, shown)
    ensures var (before, v) := AddAll(MarkdownOn(pieces));
      segments == before + [if v.pending == "" then Plain("") else Block(v.pending)]
  {
    hide Raws, Process, Add, AddAll, Concat, Show, AllDisplayed;
    hide StreamingMarkdownBuffer.Held;
    AddAllNone();
    NoneDisplayed(render);
    var b := new StreamingMarkdownBuffer(render);
    segments, shown := [], [];
    for i := 0 to |pieces|
      invariant b.Valid() && b.render == render && fresh(b)
      invariant (segments, b.Held()) == AddAll(MarkdownOn(pieces[..i]))
      invariant AllDisplayed(segments, render, shown)
    {
      OneCallMore(pieces, i);
      var text, s := b.AddContent(pieces[i], true);
      OneDisplayed(segments, render, shown, s);
      segments, shown := segments + [s], shown + [text];
    }
    assert pieces[..|pieces|] == pieces;
    AllShown(pieces);
    var text, last := b.Flush(true);
    OneDisplayed(segments, render, shown, last);
    RawsSnoc(segments, last);
    segments, shown := segments + [last], shown + [text];
  }

  /** With markdown always on nothing is lost. */
  lemma AllShown(pieces: seq<string>)
    ensures var (segments, v) := AddAll(MarkdownOn(pieces));
      Raws(segments) + v.pending == Concat(pieces)
  {
    hide AddAll, Raws, Input;
    ShownInOrder(MarkdownOn(pieces));
    InputIsConcat(pieces);
  }

  lemma {:induction false} InputIsConcat(pieces: seq<string>)
    ensures Input(MarkdownOn(pieces)) == Concat(pieces)
  {
    if pieces != [] {
      var before, last := pieces[..|pieces| - 1], pieces[|pieces| - 1];
      InputIsConcat(before);
      assert before + [last] == pieces;
      ConcatSnoc(before, last);
      assert MarkdownOn(pieces)[..|before|] == MarkdownOn(before);
    }
  }

  lemma OneCallMore(pieces: seq<string>, i: nat)
    requires i < |pieces|
    ensures var (before, v) := AddAll(MarkdownOn(pieces[..i]));
      var (s, w) := Add(v, Call(pieces[i], true));
      AddAll(MarkdownOn(pieces[..i + 1])) == (before + [s], w)
  {
    hide Add;
    var calls := MarkdownOn(pieces[..i + 1]);
    assert pieces[..i + 1][..i] == pieces[..i];
    assert calls[..i] == MarkdownOn(pieces[..i]) && Last(calls) == Call(pieces[i], true);
    AddAllStep(calls);
  }

  lemma NoneDisplayed(render: Renderer)
    ensures AllDisplayed([], render, [])
  {
  }

  lemma OneDisplayed(segments: seq<Segment>, render: Renderer, shown: seq<string>, s: Segment)
    requires AllDisplayed(segments, render, shown)
    ensures AllDisplayed(segments + [s], render, shown + [Show(s, render)])
  {
    assert Displayed(s, render, Show(s, render));
    hide Displayed, Show;
  }

  // ---- What is taken for the end of a code block ------------------------------------------

  /** With markdown always on, the text held back starts with the fence that opened the block. */
  lemma HeldStartsWithFence(v: View, content: string)
    requires v.inCode ==> FENCE <= v.pending
    ensures var w := Add(v, Call(content, true)).1; w.inCode ==> FENCE <= w.pending
  {
    IndexOfFirst(v.pending + content, FENCE);
  }

  /** The number of backticks a text starts with. */
  function Backticks(p: string): (n: nat)
    ensures n <= |p| && (forall i :: 0 <= i < n ==> p[i] == '`') && (n < |p| ==> p[n] != '`')
  {
    if p == "" || p[0] != '`' then 0 else 1 + Backticks(p[1..])
  }

  /** The block that is cut off is no more than the opening run of backticks and a newline. */
  ghost predicate ClosedByOpening(p: string)
  {
    Process(View(p, true)).0.Block? && |Process(View(p, true)).0.raw| <= Backticks(p) + 1
  }

  lemma FenceLineAt(p: string, n: nat)
    requires 3 <= n < |p| && p[n - 3] == p[n - 2] == p[n - 1] == '`' && p[n] == '\n'
    ensures At(p, FENCE + "\n", n - 3)
  {
    assert p[n - 3..n - 3 + 4] == FENCE + "\n";
  }

  lemma FenceLineEnd(p: string, i: int)
    requires At(p, FENCE + "\n", i)
    ensures 0 <= i < |p| - 3 && p[i + 3] == '\n'
  {
    assert p[i + 3] == p[i..i + 4][3];
  }

  lemma FenceFirst(p: string)
    requires FENCE <= p
    ensures IndexOf(p, FENCE) == 0 && Backticks(p) >= 3
  {
    assert p[0] == FENCE[0] && p[1] == FENCE[1] && p[2] == FENCE[2];
    assert At(p, FENCE, 0);
    hide IndexOf, At;
    IndexOfFirst(p, FENCE);
  }

  /** Where the two searches stop in a text that starts with a fence. */
  lemma FenceSearch(p: string)
    requires FENCE <= p
    ensures IndexOf(p, FENCE) == 0 && Backticks(p) >= 3
    ensures var i := IndexOf(p, FENCE + "\n");
      if i == -1 then Backticks(p) == |p| || p[Backticks(p)] != '\n' else Backticks(p) <= i + 3 < |p| && p[i + 3] == '\n'
    ensures Backticks(p) < |p| && p[Backticks(p)] == '\n' ==> IndexOf(p, FENCE + "\n") == Backticks(p) - 3
  {
    var n, i := Backticks(p), IndexOf(p, FENCE + "\n");
    FenceFirst(p);
    hide IndexOf, Backticks, At;
    IndexOfFirst(p, FENCE + "\n");
    if i != -1 {
      FenceLineEnd(p, i);
    }
    if 3 <= n < |p| && p[n] == '\n' {
      FenceLineAt(p, n);
    }
  }

  /**
   * The opening run of backticks is itself taken for the end of the block exactly when a newline
   * follows it directly, or when it is a fence with nothing after it yet.
   */
  lemma OpeningClosesItselfIff(p: string)
    requires FENCE <= p
    ensures ClosedByOpening(p) <==> p == FENCE || (Backticks(p) < |p| && p[Backticks(p)] == '\n')
  {
    hide IndexOf, Backticks;
    FenceSearch(p);
  }

  /** A block opened by a bare fence ends with its first line, whatever follows. */
  lemma BareFenceClosesItself(rest: string)
    ensures Process(View(FENCE + "\n" + rest, true)) == (Block(FENCE + "\n"), View(rest, false))
  {
    var p := FENCE + "\n" + rest;
    assert p[0..0 + 4] == FENCE + "\n";
    assert At(p, FENCE + "\n", 0);
    IndexOfFirst(p, FENCE + "\n");
    assert p[..4] == FENCE + "\n" && p[4..] == rest;
  }

  /**
   * Without a newline after it, a closing fence at the end of the text is not seen, because the search
   * finds the opening fence: the block ends only when there is nothing but that fence.
   */
  lemma ClosingFenceAtEnd(p: string)
    requires FENCE <= p && IndexOf(p, FENCE + "\n") == -1
    ensures Process(View(p, true)) == if p == FENCE then (Block(FENCE), View("", false)) else (Plain(""), View(p, true))
  {
    assert p[0..0 + 3] == FENCE;
    assert At(p, FENCE, 0);
    IndexOfFirst(p, FENCE);
  }

  // ---- What is shown when -----------------------------------------------------------------

  function Plains(calls: seq<Call>): (segments: seq<Segment>)
    ensures |segments| == |calls|
  {
    seq(|calls|, i requires 0 <= i < |calls| => Plain(calls[i].content))
  }

  function Nothing(n: nat): seq<Segment>
  {
    seq(n, _ => Plain(""))
  }

  lemma OneMore(calls: seq<Call>, c: Call)
    ensures var (segments, v) := AddAll(calls);
      AddAll(calls + [c]) == (segments + [Add(v, c).0], Add(v, c).1)
    ensures Input(calls + [c]) == Input(calls) + c.content
  {
    hide Add;
    var all := calls + [c];
    assert all[..|all| - 1] == calls && Last(all) == c;
    AddAllStep(all);
  }

  /** Text without a fence is shown at once, and nothing is held back. */
  lemma {:induction false} PlainText(calls: seq<Call>)
    requires forall i :: 0 <= i < |calls| ==> calls[i].markdown && IndexOf(calls[i].content, FENCE) == -1
    ensures AddAll(calls) == (Plains(calls), View("", false))
  {
    hide IndexOf;
    if calls != [] {
      var before, last := calls[..|calls| - 1], Last(calls);
      PlainText(before);
      assert before + [last] == calls;
      assert Plains(calls) == Plains(before) + [Plain(last.content)];
      OneMore(before, last);
      assert "" + last.content == last.content;
    }
  }

  lemma OpensAt(a: string, b: string)
    requires IndexOf(a + FENCE + b, FENCE) == |a|
    ensures Process(View(a + FENCE + b, false)) == (Plain(a), View(FENCE + b, true))
  {
    hide IndexOf;
    var text := a + FENCE + b;
    assert text[..|a|] == a && text[|a|..] == FENCE + b;
  }

  /** Text is shown up to its first fence, and held back from there. */
  lemma Opens(calls: seq<Call>, a: string, b: string)
    requires AddAll(calls).1 == View("", false) && IndexOf(a + FENCE + b, FENCE) == |a|
    ensures AddAll(calls + [Call(a + FENCE + b, true)]) == (AddAll(calls).0 + [Plain(a)], View(FENCE + b, true))
  {
    var text := a + FENCE + b;
    OpensAt(a, b);
    hide IndexOf, AddAll, Process;
    OneMore(calls, Call(text, true));
    assert "" + text == text;
  }

  lemma StillHeld(calls: seq<Call>, held: string, c: Call)
    requires AddAll(calls).1 == View(held, true) && FENCE <= held && held != FENCE && c.markdown
    requires IndexOf(held + c.content, FENCE + "\n") == -1
    ensures AddAll(calls + [c]) == (AddAll(calls).0 + [Plain("")], View(held + c.content, true))
  {
    hide IndexOf, AddAll, Process;
    OneMore(calls, c);
    ClosingFenceAtEnd(held + c.content);
  }

  /** Nothing of a block is shown before it is complete. */
  lemma {:induction false} HeldBack(calls: seq<Call>, held: string, inner: seq<Call>)
    requires AddAll(calls).1 == View(held, true) && FENCE <= held && held != FENCE
    requires forall i :: 0 <= i < |inner| ==> inner[i].markdown
    requires IndexOf(held + Input(inner), FENCE + "\n") == -1
    ensures AddAll(calls + inner) == (AddAll(calls).0 + Nothing(|inner|), View(held + Input(inner), true))
    decreases |inner|
  {
    hide *;
    if inner == [] {
      HeldNone(calls, held);
    } else {
      var init, last := inner[..|inner| - 1], inner[|inner| - 1];
      LastInput(inner, held);
      NotBefore(held + Input(init), last.content, FENCE + "\n");
      HeldBack(calls, held, init);
      HeldMore(calls, held, init, last);
    }
  }

  lemma LastInput(calls: seq<Call>, held: string)
    requires calls != []
    ensures var init, last := calls[..|calls| - 1], calls[|calls| - 1];
      init + [last] == calls && held + Input(init) + last.content == held + Input(calls)
  {
  }

  lemma HeldNone(calls: seq<Call>, held: string)
    requires AddAll(calls).1 == View(held, true)
    ensures AddAll(calls + []) == (AddAll(calls).0 + Nothing(0), View(held + Input([]), true))
  {
    hide AddAll;
    assert calls + [] == calls && held + Input([]) == held;
    assert AddAll(calls).0 + Nothing(0) == AddAll(calls).0;
  }

  lemma HeldMore(calls: seq<Call>, held: string, init: seq<Call>, last: Call)
    requires FENCE <= held && held != FENCE && last.markdown
    requires AddAll(calls + init) == (AddAll(calls).0 + Nothing(|init|), View(held + Input(init), true))
    requires IndexOf(held + Input(init) + last.content, FENCE + "\n") == -1
    ensures AddAll(calls + (init + [last]))
      == (AddAll(calls).0 + Nothing(|init| + 1), View(held + Input(init) + last.content, true))
  {
    hide IndexOf, AddAll, Input;
    StillHeld(calls + init, held + Input(init), last);
    assert calls + init + [last] == calls + (init + [last]);
    assert AddAll(calls).0 + Nothing(|init|) + [Plain("")] == AddAll(calls).0 + Nothing(|init| + 1);
  }

  lemma NotBefore(a: string, b: string, d: string)
    requires d != "" && IndexOf(a + b, d) == -1
    ensures IndexOf(a, d) == -1
  {
    hide IndexOf, At;
    IndexOfFirst(a, d);
    IndexOfFirst(a + b, d);
    if IndexOf(a, d) != -1 {
      StillAt(a, b, d, IndexOf(a, d));
    }
  }

  lemma StillAt(a: string, b: string, d: string, i: int)
    requires At(a, d, i)
    ensures At(a + b, d, i)
  {
    assert (a + b)[i..i + |d|] == a[i..i + |d|];
  }

  /** A block is shown as a whole when the first fence with a newline has come; what follows is held. */
  lemma Closes(calls: seq<Call>, held: string, content: string, body: string, rest: string)
    requires AddAll(calls).1 == View(held, true) && held + content == body + (FENCE + "\n") + rest
    requires IndexOf(held + content, FENCE + "\n") == |body|
    ensures AddAll(calls + [Call(content, true)]) == (AddAll(calls).0 + [Block(body + (FENCE + "\n"))], View(rest, false))
  {
    hide IndexOf, AddAll;
    var p := held + content;
    OneMore(calls, Call(content, true));
    assert p[..|body| + 4] == body + (FENCE + "\n") && p[|body| + 4..] == rest;
  }

  /**
   * An answer up to the end of its first code block, however it is cut: the text before the block is
   * shown piece by piece, nothing of the block until it is complete, and then all of it at once.
   */
  lemma FirstBlock(before: seq<Call>, a: string, b: string, inner: seq<Call>, content: string, body: string, rest: string)
    requires forall i :: 0 <= i < |before| ==> before[i].markdown && IndexOf(before[i].content, FENCE) == -1
    requires IndexOf(a + FENCE + b, FENCE) == |a| && b != ""
    requires forall i :: 0 <= i < |inner| ==> inner[i].markdown
    requires var held := FENCE + b + Input(inner);
      IndexOf(held, FENCE + "\n") == -1
      && held + content == body + (FENCE + "\n") + rest && IndexOf(held + content, FENCE + "\n") == |body|
    ensures AddAll(before + [Call(a + FENCE + b, true)] + inner + [Call(content, true)])
      == (Plains(before) + [Plain(a)] + Nothing(|inner|) + [Block(body + (FENCE + "\n"))], View(rest, false))
  {
    hide IndexOf, AddAll, Input;
    PlainText(before);
    Opens(before, a, b);
    var started := before + [Call(a + FENCE + b, true)];
    HeldBack(started, FENCE + b, inner);
    Closes(started + inner, FENCE + b + Input(inner), content, body, rest);
  }
}
