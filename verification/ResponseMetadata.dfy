/**
 * Where the metadata of a streamed answer comes from: usage, finish reason, incomplete details and
 * error are read from the payloads, one envelope after the other, and from nothing else.
 */
module ResponseMetadata {
  import opened Prelude
  import opened Framing
  import opened ResponseTypes
  import opened ResponseStream
  import opened ResponseCuts

  /** The envelopes of the payloads on these lines, in order. */
  function Envelopes(decode: Decoder, lines: seq<string>): seq<Envelope>
  {
    if lines == [] then [] else EnvelopeOn(decode, lines[0]) + Envelopes(decode, lines[1..])
  }

  function EnvelopeOn(decode: Decoder, line: string): seq<Envelope>
  {
    match DataOf(line)
    case None => []
    case Some(data) =>
      if data == "" || data == DONE then []
      else match decode(data).envelope case None => [] case Some(e) => [e]
  }

  /** The first reason of an envelope that is not empty. */
  ghost predicate Gives(e: Envelope, reason: string)
  {
    && reason != ""
    && exists i :: 0 <= i < |e.finishReasons| && e.finishReasons[i] == reason
                   && (forall j :: 0 <= j < i ==> e.finishReasons[j] == "")
  }

  ghost predicate GivesNone(e: Envelope)
  {
    forall i :: 0 <= i < |e.finishReasons| ==> e.finishReasons[i] == ""
  }

  ghost predicate SomeGives(es: seq<Envelope>, reason: string)
  {
    exists k :: 0 <= k < |es| && Gives(es[k], reason)
  }

  /** The response's own usage, else that of the first envelope that has one. */
  ghost predicate UsageFrom(usage: Option<Usage>, own: Option<Usage>, es: seq<Envelope>)
  {
    if own != None then usage == own
    else if usage == None then forall k :: 0 <= k < |es| ==> es[k].usage == None
    else exists k :: 0 <= k < |es| && es[k].usage == usage && forall j :: 0 <= j < k ==> es[j].usage == None
  }

  /** The reason of the last envelope that gives one, else the response's own. */
  ghost predicate ReasonFrom(reason: string, own: string, es: seq<Envelope>)
  {
    || (reason == own && forall k :: 0 <= k < |es| ==> GivesNone(es[k]))
    || exists k :: 0 <= k < |es| && Gives(es[k], reason) && forall j :: k < j < |es| ==> GivesNone(es[j])
  }

  /** What the envelopes leave in a response that started as r. */
  ghost predicate FromEnvelopes(t: Response, r: Response, es: seq<Envelope>)
  {
    && UsageFrom(t.usage, r.usage, es)
    && ReasonFrom(t.finishReason, r.finishReason, es)
    && t.incomplete == (if r.incomplete == None && SomeGives(es, "length") then Some("max_tokens") else r.incomplete)
    && t.error == (if r.error == None && SomeGives(es, "content_filter") then Some("content_filter") else r.error)
  }

  lemma {:induction false} FirstReasonGiven(e: Envelope)
    ensures if FirstReason(e.finishReasons) == "" then GivesNone(e) else Gives(e, FirstReason(e.finishReasons))
    decreases |e.finishReasons|
  {
    var rs := e.finishReasons;
    if rs != [] && rs[0] == "" {
      var rest := e.(finishReasons := rs[1..]);
      FirstReasonGiven(rest);
      assert forall i :: 0 < i < |rs| ==> rs[i] == rest.finishReasons[i - 1];
      if FirstReason(rs) != "" {
        var i :| 0 <= i < |rest.finishReasons| && rest.finishReasons[i] == FirstReason(rs)
          && forall j :: 0 <= j < i ==> rest.finishReasons[j] == "";
        assert rs[i + 1] == FirstReason(rs);
      }
    }
  }

  lemma SomeGivesNext(es: seq<Envelope>, e: Envelope, reason: string)
    ensures SomeGives(es + [e], reason) <==> SomeGives(es, reason) || Gives(e, reason)
  {
    hide Gives;
    var all := es + [e];
    assert forall k :: 0 <= k < |es| ==> all[k] == es[k];
    assert all[|es|] == e;
    if SomeGives(es, reason) {
      var k :| 0 <= k < |es| && Gives(es[k], reason);
      assert Gives(all[k], reason);
    }
  }

  lemma UsageNext(usage: Option<Usage>, own: Option<Usage>, es: seq<Envelope>, e: Envelope)
    requires UsageFrom(usage, own, es)
    ensures UsageFrom(if usage == None then e.usage else usage, own, es + [e])
  {
    var all := es + [e];
    assert forall k :: 0 <= k < |es| ==> all[k] == es[k];
    assert all[|es|] == e;
    if own == None && usage != None {
      var k :| 0 <= k < |es| && es[k].usage == usage && forall j :: 0 <= j < k ==> es[j].usage == None;
      assert all[k].usage == usage;
    }
  }

  lemma ReasonNext(reason: string, own: string, es: seq<Envelope>, e: Envelope)
    requires ReasonFrom(reason, own, es)
    ensures GivesNone(e) ==> ReasonFrom(reason, own, es + [e])
    ensures forall x :: Gives(e, x) ==> ReasonFrom(x, own, es + [e])
  {
    hide Gives, GivesNone;
    var all := es + [e];
    assert forall k :: 0 <= k < |es| ==> all[k] == es[k];
    assert all[|es|] == e;
    forall x | Gives(e, x) ensures ReasonFrom(x, own, all) {
      assert Gives(all[|es|], x);
    }
    if !(reason == own && forall k :: 0 <= k < |es| ==> GivesNone(es[k])) {
      var k :| 0 <= k < |es| && Gives(es[k], reason) && forall j :: k < j < |es| ==> GivesNone(es[j]);
      assert Gives(all[k], reason);
    }
  }

  lemma EnvelopeNext(t: Response, r: Response, es: seq<Envelope>, e: Envelope)
    requires FromEnvelopes(t, r, es)
    ensures FromEnvelopes(ApplyEnvelope(t, e), r, es + [e])
  {
    var reason := FirstReason(e.finishReasons);
    FirstReasonGiven(e);
    ReasonGiven(e, "length");
    ReasonGiven(e, "content_filter");
    UsageNext(t.usage, r.usage, es, e);
    ReasonNext(t.finishReason, r.finishReason, es, e);
    SomeGivesNext(es, e, "length");
    SomeGivesNext(es, e, "content_filter");
    hide UsageFrom, ReasonFrom, SomeGives, Gives, GivesNone, FirstReason;
  }

  lemma ReasonGiven(e: Envelope, reason: string)
    requires reason != ""
    ensures Gives(e, reason) <==> FirstReason(e.finishReasons) == reason
  {
    FirstReasonGiven(e);
  }

  // ---- Nothing else touches it ------------------------------------------------------------

  predicate SameMetadata(a: Response, b: Response)
  {
    a.usage == b.usage && a.finishReason == b.finishReason && a.incomplete == b.incomplete && a.error == b.error
  }

  lemma {:induction false} ToolStepsMetadata(s: State, fs: seq<ToolFragment>)
    ensures ToolSteps(s, fs).response == s.response
    decreases |fs|
  {
    if fs != [] {
      ToolStepsMetadata(ToolStep(s, fs[0]), fs[1..]);
    }
  }

  lemma {:induction false} CloseCallsMetadata(s: State, calls: seq<Item>)
    ensures SameMetadata(CloseCalls(s, calls).response, s.response)
    decreases |calls|
  {
    if calls != [] {
      CloseCallsMetadata(s, calls[..|calls| - 1]);
    }
  }

  lemma ChunkMetadata(decode: Decoder, persist: bool, s: State, data: string)
    ensures SameMetadata(ProcessChunk(decode, persist, s, data).response, s.response)
  {
    hide ToolSteps;
    match decode(data).choices
    case None =>
    case Some(choices) =>
      if choices != [] {
        ToolStepsMetadata(s, choices[0].toolCalls);
      }
  }

  lemma FinalizeMetadata(persist: bool, s: State)
    ensures SameMetadata(Finalize(persist, s).response, s.response)
  {
    hide CloseCalls;
    CloseCallsMetadata(CloseMessage(s), s.calls);
  }

  lemma LineMetadata(decode: Decoder, persist: bool, s: State, line: string, r: Response, es: seq<Envelope>)
    requires FromEnvelopes(s.response, r, es)
    ensures FromEnvelopes(ApplyLine(decode, persist, s, line).response, r, es + EnvelopeOn(decode, line))
  {
    hide ProcessChunk, Finalize, ApplyEnvelope, UsageFrom, ReasonFrom, SomeGives, TrimSpace;
    FinalizeMetadata(persist, s);
    assert es + [] == es;
    match DataOf(line)
    case None =>
    case Some(data) =>
      ChunkMetadata(decode, persist, s, data);
      match decode(data).envelope
      case None =>
      case Some(e) =>
        EnvelopeNext(s.response, r, es, e);
        ChunkMetadata(decode, persist, s.(response := ApplyEnvelope(s.response, e)), data);
  }

  /**
   * For all lines, payloads that do not decode included: usage, finish reason, incomplete details and
   * error are what the envelopes on them say.
   */
  lemma {:induction false} LinesMetadata(decode: Decoder, persist: bool, s: State, lines: seq<string>, r: Response,
                                         es: seq<Envelope>)
    requires FromEnvelopes(s.response, r, es)
    ensures FromEnvelopes(All(decode, persist, s, lines).response, r, es + Envelopes(decode, lines))
    decreases |lines|
  {
    hide ApplyLine, FromEnvelopes, EnvelopeOn;
    if lines == [] {
      assert es + [] == es;
    } else {
      LineMetadata(decode, persist, s, lines[0], r, es);
      LinesMetadata(decode, persist, ApplyLine(decode, persist, s, lines[0]), lines[1..], r, es + EnvelopeOn(decode, lines[0]));
      assert es + EnvelopeOn(decode, lines[0]) + Envelopes(decode, lines[1..])
        == es + (EnvelopeOn(decode, lines[0]) + Envelopes(decode, lines[1..]));
    }
  }

  lemma NoEnvelopesYet(persist: bool, r: Response)
    ensures FromEnvelopes(Header(persist, Start(r), OK).response, r, [])
  {
  }

  lemma {:induction false} EnvelopesDone(decode: Decoder, lines: seq<string>, done: string)
    requires DataOf(done) == Some(DONE)
    ensures Envelopes(decode, lines + [done]) == Envelopes(decode, lines)
  {
    hide DataOf;
    if lines == [] {
      assert ([] + [done])[1..] == [];
      assert EnvelopeOn(decode, done) + [] == [];
    } else {
      assert (lines + [done])[1..] == lines[1..] + [done];
      EnvelopesDone(decode, lines[1..], done);
    }
  }
}
