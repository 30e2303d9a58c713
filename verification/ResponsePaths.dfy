/** How the streaming writer and the non-streaming handler compare on the same upstream answer. */
module ResponsePaths {
  import opened Prelude
  import opened ResponseTypes
  import opened ResponseStream
  import opened ResponseRuns
  import Store = ResponseStore

  // ---- Order of the output items ----------------------------------------------------------

  /** Which of the items are messages. */
  function Kinds(items: seq<Item>): (k: seq<bool>)
    ensures |k| == |items| && forall i :: 0 <= i < |k| ==> k[i] == items[i].Message?
  {
    seq(|items|, i requires 0 <= i < |items| => items[i].Message?)
  }

  /** A finished writer and a parsed completion that hold the same text and as many calls. */
  ghost predicate SameAnswer(s: State, chat: Store.Completion)
  {
    && (s.message == None <==> chat.content == "")
    && (forall i :: 0 <= i < |s.calls| ==> s.calls[i].FunctionCall?)
    && |s.calls| == |chat.toolCalls|
  }

  /** Both paths list the same items in the same order exactly when there is no text or no tool call. */
  lemma SameOrderIff(s: State, chat: Store.Completion, minted: nat)
    requires SameAnswer(s, chat)
    ensures Kinds(MessageItems(s) + FinishedCalls(s.calls)) == Kinds(Store.CompletionItems(chat, minted))
      <==> chat.content == "" || chat.toolCalls == []
  {
    hide FinishedCalls;
    var streamed, whole := MessageItems(s) + FinishedCalls(s.calls), Store.CompletionItems(chat, minted);
    assert |streamed| == |whole|;
    if chat.content != "" && chat.toolCalls != [] {
      assert Kinds(streamed)[0] && !Kinds(whole)[0];
    } else if chat.content == "" {
      assert forall i :: 0 <= i < |streamed| ==> streamed[i] == FinishedCalls(s.calls)[i];
    }
  }

  // ---- Fragments of one call --------------------------------------------------------------

  lemma {:induction false} OpenersBounds(fs: seq<ToolFragment>)
    ensures |Openers(fs)| <= |fs|
    ensures fs != [] ==> |Openers(fs)| >= 1
  {
    if fs != [] {
      OpenersBounds(fs[..|fs| - 1]);
      assert |fs| == 1 ==> Opens(fs, 0);
    }
  }

  /** Some fragment after the first opens a call of its own. */
  ghost predicate Splits(fs: seq<ToolFragment>)
  {
    exists k :: 0 < k < |fs| && Opens(fs, k)
  }

  lemma SplitsStep(fs: seq<ToolFragment>)
    requires |fs| > 1
    ensures Splits(fs) <==> Splits(fs[..|fs| - 1]) || Opens(fs, |fs| - 1)
  {
    var init := fs[..|fs| - 1];
    assert forall k :: 0 <= k < |init| ==> Opens(init, k) == Opens(fs, k);
    if Splits(init) {
      var k :| 0 < k < |init| && Opens(init, k);
      assert Opens(fs, k);
    }
    if Splits(fs) && !Opens(fs, |fs| - 1) {
      var k :| 0 < k < |fs| && Opens(fs, k);
      assert Opens(init, k);
    }
  }

  lemma {:induction false} OneOpener(fs: seq<ToolFragment>)
    requires fs != []
    ensures |Openers(fs)| == 1 <==> !Splits(fs)
  {
    var init := fs[..|fs| - 1];
    OpenersBounds(fs);
    if |fs| > 1 {
      OpenersBounds(init);
      OneOpener(init);
      SplitsStep(fs);
    }
  }

  /**
   * The fragments of a streamed call are gathered into one item exactly when there is one fragment,
   * or all carry the same non-empty id. Upstreams that send the id in the first fragment only, and
   * an index in all, have every later fragment opened as a call of its own.
   */
  lemma OneCallIff(fs: seq<ToolFragment>)
    requires fs != []
    ensures |Openers(fs)| == 1 <==>
      |fs| == 1 || (fs[0].id != "" && forall k :: 0 <= k < |fs| ==> fs[k].id == fs[0].id)
  {
    hide Openers;
    OneOpener(fs);
    if |fs| > 1 {
      assert Opens(fs, 1) ==> Splits(fs);
      if fs[0].id != "" && forall k :: 0 <= k < |fs| ==> fs[k].id == fs[0].id {
        forall k | 0 < k < |fs| ensures !Opens(fs, k) {
          assert fs[0].id == fs[k].id;
        }
      } else if !Splits(fs) {
        AllLikeFirst(fs, |fs|);
      }
    }
  }

  lemma {:induction false} AllLikeFirst(fs: seq<ToolFragment>, n: nat)
    requires 0 < n <= |fs| && !Splits(fs)
    ensures forall k :: 0 <= k < n ==> fs[k].id == fs[0].id
    decreases n
  {
    if n > 1 {
      AllLikeFirst(fs, n - 1);
      assert !Opens(fs, n - 1);
    }
  }

  /** With the id in the first fragment only, there are as many calls as fragments. */
  lemma {:induction false} ContinuationsOpenCalls(fs: seq<ToolFragment>)
    requires forall k :: 0 < k < |fs| ==> fs[k].id == ""
    ensures |Openers(fs)| == |fs|
  {
    if fs != [] {
      ContinuationsOpenCalls(fs[..|fs| - 1]);
      assert Opens(fs, |fs| - 1);
    }
  }

  // ---- A streamed answer in the next request ----------------------------------------------

  /**
   * The history that a completed stream contributes to a later request: the assistant's text, if any,
   * and then every call with its upstream or minted id, its name and all its arguments.
   */
  lemma StreamedHistory(persist: bool, s: State, t: State)
    requires forall i :: 0 <= i < |s.calls| ==> s.calls[i].FunctionCall?
    requires Complete(persist, s, t)
    ensures var ms := Store.OutputMessages(t.response.output);
      var n := if s.message == None then 0 else 1;
      && |ms| == n + |s.calls|
      && (s.message != None ==> ms[0] == Store.Text("assistant", s.text))
      && forall i :: 0 <= i < |s.calls| ==>
        ms[n + i] == Store.ToolCallMessage(s.calls[i].callId, s.calls[i].name, s.calls[i].arguments)
  {
    hide Life, ClosedMessageLife, ClosedCallLife, Owned, FinishedCalls, Store.OutputMessages;
    ItemsSaid(MessageItems(s), s.calls);
  }

  lemma ItemsSaid(messages: seq<Item>, calls: seq<Item>)
    requires forall i :: 0 <= i < |calls| ==> calls[i].FunctionCall?
    ensures var ms := Store.OutputMessages(messages + FinishedCalls(calls));
      && |ms| == |messages| + |calls|
      && (forall i :: 0 <= i < |messages| ==> ms[i] == Store.MessageOf(messages[i]))
      && forall i :: 0 <= i < |calls| ==>
        ms[|messages| + i] == Store.ToolCallMessage(calls[i].callId, calls[i].name, calls[i].arguments)
  {
    hide FinishedCalls;
    var items := messages + FinishedCalls(calls);
    assert forall i :: 0 <= i < |calls| ==> items[|messages| + i] == Finished(calls[i]);
    hide Store.OutputMessages;
  }
}
