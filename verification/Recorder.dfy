/**
 * The request recorder: bounded records per model, and the protocol between subscribers, their
 * disconnects and broadcasts, which may overlap with each other and with the readers.
 */
module Recorder {
  import opened Prelude

  const MAX_RECORDS := 10
  const CHANNEL_BUFFER := 100

  // ---- Records ----------------------------------------------------------------------------

  /** The last n elements, or all of them. */
  function Last<T>(n: nat, s: seq<T>): (t: seq<T>)
    ensures |t| == if |s| <= n then |s| else n
  {
    if |s| <= n then s else s[|s| - n..]
  }

  class Records<Model(==), Request> {
    var records: map<Model, seq<Request>>

    ghost predicate Valid()
      reads this
    {
      forall m :: m in records ==> |records[m]| <= MAX_RECORDS
    }

    ghost function Of(m: Model): seq<Request>
      reads this
    {
      if m in records then records[m] else []
    }

    constructor ()
      ensures Valid() && records == map[]
    {
      records := map[];
    }

    method RecordRequest(m: Model, r: Request)
      requires Valid()
      modifies this
      ensures Valid()
      ensures records == old(records)[m := Last(MAX_RECORDS, old(Of(m)) + [r])]
    {
      if m !in records {
        records := records[m := []];
      }
      var data := records[m];
      if |data| == MAX_RECORDS {
        data := data[1..] + [r];
      } else {
        data := data + [r];
      }
      records := records[m := data];
      assert data == Last(MAX_RECORDS, old(Of(m)) + [r]);
      assert records == old(records)[m := data];
    }
  }

  /** The records are what is left when the oldest beyond the last n are taken away. */
  lemma LastIsLast<T>(n: nat, before: seq<T>, last: seq<T>)
    requires |last| == n || (|last| < n && before == [])
    ensures Last(n, before + last) == last
  {
    assert [] + last == last;
  }

  /** Bounding at every step is bounding once: the records are the last ten of all requests. */
  lemma LastLast<T>(n: nat, a: seq<T>, b: seq<T>)
    ensures Last(n, Last(n, a) + b) == Last(n, a + b)
  {
  }

  /** The requests for one model among requests for many. */
  function Own<Model(==), Request>(m: Model, rs: seq<(Model, Request)>): seq<Request>
  {
    if rs == [] then []
    else Own(m, rs[..|rs| - 1]) + if rs[|rs| - 1].0 == m then [rs[|rs| - 1].1] else []
  }

  /** After any requests for any models, each model keeps exactly the last ten of its own, in order. */
  method RecordAll<Model(==,!new), Request>(store: Records<Model, Request>, rs: seq<(Model, Request)>)
    requires store.Valid()
    modifies store
    ensures store.Valid()
    ensures forall m :: store.Of(m) == Last(MAX_RECORDS, old(store.Of(m)) + Own(m, rs))
  {
    hide Last;
    var i := 0;
    forall m ensures store.Of(m) == Last(MAX_RECORDS, store.Of(m) + Own(m, rs[..0])) {
      OwnFirst(store, m, rs);
    }
    while i < |rs|
      invariant 0 <= i <= |rs| && store.Valid()
      invariant forall m :: store.Of(m) == Last(MAX_RECORDS, old(store.Of(m)) + Own(m, rs[..i]))
    {
      label before:
      store.RecordRequest(rs[i].0, rs[i].1);
      forall m ensures store.Of(m) == Last(MAX_RECORDS, old(store.Of(m)) + Own(m, rs[..i + 1])) {
        OwnNext(m, rs, i, old(store.Of(m)));
        assert old@before(store.Of(m)) == Last(MAX_RECORDS, old(store.Of(m)) + Own(m, rs[..i]));
      }
      i := i + 1;
    }
    assert rs[..i] == rs;
  }

  lemma OwnFirst<Model, Request>(store: Records<Model, Request>, m: Model, rs: seq<(Model, Request)>)
    requires store.Valid()
    ensures store.Of(m) == Last(MAX_RECORDS, store.Of(m) + Own(m, rs[..0]))
  {
    assert store.Of(m) + [] == store.Of(m);
  }

  lemma OwnNext<Model, Request>(m: Model, rs: seq<(Model, Request)>, i: nat, before: seq<Request>)
    requires i < |rs|
    ensures Last(MAX_RECORDS, before + Own(m, rs[..i + 1])) ==
      if rs[i].0 == m then Last(MAX_RECORDS, Last(MAX_RECORDS, before + Own(m, rs[..i])) + [rs[i].1])
      else Last(MAX_RECORDS, before + Own(m, rs[..i]))
  {
    assert rs[..i + 1][..i] == rs[..i];
    LastLast(MAX_RECORDS, before + Own(m, rs[..i]), [rs[i].1]);
    assert before + Own(m, rs[..i]) + [rs[i].1] == before + (Own(m, rs[..i]) + [rs[i].1]);
    assert before + (Own(m, rs[..i]) + []) == before + Own(m, rs[..i]);
  }

  // ---- Subscribers ------------------------------------------------------------------------

  type Message = nat

  /** A message sent to a channel while `waiting` others were still in its buffer. */
  datatype Sent = Sent(message: Message, waiting: nat)

  /** `id` is the key under which the channel was registered; several channels may share one. */
  datatype Channel = Channel(
    id: string,
    open: bool,
    closes: nat,
    buffer: seq<Message>,
    delivered: seq<Message>,   // read by the handler
    offered: seq<Sent>)        // everything broadcasts tried to send to it

  /** A broadcast in progress: it holds the read lock and still has to visit `left`. */
  datatype Broadcast = Broadcast(message: Message, left: set<string>)

  datatype State = State(
    channels: seq<Channel>,
    subscribers: map<string, nat>,   // id to channel number
    broadcasts: seq<Broadcast>)

  datatype Action =
    | Subscribe(id: string)
    | Disconnect(c: nat)
    | BeginBroadcast(message: Message)
    | Offer(b: nat, id: string)
    | EndBroadcast(b: nat)
    | Receive(c: nat)

  function Init(): State
  {
    State([], map[], [])
  }

  /** Registering and disconnecting take the write lock, so no broadcast is in progress then. */
  predicate Enabled(s: State, a: Action)
  {
    match a
    case Subscribe(_) => s.broadcasts == []
    case Disconnect(c) => c < |s.channels| && s.channels[c].open && s.broadcasts == []
    case BeginBroadcast(_) => true
    case Offer(b, id) => b < |s.broadcasts| && id in s.broadcasts[b].left
    case EndBroadcast(b) => b < |s.broadcasts| && s.broadcasts[b].left == {}
    case Receive(c) => c < |s.channels| && s.channels[c].open && s.channels[c].buffer != []
  }

  /** The channel an offer goes to. */
  function Target(s: State, id: string): Option<nat>
  {
    if id in s.subscribers && s.subscribers[id] < |s.channels| then Some(s.subscribers[id]) else None
  }

  /** A select with a default: the message is put into the buffer, or skipped when it is full. */
  function TrySend(ch: Channel, m: Message): Channel
  {
    var offered := ch.offered + [Sent(m, |ch.buffer|)];
    if |ch.buffer| < CHANNEL_BUFFER then ch.(buffer := ch.buffer + [m], offered := offered)
    else ch.(offered := offered)
  }

  function Step(s: State, a: Action): State
    requires Enabled(s, a)
  {
    match a
    case Subscribe(id) =>
      s.(channels := s.channels + [Channel(id, true, 0, [], [], [])],
         subscribers := s.subscribers[id := |s.channels|])
    case Disconnect(c) =>
      var ch := s.channels[c];
      s.(subscribers := s.subscribers - {ch.id},
         channels := s.channels[c := ch.(open := false, closes := ch.closes + 1)])
    case BeginBroadcast(m) => s.(broadcasts := s.broadcasts + [Broadcast(m, s.subscribers.Keys)])
    case Offer(b, id) =>
      var cast := s.broadcasts[b];
      var s1 := s.(broadcasts := s.broadcasts[b := cast.(left := cast.left - {id})]);
      (match Target(s, id)
       case None => s1
       case Some(c) => s1.(channels := s.channels[c := TrySend(s.channels[c], cast.message)]))
    case EndBroadcast(b) => s.(broadcasts := s.broadcasts[..b] + s.broadcasts[b + 1..])
    case Receive(c) =>
      var ch := s.channels[c];
      s.(channels := s.channels[c := ch.(buffer := ch.buffer[1..], delivered := ch.delivered + [ch.buffer[0]])])
  }

  // ---- The invariant ----------------------------------------------------------------------

  /** The messages that found room. */
  function Accepted(offered: seq<Sent>): seq<Message>
  {
    if offered == [] then []
    else
      var last := offered[|offered| - 1];
      Accepted(offered[..|offered| - 1]) + if last.waiting < CHANNEL_BUFFER then [last.message] else []
  }

  ghost predicate ChannelOk(ch: Channel)
  {
    && |ch.buffer| <= CHANNEL_BUFFER
    && ch.delivered + ch.buffer == Accepted(ch.offered)
    && ch.closes == if ch.open then 0 else 1
  }

  ghost predicate Inv(s: State)
  {
    && (forall c :: 0 <= c < |s.channels| ==> ChannelOk(s.channels[c]))
    && (forall id :: id in s.subscribers ==>
         && s.subscribers[id] < |s.channels|
         && s.channels[s.subscribers[id]].open
         && s.channels[s.subscribers[id]].id == id)
    && forall b :: 0 <= b < |s.broadcasts| ==> s.broadcasts[b].left <= s.subscribers.Keys
  }

  lemma TrySendOk(ch: Channel, m: Message)
    requires ChannelOk(ch)
    ensures ChannelOk(TrySend(ch, m))
  {
    var offered := ch.offered + [Sent(m, |ch.buffer|)];
    assert offered[..|offered| - 1] == ch.offered;
    assert ch.delivered + (ch.buffer + [m]) == ch.delivered + ch.buffer + [m];
    assert Accepted(ch.offered) + [] == Accepted(ch.offered);
  }

  lemma ReceiveOk(ch: Channel)
    requires ChannelOk(ch) && ch.buffer != []
    ensures ChannelOk(ch.(buffer := ch.buffer[1..], delivered := ch.delivered + [ch.buffer[0]]))
  {
    assert ch.delivered + [ch.buffer[0]] + ch.buffer[1..] == ch.delivered + ch.buffer;
  }

  /** A channel changes but stays registered as it was. */
  lemma ChannelInv(s: State, c: nat, ch: Channel)
    requires Inv(s) && c < |s.channels| && ChannelOk(ch)
    requires ch.id == s.channels[c].id && ch.open == s.channels[c].open
    ensures Inv(s.(channels := s.channels[c := ch]))
  {
    hide ChannelOk;
  }

  lemma DisconnectInv(s: State, c: nat)
    requires Inv(s) && Enabled(s, Disconnect(c))
    ensures Inv(Step(s, Disconnect(c)))
  {
    hide ChannelOk;
    ClosedOk(s.channels[c]);
  }

  lemma OfferInv(s: State, b: nat, id: string)
    requires Inv(s) && Enabled(s, Offer(b, id))
    ensures Inv(Step(s, Offer(b, id)))
  {
    hide ChannelOk, TrySend;
    var cast := s.broadcasts[b];
    var s1 := s.(broadcasts := s.broadcasts[b := cast.(left := cast.left - {id})]);
    assert Inv(s1);
    if id in s.subscribers {
      TrySendOk(s.channels[s.subscribers[id]], cast.message);
      TrySendStays(s.channels[s.subscribers[id]], cast.message);
      ChannelInv(s1, s.subscribers[id], TrySend(s.channels[s.subscribers[id]], cast.message));
    }
  }

  lemma TrySendStays(ch: Channel, m: Message)
    ensures TrySend(ch, m).id == ch.id && TrySend(ch, m).open == ch.open
  {
  }

  lemma StepInv(s: State, a: Action)
    requires Inv(s) && Enabled(s, a)
    ensures Inv(Step(s, a))
  {
    hide ChannelOk;
    match a
    case Subscribe(id) => NewOk(id);
    case Disconnect(c) => DisconnectInv(s, c);
    case BeginBroadcast(_) =>
    case Offer(b, id) => OfferInv(s, b, id);
    case EndBroadcast(_) =>
    case Receive(c) =>
      var ch := s.channels[c];
      ReceiveOk(ch);
      ChannelInv(s, c, ch.(buffer := ch.buffer[1..], delivered := ch.delivered + [ch.buffer[0]]));
  }

  lemma NewOk(id: string)
    ensures ChannelOk(Channel(id, true, 0, [], [], []))
  {
  }

  lemma ClosedOk(ch: Channel)
    requires ChannelOk(ch) && ch.open
    ensures ChannelOk(ch.(open := false, closes := ch.closes + 1))
  {
  }

  // ---- Every interleaving -----------------------------------------------------------------

  ghost predicate Runs(s: State, actions: seq<Action>)
    decreases |actions|
  {
    actions == [] || (Enabled(s, actions[0]) && Runs(Step(s, actions[0]), actions[1..]))
  }

  function Run(s: State, actions: seq<Action>): State
    requires Runs(s, actions)
    decreases |actions|
  {
    if actions == [] then s else Run(Step(s, actions[0]), actions[1..])
  }

  lemma {:induction false} RunInv(s: State, actions: seq<Action>)
    requires Inv(s) && Runs(s, actions)
    ensures Inv(Run(s, actions))
    decreases |actions|
  {
    if actions != [] {
      StepInv(s, actions[0]);
      hide Inv, Step;
      RunInv(Step(s, actions[0]), actions[1..]);
    }
  }

  /**
   * In every interleaving, ids that collide included: an offer always finds an open channel, no
   * channel is closed twice, and each subscriber has read, or has waiting, exactly the messages it
   * was offered while there was room for them, in order: none is skipped but by a full buffer.
   */
  lemma ProtocolSafe(actions: seq<Action>)
    requires Runs(Init(), actions)
    ensures var s := Run(Init(), actions);
      && (forall b, id :: Enabled(s, Offer(b, id)) ==> Target(s, id) != None && s.channels[Target(s, id).value].open)
      && (forall c :: 0 <= c < |s.channels| ==>
           && s.channels[c].closes <= 1
           && (s.channels[c].closes == 1 <==> !s.channels[c].open)
           && |s.channels[c].buffer| <= CHANNEL_BUFFER
           && s.channels[c].delivered + s.channels[c].buffer == Accepted(s.channels[c].offered))
  {
    RunInv(Init(), actions);
  }

  /** A broadcast always makes progress: there is a subscriber left to visit, or it can end. */
  lemma BroadcastNeverStuck(s: State, b: nat) returns (a: Action)
    requires b < |s.broadcasts|
    ensures Enabled(s, a) && (a.Offer? || a.EndBroadcast?)
    ensures |Step(s, a).broadcasts| < |s.broadcasts|
         || (|Step(s, a).broadcasts| == |s.broadcasts| && Step(s, a).broadcasts[b].left < s.broadcasts[b].left)
  {
    if s.broadcasts[b].left == {} {
      a := EndBroadcast(b);
    } else {
      var id :| id in s.broadcasts[b].left;
      a := Offer(b, id);
    }
  }

  // ---- Who is cut off ---------------------------------------------------------------------

  /** Broadcasts reach the channel: its id leads to it. */
  predicate Reachable(s: State, c: nat)
  {
    c < |s.channels| && s.channels[c].id in s.subscribers && s.subscribers[s.channels[c].id] == c
  }

  /** Every subscriber that has not left is reached. */
  ghost predicate AllReached(s: State)
  {
    forall c :: 0 <= c < |s.channels| && s.channels[c].open ==> Reachable(s, c)
  }

  ghost predicate AlwaysReached(s: State, actions: seq<Action>)
    requires Runs(s, actions)
    decreases |actions|
  {
    AllReached(s) && (actions == [] || AlwaysReached(Step(s, actions[0]), actions[1..]))
  }

  /** Nobody subscribes under an id that is still registered. */
  ghost predicate IdsApart(s: State, actions: seq<Action>)
    requires Runs(s, actions)
    decreases |actions|
  {
    actions == [] ||
    ((actions[0].Subscribe? ==> actions[0].id !in s.subscribers) && IdsApart(Step(s, actions[0]), actions[1..]))
  }

  /**
   * Exact effect of every step: a channel that is reached stays so unless someone subscribes under
   * its id, or a channel with its id leaves; and no step reaches one that was not.
   */
  lemma ReachedAfterStep(s: State, a: Action, d: nat)
    requires Inv(s) && Enabled(s, a) && d < |s.channels|
    ensures Reachable(Step(s, a), d) <==>
      && Reachable(s, d)
      && (a.Subscribe? ==> a.id != s.channels[d].id)
      && (a.Disconnect? ==> s.channels[a.c].id != s.channels[d].id)
  {
    hide ChannelOk;
    match a
    case Subscribe(id) =>
    case Disconnect(c) =>
    case BeginBroadcast(m) =>
    case Offer(b, id) =>
    case EndBroadcast(b) =>
    case Receive(c) =>
  }

  /** A step keeps everybody reached exactly when it is no subscription under a registered id. */
  lemma StepReached(s: State, a: Action)
    requires Inv(s) && AllReached(s) && Enabled(s, a)
    ensures AllReached(Step(s, a)) <==> (a.Subscribe? ==> a.id !in s.subscribers)
  {
    hide ChannelOk;
    var t := Step(s, a);
    forall c | 0 <= c < |s.channels|
      ensures t.channels[c].open ==> s.channels[c].open
      ensures Reachable(t, c) <==>
        && Reachable(s, c)
        && (a.Subscribe? ==> a.id != s.channels[c].id)
        && (a.Disconnect? ==> s.channels[a.c].id != s.channels[c].id)
    {
      ReachedAfterStep(s, a, c);
    }
    if a.Subscribe? {
      assert Reachable(t, |s.channels|);
      if a.id in s.subscribers {
        var c := s.subscribers[a.id];
        assert t.channels[c].open && !Reachable(t, c);
      }
    } else if a.Disconnect? {
      assert Reachable(s, a.c);
    }
  }

  /**
   * Over every run: all subscribers that have not left are reached at all times if and only if
   * nobody ever subscribes under an id that is still registered.
   */
  lemma {:induction false} ReachedIffIdsApart(s: State, actions: seq<Action>)
    requires Inv(s) && AllReached(s) && Runs(s, actions)
    ensures AlwaysReached(s, actions) <==> IdsApart(s, actions)
    decreases |actions|
  {
    if actions != [] {
      var a, t := actions[0], Step(s, actions[0]);
      StepInv(s, a);
      StepReached(s, a);
      hide Inv, Step, AllReached;
      if AllReached(t) {
        ReachedIffIdsApart(t, actions[1..]);
      }
    }
  }

  /** From the start: the ids of the subscribers decide alone. */
  lemma NobodyCutOffIff(actions: seq<Action>)
    requires Runs(Init(), actions)
    ensures AlwaysReached(Init(), actions) <==> IdsApart(Init(), actions)
  {
    ReachedIffIdsApart(Init(), actions);
  }

  /**
   * Two subscribers under one id: the second registration already cuts the first one off, and when
   * the first one leaves, the second is cut off too although its channel is open.
   */
  lemma CollidingIdsStarve(id: string)
    ensures var actions := [Subscribe(id), Subscribe(id)];
      && Runs(Init(), actions)
      && var s := Run(Init(), actions);
         && |s.channels| == 2 && s.channels[0].open && !Reachable(s, 0)
         && Enabled(s, Disconnect(0))
         && var t := Step(s, Disconnect(0));
            t.channels[1].open && !Reachable(t, 1) && t.subscribers == map[]
  {
    var actions := [Subscribe(id), Subscribe(id)];
    var s1 := Step(Init(), Subscribe(id));
    var s2 := Step(s1, Subscribe(id));
    assert actions[1..] == [Subscribe(id)] && actions[1..][1..] == [];
    assert Runs(s2, []) && Run(s2, []) == s2;
    assert Runs(s1, actions[1..]) && Run(s1, actions[1..]) == s2;
  }
}
