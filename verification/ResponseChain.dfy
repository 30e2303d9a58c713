/**
 * Conversation chaining over whole runs. The recursion along previous_response_id carries no
 * counter; it ends because every link was checked against the store before its owner could be
 * saved, so links lead back in the order of those checks, whatever is interleaved.
 */
module ResponseChain {
  import opened Prelude
  import opened ResponseTypes
  import opened ResponseStore

  /**
   * `pending` holds the creations that passed the predecessor check and may still save, with
   * their predecessor; `order` lists all ids in the order of that check.
   */
  datatype World = World(
    now: int,
    ttl: nat,
    entries: Entries,
    pending: map<string, Option<string>>,
    order: seq<string>)

  function Fresh(ttl: nat, now: int): World
  {
    World(now, ttl, map[], map[], [])
  }

  datatype Action =
    | Tick(later: int)
    | Create(id: string, previous: Option<string>)
    | Save(response: Response)
    | Delete(id: string)
    | Update(id: string, f: Response -> Response)
    | Cleanup

  /** When a step may happen: fresh ids, live predecessors, saves by their creator only. */
  ghost predicate Enabled(w: World, a: Action)
  {
    match a
    case Tick(later) => later >= w.now
    case Create(id, previous) =>
      && id !in w.order
      && (match LinkOf(previous) case None => true case Some(p) => Live(w.entries, w.now, p))
    case Save(r) => r.id in w.pending && w.pending[r.id] == r.previous
    case Update(id, f) => forall r :: f(r).id == r.id && f(r).previous == r.previous
    case _ => true
  }

  function Step(w: World, a: Action): World
  {
    match a
    case Tick(later) => w.(now := later)
    case Create(id, previous) => w.(pending := w.pending[id := previous], order := w.order + [id])
    case Save(r) => w.(entries := Saved(w.entries, w.now, w.ttl, r))
    case Delete(id) => w.(entries := w.entries - {id})
    case Update(id, f) => w.(entries := Updated(w.entries, w.now, w.ttl, id, f))
    case Cleanup => w.(entries := Cleaned(w.entries, w.now))
  }

  ghost predicate Inv(w: World)
  {
    && WellLinked(w.entries, w.order)
    && forall id :: id in w.pending ==> LinksBack(w.order, id, w.pending[id])
  }

  lemma {:induction false} RankAppend(order: seq<string>, x: string, id: string)
    ensures id in order ==> Rank(order + [x], id) == Rank(order, id)
    ensures id !in order ==> Rank(order + [x], x) == if x in order then Rank(order, x) else |order|
  {
    if order != [] {
      assert (order + [x])[1..] == order[1..] + [x];
      RankAppend(order[1..], x, id);
    } else {
      assert [x][0] == x;
    }
  }

  lemma LinksBackAppend(order: seq<string>, x: string, id: string, previous: Option<string>)
    requires LinksBack(order, id, previous)
    ensures LinksBack(order + [x], id, previous)
  {
    RankAppend(order, x, id);
    match LinkOf(previous)
    case None =>
    case Some(p) => RankAppend(order, x, p);
  }

  lemma StepKeepsInv(w: World, a: Action)
    requires Inv(w) && Enabled(w, a)
    ensures Inv(Step(w, a))
    ensures w.order <= Step(w, a).order
  {
    match a
    case Create(id, previous) =>
      forall x | x in w.entries ensures LinksBack(w.order + [id], x, w.entries[x].response.previous) {
        LinksBackAppend(w.order, id, x, w.entries[x].response.previous);
      }
      forall x | x in w.pending && x != id ensures LinksBack(w.order + [id], x, w.pending[x]) {
        LinksBackAppend(w.order, id, x, w.pending[x]);
      }
      RankAppend(w.order, id, id);
      match LinkOf(previous) {
        case None =>
        case Some(p) => RankAppend(w.order, id, p);
      }
    case Update(id, f) =>
    case _ =>
  }

  // ---- Whole runs -------------------------------------------------------------------------

  function Run(w: World, actions: seq<Action>): World
    decreases |actions|
  {
    if actions == [] then w else Run(Step(w, actions[0]), actions[1..])
  }

  ghost predicate Runs(w: World, actions: seq<Action>)
    decreases |actions|
  {
    actions == [] || (Enabled(w, actions[0]) && Runs(Step(w, actions[0]), actions[1..]))
  }

  /** In every reachable store the links lead back in validation order, so History is defined. */
  lemma {:induction false} RunKeepsInv(w: World, actions: seq<Action>)
    requires Inv(w) && Runs(w, actions)
    ensures Inv(Run(w, actions))
    ensures w.order <= Run(w, actions).order
    decreases |actions|
  {
    if actions != [] {
      StepKeepsInv(w, actions[0]);
      hide Step;
      RunKeepsInv(Step(w, actions[0]), actions[1..]);
    }
  }

  lemma ReachableLinksBack(ttl: nat, now: int, actions: seq<Action>, id: string)
    requires Runs(Fresh(ttl, now), actions)
    requires id in Run(Fresh(ttl, now), actions).entries
    ensures var w := Run(Fresh(ttl, now), actions);
      && WellLinked(w.entries, w.order)
      && LinksBack(w.order, id, w.entries[id].response.previous)
  {
    RunKeepsInv(Fresh(ttl, now), actions);
  }

  // ---- What History returns ---------------------------------------------------------------

  /** `older` is what a lookup of newer's predecessor returns. */
  ghost predicate Precedes(entries: Entries, now: int, older: Response, newer: Response)
  {
    match LinkOf(newer.previous)
    case None => false
    case Some(p) => Lookup(entries, now, p) == Some(older)
  }

  /** Responses oldest first, each the live predecessor of the next, cut where none is live. */
  ghost predicate IsChain(entries: Entries, now: int, rs: seq<Response>)
  {
    && rs != []
    && (forall i, j :: 0 <= i && j == i + 1 && j < |rs| ==> Precedes(entries, now, rs[i], rs[j]))
    && forall r :: !Precedes(entries, now, r, rs[0])
  }

  function Transcript(rs: seq<Response>): seq<ChatMessage>
  {
    if rs == [] then [] else Transcript(rs[..|rs| - 1]) + OutputMessages(rs[|rs| - 1].output)
  }

  lemma TranscriptSnoc(rs: seq<Response>, r: Response)
    ensures Transcript(rs + [r]) == Transcript(rs) + OutputMessages(r.output)
  {
    assert (rs + [r])[..|rs|] == rs;
  }

  /** History is the transcript of the chain that ends in r, which is no longer than its rank allows. */
  lemma {:induction false} HistoryIsTranscript(entries: Entries, now: int, order: seq<string>, r: Response)
    returns (rs: seq<Response>)
    requires WellLinked(entries, order) && LinksBack(order, r.id, r.previous)
    ensures IsChain(entries, now, rs) && rs[|rs| - 1] == r
    ensures History(entries, now, order, r) == Transcript(rs)
    ensures |rs| <= Rank(order, r.id) + 1
    decreases Rank(order, r.id)
  {
    hide OutputMessages, Transcript;
    var prev := match LinkOf(r.previous) case None => None case Some(p) => Lookup(entries, now, p);
    if prev == None {
      rs := [r];
      TranscriptSnoc([], r);
      EmptyTranscript();
      assert [] + [r] == rs;
    } else {
      var older := HistoryIsTranscript(entries, now, order, prev.value);
      rs := older + [r];
      TranscriptSnoc(older, r);
      assert rs[0] == older[0];
    }
  }

  lemma EmptyTranscript()
    ensures Transcript([]) == []
  {
  }

  /** There is one such chain. */
  lemma {:induction false} ChainUnique(entries: Entries, now: int, a: seq<Response>, b: seq<Response>)
    requires IsChain(entries, now, a) && IsChain(entries, now, b)
    requires a[|a| - 1] == b[|b| - 1]
    ensures a == b
    decreases |a|
  {
    var m, n := |a| - 1, |b| - 1;
    if m > 0 {
      assert Precedes(entries, now, a[m - 1], a[m]);
    }
    if n > 0 {
      assert Precedes(entries, now, b[n - 1], b[n]);
    }
    if m > 0 && n > 0 {
      ChainUnique(entries, now, a[..m], b[..n]);
      assert a == a[..m] + [a[m]] && b == b[..n] + [b[n]];
    }
  }

  // ---- A build that is itself interleaved -------------------------------------------------

  /**
   * A history build releases the lock between lookups. `ws[k]` is the store at the k-th lookup and
   * `rs[k]` the response whose predecessor is then looked up.
   */
  ghost predicate IsWalk(ws: seq<World>, rs: seq<Response>)
  {
    && |ws| == |rs| > 0
    && LinksBack(ws[0].order, rs[0].id, rs[0].previous)
    && (forall k :: 0 <= k < |ws| ==> Inv(ws[k]))
    && forall j, k :: 0 <= j && k == j + 1 && k < |ws| ==>
         ws[j].order <= ws[k].order && Precedes(ws[j].entries, ws[j].now, rs[k], rs[j])
  }

  lemma {:induction false} RankPrefix(a: seq<string>, b: seq<string>, id: string)
    requires a <= b && id in a
    ensures Rank(b, id) == Rank(a, id)
  {
    if a[0] != id {
      assert b[1..] == b[1..] && a[1..] <= b[1..];
      RankPrefix(a[1..], b[1..], id);
    }
  }

  lemma LinksBackPrefix(a: seq<string>, b: seq<string>, id: string, previous: Option<string>)
    requires a <= b && LinksBack(a, id, previous)
    ensures LinksBack(b, id, previous) && Rank(b, id) == Rank(a, id)
  {
    RankPrefix(a, b, id);
    match LinkOf(previous)
    case None =>
    case Some(p) => RankPrefix(a, b, p);
  }

  /** However other requests interleave, a build makes at most as many lookups as its rank allows. */
  lemma {:induction false} WalkTerminates(ws: seq<World>, rs: seq<Response>)
    requires IsWalk(ws, rs)
    ensures |ws| <= Rank(ws[0].order, rs[0].id) + 1
    decreases |ws|
  {
    if |ws| > 1 {
      assert Precedes(ws[0].entries, ws[0].now, rs[1], rs[0]);
      var p := LinkOf(rs[0].previous).value;
      assert rs[1].id == p;
      LinksBackPrefix(ws[0].order, ws[1].order, p, rs[1].previous);
      WalkTerminates(ws[1..], rs[1..]);
    }
  }

  // ---- Cleanup is invisible ---------------------------------------------------------------

  /** The same world but for entries that have already expired. */
  ghost predicate Alike(v: World, w: World)
  {
    && v.now == w.now && v.ttl == w.ttl && v.pending == w.pending && v.order == w.order
    && forall id :: Lookup(v.entries, v.now, id) == Lookup(w.entries, w.now, id)
                 && (Live(v.entries, v.now, id) ==> v.entries[id] == w.entries[id])
  }

  /** Alike worlds allow the same steps and stay alike, so no later observation tells them apart. */
  lemma AlikeStep(v: World, w: World, a: Action)
    requires Alike(v, w)
    ensures Enabled(v, a) <==> Enabled(w, a)
    ensures Enabled(v, a) ==> Alike(Step(v, a), Step(w, a))
  {
    match a
    case Tick(later) =>
      if later >= v.now {
        forall id
          ensures Lookup(v.entries, later, id) == Lookup(w.entries, later, id)
          ensures Live(v.entries, later, id) ==> v.entries[id] == w.entries[id]
        {
          assert Lookup(v.entries, v.now, id) == Lookup(w.entries, w.now, id);
          assert Live(w.entries, w.now, id) <==> Live(v.entries, v.now, id);
        }
      }
    case Create(id, previous) =>
      assert forall x :: Lookup(v.entries, v.now, x) == Lookup(w.entries, w.now, x);
      assert forall x :: Live(v.entries, v.now, x) <==> Lookup(v.entries, v.now, x) != None;
      assert forall x :: Live(w.entries, w.now, x) <==> Lookup(w.entries, w.now, x) != None;
    case Save(r) =>
    case Delete(id) =>
    case Update(id, f) =>
      assert Lookup(v.entries, v.now, id) == Lookup(w.entries, w.now, id);
    case Cleanup =>
  }

  /** The actions without the background cleanups. */
  function WithoutCleanup(actions: seq<Action>): seq<Action>
  {
    if actions == [] then []
    else (if actions[0].Cleanup? then [] else [actions[0]]) + WithoutCleanup(actions[1..])
  }

  lemma {:induction false} AlikeRun(v: World, w: World, actions: seq<Action>)
    requires Alike(v, w) && Runs(v, actions)
    ensures Runs(w, WithoutCleanup(actions))
    ensures Alike(Run(v, actions), Run(w, WithoutCleanup(actions)))
    decreases |actions|
  {
    hide Step, Enabled, Alike;
    if actions != [] {
      var a := actions[0];
      AlikeStep(v, w, a);
      if a.Cleanup? {
        CleanupLeft(v, w);
        AlikeRun(Step(v, a), w, actions[1..]);
        assert [] + WithoutCleanup(actions[1..]) == WithoutCleanup(actions[1..]);
      } else {
        AlikeRun(Step(v, a), Step(w, a), actions[1..]);
        assert ([a] + WithoutCleanup(actions[1..]))[1..] == WithoutCleanup(actions[1..]);
      }
    }
  }

  lemma CleanupLeft(v: World, w: World)
    requires Alike(v, w)
    ensures Alike(Step(v, Cleanup), w)
  {
    forall id ensures Lookup(Step(v, Cleanup).entries, v.now, id) == Lookup(w.entries, w.now, id) {
      assert Lookup(v.entries, v.now, id) == Lookup(w.entries, w.now, id);
    }
  }

  /** Alike stores build the same history. */
  lemma {:induction false} AlikeHistory(v: World, w: World, r: Response)
    requires Alike(v, w) && Inv(v) && Inv(w) && LinksBack(v.order, r.id, r.previous)
    ensures History(v.entries, v.now, v.order, r) == History(w.entries, w.now, w.order, r)
    decreases Rank(v.order, r.id)
  {
    match LinkOf(r.previous)
    case None =>
    case Some(p) =>
      assert Lookup(v.entries, v.now, p) == Lookup(w.entries, w.now, p);
      match Lookup(v.entries, v.now, p)
      case None =>
      case Some(prev) => AlikeHistory(v, w, prev);
  }

  /**
   * For every run: whatever cleanups happened, lookups and history builds return what they would
   * have returned without any of them.
   */
  lemma CleanupInvisible(ttl: nat, now: int, actions: seq<Action>, id: string)
    requires Runs(Fresh(ttl, now), actions)
    ensures var v, w := Run(Fresh(ttl, now), actions), Run(Fresh(ttl, now), WithoutCleanup(actions));
      && Lookup(v.entries, v.now, id) == Lookup(w.entries, w.now, id)
      && (Live(v.entries, v.now, id) ==>
           && WellLinked(v.entries, v.order) && WellLinked(w.entries, w.order)
           && LinksBack(v.order, id, v.entries[id].response.previous)
           && LinksBack(w.order, id, v.entries[id].response.previous)
           && History(v.entries, v.now, v.order, v.entries[id].response)
              == History(w.entries, w.now, w.order, v.entries[id].response))
  {
    var start := Fresh(ttl, now);
    var v, w := Run(start, actions), Run(start, WithoutCleanup(actions));
    AlikeRun(start, start, actions);
    RunKeepsInv(start, actions);
    RunKeepsInv(start, WithoutCleanup(actions));
    hide Run, Runs, WithoutCleanup;
    assert Lookup(v.entries, v.now, id) == Lookup(w.entries, w.now, id);
    if Live(v.entries, v.now, id) {
      AlikeHistory(v, w, v.entries[id].response);
    }
  }

  /**
   * The one operation that can tell: Delete reports an expired entry as found. Its answer survives
   * a cleanup exactly when the entry is absent or still live.
   */
  lemma DeleteSeesCleanup(w: World, id: string)
    ensures (id in w.entries <==> id in Step(w, Cleanup).entries)
       <==> (id !in w.entries || Live(w.entries, w.now, id))
  {
  }

  /**
   * Whether a cleanup has removed the entry of `id` for good: it ran when the entry had expired, and
   * since then nobody has saved or deleted that id.
   */
  function Swept(w: World, actions: seq<Action>, id: string, swept: bool): bool
    decreases |actions|
  {
    if actions == [] then swept
    else
      var now := match actions[0]
        case Cleanup => swept || (id in w.entries && !Live(w.entries, w.now, id))
        case Save(r) => swept && r.id != id
        case Delete(x) => swept && x != id
        case _ => swept;
      Swept(Step(w, actions[0]), actions[1..], id, now)
  }

  /** v has the entries of w, but that of `id` when it has been swept. */
  ghost predicate SweptApart(v: World, w: World, id: string, swept: bool)
  {
    && Alike(v, w)
    && (id in w.entries <==> id in v.entries || swept)
    && (swept ==> id !in v.entries)
  }

  lemma SweptStep(v: World, w: World, a: Action, id: string, swept: bool)
    requires SweptApart(v, w, id, swept) && Enabled(v, a) && !a.Cleanup?
    ensures var now := if a.Save? then swept && a.response.id != id else if a.Delete? then swept && a.id != id else swept;
      SweptApart(Step(v, a), Step(w, a), id, now)
  {
    AlikeStep(v, w, a);
    assert Lookup(v.entries, v.now, id) == Lookup(w.entries, w.now, id);
  }

  lemma SweptCleanup(v: World, w: World, id: string, swept: bool)
    requires SweptApart(v, w, id, swept)
    ensures SweptApart(Step(v, Cleanup), w, id, swept || (id in v.entries && !Live(v.entries, v.now, id)))
  {
    CleanupLeft(v, w);
  }

  lemma {:induction false} SweptRun(v: World, w: World, actions: seq<Action>, id: string, swept: bool)
    requires SweptApart(v, w, id, swept) && Runs(v, actions)
    ensures SweptApart(Run(v, actions), Run(w, WithoutCleanup(actions)), id, Swept(v, actions, id, swept))
    decreases |actions|
  {
    if actions != [] {
      var a, rest := actions[0], WithoutCleanup(actions[1..]);
      if a.Cleanup? {
        SweptCleanup(v, w, id, swept);
        hide Step, Enabled, SweptApart;
        SweptRun(Step(v, a), w, actions[1..], id, swept || (id in v.entries && !Live(v.entries, v.now, id)));
        assert [] + rest == rest;
      } else {
        SweptStep(v, w, a, id, swept);
        hide Step, Enabled, SweptApart;
        var now := if a.Save? then swept && a.response.id != id else if a.Delete? then swept && a.id != id else swept;
        SweptRun(Step(v, a), Step(w, a), actions[1..], id, now);
        assert ([a] + rest)[1..] == rest;
      }
    }
  }

  /**
   * Over every run: a Delete at its end reports what it would have reported without any cleanup if
   * and only if no cleanup has removed that entry for good.
   */
  lemma DeleteAgreesIff(ttl: nat, now: int, actions: seq<Action>, id: string)
    requires Runs(Fresh(ttl, now), actions)
    ensures var v, w := Run(Fresh(ttl, now), actions), Run(Fresh(ttl, now), WithoutCleanup(actions));
      (id in v.entries <==> id in w.entries) <==> !Swept(Fresh(ttl, now), actions, id, false)
  {
    var f := Fresh(ttl, now);
    assert SweptApart(f, f, id, false);
    SweptRun(f, f, actions, id, false);
  }

  /** A reachable store in which it does: created, saved and left to expire. */
  lemma DeleteSeesCleanupExample(ttl: nat, now: int, id: string)
    ensures var actions := [Create(id, None), Save(NewResponse(id, None)), Tick(now + ttl + 1)];
      && Runs(Fresh(ttl, now), actions)
      && var w := Run(Fresh(ttl, now), actions);
         id in w.entries && id !in Step(w, Cleanup).entries
  {
    var actions := [Create(id, None), Save(NewResponse(id, None)), Tick(now + ttl + 1)];
    var w1 := Step(Fresh(ttl, now), actions[0]);
    var w2 := Step(w1, actions[1]);
    var w3 := Step(w2, actions[2]);
    assert actions[1..] == [actions[1], actions[2]] && actions[1..][1..] == [actions[2]] && actions[1..][1..][1..] == [];
    assert Runs(w3, []) && Run(w3, []) == w3;
    assert Runs(w2, [actions[2]]) && Run(w2, [actions[2]]) == w3;
    assert Runs(w1, actions[1..]) && Run(w1, actions[1..]) == w3;
  }

  // ---- How long a response is kept --------------------------------------------------------

  /** None of these steps saves, updates or deletes the id. */
  predicate LeavesAlone(actions: seq<Action>, id: string)
  {
    forall i :: 0 <= i < |actions| ==>
      match actions[i]
      case Save(r) => r.id != id
      case Update(x, _) => x != id
      case Delete(x) => x != id
      case _ => true
  }

  /** The entry is there until it expires; then it may be gone. */
  ghost predicate KeptUntil(w: World, r: Response, expiry: int)
  {
    if r.id in w.entries then w.entries[r.id].response == r && w.entries[r.id].expiresAt == expiry else w.now > expiry
  }

  lemma KeptStep(w: World, a: Action, r: Response, expiry: int)
    requires KeptUntil(w, r, expiry) && Enabled(w, a) && LeavesAlone([a], r.id)
    ensures KeptUntil(Step(w, a), r, expiry)
  {
    assert [a][0] == a;
    match a
    case Tick(later) =>
    case Create(id, previous) =>
    case Save(x) =>
    case Delete(id) =>
    case Update(id, f) =>
    case Cleanup =>
  }

  lemma {:induction false} KeptRun(w: World, actions: seq<Action>, r: Response, expiry: int)
    requires KeptUntil(w, r, expiry) && Runs(w, actions) && LeavesAlone(actions, r.id)
    ensures KeptUntil(Run(w, actions), r, expiry)
    decreases |actions|
  {
    if actions != [] {
      assert [actions[0]][0] == actions[0];
      assert LeavesAlone([actions[0]], r.id);
      assert LeavesAlone(actions[1..], r.id);
      KeptStep(w, actions[0], r, expiry);
      hide Step, Enabled, KeptUntil, LeavesAlone;
      KeptRun(Step(w, actions[0]), actions[1..], r, expiry);
    }
  }

  /**
   * A saved response can be looked up exactly until its lifetime is over, whatever else happens to
   * other ids and however often the store is cleaned.
   */
  lemma KeptForItsLifetime(w: World, r: Response, actions: seq<Action>)
    requires Enabled(w, Save(r)) && Runs(Step(w, Save(r)), actions) && LeavesAlone(actions, r.id)
    ensures var t := Run(Step(w, Save(r)), actions);
      Lookup(t.entries, t.now, r.id) == if t.now <= w.now + w.ttl then Some(r) else None
  {
    KeptRun(Step(w, Save(r)), actions, r, w.now + w.ttl);
  }

  /** An update of a live response starts its lifetime anew; one of an expired response does nothing. */
  lemma UpdateRenews(w: World, id: string, f: Response -> Response, actions: seq<Action>)
    requires Enabled(w, Update(id, f)) && Runs(Step(w, Update(id, f)), actions) && LeavesAlone(actions, id)
    requires id in w.entries && w.entries[id].response.id == id
    ensures var t := Run(Step(w, Update(id, f)), actions);
      var r := w.entries[id].response;
      Lookup(t.entries, t.now, id) ==
        if w.now > w.entries[id].expiresAt then None
        else if t.now <= w.now + w.ttl then Some(f(r))
        else None
  {
    var v := Step(w, Update(id, f));
    var r := v.entries[id].response;
    assert r.id == id;
    KeptRun(v, actions, r, v.entries[id].expiresAt);
    NowGrows(v, actions);
  }

  lemma {:induction false} NowGrows(w: World, actions: seq<Action>)
    requires Runs(w, actions)
    ensures Run(w, actions).now >= w.now && Run(w, actions).ttl == w.ttl
    decreases |actions|
  {
    if actions != [] {
      NowGrows(Step(w, actions[0]), actions[1..]);
    }
  }
}
