/** Every step of a world keeps the places of its cases. */
module DispatchSteps {
  import opened Prelude
  import opened DispatchModel
  import opened DispatchWorld

  /** What every way of handing a ticket does to the members of the queue; swept are the cases kept. */
  ghost predicate Hands(w: World, slot: Slot, q: QueueState, t: Ticket, swept: seq<Case>) {
    var c := t.kase;
    && q.setup == w.q.setup && q.inFlight == w.q.inFlight + 1 && q.departed == w.q.departed && q.stopped == w.q.stopped
    && q.retries.count == w.q.retries.count && q.retries.queued == w.q.retries.queued - {c}
    && c in w.place && w.place[c] in {Unclaimed, KeptFor(slot), InRetryQueue}
    && t.retry == Tries(w.log, c)
    && (forall x :: x in q.waiting <==> x in w.q.waiting && x != c && x !in swept)
    && (forall x :: x in swept ==> x in w.q.waiting && x != c)
    && (forall x :: x in q.retries.queue <==> x in w.q.retries.queue && x != c)
    && (forall x :: x in q.affinity.Held(slot) <==> (x in w.q.affinity.Held(slot) && x != c) || x in swept)
    && (forall s, x :: s != slot ==> (x in q.affinity.Held(s) <==> x in w.q.affinity.Held(s) && x != c))
  }

  lemma HandedPlaced(w: World, slot: Slot, q: QueueState, t: Ticket, swept: seq<Case>)
    requires Placed(w) && Accounted(w) && Hands(w, slot, q, t, swept) && slot !in w.out
    ensures Placed(HandStep(w, slot, q, t))
  {
    var w' := HandStep(w, slot, q, t);
    TriesStep(w.log, Issue(slot, t));
    assert w'.place.Keys == w.place.Keys;
    forall d | d in w'.place
      ensures CaseAsPlaced(w', d)
    {
      assert CaseAsPlaced(w, d);
      assert CaseAsPlaced(w, t.kase);
    }
  }

  lemma HandedAccounted(w: World, slot: Slot, q: QueueState, t: Ticket, swept: seq<Case>)
    requires Accounted(w) && Hands(w, slot, q, t, swept) && slot !in w.out
    ensures Accounted(HandStep(w, slot, q, t))
  {
    var w' := HandStep(w, slot, q, t);
    forall c | c in q.waiting
      ensures c in w'.place && w'.place[c] == Unclaimed
    {
      assert w.place[c] == Unclaimed;
    }
    HandedKept(w, slot, q, t, swept);
    HandedOut(w, slot, q, t, swept);
  }

  lemma HandedOut(w: World, slot: Slot, q: QueueState, t: Ticket, swept: seq<Case>)
    requires Accounted(w) && Hands(w, slot, q, t, swept) && slot !in w.out
    ensures var w' := HandStep(w, slot, q, t);
            forall s :: s in w'.out ==> w'.out[s].kase in w'.place && w'.place[w'.out[s].kase] == RunningOn(s)
  {
    var w' := HandStep(w, slot, q, t);
    forall s | s in w'.out
      ensures w'.out[s].kase in w'.place && w'.place[w'.out[s].kase] == RunningOn(s)
    {
      if s != slot {
        assert w.place[w.out[s].kase] == RunningOn(s);
      }
    }
  }

  lemma HandedKept(w: World, slot: Slot, q: QueueState, t: Ticket, swept: seq<Case>)
    requires Accounted(w) && Hands(w, slot, q, t, swept)
    ensures var w' := HandStep(w, slot, q, t);
            forall s, c :: c in q.affinity.Held(s) ==> c in w'.place && w'.place[c] == KeptFor(s)
  {
    var w' := HandStep(w, slot, q, t);
    forall s, c | c in q.affinity.Held(s)
      ensures c in w'.place && w'.place[c] == KeptFor(s)
    {
      if c in w.q.affinity.Held(s) {
        assert w.place[c] == KeptFor(s);
      }
    }
  }

  // ---- each way of handing a ticket ---------------------------------------

  lemma HeldHands(w: World, slot: Slot)
    requires Placed(w) && Accounted(w) && Listed(w) && w.q.affinity.Held(slot) != []
    ensures var (q, a) := TakeHeld(w.q, slot);
            Hands(w, slot, q, a.ticket, [])
    ensures TakeHeld(w.q, slot).0.waiting == w.q.waiting
  {
    var (q, a) := TakeHeld(w.q, slot);
    var held := w.q.affinity.Held(slot);
    var c := held[0];
    assert c in held;
    assert CaseAsPlaced(w, c);
    assert held == [c] + held[1..];
    forall s, x
      ensures x in q.affinity.Held(s) <==> x in w.q.affinity.Held(s) && x != c
    {
      if s != slot && x in w.q.affinity.Held(s) {
        assert w.place[x] == KeptFor(s);
      }
    }
  }

  lemma FirstHands(w: World, slot: Slot, i: nat)
    requires Placed(w) && Accounted(w) && Listed(w) && i < |w.q.waiting|
    ensures var (q, a) := TakeFirst(w.q, i);
            Hands(w, slot, q, a.ticket, [])
  {
    var c := w.q.waiting[i];
    OrderedNoDup(w.corpus, w.q.waiting);
    RemoveMembers(w.q.waiting, i);
    assert c in w.q.waiting;
    assert CaseAsPlaced(w, c);
    var q := TakeFirst(w.q, i).0;
    forall s, x
      ensures x in q.affinity.Held(s) ==> x != c
    {}
  }

  lemma OrderedNoDup(corpus: seq<Case>, s: seq<Case>)
    requires Ordered(corpus, s)
    ensures NoDup(s)
  {}

  lemma RetryHands(w: World, slot: Slot, i: nat)
    requires Placed(w) && Accounted(w) && Listed(w) && i < |w.q.retries.queue|
    ensures var (q, a) := TakeRetry(w.q, i);
            Hands(w, slot, q, a.ticket, [])
  {
    var c := w.q.retries.queue[i];
    RemoveMembers(w.q.retries.queue, i);
    assert c in w.q.retries.queue;
    assert CaseAsPlaced(w, c);
  }

  lemma DirHands(w: World, slot: Slot, i: nat)
    requires Placed(w) && Accounted(w) && Listed(w) && i < |w.q.waiting|
    requires forall k :: 0 <= k < i ==> w.q.waiting[k].dir != w.q.waiting[i].dir
    ensures var (q, a) := TakeDir(w.q, slot, i);
            Hands(w, slot, q, a.ticket, Swept(w.q.waiting, i))
  {
    var c := w.q.waiting[i];
    OrderedNoDup(w.corpus, w.q.waiting);
    assert c in w.q.waiting;
    assert CaseAsPlaced(w, c);
    FilterAfterFirst(w.q.waiting, i, InDir(c.dir), Elsewhere(c.dir));
    DirHeld(w.q, slot, i);
    assert forall s :: c !in w.q.affinity.Held(s);
  }

  /** The cases kept for the slot that takes a directory at i. */
  ghost function Swept(waiting: seq<Case>, i: nat): seq<Case>
    requires i < |waiting|
  {
    Filter(waiting[i + 1..], InDir(waiting[i].dir))
  }

  // ---- the lists stay lists -----------------------------------------------

  lemma {:induction false} FilterOrdered(corpus: seq<Case>, s: seq<Case>, p: Case -> bool)
    requires Ordered(corpus, s)
    ensures Ordered(corpus, Filter(s, p))
  {
    if s != [] {
      var t := s[1..];
      assert forall c :: c in t ==> c in s;
      FilterOrdered(corpus, t, p);
      FilterMembers(t, p);
      forall x | x in Filter(t, p)
        ensures Rank(corpus, s[0]) < Rank(corpus, x)
      {
        var k :| 0 <= k < |t| && t[k] == x;
        assert s[k + 1] == x;
      }
      if p(s[0]) {
        OrderedBehind(corpus, s[0], Filter(t, p));
      }
    }
  }

  lemma OrderedBehind(corpus: seq<Case>, c: Case, s: seq<Case>)
    requires c in corpus && Ordered(corpus, s) && forall x :: x in s ==> Rank(corpus, c) < Rank(corpus, x)
    ensures Ordered(corpus, [c] + s)
  {
    var t := [c] + s;
    forall i, j | 0 <= i < j < |t|
      ensures Rank(corpus, t[i]) < Rank(corpus, t[j])
    {
      assert t[j] == s[j - 1];
      assert i > 0 ==> t[i] == s[i - 1];
    }
  }

  lemma HeldListed(w: World, slot: Slot)
    requires Listed(w) && w.q.affinity.Held(slot) != []
    ensures Listed(w.(q := TakeHeld(w.q, slot).0))
  {
    var now := TakeHeld(w.q, slot).0.affinity;
    assert now.Held(slot) == w.q.affinity.Held(slot)[1..];
    assert forall s :: s != slot ==> now.Held(s) == w.q.affinity.Held(s);
  }

  lemma FirstListed(w: World, i: nat)
    requires Listed(w) && i < |w.q.waiting|
    ensures Listed(w.(q := TakeFirst(w.q, i).0))
  {
    OrderedNoDup(w.corpus, w.q.waiting);
    RemoveMembers(w.q.waiting, i);
    var now := TakeFirst(w.q, i).0;
    assert forall s :: now.affinity.Held(s) == w.q.affinity.Held(s);
  }

  lemma RetryListed(w: World, i: nat)
    requires Listed(w) && i < |w.q.retries.queue|
    ensures Listed(w.(q := TakeRetry(w.q, i).0))
  {
    RemoveMembers(w.q.retries.queue, i);
    var now := TakeRetry(w.q, i).0;
    assert forall s :: now.affinity.Held(s) == w.q.affinity.Held(s);
  }

  lemma SweptOrdered(corpus: seq<Case>, waiting: seq<Case>, i: nat)
    requires Ordered(corpus, waiting) && i < |waiting|
    ensures Ordered(corpus, Swept(waiting, i)) && NoDup(Swept(waiting, i))
  {
    var tail := waiting[i + 1..];
    assert Ordered(corpus, tail) by {
      assert forall c :: c in tail ==> c in waiting;
    }
    FilterOrdered(corpus, tail, InDir(waiting[i].dir));
    OrderedNoDup(corpus, Swept(waiting, i));
  }

  lemma DirListed(w: World, slot: Slot, i: nat)
    requires Listed(w) && i < |w.q.waiting| && w.q.affinity.Held(slot) == []
    ensures Listed(w.(q := TakeDir(w.q, slot, i).0))
  {
    FilterOrdered(w.corpus, w.q.waiting, Elsewhere(w.q.waiting[i].dir));
    SweptOrdered(w.corpus, w.q.waiting, i);
    DirHeld(w.q, slot, i);
    assert [] + Swept(w.q.waiting, i) == Swept(w.q.waiting, i);
  }

  lemma DirHeld(q: QueueState, slot: Slot, i: nat)
    requires i < |q.waiting|
    ensures var now := TakeDir(q, slot, i).0.affinity;
            && now.owner == q.affinity.owner[q.waiting[i].dir := slot]
            && now.Held(slot) == q.affinity.Held(slot) + Swept(q.waiting, i)
            && forall s :: s != slot ==> now.Held(s) == q.affinity.Held(s)
  {}

  // ---- the crew and the log -----------------------------------------------

  lemma HandedCrewed(w: World, slot: Slot, q: QueueState, t: Ticket, swept: seq<Case>)
    requires Crewed(w) && Numbered(w) && Placed(w) && Hands(w, slot, q, t, swept)
    requires slot in w.workers && slot !in w.out && slot !in w.done
    ensures Crewed(HandStep(w, slot, q, t)) && Numbered(HandStep(w, slot, q, t))
  {
    var w' := HandStep(w, slot, q, t);
    assert w'.out.Keys == w.out.Keys + {slot};
    forall i | 0 <= i < |w'.log|
      ensures w'.log[i].ticket.kase in w.corpus && w'.log[i].ticket.retry == Tries(w'.log[..i], w'.log[i].ticket.kase)
    {
      assert w'.log[..i] == w.log[..i];
      if i == |w.log| {
        assert w.log[..i] == w.log;
      }
    }
  }

  // ---- finishing a ticket -------------------------------------------------

  ghost predicate Finishes(q: QueueState, q': QueueState, t: Ticket, p: Place) {
    var c := t.kase;
    && q'.setup == q.setup && q'.waiting == q.waiting && q'.departed == q.departed && q'.stopped == q.stopped
    && q'.running == StopRunning(q.running, c)
    && q'.inFlight == (if q.inFlight > 0 then q.inFlight - 1 else 0)
    && q'.affinity.owner == q.affinity.owner
    && (forall s :: q'.affinity.Held(s) == if p == KeptFor(s) then q.affinity.Held(s) + [c] else q.affinity.Held(s))
    && q'.retries.queue == (if p == InRetryQueue then q.retries.queue + [c] else q.retries.queue)
    && (forall d :: d != c ==>
          (d in q'.retries.count <==> d in q.retries.count) && q'.retries.No(d) == q.retries.No(d) &&
          (d in q'.retries.queued <==> d in q.retries.queued))
    && (if p == Settled then c !in q'.retries.count && c !in q'.retries.queued
        else c in q'.retries.queued && q'.retries.No(c) == t.retry + 1 && t.retry + 1 <= q.setup.maxRetry)
    && (p == Settled || p == InRetryQueue || p.KeptFor?)
  }

  lemma FinishQueues(q: QueueState, t: Ticket, success: bool, hasCore: bool)
    requires t.kase !in q.retries.queued
    ensures Finishes(q, Complete(q, t, success, hasCore), t, PlaceAfterFinish(q, t, success, hasCore))
  {
    var q' := Complete(q, t, success, hasCore);
    if WillRetry(q.setup.maxRetry, t, success, hasCore) {
      assert q'.retries.count == q.retries.count[t.kase := t.retry + 1];
    }
  }

  lemma FinishedPlaced(w: World, slot: Slot, success: bool, hasCore: bool)
    requires Placed(w) && Accounted(w) && slot in w.out
    ensures Placed(FinishStep(w, slot, success, hasCore))
  {
    var w' := FinishStep(w, slot, success, hasCore);
    var t := w.out[slot];
    assert CaseAsPlaced(w, t.kase);
    FinishQueues(w.q, t, success, hasCore);
    assert w'.place.Keys == w.place.Keys;
    forall d | d in w'.place
      ensures CaseAsPlaced(w', d)
    {
      assert CaseAsPlaced(w, d);
    }
  }

  lemma FinishedAccounted(w: World, slot: Slot, success: bool, hasCore: bool)
    requires Placed(w) && Accounted(w) && slot in w.out
    ensures Accounted(FinishStep(w, slot, success, hasCore))
  {
    var w' := FinishStep(w, slot, success, hasCore);
    var t := w.out[slot];
    assert CaseAsPlaced(w, t.kase);
    FinishQueues(w.q, t, success, hasCore);
    forall s, c | c in w'.q.affinity.Held(s)
      ensures c in w'.place && w'.place[c] == KeptFor(s)
    {
      if c in w.q.affinity.Held(s) {
        assert w.place[c] == KeptFor(s);
      }
    }
  }

  lemma FinishedListed(w: World, slot: Slot, success: bool, hasCore: bool)
    requires Placed(w) && Accounted(w) && Listed(w) && slot in w.out
    ensures Listed(FinishStep(w, slot, success, hasCore))
  {
    var t := w.out[slot];
    assert CaseAsPlaced(w, t.kase);
    FinishQueues(w.q, t, success, hasCore);
    forall s
      ensures NoDup(FinishStep(w, slot, success, hasCore).q.affinity.Held(s))
    {
      assert t.kase !in w.q.affinity.Held(s);
    }
  }

  lemma FinishedCrewed(w: World, slot: Slot, success: bool, hasCore: bool)
    requires Placed(w) && Accounted(w) && Crewed(w) && Numbered(w) && slot in w.out
    ensures Crewed(FinishStep(w, slot, success, hasCore)) && Numbered(FinishStep(w, slot, success, hasCore))
  {
    assert CaseAsPlaced(w, w.out[slot].kase);
    FinishQueues(w.q, w.out[slot], success, hasCore);
    var w' := FinishStep(w, slot, success, hasCore);
    assert w'.out.Keys == w.out.Keys - {slot};
    assert |w.out| == |w.out.Keys| && |w'.out| == |w'.out.Keys|;
  }
}
