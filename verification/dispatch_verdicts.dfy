/** What a verdict does to a case, over whole runs: a failure is tried again while it may be, anything else is final. */
module DispatchVerdicts {
  import opened Prelude
  import opened DispatchModel
  import opened DispatchWorld
  import opened DispatchSteps
  import opened DispatchRuns
  import opened DispatchTheorems

  /** Event j is the end of a ticket of the case. */
  ghost predicate Ends(ws: seq<World>, es: seq<Event>, j: nat, c: Case) {
    && j < |es| < |ws| && es[j].Finish?
    && es[j].slot in ws[j].out && ws[j].out[es[j].slot].kase == c
  }

  /** It passed, or dumped core, or was the last attempt allowed. */
  ghost predicate Decides(ws: seq<World>, es: seq<Event>, j: nat, c: Case) {
    && Ends(ws, es, j, c)
    && (es[j].success || es[j].hasCore || Tries(ws[j].log, c) == Cap(ws[j]) + 1)
  }

  ghost predicate Waits(w: World, c: Case) {
    c in w.place && (w.place[c].KeptFor? || w.place[c] == InRetryQueue)
  }

  ghost predicate IsSettled(w: World, c: Case) {
    c in w.place && w.place[c] == Settled
  }

  lemma FinishIs(w: World, slot: Slot, success: bool, hasCore: bool)
    requires Inv(w) && slot in w.out
    ensures var (w', c) := (FinishStep(w, slot, success, hasCore), w.out[slot].kase);
            if success || hasCore || Tries(w.log, c) == Cap(w) + 1 then IsSettled(w', c) else Waits(w', c)
  {
    assert CaseAsPlaced(w, w.out[slot].kase);
    FinishQueues(w.q, w.out[slot], success, hasCore);
  }

  /** A case is settled by the end of a ticket exactly when that decides it; otherwise it is kept or queued. */
  lemma FinishSettles(ws: seq<World>, es: seq<Event>, j: nat, c: Case)
    requires Behavior(ws, es) && Ends(ws, es, j, c)
    ensures IsSettled(ws[j + 1], c) <==> Decides(ws, es, j, c)
    ensures !Decides(ws, es, j, c) ==> Waits(ws[j + 1], c)
  {
    Invariant(ws, es, j);
    FinishIs(ws[j], es[j].slot, es[j].success, es[j].hasCore);
  }

  // ---- what a step may do to one case -------------------------------------

  /** Only a ticket handed out takes a case from where it waits, and none takes it from where it settled. */
  ghost predicate Careful(w: World, w': World, c: Case) {
    && Tries(w.log, c) <= Tries(w'.log, c)
    && (IsSettled(w, c) ==> IsSettled(w', c) && Tries(w'.log, c) == Tries(w.log, c))
    && (Waits(w, c) && Tries(w'.log, c) == Tries(w.log, c) ==> Waits(w', c))
  }

  lemma HandedCareful(w: World, slot: Slot, q: QueueState, t: Ticket, c: Case)
    requires t.kase in w.place && w.place[t.kase] != Settled
    ensures Careful(w, HandStep(w, slot, q, t), c)
  {
    OneTry(w.log, Issue(slot, t), c);
    if c in w.place && c != t.kase && w.place[c] != Unclaimed {
      SamePlace(w.place, q.waiting, slot, t.kase, c);
    }
  }

  lemma OneTry(log: seq<Issue>, e: Issue, c: Case)
    ensures Tries(log + [e], c) == Tries(log, c) + if e.ticket.kase == c then 1 else 0
  {
    assert (log + [e])[..|log|] == log;
  }

  lemma SamePlace(place: map<Case, Place>, waiting: seq<Case>, slot: Slot, c: Case, d: Case)
    requires d in place && d != c && place[d] != Unclaimed
    ensures var after := PlacesAfterClaim(place, waiting, slot, c); d in after && after[d] == place[d]
  {}

  /** The case handed out was not settled. */
  lemma HandedUnsettled(w: World, slot: Slot, meter: Meter)
    requires Inv(w) && Enabled(w, Claim(slot, meter))
    ensures var a := ClaimOnce(w.q, slot, w.workers[slot], meter).1;
            a.Handed? ==> a.ticket.kase in w.place && w.place[a.ticket.kase] != Settled
  {
    HandedFrom(w.q, slot, w.workers[slot], meter);
    NotSettled(w, slot);
  }

  lemma NotSettled(w: World, slot: Slot)
    requires Accounted(w)
    ensures forall c :: c in w.q.waiting || c in w.q.affinity.Held(slot) || c in w.q.retries.queue ==>
              c in w.place && w.place[c] != Settled
  {
    forall c | c in w.q.waiting || c in w.q.affinity.Held(slot) || c in w.q.retries.queue
      ensures c in w.place && w.place[c] != Settled
    {
      assert c in w.q.affinity.Held(slot) ==> w.place[c] == KeptFor(slot);
    }
  }

  lemma HandedFrom(q: QueueState, slot: Slot, lane: Lane, meter: Meter)
    ensures var a := ClaimOnce(q, slot, lane, meter).1;
            a.Handed? ==> var c := a.ticket.kase;
                          c in q.waiting || c in q.affinity.Held(slot) || c in q.retries.queue
  {}

  lemma StepCareful(w: World, e: Event, c: Case)
    requires Inv(w) && Enabled(w, e)
    ensures Careful(w, Step(w, e), c)
  {
    match e
    case Cancel =>
    case Claim(slot, meter) => ClaimCareful(w, slot, meter, c);
    case Finish(slot, success, hasCore) => FinishCareful(w, slot, success, hasCore, c);
  }

  lemma ClaimCareful(w: World, slot: Slot, meter: Meter, c: Case)
    requires Inv(w) && Enabled(w, Claim(slot, meter))
    ensures Careful(w, ClaimStep(w, slot, meter), c)
  {
    HandedUnsettled(w, slot, meter);
    var (q, a) := ClaimOnce(w.q, slot, w.workers[slot], meter);
    if a.Handed? {
      HandedCareful(w, slot, q, a.ticket, c);
    }
  }

  lemma FinishCareful(w: World, slot: Slot, success: bool, hasCore: bool, c: Case)
    requires Accounted(w) && slot in w.out
    ensures Careful(w, FinishStep(w, slot, success, hasCore), c)
  {
    assert w.place[w.out[slot].kase] == RunningOn(slot);
  }

  lemma {:induction false} RunCareful(ws: seq<World>, es: seq<Event>, j: nat, k: nat, c: Case)
    requires Behavior(ws, es) && j <= k < |ws|
    ensures Careful(ws[j], ws[k], c)
  {
    if j < k {
      RunCareful(ws, es, j, k - 1, c);
      Invariant(ws, es, k - 1);
      StepCareful(ws[k - 1], es[k - 1], c);
    }
  }

  // ---- verdicts -----------------------------------------------------------

  /** After a verdict that decides it no ticket of the case is issued any more. */
  lemma DecidedForGood(ws: seq<World>, es: seq<Event>, j: nat, k: nat, c: Case)
    requires Behavior(ws, es) && Decides(ws, es, j, c) && j < k < |ws|
    ensures IsSettled(ws[k], c) && Tries(ws[k].log, c) == Tries(ws[j].log, c)
  {
    FinishSettles(ws, es, j, c);
    RunCareful(ws, es, j + 1, k, c);
  }

  /** A case is settled exactly when a verdict decided it, and then no ticket of it came after. */
  lemma {:induction false} SettledMeans(ws: seq<World>, es: seq<Event>, k: nat, c: Case)
    requires Behavior(ws, es) && k < |ws| && c in ws[0].corpus
    ensures IsSettled(ws[k], c) <==> exists j :: 0 <= j < k && Decides(ws, es, j, c)
  {
    if IsSettled(ws[k], c) {
      DecidedBefore(ws, es, k, c);
    }
    if j :| 0 <= j < k && Decides(ws, es, j, c) {
      DecidedForGood(ws, es, j, k, c);
    }
  }

  lemma {:induction false} DecidedBefore(ws: seq<World>, es: seq<Event>, k: nat, c: Case)
    requires Behavior(ws, es) && k < |ws| && IsSettled(ws[k], c)
    ensures exists j :: 0 <= j < k && Decides(ws, es, j, c)
  {
    if k > 0 {
      var w, e := ws[k - 1], es[k - 1];
      if IsSettled(w, c) {
        DecidedBefore(ws, es, k - 1, c);
      } else {
        SettledByFinish(ws, es, k - 1, c);
        FinishSettles(ws, es, k - 1, c);
        assert Decides(ws, es, k - 1, c);
      }
    }
  }

  lemma SettledByFinish(ws: seq<World>, es: seq<Event>, k: nat, c: Case)
    requires Behavior(ws, es) && k < |es| && !IsSettled(ws[k], c) && IsSettled(ws[k + 1], c)
    ensures Ends(ws, es, k, c)
  {
    assert Enabled(ws[k], es[k]) && ws[k + 1] == Step(ws[k], es[k]);
  }

  /** A failure that decides nothing is tried again: once the case is settled more tickets of it were issued. */
  lemma TriedAgain(ws: seq<World>, es: seq<Event>, j: nat, k: nat, c: Case)
    requires Behavior(ws, es) && Ends(ws, es, j, c) && !Decides(ws, es, j, c) && j < k < |ws|
    ensures Waits(ws[k], c) || Tries(ws[k].log, c) > Tries(ws[j].log, c)
    ensures IsSettled(ws[k], c) ==> Tries(ws[k].log, c) > Tries(ws[j].log, c)
  {
    FinishSettles(ws, es, j, c);
    RunCareful(ws, es, j + 1, k, c);
  }

  /** Once every slot was told there is no more, and the run was not stopped, a verdict has decided every case. */
  lemma AllDecided(ws: seq<World>, es: seq<Event>, k: nat, c: Case)
    requires Behavior(ws, es) && k < |ws| && c in ws[0].corpus
    requires !ws[k].q.stopped && ws[k].done == ws[k].workers.Keys && Covered(ws[k])
    ensures exists j :: 0 <= j < k && Decides(ws, es, j, c) && Tries(ws[k].log, c) == Tries(ws[j].log, c)
  {
    NothingStranded(ws, es, k);
    SettledMeans(ws, es, k, c);
    var j :| 0 <= j < k && Decides(ws, es, j, c);
    DecidedForGood(ws, es, j, k, c);
  }

  // ---- when the queue is finished -----------------------------------------

  /** A run is finished exactly when it was stopped or every case is settled. */
  lemma FinishedExactly(ws: seq<World>, es: seq<Event>, k: nat)
    requires Behavior(ws, es) && k < |ws|
    ensures Finished(ws[k].q) <==> ws[k].q.stopped || forall c :: c in ws[0].corpus ==> IsSettled(ws[k], c)
  {
    Invariant(ws, es, k);
    SameRun(ws, es, k);
    if Finished(ws[k].q) && !ws[k].q.stopped {
      forall c | c in ws[0].corpus
        ensures IsSettled(ws[k], c)
      {
        FinishedSettles(ws[k], c);
      }
    }
    if forall c :: c in ws[0].corpus ==> IsSettled(ws[k], c) {
      SettledFinishes(ws[k]);
    }
  }

  lemma FinishedSettles(w: World, c: Case)
    requires Inv(w) && !w.q.stopped && Finished(w.q) && c in w.corpus
    ensures IsSettled(w, c)
  {
    assert CaseAsPlaced(w, c);
    assert |w.out| == 0;
  }

  lemma SettledFinishes(w: World)
    requires Inv(w) && forall c :: c in w.corpus ==> IsSettled(w, c)
    ensures Finished(w.q)
  {
    SubEmpty(w.q.waiting, []);
    SubEmpty(w.q.retries.queue, []);
    forall s
      ensures w.q.affinity.Held(s) == [] && s !in w.out
    {
      HeldPlace(w, s);
    }
    assert forall s :: s in w.q.affinity.held ==> w.q.affinity.held[s] == w.q.affinity.Held(s);
    assert w.out.Keys == {};
  }

  /** A run is drained exactly when it was stopped or no case is unclaimed or in the general retry queue. */
  lemma DrainedExactly(ws: seq<World>, es: seq<Event>, k: nat)
    requires Behavior(ws, es) && k < |ws|
    ensures Drained(ws[k].q) <==>
            || ws[k].q.stopped
            || forall c :: c in ws[0].corpus ==> c in ws[k].place && ws[k].place[c] !in {Unclaimed, InRetryQueue}
  {
    Invariant(ws, es, k);
    SameRun(ws, es, k);
    if !ws[k].q.stopped {
      DrainedPlaces(ws[k]);
    }
  }

  lemma DrainedPlaces(w: World)
    requires Placed(w) && Accounted(w) && !w.q.stopped
    ensures Drained(w.q) <==> forall c :: c in w.corpus ==> c in w.place && w.place[c] !in {Unclaimed, InRetryQueue}
  {
    if Drained(w.q) {
      forall c | c in w.corpus
        ensures c in w.place && w.place[c] !in {Unclaimed, InRetryQueue}
      {
        assert CaseAsPlaced(w, c);
      }
    }
    if forall c :: c in w.corpus ==> c in w.place && w.place[c] !in {Unclaimed, InRetryQueue} {
      SubEmpty(w.q.waiting, []);
      SubEmpty(w.q.retries.queue, []);
    }
  }

  // ---- a run that was stopped ---------------------------------------------

  /** After a stop no ticket is issued, and every claimant is told there is no more. */
  lemma {:induction false} StoppedForGood(ws: seq<World>, es: seq<Event>, j: nat, k: nat)
    requires Behavior(ws, es) && j < k < |ws| && es[j].Cancel?
    ensures ws[k].q.stopped && ws[k].log == ws[j].log
    ensures forall slot, lane, meter :: ClaimOnce(ws[k].q, slot, lane, meter).1 == NoMore
  {
    if j + 1 < k {
      StoppedForGood(ws, es, j, k - 1);
      assert Enabled(ws[k - 1], es[k - 1]) && ws[k] == Step(ws[k - 1], es[k - 1]);
      StoppedStep(ws[k - 1], es[k - 1]);
    }
  }

  lemma StoppedStep(w: World, e: Event)
    requires w.q.stopped && Enabled(w, e)
    ensures Step(w, e).q.stopped && Step(w, e).log == w.log
  {}
}
