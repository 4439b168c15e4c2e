/** What the queue promises of a whole run, whatever order claims and completions come in. */
module DispatchTheorems {
  import opened Prelude
  import opened DispatchModel
  import opened DispatchWorld
  import opened DispatchSteps
  import opened DispatchRuns

  /** At every moment a case is unclaimed, kept, waiting for a retry, running or settled, and only one of these. */
  lemma EachCaseInOnePlace(ws: seq<World>, es: seq<Event>, k: nat, c: Case)
    requires Behavior(ws, es) && k < |ws| && c in ws[0].corpus
    ensures var w := ws[k];
            && c in w.place
            && (c in w.q.waiting <==> w.place[c] == Unclaimed)
            && (forall s :: c in w.q.affinity.Held(s) <==> w.place[c] == KeptFor(s))
            && (c in w.q.retries.queue <==> w.place[c] == InRetryQueue)
            && (forall s :: s in w.out && w.out[s].kase == c <==> w.place[c] == RunningOn(s))
            && NoDup(w.q.waiting) && NoDup(w.q.retries.queue) && (forall s :: NoDup(w.q.affinity.Held(s)))
            && w.q.inFlight == |w.out|
  {
    Invariant(ws, es, k);
    SameRun(ws, es, k);
    OrderedNoDup(ws[k].corpus, ws[k].q.waiting);
    assert CaseAsPlaced(ws[k], c);
  }

  /** The corpus, the crew and what was set before the first claim do not change. */
  lemma {:induction false} SameRun(ws: seq<World>, es: seq<Event>, k: nat)
    requires Behavior(ws, es) && k < |ws|
    ensures ws[k].corpus == ws[0].corpus && ws[k].workers == ws[0].workers && ws[k].q.setup == ws[0].q.setup
  {
    if k > 0 {
      SameRun(ws, es, k - 1);
    }
  }

  /** A case's tickets are numbered 0, 1, 2, ... and none has a number past maxRetry. */
  lemma TicketsNumbered(ws: seq<World>, es: seq<Event>, k: nat, i: nat)
    requires Behavior(ws, es) && k < |ws| && i < |ws[k].log|
    ensures var w, t := ws[k], ws[k].log[i].ticket;
            t.kase in w.corpus && t.retry == Tries(w.log[..i], t.kase) && t.retry <= Cap(w)
  {
    Invariant(ws, es, k);
    NumberedWithin(ws[k], i);
  }

  lemma NumberedWithin(w: World, i: nat)
    requires Numbered(w) && Placed(w) && i < |w.log|
    ensures var t := w.log[i].ticket;
            t.kase in w.corpus && t.retry == Tries(w.log[..i], t.kase) && t.retry <= Cap(w)
  {
    var c := w.log[i].ticket.kase;
    assert CaseAsPlaced(w, c);
    TriesStep(w.log[..i], w.log[i]);
    assert w.log[..i] + [w.log[i]] == w.log[..i + 1];
    TriesGrow(w.log, i + 1, c);
  }

  lemma {:induction false} TriesGrow(log: seq<Issue>, i: nat, c: Case)
    requires i <= |log|
    ensures Tries(log[..i], c) <= Tries(log, c)
    decreases |log|
  {
    if i == |log| {
      assert log[..i] == log;
    } else {
      var init := log[..|log| - 1];
      TriesGrow(init, i, c);
      assert init[..i] == log[..i];
    }
  }

  // ---- how many tickets there can be --------------------------------------

  ghost function TotalTries(log: seq<Issue>, cases: seq<Case>): nat {
    if cases == [] then 0 else Tries(log, cases[0]) + TotalTries(log, cases[1..])
  }

  lemma {:induction false} TotalStep(log: seq<Issue>, e: Issue, cases: seq<Case>)
    requires NoDup(cases)
    ensures TotalTries(log + [e], cases) == TotalTries(log, cases) + (if e.ticket.kase in cases then 1 else 0)
  {
    if cases != [] {
      TriesStep(log, e);
      TotalStep(log, e, cases[1..]);
      assert cases == [cases[0]] + cases[1..];
    }
  }

  lemma {:induction false} TotalIsLength(log: seq<Issue>, cases: seq<Case>)
    requires NoDup(cases) && forall i :: 0 <= i < |log| ==> log[i].ticket.kase in cases
    ensures TotalTries(log, cases) == |log|
  {
    if log == [] {
      NoTries(cases);
    } else {
      var init, e := log[..|log| - 1], log[|log| - 1];
      TotalIsLength(init, cases);
      TotalStep(init, e, cases);
      assert log == init + [e];
    }
  }

  lemma {:induction false} NoTries(cases: seq<Case>)
    ensures TotalTries([], cases) == 0
  {
    if cases != [] { NoTries(cases[1..]); }
  }

  ghost predicate TriedUpTo(log: seq<Issue>, c: Case, cap: nat) {
    Tries(log, c) <= cap
  }

  lemma {:induction false} TotalBound(log: seq<Issue>, cases: seq<Case>, cap: nat)
    requires forall c :: c in cases ==> TriedUpTo(log, c, cap)
    ensures TotalTries(log, cases) <= |cases| * cap
  {
    if cases != [] {
      var rest := cases[1..];
      assert forall c :: c in rest ==> c in cases;
      TotalBound(log, rest, cap);
      assert TriedUpTo(log, cases[0], cap);
      Distribute(|rest|, cap);
    }
  }

  lemma Distribute(n: nat, cap: nat)
    ensures (n + 1) * cap == cap + n * cap
  {}

  /** However a run goes, at most |cases| * (maxRetry + 1) tickets are ever issued. */
  lemma TicketsBounded(ws: seq<World>, es: seq<Event>, k: nat)
    requires Behavior(ws, es) && k < |ws|
    ensures |ws[k].log| <= |ws[0].corpus| * (Cap(ws[0]) + 1)
  {
    Invariant(ws, es, k);
    SameRun(ws, es, k);
    var w := ws[k];
    TotalIsLength(w.log, w.corpus);
    forall c | c in w.corpus
      ensures TriedUpTo(w.log, c, Cap(w) + 1)
    {
      assert CaseAsPlaced(w, c);
    }
    TotalBound(w.log, w.corpus, Cap(w) + 1);
  }

  // ---- nothing is stranded ------------------------------------------------

  /** Every case has a slot that may be given it. */
  ghost predicate Covered(w: World) {
    forall c :: c in w.corpus ==>
      exists s :: s in w.workers && (w.q.setup.lanes ==> Serves(w.workers[s], w.q.setup.laneOf, c.dir))
  }

  lemma NoneWaiting(w: World)
    requires Inv(w) && !w.q.stopped && w.done == w.workers.Keys && Covered(w)
    ensures w.q.waiting == []
  {
    forall c | c in w.corpus
      ensures c !in w.q.waiting
    {
      var s :| s in w.workers && (w.q.setup.lanes ==> Serves(w.workers[s], w.q.setup.laneOf, c.dir));
      assert s in w.done;
    }
    SubEmpty(w.q.waiting, []);
  }

  lemma HeldPlace(w: World, s: Slot)
    requires Accounted(w)
    ensures var held := w.q.affinity.Held(s);
            held != [] ==> held[0] in held && held[0] in w.place && w.place[held[0]] == KeptFor(s)
  {
    var held := w.q.affinity.Held(s);
    if held != [] {
      assert held[0] in held;
      assert w.place[held[0]] == KeptFor(s);
    }
  }

  lemma NoneHeld(w: World, s: Slot)
    requires Inv(w) && !w.q.stopped && w.done == w.workers.Keys
    ensures w.q.affinity.Held(s) == []
  {
    if w.q.setup.lanes && s !in w.workers {
      HeldPlace(w, s);
      assert forall c :: c in w.place ==> w.place[c] != KeptFor(s);
    } else {
      assert w.q.setup.lanes ==> s in w.done;
    }
  }

  lemma AllSettled(w: World)
    requires Inv(w) && !w.q.stopped && w.done == w.workers.Keys && Covered(w)
    ensures Finished(w.q) && w.out == map[]
    ensures forall c :: c in w.corpus ==> c in w.place && w.place[c] == Settled && Tries(w.log, c) > 0
  {
    NoneWaiting(w);
    forall s
      ensures w.q.affinity.Held(s) == []
    {
      NoneHeld(w, s);
    }
    assert forall s :: s in w.q.affinity.held ==> w.q.affinity.held[s] == w.q.affinity.Held(s);
    assert w.q.retries.queue == [];
    assert w.out.Keys == {};
    forall c | c in w.corpus
      ensures c in w.place && w.place[c] == Settled && Tries(w.log, c) > 0
    {
      assert CaseAsPlaced(w, c);
    }
  }

  /** When every slot was told there is no more, and the run was not stopped, all the work is done. */
  lemma NothingStranded(ws: seq<World>, es: seq<Event>, k: nat)
    requires Behavior(ws, es) && k < |ws|
    requires !ws[k].q.stopped && ws[k].done == ws[k].workers.Keys && Covered(ws[k])
    ensures Finished(ws[k].q) && ws[k].out == map[]
    ensures forall c :: c in ws[0].corpus ==>
              c in ws[k].place && ws[k].place[c] == Settled && Tries(ws[k].log, c) > 0
  {
    Invariant(ws, es, k);
    SameRun(ws, es, k);
    AllSettled(ws[k]);
  }

  /** While no ticket is out no claimant is told to wait: a run cannot stop with work left. */
  lemma NoDeadlock(ws: seq<World>, es: seq<Event>, k: nat, slot: Slot, meter: Meter)
    requires Behavior(ws, es) && k < |ws|
    requires slot in ws[k].workers && ws[k].out == map[]
    ensures ClaimOnce(ws[k].q, slot, ws[k].workers[slot], meter).1 != Again
  {
    Invariant(ws, es, k);
    if !ws[k].q.setup.lanes {
      NothingRunning(ws[k]);
    }
  }

  /** With lanes off and cases left to claim, nothing is listed as running just when no ticket is out. */
  lemma NothingRunning(w: World)
    requires Inv(w) && !w.q.setup.lanes
    ensures w.out == map[] ==> w.q.running == []
    ensures w.q.running == [] && w.q.waiting != [] ==> w.out == map[]
  {
    if w.out == map[] {
      forall c | c in w.place
        ensures !w.place[c].RunningOn?
      {
        assert CaseAsPlaced(w, c);
      }
      SubEmpty(w.q.running, []);
    } else if w.q.running == [] {
      var s :| s in w.out;
      assert w.out[s].retry > 0;
    }
  }

  /** With lanes off a claim either takes a waiting case or leaves the first pass as it was. */
  lemma WindowClaim(w: World, slot: Slot, meter: Meter)
    requires Inv(w) && !w.q.setup.lanes && Enabled(w, Claim(slot, meter))
    ensures var (q, a) := ClaimOnce(w.q, slot, w.workers[slot], meter);
            var at := Admissible(w.q.setup, w.q.waiting, w.q.running, meter);
            if !w.q.stopped && at.Some? then (q, a) == TakeFirst(w.q, at.value)
            else
              && q.running == w.q.running && q.waiting == w.q.waiting
              && (a.Handed? ==> a.ticket.retry > 0 && w.q.waiting == [] && w.q.inFlight == 0)
  {
    var queue := w.q.retries.queue;
    forall i | 0 <= i < |queue|
      ensures w.q.retries.No(queue[i]) > 0
    {
      assert queue[i] in queue;
      assert CaseAsPlaced(w, queue[i]);
    }
  }

  // ---- retries, lanes off -------------------------------------------------

  /** With lanes off a retry is handed out only with no other ticket out and the first pass over for every case. */
  lemma QuietRetries(ws: seq<World>, es: seq<Event>, k: nat)
    requires Behavior(ws, es) && k < |es|
    requires !ws[0].q.setup.lanes && es[k].Claim?
    ensures var w := ws[k];
            var a := ClaimOnce(w.q, es[k].slot, w.workers[es[k].slot], es[k].meter).1;
            a.Handed? && a.ticket.retry > 0 ==>
              w.out == map[] && forall c :: c in w.corpus ==> Tries(w.log, c) > 0
  {
    Invariant(ws, es, k);
    SameRun(ws, es, k);
    var w := ws[k];
    WindowClaim(w, es[k].slot, es[k].meter);
    if w.q.waiting == [] && w.out == map[] {
      forall c | c in w.corpus
        ensures Tries(w.log, c) > 0
      {
        assert CaseAsPlaced(w, c);
      }
    }
  }

  /** With lanes off no first attempt follows a retry, and a retry never runs beside anything. */
  lemma FirstPassFirst(ws: seq<World>, es: seq<Event>, k: nat)
    requires Behavior(ws, es) && k < |ws| && !ws[0].q.setup.lanes
    ensures var w := ws[k];
            && (forall i, j :: 0 <= i < j < |w.log| && w.log[i].ticket.retry > 0 ==> w.log[j].ticket.retry > 0)
            && (forall s :: s in w.out && w.out[s].retry > 0 ==> |w.out| == 1)
  {
    Invariant(ws, es, k);
    SameRun(ws, es, k);
  }

  // ---- affinity, lanes on -------------------------------------------------

  /** With lanes on the tickets of a directory go to one slot, its first attempts in corpus order. */
  lemma DirectoryOnOneSlot(ws: seq<World>, es: seq<Event>, k: nat, i: nat, j: nat)
    requires Behavior(ws, es) && k < |ws| && ws[0].q.setup.lanes
    requires i < j < |ws[k].log|
    requires ws[k].log[i].ticket.kase.dir == ws[k].log[j].ticket.kase.dir
    ensures ws[k].log[i].slot == ws[k].log[j].slot
    ensures ws[k].log[i].ticket.retry == 0 && ws[k].log[j].ticket.retry == 0 ==>
              && ws[k].log[i].ticket.kase in ws[0].corpus && ws[k].log[j].ticket.kase in ws[0].corpus
              && Rank(ws[0].corpus, ws[k].log[i].ticket.kase) < Rank(ws[0].corpus, ws[k].log[j].ticket.kase)
  {
    Invariant(ws, es, k);
    SameRun(ws, es, k);
    assert Before(ws[k].corpus, ws[k].log[i].ticket.kase, ws[k].log[j].ticket.kase) ||
           ws[k].log[i].ticket.retry > 0 || ws[k].log[j].ticket.retry > 0;
  }

  lemma OwnerIdle(w: World, slot: Slot, c: Case)
    requires Inv(w) && w.q.setup.lanes && slot !in w.out && w.q.affinity.Held(slot) == []
    requires c in w.place && c.dir in w.q.affinity.owner && w.q.affinity.owner[c.dir] == slot
    ensures w.place[c] == Settled
  {
    assert CaseAsPlaced(w, c);
  }

  /** With lanes on a slot that is given a new directory has settled every case of those it had. */
  lemma DirectoryExhausted(ws: seq<World>, es: seq<Event>, k: nat, c: Case)
    requires Behavior(ws, es) && k < |es| && ws[0].q.setup.lanes && es[k].Claim?
    requires var a := ClaimOnce(ws[k].q, es[k].slot, ws[k].workers[es[k].slot], es[k].meter).1;
             a.Handed? && a.ticket.kase.dir !in ws[k].q.affinity.owner
    requires c in ws[k].place && c.dir in ws[k].q.affinity.owner && ws[k].q.affinity.owner[c.dir] == es[k].slot
    ensures ws[k].place[c] == Settled
  {
    Invariant(ws, es, k);
    SameRun(ws, es, k);
    var w, slot := ws[k], es[k].slot;
    KeptIsOwned(w, slot);
    HeldPlace(w, slot);
    OwnerIdle(w, slot, c);
  }

  lemma KeptIsOwned(w: World, slot: Slot)
    requires Accounted(w) && Owned(w) && w.q.setup.lanes
    ensures forall c :: c in w.q.affinity.Held(slot) ==> c.dir in w.q.affinity.owner
  {
    forall c | c in w.q.affinity.Held(slot)
      ensures c.dir in w.q.affinity.owner
    {
      assert w.place[c] == KeptFor(slot);
    }
  }

  /** With lanes on and one worker to a slot, no retry ever reaches the general queue. */
  lemma NoGeneralRetry(ws: seq<World>, es: seq<Event>, k: nat)
    requires Behavior(ws, es) && k < |ws| && ws[0].q.setup.lanes
    ensures ws[k].q.retries.queue == []
  {
    Invariant(ws, es, k);
    SameRun(ws, es, k);
  }

  // ---- admission, lanes off -----------------------------------------------

  ghost predicate MeetsBoth(w: World, meter: Meter, c: Case) {
    Allowed(w.q.setup.hard, w.q.setup.soft, 0, w.q.running, meter)(c)
  }

  ghost predicate MeetsHard(w: World, meter: Meter, c: Case) {
    Allowed(w.q.setup.hard, Always, 1, w.q.running, meter)(c)
  }

  lemma WindowRules(w: World, slot: Slot, meter: Meter)
    requires Inv(w) && !w.q.setup.lanes && Enabled(w, Claim(slot, meter))
    ensures var a := ClaimOnce(w.q, slot, w.workers[slot], meter).1;
            a.Handed? && a.ticket.retry == 0 ==>
              var c := a.ticket.kase;
              && c in w.q.waiting
              && (MeetsBoth(w, meter, c) || forall d :: d in w.q.waiting ==> !MeetsBoth(w, meter, d))
              && (MeetsBoth(w, meter, c) || MeetsHard(w, meter, c) || w.out == map[])
  {
    NothingRunning(w);
    WindowClaim(w, slot, meter);
  }

  /** The hard rule is crossed only when no ticket at all is out, the soft one only when no case meets both. */
  lemma RulesHeld(ws: seq<World>, es: seq<Event>, k: nat)
    requires Behavior(ws, es) && k < |es| && !ws[0].q.setup.lanes && es[k].Claim?
    ensures var (w, meter) := (ws[k], es[k].meter);
            var a := ClaimOnce(w.q, es[k].slot, w.workers[es[k].slot], meter).1;
            a.Handed? && a.ticket.retry == 0 ==>
              var c := a.ticket.kase;
              && c in w.q.waiting
              && (MeetsBoth(w, meter, c) || forall d :: d in w.q.waiting ==> !MeetsBoth(w, meter, d))
              && (MeetsBoth(w, meter, c) || MeetsHard(w, meter, c) || w.out == map[])
  {
    Invariant(ws, es, k);
    SameRun(ws, es, k);
    WindowRules(ws[k], es[k].slot, es[k].meter);
  }

  lemma NoneAdmissible(setup: Setup, waiting: seq<Case>, running: seq<Case>, meter: Meter)
    ensures Admissible(setup, waiting, running, meter) == None <==>
            waiting == [] || (running != [] &&
                              forall d :: d in waiting ==> !Allowed(setup.hard, setup.soft, 0, running, meter)(d) &&
                                                           !Allowed(setup.hard, Always, 1, running, meter)(d))
  {
    var both := Allowed(setup.hard, setup.soft, 0, running, meter);
    var must := Allowed(setup.hard, Always, 1, running, meter);
    if Admissible(setup, waiting, running, meter) == None {
      forall d | d in waiting
        ensures !both(d) && !must(d)
      {
        var k :| 0 <= k < |waiting| && waiting[k] == d;
      }
    } else if running != [] && forall d :: d in waiting ==> !both(d) && !must(d) {
      NoneFound(waiting, both);
      NoneFound(waiting, must);
    }
  }

  lemma WaitsExactly(w: World, slot: Slot, meter: Meter)
    requires Inv(w) && !w.q.setup.lanes && slot in w.workers
    ensures ClaimOnce(w.q, slot, w.workers[slot], meter).1 == Again <==>
            !w.q.stopped && w.out != map[] && w.q.waiting != [] &&
            forall d :: d in w.q.waiting ==> !MeetsBoth(w, meter, d) && !MeetsHard(w, meter, d)
  {
    NothingRunning(w);
    NoneAdmissible(w.q.setup, w.q.waiting, w.q.running, meter);
  }

  /** A claimant is told to wait exactly when a ticket is out, cases wait, and no rule but none admits one of them. */
  lemma WaitsOnlyRefused(ws: seq<World>, es: seq<Event>, k: nat, slot: Slot, meter: Meter)
    requires Behavior(ws, es) && k < |ws| && slot in ws[k].workers
    ensures var w := ws[k];
            ClaimOnce(w.q, slot, w.workers[slot], meter).1 == Again <==>
            !ws[0].q.setup.lanes && !w.q.stopped && w.out != map[] && w.q.waiting != [] &&
            forall d :: d in w.q.waiting ==> !MeetsBoth(w, meter, d) && !MeetsHard(w, meter, d)
  {
    Invariant(ws, es, k);
    SameRun(ws, es, k);
    if !ws[0].q.setup.lanes {
      WaitsExactly(ws[k], slot, meter);
    }
  }

  // ---- a newcomer ---------------------------------------------------------

  /** A slot with nothing kept for it that would take any lane is turned away exactly when the queue
      is drained or only running cases are left. */
  lemma DrainedForNewcomer(q: QueueState, slot: Slot, meter: Meter)
    requires q.affinity.Held(slot) == []
    ensures ClaimOnce(q, slot, LaneAny, meter).1 == NoMore <==> Drained(q) || (q.waiting == [] && q.inFlight > 0)
    ensures Drained(q) ==> forall lane :: ClaimOnce(q, slot, lane, meter).1 == NoMore
  {
    if q.waiting != [] {
      assert InLane(q.setup.laneOf, LaneAny)(q.waiting[0]);
    }
    if q.retries.queue != [] {
      assert Retryable(q.setup.lanes, q.setup.laneOf, LaneAny)(q.retries.queue[0]);
    }
  }
}
