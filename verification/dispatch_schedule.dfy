/**
 What a shared queue costs: runs of the queue in time, with no policy and no lanes, in which a slot
 is busy with each case for as long as the case takes and claims again at once.
 */
module DispatchSchedule {
  import opened Prelude
  import opened DispatchModel
  import opened DispatchWorld
  import opened DispatchRuns
  import opened DispatchTheorems
  import opened DispatchCaps

  /** How long a case takes. */
  type Durations = Case -> nat

  // ---- runs in time -------------------------------------------------------

  predicate Acts(e: Event, slot: Slot) {
    !e.Cancel? && e.slot == slot
  }

  /** How long a slot is busy after an event of its own: a case runs, or a refused claimant sleeps. */
  function Busy(e: Event, after: World, took: Durations, poll: nat, slot: Slot): nat {
    if e.Finish? then 0
    else if slot in after.out then took(after.out[slot].kase)
    else if slot in after.done then 0
    else poll
  }

  /** When a slot's next event is due, after the first i. */
  function NextAt(ws: seq<World>, es: seq<Event>, when: seq<nat>, took: Durations, poll: nat, i: nat, slot: Slot): nat
    requires i <= |when| && |when| == |es| && |ws| == |es| + 1
  {
    if i == 0 then 0
    else if Acts(es[i - 1], slot) then when[i - 1] + Busy(es[i - 1], ws[i], took, poll, slot)
    else NextAt(ws, es, when, took, poll, i - 1, slot)
  }

  /** Event i comes when it is due, and no slot that is not done has one due before it. */
  ghost predicate OnTime(ws: seq<World>, es: seq<Event>, when: seq<nat>, took: Durations, poll: nat, i: nat)
    requires i < |when| && |when| == |es| && |ws| == |es| + 1
  {
    !es[i].Cancel? ==>
      && when[i] == NextAt(ws, es, when, took, poll, i, es[i].slot)
      && forall s :: s in ws[i].workers && s !in ws[i].done ==> when[i] <= NextAt(ws, es, when, took, poll, i, s)
  }

  ghost predicate Timed(ws: seq<World>, es: seq<Event>, when: seq<nat>, took: Durations, poll: nat) {
    && Behavior(ws, es) && |when| == |es|
    && !ws[0].q.setup.lanes && ws[0].q.setup.hard == Always && ws[0].q.setup.soft == Always
    && forall i :: 0 <= i < |es| ==> OnTime(ws, es, when, took, poll, i)
  }

  // ---- what was spent -----------------------------------------------------

  /** The time of the tickets of the log that satisfy p. */
  function Spent(log: seq<Issue>, took: Durations, p: Issue -> bool): nat {
    if log == [] then 0
    else Spent(log[..|log| - 1], took, p) + if p(log[|log| - 1]) then took(log[|log| - 1].ticket.kase) else 0
  }

  function By(slot: Slot): Issue -> bool {
    (e: Issue) => e.slot == slot
  }

  function First(): Issue -> bool {
    (e: Issue) => e.ticket.retry == 0
  }

  function FirstBy(slot: Slot): Issue -> bool {
    (e: Issue) => e.ticket.retry == 0 && e.slot == slot
  }

  function CaseTime(cases: seq<Case>, took: Durations): nat {
    if cases == [] then 0 else took(cases[0]) + CaseTime(cases[1..], took)
  }

  lemma SpentStep(log: seq<Issue>, e: Issue, took: Durations, p: Issue -> bool)
    ensures Spent(log + [e], took, p) == Spent(log, took, p) + if p(e) then took(e.ticket.kase) else 0
  {
    assert (log + [e])[..|log|] == log;
  }

  lemma {:induction false} SpentSame(log: seq<Issue>, took: Durations, p: Issue -> bool, q: Issue -> bool)
    requires forall i :: 0 <= i < |log| ==> p(log[i]) == q(log[i])
    ensures Spent(log, took, p) == Spent(log, took, q)
  {
    if log != [] {
      SpentSame(log[..|log| - 1], took, p, q);
    }
  }

  lemma {:induction false} CaseTimeAppend(a: seq<Case>, b: seq<Case>, took: Durations)
    ensures CaseTime(a + b, took) == CaseTime(a, took) + CaseTime(b, took)
  {
    if a == [] {
      assert a + b == b;
    } else {
      CaseTimeAppend(a[1..], b, took);
      assert (a + b)[1..] == a[1..] + b;
    }
  }

  lemma CaseTimeRemove(cases: seq<Case>, i: nat, took: Durations)
    requires i < |cases|
    ensures CaseTime(cases, took) == took(cases[i]) + CaseTime(Remove(cases, i), took)
  {
    assert cases == cases[..i] + cases[i..] && cases[i..][1..] == cases[i + 1..];
    CaseTimeAppend(cases[..i], cases[i..], took);
    CaseTimeAppend(cases[..i], cases[i + 1..], took);
  }

  /** The time of each of the crew, together. */
  function CrewSpent(log: seq<Issue>, took: Durations, crew: seq<Slot>): nat {
    if crew == [] then 0 else Spent(log, took, By(crew[0])) + CrewSpent(log, took, crew[1..])
  }

  lemma {:induction false} CrewStart(took: Durations, crew: seq<Slot>)
    ensures CrewSpent([], took, crew) == 0
  {
    if crew != [] {
      CrewStart(took, crew[1..]);
    }
  }

  lemma {:induction false} CrewStep(log: seq<Issue>, e: Issue, took: Durations, crew: seq<Slot>)
    requires NoDup(crew)
    ensures CrewSpent(log + [e], took, crew) ==
            CrewSpent(log, took, crew) + if e.slot in crew then took(e.ticket.kase) else 0
  {
    if crew != [] {
      CrewStep(log, e, took, crew[1..]);
      SpentStep(log, e, took, By(crew[0]));
      assert crew == [crew[0]] + crew[1..];
    }
  }

  /** All the time is the time of the crew. */
  lemma {:induction false} CrewIsAll(log: seq<Issue>, took: Durations, crew: seq<Slot>, all: Issue -> bool)
    requires NoDup(crew) && forall i :: 0 <= i < |log| ==> log[i].slot in crew && all(log[i])
    ensures CrewSpent(log, took, crew) == Spent(log, took, all)
  {
    if log == [] {
      CrewStart(took, crew);
    } else {
      var init, e := log[..|log| - 1], log[|log| - 1];
      assert log == init + [e];
      CrewIsAll(init, took, crew, all);
      CrewStep(init, e, took, crew);
    }
  }

  ghost predicate AtLeast(log: seq<Issue>, took: Durations, least: nat, slot: Slot) {
    least <= Spent(log, took, By(slot))
  }

  lemma {:induction false} CrewLeast(log: seq<Issue>, took: Durations, crew: seq<Slot>, least: nat)
    requires forall s :: s in crew ==> AtLeast(log, took, least, s)
    ensures |crew| * least <= CrewSpent(log, took, crew)
  {
    if crew != [] {
      var rest := crew[1..];
      assert forall s :: s in rest ==> s in crew;
      CrewLeast(log, took, rest, least);
      assert AtLeast(log, took, least, crew[0]);
      OneMore(|rest|, least, CrewSpent(log, took, rest), Spent(log, took, By(crew[0])));
    }
  }

  lemma OneMore(n: nat, least: nat, sum: nat, more: nat)
    requires n * least <= sum && least <= more
    ensures (n + 1) * least <= more + sum
  {}

  lemma {:induction false} CrewOf(slots: set<Slot>) returns (crew: seq<Slot>)
    ensures NoDup(crew) && |crew| == |slots| && forall s :: s in crew <==> s in slots
  {
    crew := [];
    if slots != {} {
      var s :| s in slots;
      var rest := CrewOf(slots - {s});
      crew := rest + [s];
    }
  }

  // ---- none idles ---------------------------------------------------------

  ghost predicate Plain(w: World) {
    !w.q.setup.lanes && w.q.setup.hard == Always && w.q.setup.soft == Always
  }

  lemma NeverRefused(w: World, slot: Slot, meter: Meter)
    requires Inv(w) && Plain(w) && Enabled(w, Claim(slot, meter))
    ensures ClaimOnce(w.q, slot, w.workers[slot], meter).1 != Again
  {
    if !w.q.stopped && w.q.waiting != [] {
      NoneIdle(w.q, slot, w.workers[slot], meter);
    }
  }

  lemma NoneRefused(ws: seq<World>, es: seq<Event>, k: nat)
    requires Behavior(ws, es) && k < |es| && Plain(ws[0]) && es[k].Claim?
    ensures ClaimOnce(ws[k].q, es[k].slot, ws[k].workers[es[k].slot], es[k].meter).1 != Again
  {
    Invariant(ws, es, k);
    SameRun(ws, es, k);
    NeverRefused(ws[k], es[k].slot, es[k].meter);
  }

  /** What a claim does to the log, and to what a slot has spent. */
  lemma ClaimSpends(w: World, slot: Slot, meter: Meter, took: Durations, s: Slot)
    requires Enabled(w, Claim(slot, meter)) && ClaimOnce(w.q, slot, w.workers[slot], meter).1 != Again
    ensures var w' := ClaimStep(w, slot, meter);
            Spent(w'.log, took, By(s)) == Spent(w.log, took, By(s)) +
              if s == slot then Busy(Claim(slot, meter), w', took, 0, s) else 0
    ensures var w' := ClaimStep(w, slot, meter);
            slot in w'.out || slot in w'.done
  {
    match ClaimOnce(w.q, slot, w.workers[slot], meter).1
    case NoMore =>
    case Handed(t) => SpentStep(w.log, Issue(slot, t), took, By(s));
  }

  /** A slot's next event is due when its tickets have taken their time: it is never idle. */
  lemma {:induction false} NextIsSpent(ws: seq<World>, es: seq<Event>, when: seq<nat>, took: Durations, poll: nat,
                                       i: nat, s: Slot)
    requires Timed(ws, es, when, took, poll) && i <= |es|
    ensures NextAt(ws, es, when, took, poll, i, s) == Spent(ws[i].log, took, By(s))
  {
    if i > 0 {
      NextIsSpent(ws, es, when, took, poll, i - 1, s);
      assert OnTime(ws, es, when, took, poll, i - 1);
      var w, e := ws[i - 1], es[i - 1];
      if e.Claim? {
        NoneRefused(ws, es, i - 1);
        ClaimSpends(w, e.slot, e.meter, took, s);
      }
    }
  }

  // ---- the first pass -----------------------------------------------------

  ghost predicate KnownSlots(w: World) {
    forall i :: 0 <= i < |w.log| ==> w.log[i].slot in w.workers
  }

  lemma {:induction false} SlotsKnown(ws: seq<World>, es: seq<Event>, k: nat)
    requires Behavior(ws, es) && k < |ws|
    ensures KnownSlots(ws[k])
  {
    if k > 0 {
      SlotsKnown(ws, es, k - 1);
      assert Enabled(ws[k - 1], es[k - 1]);
    }
  }

  /**
   What a claim that is given a first attempt means: the case was waiting, only first attempts came
   before, and no slot is done. Any other leaves what waits.
   */
  ghost predicate Attempts(w: World, slot: Slot, meter: Meter, took: Durations)
    requires slot in w.workers
  {
    var (q, a) := ClaimOnce(w.q, slot, w.workers[slot], meter);
    if a.Handed? && a.ticket.retry == 0 then
      && CaseTime(w.q.waiting, took) == took(a.ticket.kase) + CaseTime(q.waiting, took)
      && a.ticket.kase in w.corpus
      && (forall i :: 0 <= i < |w.log| ==> w.log[i].ticket.retry == 0)
      && (forall s :: s in w.workers ==> s !in w.done)
    else q.waiting == w.q.waiting
  }

  lemma FirstAttempt(w: World, slot: Slot, meter: Meter, took: Durations)
    requires Inv(w) && Plain(w) && Enabled(w, Claim(slot, meter))
    ensures Attempts(w, slot, meter, took)
  {
    WindowClaim(w, slot, meter);
    var at := Admissible(w.q.setup, w.q.waiting, w.q.running, meter);
    if !w.q.stopped && at.Some? {
      CaseTimeRemove(w.q.waiting, at.value, took);
      assert w.q.waiting[at.value] in w.q.waiting;
    }
  }

  /** Every claim of a run attempts so. */
  lemma RunAttempts(ws: seq<World>, es: seq<Event>, k: nat, took: Durations)
    requires Behavior(ws, es) && k < |es| && Plain(ws[0])
    ensures Enabled(ws[k], es[k]) && ws[k + 1] == Step(ws[k], es[k])
    ensures es[k].Claim? ==> Attempts(ws[k], es[k].slot, es[k].meter, took)
  {
    if es[k].Claim? {
      Invariant(ws, es, k);
      SameRun(ws, es, k);
      FirstAttempt(ws[k], es[k].slot, es[k].meter, took);
    }
  }

  lemma ClaimLoses(w: World, slot: Slot, meter: Meter, took: Durations)
    requires slot in w.workers && Attempts(w, slot, meter, took)
    ensures var w' := ClaimStep(w, slot, meter);
            Spent(w'.log, took, First()) + CaseTime(w'.q.waiting, took) ==
            Spent(w.log, took, First()) + CaseTime(w.q.waiting, took)
  {
    match ClaimOnce(w.q, slot, w.workers[slot], meter).1
    case Handed(t) => SpentStep(w.log, Issue(slot, t), took, First());
    case _ =>
  }

  ghost predicate Conserved(w: World, took: Durations) {
    Spent(w.log, took, First()) + CaseTime(w.q.waiting, took) == CaseTime(w.corpus, took)
  }

  lemma ConservedStep(w: World, e: Event, took: Durations)
    requires Enabled(w, e) && (e.Claim? ==> Attempts(w, e.slot, e.meter, took)) && Conserved(w, took)
    ensures Conserved(Step(w, e), took)
  {
    if e.Claim? {
      ClaimLoses(w, e.slot, e.meter, took);
    }
  }

  /** First attempts and what waits make up the corpus. */
  lemma {:induction false} NothingLost(ws: seq<World>, es: seq<Event>, took: Durations, k: nat)
    requires Behavior(ws, es) && k < |ws| && Plain(ws[0])
    ensures Conserved(ws[k], took)
  {
    if k > 0 {
      NothingLost(ws, es, took, k - 1);
      RunAttempts(ws, es, k - 1, took);
      ConservedStep(ws[k - 1], es[k - 1], took);
    }
  }

  ghost predicate Within(slots: nat, end: nat, spent: nat, longest: nat) {
    slots > 0 && slots * end <= spent + (slots - 1) * longest
  }

  /** A slot that has spent no more than the mean may take one more case; what others take only adds to the whole. */
  lemma WithinMore(slots: nat, end: nat, spent: nat, longest: nat, d: nat, mine: bool)
    requires Within(slots, end, spent, longest) && d <= longest && (mine && d > 0 ==> slots * end <= spent)
    ensures Within(slots, if mine then end + d else end, spent + d, longest)
  {
    if mine && d > 0 {
      WithinClaim(slots, end, d, longest, spent);
    }
  }

  lemma WithinClaim(slots: nat, start: nat, d: nat, longest: nat, spent: nat)
    requires slots > 0 && slots * start <= spent && d <= longest
    ensures Within(slots, start + d, spent + d, longest)
  {
    Sum(slots, start, d);
    Distribute(slots - 1, d);
    Larger(slots - 1, d, longest);
  }

  lemma Sum(n: nat, a: nat, b: nat)
    ensures n * (a + b) == n * a + n * b
  {}

  lemma Larger(n: nat, a: nat, b: nat)
    requires a <= b
    ensures n * a <= n * b
  {}

  /** A claimant has spent no more than the others have on average. */
  lemma ClaimantLeast(ws: seq<World>, es: seq<Event>, when: seq<nat>, took: Durations, poll: nat, k: nat)
    requires Timed(ws, es, when, took, poll) && k < |es| && es[k].Claim?
    requires (forall i :: 0 <= i < |ws[k].log| ==> ws[k].log[i].ticket.retry == 0)
    requires forall s :: s in ws[k].workers ==> s !in ws[k].done
    ensures |ws[k].workers| * Spent(ws[k].log, took, FirstBy(es[k].slot)) <= Spent(ws[k].log, took, First())
  {
    var w, slot := ws[k], es[k].slot;
    assert OnTime(ws, es, when, took, poll, k);
    SlotsKnown(ws, es, k);
    SpentSame(w.log, took, FirstBy(slot), By(slot));
    NextIsSpent(ws, es, when, took, poll, k, slot);
    var crew := CrewOf(w.workers.Keys);
    forall s | s in crew
      ensures AtLeast(w.log, took, Spent(w.log, took, By(slot)), s)
    {
      NextIsSpent(ws, es, when, took, poll, k, s);
    }
    CrewLeast(w.log, took, crew, Spent(w.log, took, By(slot)));
    CrewIsAll(w.log, took, crew, First());
    assert |crew| == |w.workers|;
  }

  ghost predicate EndWithin(w: World, took: Durations, longest: nat, slot: Slot) {
    Within(|w.workers|, Spent(w.log, took, FirstBy(slot)), Spent(w.log, took, First()), longest)
  }

  lemma StartWithin(w: World, took: Durations, longest: nat, slot: Slot)
    requires w.log == [] && slot in w.workers
    ensures EndWithin(w, took, longest, slot)
  {
    assert |w.workers| > 0;
    assert |w.workers| * 0 == 0;
  }

  /** What a claim adds to the time of all first attempts, and to that of a slot. */
  lemma ClaimAdds(w: World, claimant: Slot, meter: Meter, took: Durations, slot: Slot) returns (d: nat)
    requires claimant in w.workers && Attempts(w, claimant, meter, took)
    ensures var w' := ClaimStep(w, claimant, meter);
            && w'.workers == w.workers
            && Spent(w'.log, took, First()) == Spent(w.log, took, First()) + d
            && Spent(w'.log, took, FirstBy(slot)) ==
               Spent(w.log, took, FirstBy(slot)) + if slot == claimant then d else 0
    ensures d > 0 ==> GivesFirst(w, claimant, meter) && exists c :: c in w.corpus && took(c) == d
  {
    d := 0;
    match ClaimOnce(w.q, claimant, w.workers[claimant], meter).1
    case Handed(t) =>
      SpentStep(w.log, Issue(claimant, t), took, First());
      SpentStep(w.log, Issue(claimant, t), took, FirstBy(slot));
      d := if t.retry == 0 then took(t.kase) else 0;
    case _ =>
  }

  predicate GivesFirst(w: World, slot: Slot, meter: Meter)
    requires slot in w.workers
  {
    var a := ClaimOnce(w.q, slot, w.workers[slot], meter).1;
    a.Handed? && a.ticket.retry == 0
  }

  lemma {:induction false} EndsWithin(ws: seq<World>, es: seq<Event>, when: seq<nat>, took: Durations, poll: nat,
                                      longest: nat, k: nat, slot: Slot)
    requires Timed(ws, es, when, took, poll) && k < |ws| && slot in ws[0].workers
    requires forall c :: c in ws[0].corpus ==> took(c) <= longest
    ensures EndWithin(ws[k], took, longest, slot)
  {
    if k == 0 {
      StartWithin(ws[0], took, longest, slot);
    } else {
      EndsWithin(ws, es, when, took, poll, longest, k - 1, slot);
      EndNext(ws, es, when, took, poll, longest, k - 1, slot);
    }
  }

  lemma EndNext(ws: seq<World>, es: seq<Event>, when: seq<nat>, took: Durations, poll: nat, longest: nat, k: nat,
                slot: Slot)
    requires Timed(ws, es, when, took, poll) && k < |es|
    requires forall c :: c in ws[0].corpus ==> took(c) <= longest
    requires EndWithin(ws[k], took, longest, slot)
    ensures EndWithin(ws[k + 1], took, longest, slot)
  {
    RunAttempts(ws, es, k, took);
    SameRun(ws, es, k);
    var e := es[k];
    if e.Claim? {
      var d := ClaimAdds(ws[k], e.slot, e.meter, took, slot);
      if d > 0 {
        ClaimantLeast(ws, es, when, took, poll, k);
      }
      EndMore(ws[k], ws[k + 1], took, longest, slot, d, slot == e.slot);
    }
  }

  lemma EndMore(w: World, w': World, took: Durations, longest: nat, slot: Slot, d: nat, mine: bool)
    requires EndWithin(w, took, longest, slot) && w'.workers == w.workers && d <= longest
    requires Spent(w'.log, took, First()) == Spent(w.log, took, First()) + d
    requires Spent(w'.log, took, FirstBy(slot)) == Spent(w.log, took, FirstBy(slot)) + if mine then d else 0
    requires mine && d > 0 ==> |w.workers| * Spent(w.log, took, FirstBy(slot)) <= Spent(w.log, took, First())
    ensures EndWithin(w', took, longest, slot)
  {
    WithinMore(|w.workers|, Spent(w.log, took, FirstBy(slot)), Spent(w.log, took, First()), longest, d, mine);
  }

  // ---- the bound ----------------------------------------------------------

  /** While a slot runs a first attempt it has run nothing else. */
  ghost predicate OnlyFirst(w: World, slot: Slot) {
    slot in w.out && w.out[slot].retry == 0 ==>
      forall i :: 0 <= i < |w.log| && w.log[i].slot == slot ==> w.log[i].ticket.retry == 0
  }

  lemma OnlyFirstStep(w: World, e: Event, slot: Slot, took: Durations)
    requires Enabled(w, e) && (e.Claim? ==> Attempts(w, e.slot, e.meter, took)) && OnlyFirst(w, slot)
    ensures OnlyFirst(Step(w, e), slot)
  {}

  lemma {:induction false} OnlyFirstOn(ws: seq<World>, es: seq<Event>, k: nat, slot: Slot, took: Durations)
    requires Behavior(ws, es) && k < |ws| && Plain(ws[0])
    ensures OnlyFirst(ws[k], slot)
  {
    if k > 0 {
      OnlyFirstOn(ws, es, k - 1, slot, took);
      RunAttempts(ws, es, k - 1, took);
      OnlyFirstStep(ws[k - 1], es[k - 1], slot, took);
    }
  }

  /**
   Graham's bound, of every run in time: on m slots every first attempt is over by the total, and
   m - 1 times the longest case, over m.
   */
  lemma ListSchedulingBound(ws: seq<World>, es: seq<Event>, when: seq<nat>, took: Durations, poll: nat, longest: nat,
                            i: nat)
    requires Timed(ws, es, when, took, poll) && i < |es| && es[i].Finish? && ws[i].out[es[i].slot].retry == 0
    requires forall c :: c in ws[0].corpus ==> took(c) <= longest
    ensures |ws[0].workers| * when[i] <= CaseTime(ws[0].corpus, took) + (|ws[0].workers| - 1) * longest
  {
    var slot := es[i].slot;
    Invariant(ws, es, i);
    SameRun(ws, es, i);
    EndsWithin(ws, es, when, took, poll, longest, i, slot);
    NothingLost(ws, es, took, i);
    assert OnTime(ws, es, when, took, poll, i);
    NextIsSpent(ws, es, when, took, poll, i, slot);
    OnlyFirstOn(ws, es, i, slot, took);
    SpentSame(ws[i].log, took, By(slot), FirstBy(slot));
  }
}
