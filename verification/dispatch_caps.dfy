/** Admission over whole runs with lanes off: the cap on heavy cases, and the order with no policy. */
module DispatchCaps {
  import opened Prelude
  import opened DispatchModel
  import opened DispatchWorld
  import opened DispatchSteps
  import opened DispatchRuns
  import opened DispatchTheorems

  /** p holds the number of heavy cases to max, alone or among other policies. */
  ghost predicate Caps(p: Policy, heavy: set<Case>, max: int) {
    match p
    case HeavyCap(h, m) => h == heavy && m == max
    case All(members) => exists m :: m in members && Caps(m, heavy, max)
    case _ => false
  }

  lemma {:induction false} CapsAdmit(p: Policy, heavy: set<Case>, max: int, pass: nat, c: Case, running: seq<Case>,
                                     meter: Meter)
    requires Caps(p, heavy, max) && Admits(p, pass, c, running, meter) && c in heavy
    ensures HeavyCount(heavy, running) < max
  {
    if p.All? {
      var m :| m in p.members && Caps(m, heavy, max);
      CapsAdmit(m, heavy, max, pass, c, running, meter);
    }
  }

  lemma HeavyAppend(heavy: set<Case>, running: seq<Case>, c: Case)
    ensures HeavyCount(heavy, running + [c]) == HeavyCount(heavy, running) + (if c in heavy then 1 else 0)
  {
    assert (running + [c])[..|running|] == running;
  }

  lemma {:induction false} HeavyConcat(heavy: set<Case>, a: seq<Case>, b: seq<Case>)
    ensures HeavyCount(heavy, a + b) == HeavyCount(heavy, a) + HeavyCount(heavy, b)
  {
    if b == [] {
      assert a + b == a;
    } else {
      var init, last := b[..|b| - 1], b[|b| - 1];
      HeavyConcat(heavy, a, init);
      HeavyAppend(heavy, a + init, last);
      assert a + b == a + init + [last];
    }
  }

  lemma {:induction false} HeavyStop(heavy: set<Case>, running: seq<Case>, c: Case)
    ensures HeavyCount(heavy, StopRunning(running, c)) <= HeavyCount(heavy, running)
  {
    if running != [] {
      var rest := running[1..];
      HeavyConcat(heavy, [running[0]], rest);
      assert running == [running[0]] + rest;
      if running[0] != c {
        HeavyStop(heavy, rest, c);
        HeavyConcat(heavy, [running[0]], StopRunning(rest, c));
      }
    }
  }

  /** A queue with nothing running starts a case all the same, so a cap below one is a cap of one. */
  function AtMost(max: int): int {
    if max < 1 then 1 else max
  }

  lemma HeavyClaim(w: World, slot: Slot, meter: Meter, heavy: set<Case>, max: int)
    requires Inv(w) && Enabled(w, Claim(slot, meter)) && !w.q.setup.lanes
    requires Caps(w.q.setup.hard, heavy, max) && HeavyCount(heavy, w.q.running) <= AtMost(max)
    ensures HeavyCount(heavy, ClaimStep(w, slot, meter).q.running) <= AtMost(max)
  {
    WindowClaim(w, slot, meter);
    var at := Admissible(w.q.setup, w.q.waiting, w.q.running, meter);
    if !w.q.stopped && at.Some? {
      HeavyFirst(w.q.setup, w.q.waiting, w.q.running, meter, at.value, heavy, max);
    }
  }

  lemma HeavyFirst(setup: Setup, waiting: seq<Case>, running: seq<Case>, meter: Meter, at: nat, heavy: set<Case>,
                   max: int)
    requires Admissible(setup, waiting, running, meter) == Some(at)
    requires Caps(setup.hard, heavy, max) && HeavyCount(heavy, running) <= AtMost(max)
    ensures HeavyCount(heavy, running + [waiting[at]]) <= AtMost(max)
  {
    var c := waiting[at];
    HeavyAppend(heavy, running, c);
    if c in heavy && running != [] {
      var pass := if Admits(setup.hard, 0, c, running, meter) then 0 else 1;
      CapsAdmit(setup.hard, heavy, max, pass, c, running, meter);
    }
  }

  /** One step keeps the heavy cases listed as running within the cap. */
  lemma HeavyStep(w: World, e: Event, heavy: set<Case>, max: int)
    requires Inv(w) && Enabled(w, e) && !w.q.setup.lanes
    requires Caps(w.q.setup.hard, heavy, max) && HeavyCount(heavy, w.q.running) <= AtMost(max)
    ensures HeavyCount(heavy, Step(w, e).q.running) <= AtMost(max)
  {
    match e
    case Cancel =>
    case Finish(slot, success, hasCore) =>
      assert CaseAsPlaced(w, w.out[slot].kase);
      FinishQueues(w.q, w.out[slot], success, hasCore);
      HeavyStop(heavy, w.q.running, w.out[slot].kase);
    case Claim(slot, meter) => HeavyClaim(w, slot, meter, heavy, max);
  }

  lemma {:induction false} HeavyRunning(ws: seq<World>, es: seq<Event>, k: nat, heavy: set<Case>, max: int)
    requires Behavior(ws, es) && k < |ws| && !ws[0].q.setup.lanes
    requires Caps(ws[0].q.setup.hard, heavy, max)
    ensures HeavyCount(heavy, ws[k].q.running) <= AtMost(max)
  {
    if k > 0 {
      HeavyRunning(ws, es, k - 1, heavy, max);
      Invariant(ws, es, k - 1);
      SameRun(ws, es, k - 1);
      HeavyStep(ws[k - 1], es[k - 1], heavy, max);
    }
  }

  lemma {:induction false} SlotsWithinRunning(slots: set<Slot>, out: map<Slot, Ticket>, running: seq<Case>,
                                              heavy: set<Case>)
    requires slots <= out.Keys
    requires forall s :: s in slots ==> out[s].kase in running && out[s].kase in heavy
    requires forall s, r :: s in slots && r in slots && out[s].kase == out[r].kase ==> s == r
    ensures |slots| <= HeavyCount(heavy, running)
  {
    if running == [] {
      assert slots == {};
    } else {
      var init, last := running[..|running| - 1], running[|running| - 1];
      var here := set s | s in slots && out[s].kase == last;
      assert running == init + [last];
      SlotsWithinRunning(slots - here, out, init, heavy);
      assert |slots| == |slots - here| + |here|;
      if s :| s in here {
        assert here == {s};
      }
    }
  }

  /**
   With a heavy cap in the hard rule, never more than max heavy cases hold a ticket, retries included; one,
   if max is less.
   */
  lemma HeavyCapHolds(ws: seq<World>, es: seq<Event>, k: nat, heavy: set<Case>, max: int)
    requires Behavior(ws, es) && k < |ws| && !ws[0].q.setup.lanes
    requires Caps(ws[0].q.setup.hard, heavy, max)
    ensures |set s | s in ws[k].out && ws[k].out[s].kase in heavy| <= AtMost(max)
  {
    HeavyRunning(ws, es, k, heavy, max);
    Invariant(ws, es, k);
    SameRun(ws, es, k);
    HeavyOut(ws[k], heavy, max);
  }

  lemma HeavyOut(w: World, heavy: set<Case>, max: int)
    requires Accounted(w) && Windowed(w) && Quiet(w) && !w.q.setup.lanes
    requires HeavyCount(heavy, w.q.running) <= AtMost(max)
    ensures |set s | s in w.out && w.out[s].kase in heavy| <= AtMost(max)
  {
    var slots := set s | s in w.out && w.out[s].kase in heavy;
    if r :| r in w.out && w.out[r].retry > 0 {
      assert w.out.Keys == slots + (w.out.Keys - slots);
    } else {
      forall s, r | s in slots && r in slots && w.out[s].kase == w.out[r].kase
        ensures s == r
      {
        assert w.place[w.out[s].kase] == RunningOn(s) && w.place[w.out[r].kase] == RunningOn(r);
      }
      SlotsWithinRunning(slots, w.out, w.q.running, heavy);
    }
  }

  // ---- headroom -----------------------------------------------------------

  /** p asks for headroom of a resource, alone or among other policies. */
  ghost predicate AsksRoom(p: Policy, what: string, percent: int) {
    match p
    case Headroom(w, n) => w == what && n == percent
    case All(members) => exists m :: m in members && AsksRoom(m, what, percent)
    case _ => false
  }

  /** No limit, or less in use than so many percent of it. */
  ghost predicate HasRoom(r: Reading, percent: int) {
    r.limit > 0 ==> 100 * r.used < percent * r.limit
  }

  lemma {:induction false} RoomAdmits(p: Policy, what: string, percent: int, pass: nat, c: Case, running: seq<Case>,
                                      meter: Meter)
    requires AsksRoom(p, what, percent) && Admits(p, pass, c, running, meter)
    ensures HasRoom(meter(pass, c, what), percent)
  {
    if p.All? {
      var m :| m in p.members && AsksRoom(m, what, percent);
      RoomAdmits(m, what, percent, pass, c, running, meter);
    }
  }

  /** A hard rule that asks for headroom starts a case beside others only when its gauge read so. */
  lemma HeadroomHolds(ws: seq<World>, es: seq<Event>, k: nat, what: string, percent: int)
    requires Behavior(ws, es) && k < |es| && !ws[0].q.setup.lanes && es[k].Claim?
    requires AsksRoom(ws[0].q.setup.hard, what, percent) && ws[k].out != map[]
    ensures var (w, meter) := (ws[k], es[k].meter);
            var a := ClaimOnce(w.q, es[k].slot, w.workers[es[k].slot], meter).1;
            a.Handed? && a.ticket.retry == 0 ==>
              HasRoom(meter(0, a.ticket.kase, what), percent) || HasRoom(meter(1, a.ticket.kase, what), percent)
  {
    RulesHeld(ws, es, k);
    SameRun(ws, es, k);
    var (w, meter) := (ws[k], es[k].meter);
    var a := ClaimOnce(w.q, es[k].slot, w.workers[es[k].slot], meter).1;
    if a.Handed? && a.ticket.retry == 0 {
      var pass := if MeetsBoth(w, meter, a.ticket.kase) then 0 else 1;
      RoomAdmits(w.q.setup.hard, what, percent, pass, a.ticket.kase, w.q.running, meter);
    }
  }

  function IsHeavy(heavy: set<Case>): Case -> bool {
    (c: Case) => c in heavy
  }

  lemma {:induction false} HeavyCountIs(heavy: set<Case>, running: seq<Case>)
    ensures HeavyCount(heavy, running) == |Filter(running, IsHeavy(heavy))|
    decreases |running|
  {
    if running != [] {
      var init, last := running[..|running| - 1], running[|running| - 1];
      HeavyCountIs(heavy, init);
      FilterStep(init, last, IsHeavy(heavy));
      assert running == init + [last];
    }
  }

  /** What each policy lets start: no rule anything, a cap what is not heavy or has room, headroom what the gauge
      allows, all what each does. */
  lemma PoliciesMean(pass: nat, c: Case, running: seq<Case>, meter: Meter)
    ensures Admits(Always, pass, c, running, meter)
    ensures forall heavy, max :: Admits(HeavyCap(heavy, max), pass, c, running, meter) <==>
                                 (c in heavy ==> |Filter(running, IsHeavy(heavy))| < max)
    ensures forall what, percent :: Admits(Headroom(what, percent), pass, c, running, meter) <==>
                                    HasRoom(meter(pass, c, what), percent)
    ensures forall p, q :: Admits(All([p, q]), pass, c, running, meter) <==>
                           Admits(p, pass, c, running, meter) && Admits(q, pass, c, running, meter)
  {
    forall heavy, max
      ensures Admits(HeavyCap(heavy, max), pass, c, running, meter) <==>
              (c in heavy ==> |Filter(running, IsHeavy(heavy))| < max)
    {
      HeavyCountIs(heavy, running);
    }
    forall p, q
      ensures Admits(All([p, q]), pass, c, running, meter) <==>
              Admits(p, pass, c, running, meter) && Admits(q, pass, c, running, meter)
    {
      assert p in [p, q] && q in [p, q];
    }
  }

  // ---- the order alone ----------------------------------------------------

  /** First attempts so far are in corpus order, and ahead of all that waits. */
  ghost predicate OrderAlone(w: World) {
    && (forall i, c :: 0 <= i < |w.log| && w.log[i].ticket.retry == 0 && c in w.q.waiting ==>
          Ahead(w.corpus, w.log[i].ticket.kase, c))
    && (forall i, j :: 0 <= i < j < |w.log| && w.log[i].ticket.retry == 0 && w.log[j].ticket.retry == 0 ==>
          Ahead(w.corpus, w.log[i].ticket.kase, w.log[j].ticket.kase))
  }

  ghost predicate Ahead(corpus: seq<Case>, c: Case, d: Case) {
    c in corpus && d in corpus && Rank(corpus, c) < Rank(corpus, d)
  }

  lemma OrderAloneFirst(w: World, slot: Slot)
    requires Listed(w) && OrderAlone(w) && w.q.waiting != []
    ensures var (q, a) := TakeFirst(w.q, 0);
            OrderAlone(HandStep(w, slot, q, a.ticket))
  {
    var (q, a) := TakeFirst(w.q, 0);
    var c := w.q.waiting[0];
    assert c in w.q.waiting;
    FirstAhead(w.corpus, w.q.waiting);
    assert q.waiting == w.q.waiting[1..];
  }

  lemma FirstAhead(corpus: seq<Case>, waiting: seq<Case>)
    requires Ordered(corpus, waiting) && waiting != []
    ensures forall d :: d in waiting[1..] ==> d in waiting && Ahead(corpus, waiting[0], d)
  {
    var rest := waiting[1..];
    forall d | d in rest
      ensures d in waiting && Ahead(corpus, waiting[0], d)
    {
      var i :| 0 <= i < |rest| && rest[i] == d;
      assert waiting[i + 1] == d;
    }
  }

  lemma OrderAloneStep(w: World, e: Event)
    requires Inv(w) && Enabled(w, e) && OrderAlone(w)
    requires !w.q.setup.lanes && w.q.setup.hard == Always && w.q.setup.soft == Always
    ensures OrderAlone(Step(w, e))
  {
    match e
    case Cancel =>
    case Finish(slot, success, hasCore) => OrderAloneFinish(w, slot, success, hasCore);
    case Claim(slot, meter) => OrderAloneClaim(w, slot, meter);
  }

  lemma OrderAloneFinish(w: World, slot: Slot, success: bool, hasCore: bool)
    requires Inv(w) && OrderAlone(w) && slot in w.out
    ensures OrderAlone(FinishStep(w, slot, success, hasCore))
  {
    assert CaseAsPlaced(w, w.out[slot].kase);
    FinishQueues(w.q, w.out[slot], success, hasCore);
  }

  lemma OrderAloneClaim(w: World, slot: Slot, meter: Meter)
    requires Inv(w) && Enabled(w, Claim(slot, meter)) && OrderAlone(w)
    requires !w.q.setup.lanes && w.q.setup.hard == Always && w.q.setup.soft == Always
    ensures OrderAlone(ClaimStep(w, slot, meter))
  {
    WindowClaim(w, slot, meter);
    if !w.q.stopped && w.q.waiting != [] {
      var p := Allowed(Always, Always, 0, w.q.running, meter);
      assert p(w.q.waiting[0]);
      FirstIndexIs(w.q.waiting, p, 0);
      OrderAloneFirst(w, slot);
    }
  }

  /** With no policy and no lanes no slot idles while a case waits: a claim is given the first. */
  lemma NoneIdle(q: QueueState, slot: Slot, lane: Lane, meter: Meter)
    requires !q.stopped && !q.setup.lanes && q.setup.hard == Always && q.setup.soft == Always
    requires q.affinity.Held(slot) == [] && q.waiting != []
    ensures ClaimOnce(q, slot, lane, meter).1 == Handed(Ticket(q.waiting[0], 0))
  {
    var p := Allowed(Always, Always, 0, q.running, meter);
    assert p(q.waiting[0]);
    FirstIndexIs(q.waiting, p, 0);
  }

  /** With no policy and no lanes the first attempts are issued in the order the queue was given. */
  lemma {:induction false} FirstAttemptsInOrder(ws: seq<World>, es: seq<Event>, k: nat)
    requires Behavior(ws, es) && k < |ws|
    requires !ws[0].q.setup.lanes && ws[0].q.setup.hard == Always && ws[0].q.setup.soft == Always
    ensures OrderAlone(ws[k])
  {
    if k > 0 {
      FirstAttemptsInOrder(ws, es, k - 1);
      Invariant(ws, es, k - 1);
      SameRun(ws, es, k - 1);
      OrderAloneStep(ws[k - 1], es[k - 1]);
    }
  }
}
