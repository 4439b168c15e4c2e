/** What every interleaving of claims and completions keeps, over whole runs. */
module DispatchRuns {
  import opened Prelude
  import opened DispatchModel
  import opened DispatchWorld
  import opened DispatchSteps
  import opened DispatchModes
  import opened DispatchOrder

  // ---- the invariant ------------------------------------------------------

  lemma InitInv(w: World)
    requires Init(w)
    ensures Inv(w)
  {
    InitPlaces(w);
    InitListed(w);
    InitModes(w);
  }

  lemma InitPlaces(w: World)
    requires Init(w)
    ensures Placed(w) && Accounted(w) && Crewed(w) && Numbered(w) && Told(w)
  {
    assert w.place.Keys == (set c | c in w.corpus);
  }

  lemma InitListed(w: World)
    requires Init(w)
    ensures Listed(w)
  {
    forall i, j | 0 <= i < j < |w.corpus|
      ensures Rank(w.corpus, w.corpus[i]) == i && Rank(w.corpus, w.corpus[j]) == j
    {}
  }

  lemma InitModes(w: World)
    requires Init(w)
    ensures Windowed(w) && Quiet(w) && Owned(w) && InOrder(w)
  {}

  lemma HandedParts(w: World, slot: Slot, q: QueueState, t: Ticket, swept: seq<Case>)
    requires Inv(w) && Hands(w, slot, q, t, swept) && slot in w.workers && slot !in w.out && slot !in w.done
    ensures var w' := HandStep(w, slot, q, t);
            Placed(w') && Accounted(w') && Crewed(w') && Numbered(w') && Told(w')
  {
    HandedPlaced(w, slot, q, t, swept);
    HandedAccounted(w, slot, q, t, swept);
    HandedCrewed(w, slot, q, t, swept);
    HandedTold(w, slot, q, t, swept);
  }

  lemma TakeHeldInv(w: World, slot: Slot)
    requires Inv(w) && slot in w.workers && slot !in w.out && slot !in w.done && w.q.affinity.Held(slot) != []
    ensures var (q, a) := TakeHeld(w.q, slot);
            Inv(HandStep(w, slot, q, a.ticket))
  {
    var (q, a) := TakeHeld(w.q, slot);
    HeldParts(w, slot);
    HandedParts(w, slot, q, a.ticket, []);
  }

  lemma HeldParts(w: World, slot: Slot)
    requires Inv(w) && slot in w.workers && slot !in w.out && slot !in w.done && w.q.affinity.Held(slot) != []
    ensures var (q, a) := TakeHeld(w.q, slot);
            var w' := HandStep(w, slot, q, a.ticket);
            Hands(w, slot, q, a.ticket, []) && Listed(w') && Windowed(w') && Quiet(w') && Owned(w') && InOrder(w')
  {
    HeldHands(w, slot);
    HeldListed(w, slot);
    HeldOwned(w, slot);
    HeldInOrder(w, slot);
  }

  lemma TakeFirstInv(w: World, slot: Slot, i: nat)
    requires Inv(w) && slot in w.workers && slot !in w.out && slot !in w.done && !w.q.setup.lanes && i < |w.q.waiting|
    ensures var (q, a) := TakeFirst(w.q, i);
            Inv(HandStep(w, slot, q, a.ticket))
  {
    var (q, a) := TakeFirst(w.q, i);
    FirstParts(w, slot, i);
    HandedParts(w, slot, q, a.ticket, []);
  }

  lemma FirstParts(w: World, slot: Slot, i: nat)
    requires Inv(w) && slot in w.workers && slot !in w.out && slot !in w.done && !w.q.setup.lanes && i < |w.q.waiting|
    ensures var (q, a) := TakeFirst(w.q, i);
            var w' := HandStep(w, slot, q, a.ticket);
            Hands(w, slot, q, a.ticket, []) && Listed(w') && Windowed(w') && Quiet(w') && Owned(w') && InOrder(w')
  {
    FirstHands(w, slot, i);
    FirstListed(w, i);
    FirstWindowed(w, slot, i);
    FirstQuiet(w, slot, i);
  }

  lemma TakeDirInv(w: World, slot: Slot, i: nat)
    requires Inv(w) && slot in w.workers && slot !in w.out && slot !in w.done && w.q.setup.lanes && i < |w.q.waiting|
    requires w.q.affinity.Held(slot) == []
    requires forall k :: 0 <= k < i ==> w.q.waiting[k].dir != w.q.waiting[i].dir
    ensures var (q, a) := TakeDir(w.q, slot, i);
            Inv(HandStep(w, slot, q, a.ticket))
  {
    var (q, a) := TakeDir(w.q, slot, i);
    DirParts(w, slot, i);
    HandedParts(w, slot, q, a.ticket, Swept(w.q.waiting, i));
  }

  lemma DirParts(w: World, slot: Slot, i: nat)
    requires Inv(w) && slot in w.workers && slot !in w.out && slot !in w.done && w.q.setup.lanes && i < |w.q.waiting|
    requires w.q.affinity.Held(slot) == []
    requires forall k :: 0 <= k < i ==> w.q.waiting[k].dir != w.q.waiting[i].dir
    ensures var (q, a) := TakeDir(w.q, slot, i);
            var w' := HandStep(w, slot, q, a.ticket);
            && Hands(w, slot, q, a.ticket, Swept(w.q.waiting, i))
            && Listed(w') && Windowed(w') && Quiet(w') && Owned(w') && InOrder(w')
  {
    DirHands(w, slot, i);
    DirListed(w, slot, i);
    DirOwned(w, slot, i);
    DirInOrder(w, slot, i);
  }

  lemma TakeRetryInv(w: World, slot: Slot, i: nat)
    requires Inv(w) && slot in w.workers && slot !in w.out && slot !in w.done
    requires w.q.inFlight == 0 && i < |w.q.retries.queue| && (!w.q.setup.lanes ==> w.q.waiting == [])
    ensures var (q, a) := TakeRetry(w.q, i);
            Inv(HandStep(w, slot, q, a.ticket))
  {
    var (q, a) := TakeRetry(w.q, i);
    RetryParts(w, slot, i);
    HandedParts(w, slot, q, a.ticket, []);
  }

  lemma RetryParts(w: World, slot: Slot, i: nat)
    requires Inv(w) && slot in w.workers && slot !in w.out && slot !in w.done
    requires w.q.inFlight == 0 && i < |w.q.retries.queue| && (!w.q.setup.lanes ==> w.q.waiting == [])
    ensures var (q, a) := TakeRetry(w.q, i);
            var w' := HandStep(w, slot, q, a.ticket);
            Hands(w, slot, q, a.ticket, []) && Listed(w') && Windowed(w') && Quiet(w') && Owned(w') && InOrder(w')
  {
    RetryHands(w, slot, i);
    RetryListed(w, i);
    RetryWindowed(w, slot, i);
  }

  /** The first case of a lane is the first of its directory. */
  lemma FirstOfDir(q: QueueState, lane: Lane, i: nat)
    requires FirstIndex(q.waiting, InLane(q.setup.laneOf, lane)) == Some(i)
    ensures i < |q.waiting| && forall k :: 0 <= k < i ==> q.waiting[k].dir != q.waiting[i].dir
  {
    forall k | 0 <= k < i
      ensures q.waiting[k].dir != q.waiting[i].dir
    {
      assert !InLane(q.setup.laneOf, lane)(q.waiting[k]) && InLane(q.setup.laneOf, lane)(q.waiting[i]);
    }
  }

  /** The first pass is over for the claimant. */
  ghost predicate FirstPassOver(q: QueueState, slot: Slot, lane: Lane) {
    && !q.stopped && q.affinity.Held(slot) == []
    && if q.setup.lanes then FirstIndex(q.waiting, InLane(q.setup.laneOf, lane)).None? else q.waiting == []
  }

  lemma QuietInv(w: World, slot: Slot, meter: Meter)
    requires Inv(w) && Enabled(w, Claim(slot, meter)) && FirstPassOver(w.q, slot, w.workers[slot])
    ensures Inv(ClaimStep(w, slot, meter))
  {
    var lane := w.workers[slot];
    var at := FirstIndex(w.q.retries.queue, Retryable(w.q.setup.lanes, w.q.setup.laneOf, lane));
    assert ClaimOnce(w.q, slot, lane, meter) == TakeQuiet(w.q, slot, lane);
    if w.q.inFlight == 0 && at.Some? {
      TakeRetryInv(w, slot, at.value);
    } else {
      DepartTold(w, slot, meter);
      DepartLeaves(w, slot, meter);
      LeaveInv(w, ClaimStep(w, slot, meter));
    }
  }

  lemma DepartLeaves(w: World, slot: Slot, meter: Meter)
    requires Crewed(w) && Enabled(w, Claim(slot, meter))
    requires ClaimOnce(w.q, slot, w.workers[slot], meter) == (w.q.(departed := w.q.departed + {slot}), NoMore)
    ensures var w' := ClaimStep(w, slot, meter);
            && OnlyLeaves(w, w') && w'.done !! w.out.Keys
            && w'.done <= w.workers.Keys && w'.q.departed <= w'.done
  {}

  /** w' differs from w only in who has left and whether the run was stopped. */
  ghost predicate OnlyLeaves(w: World, w': World) {
    && w' == w.(q := w'.q, done := w'.done)
    && w'.q == w.q.(departed := w'.q.departed, stopped := w'.q.stopped)
  }

  lemma LeavePlaces(w: World, w': World)
    requires OnlyLeaves(w, w') && Placed(w) && Accounted(w) && Listed(w)
    ensures Placed(w') && Accounted(w') && Listed(w')
  {
    forall c | c in w'.place
      ensures CaseAsPlaced(w', c)
    {
      assert CaseAsPlaced(w, c);
    }
  }

  lemma LeaveModes(w: World, w': World)
    requires OnlyLeaves(w, w') && Windowed(w) && Quiet(w) && Owned(w)
    ensures Windowed(w') && Quiet(w') && Owned(w')
  {}

  lemma LeaveOrder(w: World, w': World)
    requires OnlyLeaves(w, w') && InOrder(w) && Numbered(w)
    ensures InOrder(w') && Numbered(w')
  {
    if w.q.setup.lanes {
      forall s, i, j | 0 <= i < j < |w'.q.affinity.Held(s)|
        ensures Earlier(w', w'.q.affinity.Held(s)[i], w'.q.affinity.Held(s)[j])
      {
        assert Earlier(w, w.q.affinity.Held(s)[i], w.q.affinity.Held(s)[j]);
      }
      forall i, c | 0 <= i < |w.log| && w.log[i].ticket.retry == 0 && c in w'.place
        ensures Behind(w', w.log[i].ticket.kase, c)
      {
        assert Behind(w, w.log[i].ticket.kase, c);
      }
    }
  }

  lemma LeaveInv(w: World, w': World)
    requires Inv(w) && OnlyLeaves(w, w') && Told(w')
    requires w'.done !! w.out.Keys && w'.done <= w.workers.Keys && w'.q.departed <= w'.done
    ensures Inv(w')
  {
    LeavePlaces(w, w');
    LeaveModes(w, w');
    LeaveOrder(w, w');
  }

  lemma ClaimLaneInv(w: World, slot: Slot, meter: Meter)
    requires Inv(w) && Enabled(w, Claim(slot, meter)) && w.q.setup.lanes && w.q.affinity.Held(slot) == []
    requires !w.q.stopped
    ensures Inv(ClaimStep(w, slot, meter))
  {
    var lane := w.workers[slot];
    var at := FirstIndex(w.q.waiting, InLane(w.q.setup.laneOf, lane));
    if at.Some? {
      FirstOfDir(w.q, lane, at.value);
      TakeDirInv(w, slot, at.value);
    } else {
      QuietInv(w, slot, meter);
    }
  }

  lemma ClaimInv(w: World, slot: Slot, meter: Meter)
    requires Inv(w) && Enabled(w, Claim(slot, meter))
    ensures Inv(ClaimStep(w, slot, meter))
  {
    if w.q.stopped {
      LeaveInv(w, ClaimStep(w, slot, meter));
    } else if w.q.affinity.Held(slot) != [] {
      TakeHeldInv(w, slot);
    } else if w.q.setup.lanes {
      ClaimLaneInv(w, slot, meter);
    } else {
      var at := Admissible(w.q.setup, w.q.waiting, w.q.running, meter);
      if at.Some? {
        TakeFirstInv(w, slot, at.value);
      } else if w.q.waiting != [] {
      } else {
        QuietInv(w, slot, meter);
      }
    }
  }

  lemma FinishInv(w: World, slot: Slot, success: bool, hasCore: bool)
    requires Inv(w) && slot in w.out
    ensures Inv(FinishStep(w, slot, success, hasCore))
  {
    FinishParts(w, slot, success, hasCore);
    FinishModes(w, slot, success, hasCore);
  }

  lemma FinishParts(w: World, slot: Slot, success: bool, hasCore: bool)
    requires Inv(w) && slot in w.out
    ensures var w' := FinishStep(w, slot, success, hasCore);
            Placed(w') && Accounted(w') && Listed(w') && Crewed(w') && Numbered(w') && Told(w')
  {
    FinishedPlaced(w, slot, success, hasCore);
    FinishedAccounted(w, slot, success, hasCore);
    FinishedListed(w, slot, success, hasCore);
    FinishedCrewed(w, slot, success, hasCore);
    FinishedTold(w, slot, success, hasCore);
  }

  lemma FinishModes(w: World, slot: Slot, success: bool, hasCore: bool)
    requires Inv(w) && slot in w.out
    ensures var w' := FinishStep(w, slot, success, hasCore);
            Windowed(w') && Quiet(w') && Owned(w') && InOrder(w')
  {
    FinishedInOrder(w, slot, success, hasCore);
    if w.q.setup.lanes {
      FinishedOwned(w, slot, success, hasCore);
    } else {
      FinishedWindowed(w, slot, success, hasCore);
      FinishedQuiet(w, slot, success, hasCore);
    }
  }

  lemma StepInv(w: World, e: Event)
    requires Inv(w) && Enabled(w, e)
    ensures Inv(Step(w, e))
  {
    match e
    case Claim(slot, meter) => ClaimInv(w, slot, meter);
    case Finish(slot, success, hasCore) => FinishInv(w, slot, success, hasCore);
    case Cancel => LeaveInv(w, Step(w, e));
  }

  lemma {:induction false} Invariant(ws: seq<World>, es: seq<Event>, k: nat)
    requires Behavior(ws, es) && k < |ws|
    ensures Inv(ws[k])
  {
    if k == 0 {
      InitInv(ws[0]);
    } else {
      Invariant(ws, es, k - 1);
      StepInv(ws[k - 1], es[k - 1]);
    }
  }
}
