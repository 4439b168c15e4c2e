/** With lanes on, a directory runs on one slot and its first attempts run in corpus order. */
module DispatchOrder {
  import opened DispatchModel
  import opened DispatchWorld
  import opened DispatchSteps

  /** A first attempt ahead of its directory's untried cases keeps the log in order. */
  lemma HandedInOrder(w: World, slot: Slot, q: QueueState, t: Ticket)
    requires LoggedInOrder(w) && t.kase in w.place
    requires t.retry == Tries(w.log, t.kase)
    requires t.retry == 0 ==> forall d :: d in w.place && d != t.kase ==> Behind(w, t.kase, d)
    ensures LoggedInOrder(HandStep(w, slot, q, t))
  {
    var w' := HandStep(w, slot, q, t);
    TriesStep(w.log, Issue(slot, t));
    forall i, d | 0 <= i < |w'.log| && w'.log[i].ticket.retry == 0 && d in w'.place
      ensures Behind(w', w'.log[i].ticket.kase, d)
    {
      if i < |w.log| {
        assert Behind(w, w.log[i].ticket.kase, d);
      }
    }
    forall i, j | 0 <= i < j < |w'.log| && w'.log[j].ticket.retry == 0 && w'.log[i].ticket.retry == 0
      ensures Before(w.corpus, w'.log[i].ticket.kase, w'.log[j].ticket.kase)
    {
      if j == |w.log| {
        assert Behind(w, w.log[i].ticket.kase, t.kase);
      }
    }
  }

  lemma HeldInOrder(w: World, slot: Slot)
    requires Placed(w) && Accounted(w) && Listed(w) && Owned(w) && InOrder(w)
    requires w.q.setup.lanes && w.q.affinity.Held(slot) != []
    ensures var (q, a) := TakeHeld(w.q, slot);
            InOrder(HandStep(w, slot, q, a.ticket))
  {
    HeldHands(w, slot);
    var (q, a) := TakeHeld(w.q, slot);
    HeldEarlier(w, slot);
    HeldBehind(w, slot);
    HandedInOrder(w, slot, q, a.ticket);
  }

  lemma HeldEarlier(w: World, slot: Slot)
    requires InOrder(w) && w.q.setup.lanes && w.q.affinity.Held(slot) != []
    ensures var (q, a) := TakeHeld(w.q, slot);
            forall s, i, j :: 0 <= i < j < |q.affinity.Held(s)| ==>
              Earlier(HandStep(w, slot, q, a.ticket), q.affinity.Held(s)[i], q.affinity.Held(s)[j])
  {
    var (q, a) := TakeHeld(w.q, slot);
    var held, w' := w.q.affinity.Held(slot), HandStep(w, slot, q, a.ticket);
    TriesStep(w.log, Issue(slot, a.ticket));
    assert q.affinity.Held(slot) == held[1..];
    forall s, i, j | 0 <= i < j < |q.affinity.Held(s)|
      ensures Earlier(w', q.affinity.Held(s)[i], q.affinity.Held(s)[j])
    {
      if s == slot {
        assert Earlier(w, held[i + 1], held[j + 1]);
      } else {
        assert Earlier(w, w.q.affinity.Held(s)[i], w.q.affinity.Held(s)[j]);
      }
    }
  }

  /** The first case kept for a slot, when it was never tried, is ahead of its directory's untried cases. */
  lemma HeldBehind(w: World, slot: Slot)
    requires Placed(w) && Accounted(w) && Listed(w) && Owned(w) && InOrder(w)
    requires w.q.setup.lanes && w.q.affinity.Held(slot) != []
    ensures var c := w.q.affinity.Held(slot)[0];
            forall d :: d in w.place && d != c && Tries(w.log, c) == 0 ==> Behind(w, c, d)
  {
    var held := w.q.affinity.Held(slot);
    var c := held[0];
    assert c in held;
    assert w.place[c] == KeptFor(slot);
    forall d | d in w.place && d != c && Tries(w.log, c) == 0 && Tries(w.log, d) == 0 && d.dir == c.dir
      ensures Behind(w, c, d)
    {
      assert CaseAsPlaced(w, d) && CaseAsPlaced(w, c);
      assert d in held;
      var j :| 0 <= j < |held| && held[j] == d;
      assert Earlier(w, held[0], held[j]);
    }
  }

  lemma KeptStaysInOrder(w: World, w': World)
    requires KeptInOrder(w) && w'.corpus == w.corpus
    requires forall c :: Tries(w.log, c) <= Tries(w'.log, c)
    requires forall s :: w'.q.affinity.Held(s) == w.q.affinity.Held(s) || Ordered(w.corpus, w'.q.affinity.Held(s))
    ensures KeptInOrder(w')
  {
    forall s, m, n | 0 <= m < n < |w'.q.affinity.Held(s)|
      ensures Earlier(w', w'.q.affinity.Held(s)[m], w'.q.affinity.Held(s)[n])
    {
      var held := w'.q.affinity.Held(s);
      if Ordered(w.corpus, held) {
        assert held[m] in held && held[n] in held;
      } else {
        assert Earlier(w, w.q.affinity.Held(s)[m], w.q.affinity.Held(s)[n]);
      }
    }
  }

  lemma DirInOrder(w: World, slot: Slot, i: nat)
    requires Placed(w) && Accounted(w) && Listed(w) && Owned(w) && InOrder(w)
    requires w.q.setup.lanes && i < |w.q.waiting| && w.q.affinity.Held(slot) == []
    requires forall k :: 0 <= k < i ==> w.q.waiting[k].dir != w.q.waiting[i].dir
    ensures var (q, a) := TakeDir(w.q, slot, i);
            InOrder(HandStep(w, slot, q, a.ticket))
  {
    var (q, a) := TakeDir(w.q, slot, i);
    DirKept(w, slot, i);
    DirHands(w, slot, i);
    DirAhead(w, i);
    HandedInOrder(w, slot, q, a.ticket);
  }

  lemma DirKept(w: World, slot: Slot, i: nat)
    requires Listed(w) && KeptInOrder(w) && i < |w.q.waiting| && w.q.affinity.Held(slot) == []
    ensures var (q, a) := TakeDir(w.q, slot, i);
            KeptInOrder(HandStep(w, slot, q, a.ticket))
  {
    var (q, a) := TakeDir(w.q, slot, i);
    TriesStep(w.log, Issue(slot, a.ticket));
    DirHeld(w.q, slot, i);
    SweptOrdered(w.corpus, w.q.waiting, i);
    assert q.affinity.Held(slot) == Swept(w.q.waiting, i);
    KeptStaysInOrder(w, HandStep(w, slot, q, a.ticket));
  }

  /** The first waiting case of a directory is ahead of the directory's untried cases. */
  lemma DirAhead(w: World, i: nat)
    requires Placed(w) && Accounted(w) && Listed(w) && Owned(w)
    requires w.q.setup.lanes && i < |w.q.waiting|
    requires forall k :: 0 <= k < i ==> w.q.waiting[k].dir != w.q.waiting[i].dir
    ensures forall d :: d in w.place && d != w.q.waiting[i] ==> Behind(w, w.q.waiting[i], d)
  {
    var c := w.q.waiting[i];
    assert c in w.q.waiting;
    assert w.place[c] == Unclaimed;
    forall d | d in w.place && d != c && d.dir == c.dir
      ensures Behind(w, c, d)
    {
      assert CaseAsPlaced(w, d);
      var k :| 0 <= k < |w.q.waiting| && w.q.waiting[k] == d;
    }
  }

  lemma FinishedEarlier(w: World, slot: Slot, success: bool, hasCore: bool)
    requires Placed(w) && Accounted(w) && InOrder(w) && slot in w.out && w.q.setup.lanes
    ensures var w' := FinishStep(w, slot, success, hasCore);
            forall s, i, j :: 0 <= i < j < |w'.q.affinity.Held(s)| ==>
              Earlier(w', w'.q.affinity.Held(s)[i], w'.q.affinity.Held(s)[j])
  {
    var t := w.out[slot];
    assert CaseAsPlaced(w, t.kase);
    FinishQueues(w.q, t, success, hasCore);
    var w' := FinishStep(w, slot, success, hasCore);
    forall s, i, j | 0 <= i < j < |w'.q.affinity.Held(s)|
      ensures Earlier(w', w'.q.affinity.Held(s)[i], w'.q.affinity.Held(s)[j])
    {
      if j < |w.q.affinity.Held(s)| {
        assert Earlier(w, w.q.affinity.Held(s)[i], w.q.affinity.Held(s)[j]);
      }
    }
  }

  lemma FinishedInOrder(w: World, slot: Slot, success: bool, hasCore: bool)
    requires Placed(w) && Accounted(w) && InOrder(w) && slot in w.out
    ensures InOrder(FinishStep(w, slot, success, hasCore))
  {
    var t := w.out[slot];
    assert CaseAsPlaced(w, t.kase);
    FinishQueues(w.q, t, success, hasCore);
    var w' := FinishStep(w, slot, success, hasCore);
    assert w'.place.Keys == w.place.Keys;
    if w.q.setup.lanes {
      FinishedEarlier(w, slot, success, hasCore);
      forall i, c | 0 <= i < |w.log| && w.log[i].ticket.retry == 0 && c in w'.place
        ensures Behind(w', w.log[i].ticket.kase, c)
      {
        assert Behind(w, w.log[i].ticket.kase, c);
      }
    }
  }
}
