/**
 The settle of an HA side whose case failed it over, against arbitrary readings: which nodes it
 starts, how it ends, and what it leaves of the side.
 */
module HaSettle {
  import opened Prelude

  datatype Node = Node(name: string, live: bool, role: string, serverState: string)

  datatype Role = Active | Standby | Down | Other

  function Lower(s: string): string {
    seq(|s|, i requires 0 <= i < |s| => if 'A' <= s[i] <= 'Z' then (s[i] as int + 32) as char else s[i])
  }

  predicate HasPrefix(s: string, p: string) {
    |p| <= |s| && s[..|p|] == p
  }

  function RoleOf(cluster: string, n: Node): Role {
    if !HasPrefix(n.name, cluster + "-n") then Other
    else if Lower(n.role) == "active" then Active
    else if Lower(n.role) == "standby" then Standby
    else if Lower(n.role) == "" || Lower(n.role) == "unknown" then Down
    else Other
  }

  function InRole(cluster: string, role: Role): Node -> bool {
    (n: Node) => RoleOf(cluster, n) == role
  }

  function Of(cluster: string, role: Role, nodes: seq<Node>): seq<Node> {
    Filter(nodes, InRole(cluster, role))
  }

  const RegisteredAs := "registered_and_"

  predicate Registered(n: Node) {
    HasPrefix(n.serverState, RegisteredAs)
  }

  method HaRoles(nodes: seq<Node>, cluster: string) returns (active: seq<Node>, standby: seq<Node>, down: seq<Node>)
    ensures active == Of(cluster, Active, nodes) && standby == Of(cluster, Standby, nodes)
    ensures down == Of(cluster, Down, nodes)
  {
    active, standby, down := [], [], [];
    for i := 0 to |nodes|
      invariant active == Of(cluster, Active, nodes[..i])
      invariant standby == Of(cluster, Standby, nodes[..i])
      invariant down == Of(cluster, Down, nodes[..i])
    {
      assert nodes[..i + 1] == nodes[..i] + [nodes[i]];
      FilterStep(nodes[..i], nodes[i], InRole(cluster, Active));
      FilterStep(nodes[..i], nodes[i], InRole(cluster, Standby));
      FilterStep(nodes[..i], nodes[i], InRole(cluster, Down));
      match RoleOf(cluster, nodes[i])
      case Active => active := active + [nodes[i]];
      case Standby => standby := standby + [nodes[i]];
      case Down => down := down + [nodes[i]];
      case Other =>
    }
    assert nodes[..|nodes|] == nodes;
  }

  // ---- the readings -------------------------------------------------------

  /**
   What one turn of the loop meets: csb's answer or none, whether a start of a node works, the time
   when the turn ends, and whether the caller has cancelled by then or does while it sleeps.
   */
  datatype Answer =
    Answer(nodes: Option<seq<Node>>, startOk: string -> bool, clock: int, cancelled: bool, interrupted: bool)

  type Readings = nat -> Answer

  /** The seconds between two readings. */
  const Interval := 2

  ghost predicate Advancing(env: Readings, begin: int) {
    begin <= env(0).clock && forall t: nat :: Advances(env, t)
  }

  ghost predicate Advances(env: Readings, t: nat) {
    env(t).clock + Interval <= env(t + 1).clock
  }

  ghost predicate Settled(env: Readings, cluster: string, t: nat) {
    && env(t).nodes.Some?
    && var nodes := env(t).nodes.value;
       && |Of(cluster, Active, nodes)| == 1 && |Of(cluster, Standby, nodes)| == 1
       && Registered(Of(cluster, Active, nodes)[0]) && Registered(Of(cluster, Standby, nodes)[0])
  }

  ghost predicate ManyActive(env: Readings, cluster: string, t: nat) {
    env(t).nodes.Some? && |Of(cluster, Active, env(t).nodes.value)| > 1
  }

  /** The completed reading before t showed more than one active node. */
  ghost predicate ManyBefore(env: Readings, cluster: string, t: nat) {
    exists u: nat :: u < t && ManyActive(env, cluster, u) && forall v: nat :: u < v < t ==> env(v).nodes.None?
  }

  ghost predicate DownAt(env: Readings, cluster: string, t: nat, name: string) {
    env(t).nodes.Some? && exists n :: n in Of(cluster, Down, env(t).nodes.value) && n.name == name
  }

  /** Down in the reading before and in this one, with one active node now and the node's container live. */
  ghost predicate Due(env: Readings, cluster: string, t: nat, name: string) {
    && t > 0 && DownAt(env, cluster, t - 1, name)
    && env(t).nodes.Some? && |Of(cluster, Active, env(t).nodes.value)| == 1
    && exists n :: n in Of(cluster, Down, env(t).nodes.value) && n.name == name && n.live
  }

  ghost predicate FirstDue(env: Readings, cluster: string, t: nat, name: string) {
    Due(env, cluster, t, name) && forall u: nat :: u < t ==> !Due(env, cluster, u, name)
  }

  /** The turn that has to stop before it starts anything. */
  ghost predicate Ends(env: Readings, cluster: string, t: nat) {
    Settled(env, cluster, t) || (ManyActive(env, cluster, t) && ManyBefore(env, cluster, t))
  }

  // ---- the run ------------------------------------------------------------

  datatype Start = Start(turn: nat, name: string)

  datatype Outcome = Calm | TwoActive | StartFailed(name: string) | TimedOut | Cancelled

  ghost predicate StartsOf(env: Readings, cluster: string, t: nat, starts: seq<Start>) {
    && NoDup(starts)
    && forall x: Start :: x in starts <==> x.turn < t && FirstDue(env, cluster, x.turn, x.name)
  }

  /** A run of so many turns, with its starts in their order and its end, is the one the readings make. */
  ghost predicate RunOf(env: Readings, cluster: string, deadline: int, turns: nat, starts: seq<Start>, out: Outcome) {
    && turns > 0
    && (forall t: nat :: t < turns - 1 ==> Goes(env, cluster, deadline, t))
    && EndsAs(env, cluster, deadline, turns - 1, starts, out)
  }

  ghost predicate EndsAs(env: Readings, cluster: string, deadline: int, t: nat, starts: seq<Start>, out: Outcome) {
    && (out.Calm? <==> Settled(env, cluster, t))
    && (out.TwoActive? <==> ManyActive(env, cluster, t) && ManyBefore(env, cluster, t))
    && match out
       case Calm | TwoActive => StartsOf(env, cluster, t, starts)
       case StartFailed(name) => FailedAt(env, cluster, t, starts, name)
       case TimedOut => PassedAt(env, cluster, t) && StartsOf(env, cluster, t + 1, starts) && Late(env, deadline, t)
       case Cancelled =>
         PassedAt(env, cluster, t) && StartsOf(env, cluster, t + 1, starts) &&
         !Late(env, deadline, t) && env(t).interrupted
  }

  /** A reading that ends nothing: nothing in it was due to end the loop, and its starts worked. */
  ghost predicate PassedAt(env: Readings, cluster: string, t: nat) {
    !Ends(env, cluster, t) && forall name :: FirstDue(env, cluster, t, name) ==> env(t).startOk(name)
  }

  predicate Late(env: Readings, deadline: int, t: nat) {
    env(t).clock > deadline || env(t).cancelled
  }

  /** A turn after which the loop goes round again. */
  ghost predicate Goes(env: Readings, cluster: string, deadline: int, t: nat) {
    PassedAt(env, cluster, t) && !Late(env, deadline, t) && !env(t).interrupted
  }

  /** The starts of the turns before, some of this turn's, and at their end the one that failed. */
  ghost predicate FailedAt(env: Readings, cluster: string, t: nat, starts: seq<Start>, name: string) {
    && starts != [] && starts[|starts| - 1] == Start(t, name) && !env(t).startOk(name)
    && NoDup(starts)
    && (forall x: Start :: x in starts ==> x.turn <= t && FirstDue(env, cluster, x.turn, x.name))
    && (forall x: Start :: x.turn < t && FirstDue(env, cluster, x.turn, x.name) ==> x in starts)
    && (forall x: Start :: x in starts && x.turn == t && x.name != name ==> env(t).startOk(x.name))
  }

  lemma ManyStep(env: Readings, cluster: string, t: nat)
    ensures ManyBefore(env, cluster, t + 1) ==
            if env(t).nodes.None? then ManyBefore(env, cluster, t) else ManyActive(env, cluster, t)
  {
    if env(t).nodes.None? && ManyBefore(env, cluster, t) {
      var u: nat :| u < t && ManyActive(env, cluster, u) && forall v: nat :: u < v < t ==> env(v).nodes.None?;
      assert forall v: nat :: u < v < t + 1 ==> env(v).nodes.None?;
    }
  }

  // ---- within one reading -------------------------------------------------

  ghost predicate LiveAmong(nodes: seq<Node>, name: string) {
    exists n :: n in nodes && n.name == name && n.live
  }

  ghost predicate HasStart(starts: seq<Start>, name: string) {
    exists u: nat :: Start(u, name) in starts
  }

  /** The starts of the turns before t, and of turn t those the nodes seen so far call for. */
  ghost predicate Partly(env: Readings, cluster: string, t: nat, seen: seq<Node>, starts: seq<Start>) {
    && NoDup(starts)
    && forall x: Start :: x in starts <==> FirstDue(env, cluster, x.turn, x.name) &&
                                           (x.turn < t || (x.turn == t && LiveAmong(seen, x.name)))
  }

  lemma NoneSeen(env: Readings, cluster: string, t: nat, starts: seq<Start>)
    requires StartsOf(env, cluster, t, starts)
    ensures Partly(env, cluster, t, [], starts)
  {}

  lemma AllSeen(env: Readings, cluster: string, t: nat, starts: seq<Start>)
    requires env(t).nodes.Some? && Partly(env, cluster, t, Of(cluster, Down, env(t).nodes.value), starts)
    ensures StartsOf(env, cluster, t + 1, starts)
  {}

  lemma SeenMore(seen: seq<Node>, n: Node)
    ensures forall name :: LiveAmong(seen + [n], name) <==> LiveAmong(seen, name) || (n.live && n.name == name)
  {
    forall name
      ensures LiveAmong(seen + [n], name) <==> LiveAmong(seen, name) || (n.live && n.name == name)
    {
      if n.live && n.name == name {
        assert n in seen + [n];
      } else if LiveAmong(seen, name) {
        var m :| m in seen && m.name == name && m.live;
        assert m in seen + [n];
      }
    }
  }

  lemma Skipped(env: Readings, cluster: string, t: nat, seen: seq<Node>, starts: seq<Start>, n: Node)
    requires Partly(env, cluster, t, seen, starts)
    requires HasStart(starts, n.name) || !Due(env, cluster, t, n.name) || !n.live
    ensures Partly(env, cluster, t, seen + [n], starts)
  {
    SeenMore(seen, n);
    if HasStart(starts, n.name) && FirstDue(env, cluster, t, n.name) {
      var u: nat :| Start(u, n.name) in starts;
      assert Due(env, cluster, Start(u, n.name).turn, n.name);
    }
  }

  lemma {:induction false} DueFirst(env: Readings, cluster: string, t: nat, name: string)
    requires Due(env, cluster, t, name)
    ensures exists u: nat :: u <= t && FirstDue(env, cluster, u, name)
  {
    if !FirstDue(env, cluster, t, name) {
      var u: nat :| u < t && Due(env, cluster, u, name);
      DueFirst(env, cluster, u, name);
    }
  }

  lemma Added(env: Readings, cluster: string, t: nat, seen: seq<Node>, starts: seq<Start>, n: Node)
    requires Partly(env, cluster, t, seen, starts)
    requires !HasStart(starts, n.name) && Due(env, cluster, t, n.name) && n.live
    ensures FirstDue(env, cluster, t, n.name)
    ensures Partly(env, cluster, t, seen + [n], starts + [Start(t, n.name)])
  {
    DueFirst(env, cluster, t, n.name);
    var u: nat :| u <= t && FirstDue(env, cluster, u, n.name);
    assert u < t ==> Start(u, n.name) in starts;
    SeenMore(seen, n);
    AppendMembers(starts, Start(t, n.name));
  }

  // ---- the side -----------------------------------------------------------

  /** What the loop keeps between readings, with the starts made so far. */
  datatype Memory = Memory(started: set<string>, downBefore: set<string>, twoActive: bool, starts: seq<Start>)

  ghost predicate KnowsAt(env: Readings, cluster: string, t: nat, memory: Memory) {
    && StartsOf(env, cluster, t, memory.starts)
    && (forall x :: x in memory.started <==> HasStart(memory.starts, x))
    && (forall x :: x in memory.downBefore <==> t > 0 && DownAt(env, cluster, t - 1, x))
    && memory.twoActive == ManyBefore(env, cluster, t)
  }

  /** What the loop knows before turn n. */
  ghost predicate Knows(env: Readings, cluster: string, n: nat, memory: Memory) {
    forall t: nat :: t == n ==> KnowsAt(env, cluster, t, memory)
  }

  ghost predicate Passed(env: Readings, cluster: string, n: nat) {
    forall t: nat :: t == n ==> PassedAt(env, cluster, t)
  }

  lemma Waited(env: Readings, cluster: string, deadline: int, t: nat, memory: Memory, out: Outcome)
    requires Passed(env, cluster, t) && Knows(env, cluster, t + 1, memory)
    requires if Late(env, deadline, t) then out == TimedOut else out == Cancelled && env(t).interrupted
    ensures EndsAs(env, cluster, deadline, t, memory.starts, out)
  {
    assert PassedAt(env, cluster, t) && KnowsAt(env, cluster, t + 1, memory);
  }

  lemma TurnGoes(env: Readings, cluster: string, deadline: int, t: nat)
    requires Passed(env, cluster, t) && !Late(env, deadline, t) && !env(t).interrupted
    ensures Goes(env, cluster, deadline, t)
  {
    assert PassedAt(env, cluster, t);
  }

  lemma KnowsNothing(env: Readings, cluster: string)
    ensures Knows(env, cluster, 0, Memory({}, {}, false, []))
  {}

  /** The names of N1 and N2 once they have followed the master. */
  function Roles(cluster: string, n1: string, n2: string, master: string): (string, string) {
    if master == cluster + "-" + n1 then (n1, n2) else (n2, n1)
  }

  datatype Pair = Pair(master: string, slaves: seq<string>)

  class Side {
    const name: string
    var n1: string
    var n2: string
    var pair: Option<Pair>
    var ckptOffset: Option<map<string, int>>

    constructor (name: string, n1: string, n2: string, pair: Option<Pair>, ckptOffset: Option<map<string, int>>)
      ensures this.name == name && this.n1 == n1 && this.n2 == n2 && this.pair == pair && this.ckptOffset == ckptOffset
    {
      this.name, this.n1, this.n2, this.pair, this.ckptOffset := name, n1, n2, pair, ckptOffset;
    }

    method SwapRoles()
      modifies this
      ensures n1 == old(n2) && n2 == old(n1) && ckptOffset == None
      ensures pair == if old(pair).None? then None else Some(Pair(name + "-" + old(n2), [name + "-" + old(n1)]))
    {
      n1, n2 := n2, n1;
      if pair.Some? {
        pair := Some(Pair(name + "-" + n1, [name + "-" + n2]));
      }
      ckptOffset := None;
    }

    /** Starts the nodes of one reading that are due and were not started before. */
    method StartDown(env: Readings, t: nat, active: seq<Node>, down: seq<Node>, downBefore: set<string>,
                     started: set<string>, starts: seq<Start>)
      returns (now: set<string>, all: seq<Start>, failed: Option<string>)
      requires env(t).nodes.Some? && StartsOf(env, name, t, starts)
      requires active == Of(name, Active, env(t).nodes.value) && down == Of(name, Down, env(t).nodes.value)
      requires forall x :: x in downBefore <==> t > 0 && DownAt(env, name, t - 1, x)
      requires forall x :: x in started <==> HasStart(starts, x)
      ensures failed.None? ==> StartsOf(env, name, t + 1, all) && forall x :: x in now <==> HasStart(all, x)
      ensures failed.None? ==> forall x :: FirstDue(env, name, t, x) ==> env(t).startOk(x)
      ensures failed.Some? ==> FailedAt(env, name, t, all, failed.value)
    {
      NoneSeen(env, name, t, starts);
      now, all, failed := started, starts, None;
      for i := 0 to |down|
        invariant Partly(env, name, t, down[..i], all)
        invariant forall x :: x in now <==> HasStart(all, x)
        invariant forall x :: Start(t, x) in all ==> env(t).startOk(x)
      {
        var n := down[i];
        assert down[..i + 1] == down[..i] + [n] && n in down;
        if n.name in now || n.name !in downBefore || |active| != 1 || !n.live {
          Skipped(env, name, t, down[..i], all, n);
          continue;
        }
        Added(env, name, t, down[..i], all, n);
        now := now + {n.name};
        ghost var before := all;
        all := all + [Start(t, n.name)];
        StartsMore(before, Start(t, n.name));
        if !env(t).startOk(n.name) {
          failed := Some(n.name);
          return;
        }
      }
      assert down[..|down|] == down;
      AllSeen(env, name, t, all);
    }

    /** N1 and N2 after a reading that settles: they follow the one active node. */
    twostate predicate Followed(master: string)
      reads this
    {
      && (n1, n2) == Roles(name, old(n1), old(n2), master)
      && if master == name + "-" + old(n1) then pair == old(pair) && ckptOffset == old(ckptOffset)
         else
           && ckptOffset == None
           && pair == if old(pair).None? then None else Some(Pair(name + "-" + n1, [name + "-" + n2]))
    }

    /** One reading: the end it calls for, or what is known after it. */
    method Look(env: Readings, ghost deadline: int, t: nat, memory: Memory) returns (end: Option<Outcome>, next: Memory)
      requires Knows(env, name, t, memory)
      modifies this
      ensures end.None? ==> Passed(env, name, t) && Knows(env, name, t + 1, next)
      ensures end.Some? ==> EndsAs(env, name, deadline, t, next.starts, end.value)
      ensures end == Some(Calm) ==> Settled(env, name, t) && Followed(Of(name, Active, env(t).nodes.value)[0].name)
      ensures end != Some(Calm) ==> unchanged(this)
    {
      assert KnowsAt(env, name, t, memory);
      ManyStep(env, name, t);
      if env(t).nodes.None? {
        return None, memory.(downBefore := {});
      }
      var active, standby, down := HaRoles(env(t).nodes.value, name);
      if |active| > 1 && memory.twoActive {
        return Some(TwoActive), memory;
      }
      if |active| == 1 && |standby| == 1 && Registered(active[0]) && Registered(standby[0]) {
        if active[0].name != name + "-" + n1 {
          SwapRoles();
        }
        return Some(Calm), memory;
      }
      var started, starts, failed := StartDown(env, t, active, down, memory.downBefore, memory.started, memory.starts);
      next := Memory(started, set n | n in down :: n.name, |active| > 1, starts);
      end := if failed.Some? then Some(StartFailed(failed.value)) else None;
    }

    /** Waits until the readings show one registered active node and one registered standby, or says why not. */
    method Settle(env: Readings, begin: int, bound: nat) returns (out: Outcome, turns: nat, starts: seq<Start>)
      requires Advancing(env, begin)
      modifies this
      ensures RunOf(env, name, begin + bound, turns, starts, out)
      ensures Interval * (turns - 2) <= bound
      ensures out.Calm? ==>
                Settled(env, name, turns - 1) && Followed(Of(name, Active, env(turns - 1).nodes.value)[0].name)
      ensures !out.Calm? ==> unchanged(this)
    {
      var deadline := begin + bound;
      var memory := Memory({}, {}, false, []);
      KnowsNothing(env, name);
      var t := 0;
      while true
        invariant Knows(env, name, t, memory)
        invariant forall u: nat :: u < t ==> Goes(env, name, deadline, u)
        invariant Interval * t <= env(t).clock - begin && Interval * (t - 1) <= bound
        invariant unchanged(this)
        decreases bound + 2 - t
      {
        var end;
        end, memory := Look(env, deadline, t, memory);
        if end.Some? {
          return end.value, t + 1, memory.starts;
        }
        if Late(env, deadline, t) {
          Waited(env, name, deadline, t, memory, TimedOut);
          return TimedOut, t + 1, memory.starts;
        }
        if env(t).interrupted {
          Waited(env, name, deadline, t, memory, Cancelled);
          return Cancelled, t + 1, memory.starts;
        }
        TurnGoes(env, name, deadline, t);
        assert Advances(env, t);
        t := t + 1;
      }
    }
  }

  lemma StartsMore(starts: seq<Start>, x: Start)
    ensures forall name :: HasStart(starts + [x], name) <==> HasStart(starts, name) || name == x.name
  {
    forall name
      ensures HasStart(starts + [x], name) <==> HasStart(starts, name) || name == x.name
    {
      if name == x.name {
        assert Start(x.turn, name) in starts + [x];
      } else if HasStart(starts, name) {
        var u: nat :| Start(u, name) in starts;
        assert Start(u, name) in starts + [x];
      }
    }
  }

  // ---- what a settle promises ---------------------------------------------

  lemma Ended(env: Readings, cluster: string, deadline: int, turns: nat, starts: seq<Start>, out: Outcome)
    requires RunOf(env, cluster, deadline, turns, starts, out)
    ensures EndsAs(env, cluster, deadline, turns - 1, starts, out)
  {}

  ghost predicate DistinctNames(nodes: seq<Node>) {
    forall a, b :: a in nodes && b in nodes && a.name == b.name ==> a == b
  }

  /** A node is started once at most, on two readings running, and it is never the one master. */
  lemma StartedOnce(env: Readings, cluster: string, deadline: int, turns: nat, starts: seq<Start>, out: Outcome)
    requires RunOf(env, cluster, deadline, turns, starts, out)
    ensures forall i, j :: 0 <= i < j < |starts| ==> starts[i].name != starts[j].name
    ensures forall x: Start :: x in starts ==> x.turn < turns && Due(env, cluster, x.turn, x.name)
    ensures forall x: Start :: x in starts ==> NotMaster(env, cluster, x)
  {
    Ended(env, cluster, deadline, turns, starts, out);
    forall i, j | 0 <= i < j < |starts|
      ensures starts[i].name != starts[j].name
    {
      var x, y := starts[i], starts[j];
      assert x in starts && y in starts && x != y;
      assert FirstDue(env, cluster, x.turn, x.name) && FirstDue(env, cluster, y.turn, y.name);
    }
    forall x: Start | x in starts
      ensures NotMaster(env, cluster, x)
    {
      DueNotActive(env, cluster, x.turn, x.name);
    }
  }

  ghost predicate NotMaster(env: Readings, cluster: string, x: Start) {
    && env(x.turn).nodes.Some?
    && var nodes := env(x.turn).nodes.value;
       DistinctNames(nodes) ==> forall n :: n in Of(cluster, Active, nodes) ==> n.name != x.name
  }

  lemma DueNotActive(env: Readings, cluster: string, t: nat, name: string)
    requires Due(env, cluster, t, name)
    ensures NotMaster(env, cluster, Start(t, name))
  {
    var nodes := env(t).nodes.value;
    var m :| m in Of(cluster, Down, nodes) && m.name == name && m.live;
    InFilter(nodes, InRole(cluster, Down), m);
    forall n | n in Of(cluster, Active, nodes)
      ensures DistinctNames(nodes) ==> n.name != name
    {
      InFilter(nodes, InRole(cluster, Active), n);
    }
  }

  /** A node due in a turn the loop got past was started, in the first turn it was due. */
  lemma DueIsStarted(env: Readings, cluster: string, deadline: int, turns: nat, starts: seq<Start>, out: Outcome,
                     t: nat, name: string)
    requires RunOf(env, cluster, deadline, turns, starts, out)
    requires Due(env, cluster, t, name) && (t < turns - 1 || (t == turns - 1 && (out.TimedOut? || out.Cancelled?)))
    ensures exists x: Start :: x in starts && x.turn <= t && x.name == name
  {
    Ended(env, cluster, deadline, turns, starts, out);
    DueFirst(env, cluster, t, name);
    var u: nat :| u <= t && FirstDue(env, cluster, u, name);
    assert Start(u, name) in starts;
  }

  /** The loop goes round again only within the bound and uncancelled, and times out only when it is not so. */
  lemma EndsInTime(env: Readings, cluster: string, deadline: int, turns: nat, starts: seq<Start>, out: Outcome)
    requires RunOf(env, cluster, deadline, turns, starts, out)
    ensures forall t: nat :: t < turns - 1 ==> env(t).clock <= deadline && !env(t).cancelled && !env(t).interrupted
    ensures out.TimedOut? ==> env(turns - 1).clock > deadline || env(turns - 1).cancelled
    ensures out.Cancelled? ==> env(turns - 1).clock <= deadline && env(turns - 1).interrupted
  {
    forall t: nat | t < turns - 1
      ensures env(t).clock <= deadline && !env(t).cancelled && !env(t).interrupted
    {
      assert Goes(env, cluster, deadline, t);
    }
  }

  /** The readings decide the run: how many it takes, and how it ends. */
  lemma RunDetermined(env: Readings, cluster: string, deadline: int, turns: nat, starts: seq<Start>, out: Outcome,
                      turns': nat, starts': seq<Start>, out': Outcome)
    requires RunOf(env, cluster, deadline, turns, starts, out) && RunOf(env, cluster, deadline, turns', starts', out')
    ensures turns == turns' && (out == out' || (out.StartFailed? && out'.StartFailed?))
    ensures !out.StartFailed? ==> forall x: Start :: x in starts <==> x in starts'
  {
    Ended(env, cluster, deadline, turns, starts, out);
    Ended(env, cluster, deadline, turns', starts', out');
    if turns < turns' {
      NotLast(env, cluster, deadline, turns - 1, starts, out);
    } else if turns' < turns {
      NotLast(env, cluster, deadline, turns' - 1, starts', out');
    } else if out.StartFailed? {
      FailedNotPassed(env, cluster, turns - 1, starts, out.name);
    } else if out'.StartFailed? {
      FailedNotPassed(env, cluster, turns - 1, starts', out'.name);
    }
  }

  lemma FailedNotPassed(env: Readings, cluster: string, t: nat, starts: seq<Start>, name: string)
    requires FailedAt(env, cluster, t, starts, name)
    ensures !PassedAt(env, cluster, t)
    ensures t > 0 && !ManyActive(env, cluster, t)
  {
    assert Start(t, name) in starts;
    assert FirstDue(env, cluster, t, name);
  }

  lemma NotLast(env: Readings, cluster: string, deadline: int, t: nat, starts: seq<Start>, out: Outcome)
    requires EndsAs(env, cluster, deadline, t, starts, out)
    ensures !Goes(env, cluster, deadline, t)
  {
    if out.StartFailed? {
      FailedNotPassed(env, cluster, t, starts, out.name);
    }
  }

  // ---- what a settled reading shows ---------------------------------------

  /**
   The node at i is a database node of the cluster, and csb says this of its role, whatever the case of the
   letters.
   */
  ghost predicate SaysAt(nodes: seq<Node>, cluster: string, i: nat, role: string) {
    i < |nodes| && HasPrefix(nodes[i].name, cluster + "-n") && Lower(nodes[i].role) == role
  }

  /** It is the only one. */
  ghost predicate OnlyAt(nodes: seq<Node>, cluster: string, i: nat, role: string) {
    SaysAt(nodes, cluster, i, role) && forall k: nat :: k != i ==> !SaysAt(nodes, cluster, k, role)
  }

  lemma {:induction false} OneFiltered<T>(s: seq<T>, p: T -> bool, i: nat)
    requires i < |s| && p(s[i]) && forall k :: 0 <= k < |s| && k != i ==> !p(s[k])
    ensures Filter(s, p) == [s[i]]
    decreases |s|
  {
    if i == 0 {
      NoneFiltered(s[1..], p);
    } else {
      OneFiltered(s[1..], p, i - 1);
    }
  }

  lemma {:induction false} NoneFiltered<T>(s: seq<T>, p: T -> bool)
    requires forall k :: 0 <= k < |s| ==> !p(s[k])
    ensures Filter(s, p) == []
    decreases |s|
  {
    if s != [] {
      NoneFiltered(s[1..], p);
    }
  }

  lemma {:induction false} EmptyFilter<T>(s: seq<T>, p: T -> bool)
    requires Filter(s, p) == []
    ensures forall k :: 0 <= k < |s| ==> !p(s[k])
    decreases |s|
  {
    if s != [] {
      EmptyFilter(s[1..], p);
      assert forall k :: 0 < k < |s| ==> s[k] == s[1..][k - 1];
    }
  }

  /** A sequence of which one element is filtered has it at one place only. */
  lemma {:induction false} FilteredOne<T>(s: seq<T>, p: T -> bool) returns (i: nat)
    requires |Filter(s, p)| == 1
    ensures i < |s| && p(s[i]) && Filter(s, p) == [s[i]] && forall k :: 0 <= k < |s| && k != i ==> !p(s[k])
    decreases |s|
  {
    if p(s[0]) {
      i := 0;
      EmptyFilter(s[1..], p);
      assert forall k :: 0 < k < |s| ==> s[k] == s[1..][k - 1];
    } else {
      i := FilteredOne(s[1..], p);
      i := i + 1;
      assert forall k :: 0 < k < |s| ==> s[k] == s[1..][k - 1];
    }
  }

  lemma OneOfRole(nodes: seq<Node>, cluster: string, role: Role, says: string)
    requires (role == Active && says == "active") || (role == Standby && says == "standby")
    ensures |Of(cluster, role, nodes)| == 1 <==> exists i: nat :: OnlyAt(nodes, cluster, i, says)
    ensures forall i: nat :: OnlyAt(nodes, cluster, i, says) ==> Of(cluster, role, nodes) == [nodes[i]]
  {
    var p := InRole(cluster, role);
    assert forall k :: 0 <= k < |nodes| ==> (p(nodes[k]) <==> SaysAt(nodes, cluster, k, says));
    forall i: nat | OnlyAt(nodes, cluster, i, says)
      ensures Of(cluster, role, nodes) == [nodes[i]]
    {
      OneFiltered(nodes, p, i);
    }
    if |Of(cluster, role, nodes)| == 1 {
      var i := FilteredOne(nodes, p);
      assert OnlyAt(nodes, cluster, i, says);
    }
  }

  /** The database nodes at i and j are the only active and the only standby one, both known to the heartbeat. */
  ghost predicate SettledAt(nodes: seq<Node>, cluster: string, i: nat, j: nat) {
    && OnlyAt(nodes, cluster, i, "active") && OnlyAt(nodes, cluster, j, "standby")
    && HasPrefix(nodes[i].serverState, "registered_and_") && HasPrefix(nodes[j].serverState, "registered_and_")
  }

  /** A reading settles the wait exactly when it shows one active node and one standby, both registered. */
  lemma SettledMeans(env: Readings, cluster: string, t: nat)
    requires env(t).nodes.Some?
    ensures Settled(env, cluster, t) <==> exists i: nat, j: nat :: SettledAt(env(t).nodes.value, cluster, i, j)
    ensures forall i: nat, j: nat :: SettledAt(env(t).nodes.value, cluster, i, j) ==>
              Of(cluster, Active, env(t).nodes.value) == [env(t).nodes.value[i]] &&
              Of(cluster, Standby, env(t).nodes.value) == [env(t).nodes.value[j]]
  {
    var nodes := env(t).nodes.value;
    OneOfRole(nodes, cluster, Active, "active");
    OneOfRole(nodes, cluster, Standby, "standby");
    if Settled(env, cluster, t) {
      var i: nat :| OnlyAt(nodes, cluster, i, "active");
      var j: nat :| OnlyAt(nodes, cluster, j, "standby");
      assert SettledAt(nodes, cluster, i, j);
    }
  }

  /** A node is down in a reading when csb says nothing, or unknown, of the role of a database node of that name. */
  lemma DownMeans(env: Readings, cluster: string, t: nat, name: string)
    requires env(t).nodes.Some?
    ensures DownAt(env, cluster, t, name) <==>
              exists i: nat :: i < |env(t).nodes.value| && env(t).nodes.value[i].name == name &&
                               (SaysAt(env(t).nodes.value, cluster, i, "") ||
                                SaysAt(env(t).nodes.value, cluster, i, "unknown"))
  {
    var nodes := env(t).nodes.value;
    if DownAt(env, cluster, t, name) {
      var n :| n in Of(cluster, Down, nodes) && n.name == name;
      InFilter(nodes, InRole(cluster, Down), n);
      var i: nat :| i < |nodes| && nodes[i] == n;
      assert SaysAt(nodes, cluster, i, "") || SaysAt(nodes, cluster, i, "unknown");
    }
    if i: nat :| i < |nodes| && nodes[i].name == name &&
                 (SaysAt(nodes, cluster, i, "") || SaysAt(nodes, cluster, i, "unknown")) {
      InFilter(nodes, InRole(cluster, Down), nodes[i]);
    }
  }

  /** Two database nodes are active. */
  ghost predicate TwoAt(nodes: seq<Node>, cluster: string, i: nat, j: nat) {
    i < j && SaysAt(nodes, cluster, i, "active") && SaysAt(nodes, cluster, j, "active")
  }

  lemma {:induction false} TwoFiltered<T>(s: seq<T>, p: T -> bool) returns (i: nat, j: nat)
    requires |Filter(s, p)| > 1
    ensures i < j < |s| && p(s[i]) && p(s[j])
    decreases |s|
  {
    if p(s[0]) {
      i := 0;
      var x := Filter(s[1..], p)[0];
      InFilter(s[1..], p, x);
      j :| 0 < j < |s| && s[j] == x;
    } else {
      i, j := TwoFiltered(s[1..], p);
      i, j := i + 1, j + 1;
    }
  }

  lemma TwoActiveAt(env: Readings, cluster: string, t: nat)
    requires ManyActive(env, cluster, t)
    ensures exists i, j :: TwoAt(env(t).nodes.value, cluster, i, j)
  {
    var i, j := TwoFiltered(env(t).nodes.value, InRole(cluster, Active));
    assert TwoAt(env(t).nodes.value, cluster, i, j);
  }

  /** Two readings, with none completed between them, each show two active nodes. */
  ghost predicate TwiceTwo(env: Readings, cluster: string, u: nat, t: nat) {
    && u < t && env(u).nodes.Some? && env(t).nodes.Some?
    && (exists i, j :: TwoAt(env(u).nodes.value, cluster, i, j))
    && (exists i, j :: TwoAt(env(t).nodes.value, cluster, i, j))
    && forall v: nat :: u < v < t ==> env(v).nodes.None?
  }

  ghost predicate SaidTwice(env: Readings, cluster: string, t: nat) {
    exists u: nat :: TwiceTwo(env, cluster, u, t)
  }

  /**
   The loop ends calm at the first settled reading, and in an error for two active nodes only when two
   readings say so.
   */
  lemma EndsMean(env: Readings, cluster: string, deadline: int, turns: nat, starts: seq<Start>, out: Outcome)
    requires RunOf(env, cluster, deadline, turns, starts, out)
    ensures out.Calm? <==> Settled(env, cluster, turns - 1)
    ensures forall t: nat :: t < turns - 1 ==> !Settled(env, cluster, t)
    ensures out.TwoActive? ==> SaidTwice(env, cluster, turns - 1)
  {
    forall t: nat | t < turns - 1
      ensures !Settled(env, cluster, t)
    {
      assert Goes(env, cluster, deadline, t);
    }
    if out.TwoActive? {
      var t := turns - 1;
      var u: nat :| u < t && ManyActive(env, cluster, u) && forall v: nat :: u < v < t ==> env(v).nodes.None?;
      TwoActiveAt(env, cluster, u);
      TwoActiveAt(env, cluster, t);
      assert TwiceTwo(env, cluster, u, t);
    }
  }

  /** A live database node of that name of whose role csb says nothing, or unknown. */
  ghost predicate LiveDownAt(nodes: seq<Node>, cluster: string, k: nat, name: string) {
    && (SaysAt(nodes, cluster, k, "") || SaysAt(nodes, cluster, k, "unknown"))
    && nodes[k].name == name && nodes[k].live
  }

  /** A node is started only in a reading that shows one active node and it down and live, as the one before showed
      it down. */
  lemma StartsMean(env: Readings, cluster: string, deadline: int, turns: nat, starts: seq<Start>, out: Outcome,
                   x: Start)
    requires RunOf(env, cluster, deadline, turns, starts, out) && x in starts
    ensures 0 < x.turn < turns && DownAt(env, cluster, x.turn - 1, x.name) && env(x.turn).nodes.Some?
    ensures exists i: nat :: OnlyAt(env(x.turn).nodes.value, cluster, i, "active")
    ensures exists k: nat :: LiveDownAt(env(x.turn).nodes.value, cluster, k, x.name)
  {
    StartedOnce(env, cluster, deadline, turns, starts, out);
    assert Due(env, cluster, x.turn, x.name);
    var nodes := env(x.turn).nodes.value;
    OneOfRole(nodes, cluster, Active, "active");
    var n :| n in Of(cluster, Down, nodes) && n.name == x.name && n.live;
    InFilter(nodes, InRole(cluster, Down), n);
    var k: nat :| k < |nodes| && nodes[k] == n;
    assert LiveDownAt(nodes, cluster, k, x.name);
  }

  // ---- who is who afterwards ----------------------------------------------

  /** N1 is the master after a settle exactly when the master is one of the two nodes the side knows. */
  lemma FollowsMaster(cluster: string, n1: string, n2: string, master: string)
    ensures cluster + "-" + Roles(cluster, n1, n2, master).0 == master <==>
            master in {cluster + "-" + n1, cluster + "-" + n2}
  {}

  /** N1 is the active node and N2 the standby afterwards exactly when these are the two nodes the side knows. */
  lemma RolesFollow(cluster: string, n1: string, n2: string, active: string, standby: string)
    requires active != standby
    ensures var roles := Roles(cluster, n1, n2, active);
            active == cluster + "-" + roles.0 && standby == cluster + "-" + roles.1 <==>
            {active, standby} == {cluster + "-" + n1, cluster + "-" + n2}
  {
    assert active in {active, standby} && standby in {active, standby};
  }

  /** The only database nodes a reading lists are the two of the side; its client may be listed beside them. */
  ghost predicate ListsPair(nodes: seq<Node>, cluster: string, n1: string, n2: string) {
    forall n :: n in nodes && HasPrefix(n.name, cluster + "-n") ==> n.name in {cluster + "-" + n1, cluster + "-" + n2}
  }

  /**
   On a side of two database nodes a settle leaves N1 the node that the reading calls active and N2 the
   one it calls standby.
   */
  lemma PairFollows(env: Readings, cluster: string, t: nat, n1: string, n2: string)
    requires Settled(env, cluster, t) && DistinctNames(env(t).nodes.value)
    requires ListsPair(env(t).nodes.value, cluster, n1, n2)
    ensures var nodes := env(t).nodes.value;
            exists i: nat, j: nat :: SettledAt(nodes, cluster, i, j) &&
              var roles := Roles(cluster, n1, n2, nodes[i].name);
              nodes[i].name == cluster + "-" + roles.0 && nodes[j].name == cluster + "-" + roles.1
  {
    var nodes := env(t).nodes.value;
    SettledMeans(env, cluster, t);
    var i: nat, j: nat :| SettledAt(nodes, cluster, i, j);
    assert i != j;
    assert nodes[i] in nodes && nodes[j] in nodes;
    assert nodes[i].name != nodes[j].name;
  }
}
