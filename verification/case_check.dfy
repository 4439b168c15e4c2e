/** Which helpers can fail a case, and which calls are a typo of one. */
module CaseCheck {
  import opened Prelude
  import E = EditDistance

  type Name = string

  const ROOT: Name := "write_nok"

  // ---- the failing helpers ------------------------------------------------

  /** A helper outside s calls, beside itself, none in s. */
  ghost predicate Closed(calls: map<Name, seq<Name>>, s: set<Name>) {
    forall fn, w :: fn in calls && w in calls[fn] && w in s ==> fn in s
  }

  /** s is the least set with the direct helpers that is closed under calling one of it. */
  ghost predicate IsLeast(calls: map<Name, seq<Name>>, direct: set<Name>, s: set<Name>) {
    direct <= s && Closed(calls, s) && forall t: set<Name> :: direct <= t && Closed(calls, t) ==> s <= t
  }

  /** fn calls, through the names of the path, a helper that fails of itself. */
  ghost predicate Reaches(calls: map<Name, seq<Name>>, direct: set<Name>, fn: Name, path: seq<Name>)
    decreases |path|
  {
    if path == [] then fn in direct
    else fn in calls && path[0] in calls[fn] && Reaches(calls, direct, path[0], path[1..])
  }

  /** One pass over the helpers, in any order; it stops looking at a helper at its first failing call. */
  method Pass(calls: map<Name, seq<Name>>, failing0: set<Name>, ghost direct: set<Name>)
    returns (failing: set<Name>, changed: bool)
    requires forall t: set<Name> :: direct <= t && Closed(calls, t) ==> failing0 <= t
    ensures failing0 <= failing <= failing0 + calls.Keys
    ensures forall t: set<Name> :: direct <= t && Closed(calls, t) ==> failing <= t
    ensures changed <==> failing != failing0
    ensures !changed ==> Closed(calls, failing)
  {
    failing, changed := failing0, false;
    var todo := calls.Keys;
    while todo != {}
      invariant todo <= calls.Keys && failing0 <= failing <= failing0 + calls.Keys
      invariant changed <==> failing != failing0
      invariant forall t: set<Name> :: direct <= t && Closed(calls, t) ==> failing <= t
      invariant !changed ==>
        forall fn, w :: fn in calls && fn !in todo && w in calls[fn] && w in failing ==> fn in failing
      decreases todo
    {
      var fn :| fn in todo;
      todo := todo - {fn};
      if fn in failing { continue; }
      var hit := CallsFailing(fn, calls[fn], failing);
      if hit {
        failing := failing + {fn};
        changed := true;
      }
    }
  }

  /** Does one of the words name a failing helper other than fn? */
  method CallsFailing(fn: Name, words: seq<Name>, failing: set<Name>) returns (hit: bool)
    requires fn !in failing
    ensures hit <==> exists w :: w in words && w in failing
  {
    for i := 0 to |words|
      invariant forall k :: 0 <= k < i ==> words[k] !in failing
    {
      if words[i] != fn && words[i] in failing { return true; }
    }
    hit := false;
  }

  /** The helpers that can put NOK in a result: those that do of themselves, and whatever calls one. */
  method FailingHelpers(calls: map<Name, seq<Name>>, direct0: set<Name>) returns (failing: set<Name>)
    ensures IsLeast(calls, direct0 + {ROOT}, failing)
  {
    ghost var direct := direct0 + {ROOT};
    failing := direct0 + {ROOT};
    var changed := true;
    while changed
      invariant direct <= failing
      invariant forall t: set<Name> :: direct <= t && Closed(calls, t) ==> failing <= t
      invariant !changed ==> Closed(calls, failing)
      decreases calls.Keys - failing, changed
    {
      ghost var before := failing;
      failing, changed := Pass(calls, failing, direct);
      assert changed ==> before < failing;
      if changed {
        GrowthShrinks(calls.Keys, before, failing);
      } else {
        assert calls.Keys - failing == calls.Keys - before;
      }
    }
  }

  lemma GrowthShrinks(all: set<Name>, before: set<Name>, after: set<Name>)
    requires before <= after <= before + all && after != before
    ensures all - after < all - before
  {
    assert after == before + (after - before);
    var x :| x in after - before;
    assert x in all - before && x !in all - after;
  }

  /** There is one least set: the order in which the helpers are visited does not show. */
  lemma LeastIsOne(calls: map<Name, seq<Name>>, direct: set<Name>, s: set<Name>, t: set<Name>)
    requires IsLeast(calls, direct, s) && IsLeast(calls, direct, t)
    ensures s == t
  {}

  lemma {:induction false} ReachedIsIn(calls: map<Name, seq<Name>>, direct: set<Name>, s: set<Name>, fn: Name,
                                       path: seq<Name>)
    requires direct <= s && Closed(calls, s) && Reaches(calls, direct, fn, path)
    ensures fn in s
    decreases |path|
  {
    if path != [] {
      ReachedIsIn(calls, direct, s, path[0], path[1..]);
    }
  }

  ghost predicate Reachable(calls: map<Name, seq<Name>>, direct: set<Name>, fn: Name) {
    exists path :: Reaches(calls, direct, fn, path)
  }

  lemma ReachableClosed(calls: map<Name, seq<Name>>, direct: set<Name>, s: set<Name>)
    requires direct <= s && Closed(calls, s)
    ensures var t := set x | x in s && Reachable(calls, direct, x);
            direct <= t && Closed(calls, t)
  {
    forall x | x in direct
      ensures Reachable(calls, direct, x)
    {
      assert Reaches(calls, direct, x, []);
    }
    forall f, w | f in calls && w in calls[f] && Reachable(calls, direct, w)
      ensures Reachable(calls, direct, f)
    {
      var path :| Reaches(calls, direct, w, path);
      assert ([w] + path)[1..] == path;
      assert Reaches(calls, direct, f, [w] + path);
    }
  }

  /** A helper is in the set just when a chain of calls leads from it to one that fails of itself. */
  lemma LeastIsReachable(calls: map<Name, seq<Name>>, direct: set<Name>, s: set<Name>, fn: Name)
    requires IsLeast(calls, direct, s)
    ensures fn in s <==> Reachable(calls, direct, fn)
  {
    ReachableClosed(calls, direct, s);
    if Reachable(calls, direct, fn) {
      var path :| Reaches(calls, direct, fn, path);
      ReachedIsIn(calls, direct, s, fn, path);
    }
  }

  // ---- typos --------------------------------------------------------------

  /** The word of a call, and the verdict helper it is one edit from. */
  datatype Typo = Typo(word: Name, meant: Name)

  ghost predicate OneEditFrom(w: Name, v: Name) {
    exists k :: E.EditAt(w, v, k)
  }

  /** A word nobody defines, long enough to be told from another. */
  predicate Suspect(w: Name, all: set<Name>, own: set<Name>) {
    w !in all && w !in own && |w| >= 5
  }

  /** The first verdict helper a word is one edit from. */
  ghost function Meant(w: Name, verdicts: seq<Name>): Option<Name> {
    if verdicts == [] then None
    else if OneEditFrom(w, verdicts[0]) then Some(verdicts[0])
    else Meant(w, verdicts[1..])
  }

  /**
   A typo for each suspect word that is one edit from a verdict helper, as often as the word comes and in
   that order.
   */
  ghost function Typos(words: seq<Name>, all: set<Name>, own: set<Name>, verdicts: seq<Name>): seq<Typo> {
    if words == [] then []
    else
      var w := words[|words| - 1];
      Typos(words[..|words| - 1], all, own, verdicts) +
      if Suspect(w, all, own) && Meant(w, verdicts).Some? then [Typo(w, Meant(w, verdicts).value)] else []
  }

  /**
   A word is reported exactly when it has five letters or more, nobody defines it, and a verdict helper is
   one edit away.
   */
  lemma {:induction false} TyposAre(words: seq<Name>, all: set<Name>, own: set<Name>, verdicts: seq<Name>, w: Name)
    ensures (exists f :: f in Typos(words, all, own, verdicts) && f.word == w) <==>
              && w in words && |w| >= 5 && w !in all && w !in own
              && exists v :: v in verdicts && OneEditFrom(w, v)
    decreases |words|
  {
    MeantIs(w, verdicts);
    if words != [] {
      var init, last := words[..|words| - 1], words[|words| - 1];
      TyposAre(init, all, own, verdicts, w);
      assert words == init + [last];
      TyposMore(words, all, own, verdicts, w);
    }
  }

  lemma TyposMore(words: seq<Name>, all: set<Name>, own: set<Name>, verdicts: seq<Name>, w: Name)
    requires words != []
    ensures var init, last := words[..|words| - 1], words[|words| - 1];
            (exists f :: f in Typos(words, all, own, verdicts) && f.word == w) <==>
              || (exists f :: f in Typos(init, all, own, verdicts) && f.word == w)
              || (last == w && Suspect(w, all, own) && Meant(w, verdicts).Some?)
  {
    var init, last := words[..|words| - 1], words[|words| - 1];
    var more :=
      if Suspect(last, all, own) && Meant(last, verdicts).Some? then [Typo(last, Meant(last, verdicts).value)] else [];
    var found := Typos(init, all, own, verdicts);
    assert Typos(words, all, own, verdicts) == found + more;
    assert forall f :: f in found + more <==> f in found || f in more;
    if last == w && Suspect(w, all, own) && Meant(w, verdicts).Some? {
      assert more[0] in more;
    }
  }

  /** The verdict helper named is the first in the list that is one edit away. */
  lemma {:induction false} MeantIs(w: Name, verdicts: seq<Name>)
    ensures Meant(w, verdicts).None? <==> forall v :: v in verdicts ==> !OneEditFrom(w, v)
    ensures Meant(w, verdicts).Some? ==>
              exists k :: 0 <= k < |verdicts| &&
                          verdicts[k] == Meant(w, verdicts).value && OneEditFrom(w, verdicts[k]) &&
                          forall j :: 0 <= j < k ==> !OneEditFrom(w, verdicts[j])
    decreases |verdicts|
  {
    if verdicts != [] {
      MeantIs(w, verdicts[1..]);
      assert verdicts == [verdicts[0]] + verdicts[1..];
      if !OneEditFrom(w, verdicts[0]) && Meant(w, verdicts).Some? {
        var rest := verdicts[1..];
        var k :| 0 <= k < |rest| && rest[k] == Meant(w, rest).value && OneEditFrom(w, rest[k]) &&
                 forall j :: 0 <= j < k ==> !OneEditFrom(w, rest[j]);
        assert verdicts[k + 1] == rest[k];
        assert forall j :: 0 <= j < k + 1 ==> !OneEditFrom(w, verdicts[j]);
      }
    }
  }

  method Misspelt(words: seq<Name>, all: set<Name>, own: set<Name>, verdicts: seq<Name>) returns (found: seq<Typo>)
    ensures found == Typos(words, all, own, verdicts)
  {
    found := [];
    for i := 0 to |words|
      invariant found == Typos(words[..i], all, own, verdicts)
    {
      var w := words[i];
      assert words[..i + 1][..i] == words[..i];
      if Suspect(w, all, own) {
        var v := FirstTypo(w, verdicts);
        if v.Some? {
          found := found + [Typo(w, v.value)];
        }
      }
    }
    assert words[..|words|] == words;
  }

  method FirstTypo(w: Name, verdicts: seq<Name>) returns (v: Option<Name>)
    ensures v == Meant(w, verdicts)
  {
    assert verdicts[0..] == verdicts;
    for i := 0 to |verdicts|
      invariant Meant(w, verdicts) == Meant(w, verdicts[i..])
    {
      var d := E.Damerau(w, verdicts[i]);
      E.OneIsOneEdit(w, verdicts[i]);
      assert OneEditFrom(w, verdicts[i]) <==> d == 1;
      if d == 1 { return Some(verdicts[i]); }
      assert verdicts[i..][1..] == verdicts[i + 1..];
    }
    v := None;
  }
}
