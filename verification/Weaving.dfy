/**
 How the accesses of one call and those of other threads make one run: each of the call's own
 accesses is followed by the others' accesses that fall after it.
 */
module Weaving {
  function Woven<A>(own: seq<A>, runs: seq<seq<A>>): seq<A>
    decreases |own|
  {
    if own == [] then []
    else if runs == [] then own
    else [own[0]] + runs[0] + Woven(own[1..], runs[1..])
  }

  /** The run of two parts of a call is the runs of the parts, one after the other. */
  lemma {:induction false} WovenConcat<A>(own: seq<A>, runs: seq<seq<A>>, own': seq<A>, runs': seq<seq<A>>)
    requires |runs| == |own| || (|runs| < |own| && runs' == [])
    ensures Woven(own + own', runs + runs') == Woven(own, runs) + Woven(own', runs')
    decreases |own|
  {
    if own == [] {
      assert own + own' == own' && runs + runs' == runs';
    } else if runs == [] {
      assert runs + runs' == [];
    } else {
      assert (own + own')[1..] == own[1..] + own' && (runs + runs')[1..] == runs[1..] + runs';
      WovenConcat(own[1..], runs[1..], own', runs');
    }
  }

  // One more access of the call, and others' after it.
  lemma {:induction false} WovenMore<A>(own: seq<A>, runs: seq<seq<A>>, a: A, run: seq<A>)
    requires |own| == |runs|
    ensures Woven(own + [a], runs + [run]) == Woven(own, runs) + [a] + run
  {
    WovenConcat(own, runs, [a], [run]);
    assert Woven([a][1..], [run][1..]) == [];
    assert Woven([a], [run]) == [a] + run;
  }

  // One more access of the call, and nobody else's.
  lemma {:induction false} WovenOwn<A>(own: seq<A>, runs: seq<seq<A>>, a: A)
    requires |runs| <= |own|
    ensures Woven(own + [a], runs) == Woven(own, runs) + [a]
  {
    WovenConcat(own, runs, [a], []);
    assert runs + [] == runs;
  }

  // Others' accesses after the call's last one so far.
  lemma {:induction false} WovenOthers<A>(own: seq<A>, runs: seq<seq<A>>, run: seq<A>)
    requires |own| == |runs| + 1
    ensures Woven(own, runs + [run]) == Woven(own, runs) + run
  {
    var k := |runs|;
    assert own == own[..k] + [own[k]];
    WovenMore(own[..k], runs, own[k], run);
    WovenOwn(own[..k], runs, own[k]);
  }

  lemma {:induction false} SplitAt<A>(runs: seq<A>, n: nat) returns (before: seq<A>, run: A, after: seq<A>)
    requires n < |runs|
    ensures before == runs[..n] && |before| == n && run == runs[n]
    ensures after == runs[..n + 1] && after == before + [run]
  {
    before, run, after := runs[..n], runs[n], runs[..n + 1];
  }

  lemma {:induction false} FurtherFrom<A>(own: seq<A>, before: seq<seq<A>>, a: A, run: seq<A>, after: seq<seq<A>>)
    requires |own| == |before| && after == before + [run]
    ensures Woven(own + [a], after) == Woven(own, before) + [a] + run
  {
    WovenMore(own, before, a, run);
  }

  // The call's next access, with the others' that follow it.
  lemma {:induction false} Further<A>(own: seq<A>, runs: seq<seq<A>>, a: A)
    requires |own| < |runs|
    ensures Woven(own + [a], runs[..|own| + 1]) == Woven(own, runs[..|own|]) + [a] + runs[|own|]
  {
    var before, run, after := SplitAt(runs, |own|);
    FurtherFrom(own, before, a, run, after);
  }

  // The call's last access.
  lemma {:induction false} Ending<A>(own: seq<A>, runs: seq<seq<A>>, a: A)
    requires |own| <= |runs|
    ensures Woven(own + [a], runs[..|own|]) == Woven(own, runs[..|own|]) + [a]
  {
    WovenOwn(own, runs[..|own|], a);
  }
}
