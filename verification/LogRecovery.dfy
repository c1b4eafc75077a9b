/** What recovery would make of the disk, read off the disk itself: the header block says which home
    blocks it would take from the log. */
module LogRecovery {
  import opened LogMachine
  import opened LogRefinement
  import opened LogDevice
  import LogTheorems

  /** The disk after a recovery that is not disturbed. */
  function Recovered(s: State): (r: seq<Block>)
    ensures |r| == |s.disk|
  {
    if 0 <= s.lay.start < |s.disk|
    then Installed(s.disk, Entries(s.disk[s.lay.start]), s.lay.start, |Entries(s.disk[s.lay.start])|) else s.disk
  }

  /** In every state of every run, that is the durable contents. */
  lemma {:induction false} RecoveredIsDurable(s: State, a: Abs, b: int)
    requires a in Refined(s) && Home(s.lay, b)
    ensures 0 <= b < |Recovered(s)| == |a.durable| && Recovered(s)[b] == a.durable[b]
  {
    var v := ViewOf(s);
    assert Core(v, a);
    ListsUnique(s.disk[s.lay.start], v.listed);
    RecoveredAt(v, a.durable, b);
  }

  lemma {:induction false} RecoveredAt(v: View, durable: seq<Block>, b: int)
    requires LayoutOk(v.lay, v.disk) && |v.disk| == |durable| && RecoverOk(v, durable) && Home(v.lay, b)
    ensures Installed(v.disk, v.listed, v.lay.start, |v.listed|)[b] == durable[b]
  {
    var e := v.listed;
    assert forall i, j :: 0 <= i < j < |e| ==> e[i] != e[j];
    InstalledIs(v.lay, v.disk, e, |e|, b);
    if b in v.places {
      assert e[v.places[b]] == b;
    }
  }

  /** A listed block is pinned in the cache, with the data last logged, while nothing is open. */
  lemma {:induction false} ListedIsLogged(s: State, a: Abs, b: int)
    requires a in Refined(s) && s.phase.WriteHead? && Home(s.lay, b)
    ensures 0 <= b < |a.current| == |a.durable| && s.ops == map[]
    ensures b in s.lh ==> b in s.cache && s.cache[b].data == a.current[b]
    ensures b !in s.lh ==> a.current[b] == a.durable[b]
  {
    var v := ViewOf(s);
    assert Core(v, a) && PhaseOk(s, a);
    if b in s.lh {
      var i :| 0 <= i < |s.lh| && s.lh[i] == b;
      assert s.lh[i] in v.pending;
      assert BufOk(v, a, b, v.cache[b]);
    } else {
      assert b !in v.pending && b !in v.places;
    }
  }

  lemma {:induction false} StepDurable(s: State, a: Abs, l: Label)
    ensures Apply(a, Effect(s, l)).durable == if l.Tick? && s.phase.WriteHead? then a.current else a.durable
  {
  }

  /** What recovery would make of a home block changes in one step only, the header write of a commit,
      and then to the data logged for it. */
  lemma {:induction false} DurableChangesOnlyByHeader(s: State, a: Abs, l: Label, b: int)
    requires a in Refined(s) && Step(s, l).Next? && Home(s.lay, b)
    ensures 0 <= b < |Recovered(s)| == |Recovered(Step(s, l).s)|
    ensures Recovered(Step(s, l).s)[b]
            == if l.Tick? && s.phase.WriteHead? && b in s.lh && b in s.cache then s.cache[b].data else Recovered(s)[b]
    ensures l.Tick? && s.phase.WriteHead? ==> s.ops == map[] && (b in s.lh ==> b in s.cache)
  {
    var s', a' := Step(s, l).s, Apply(a, Effect(s, l));
    StepRefines(s, a, l);
    LogTheorems.StepLayout(s, l);
    StepDurable(s, a, l);
    RecoveredIsDurable(s, a, b);
    RecoveredIsDurable(s', a', b);
    if l.Tick? && s.phase.WriteHead? {
      ListedIsLogged(s, a, b);
    }
  }
}
