/** Going on from a state by honest steps. */
module Leading {
  import opened Tables
  import opened TableLaws
  import opened Protocol
  import opened ProtocolInvariant
  import opened ProtocolTheorems

  lemma {:induction false} LeadsOn(s: Sys, acts: seq<Action>, s1: Sys, more: seq<Action>, s2: Sys)
    requires Leads(s, acts, s1) && Leads(s1, more, s2)
    ensures Leads(s, acts + more, s2)
    decreases |acts|
  {
    if acts == [] {
      assert acts + more == more;
    } else {
      LeadsOn(Next(s, acts[0]), acts[1..], s1, more, s2);
      assert (acts + more)[1..] == acts[1..] + more;
    }
  }

  lemma CanLeadOn(s: Sys, s1: Sys, s2: Sys)
    requires CanLead(s, s1) && CanLead(s1, s2)
    ensures CanLead(s, s2)
  {
    var acts :| Leads(s, acts, s1);
    var more :| Leads(s1, more, s2);
    LeadsOn(s, acts, s1, more, s2);
  }

  lemma StaysPut(s: Sys)
    ensures CanLead(s, s)
  {
    assert Leads(s, [], s);
  }

  lemma StepLeads(s: Sys, a: Action)
    requires Enabled(s, a) && Assumed(s, a)
    ensures CanLead(s, Next(s, a))
  {
    assert [a][1..] == [] && Leads(Next(s, a), [], Next(s, a));
    assert Leads(s, [a], Next(s, a));
  }

  /** An honest run continued by an honest step is an honest run. */
  lemma ReachableNext(s: Sys, a: Action)
    requires Reachable(s) && Enabled(s, a) && Assumed(s, a)
    ensures Reachable(Next(s, a))
  {
    var run: seq<Sys>, acts: seq<Action> :| HonestRun(run, acts) && run[|acts|] == s;
    var run', acts' := run + [Next(s, a)], acts + [a];
    forall i: nat | i < |acts'|
      ensures StepAt(run', acts', i) && AssumedAt(run', acts', i)
    {
      if i < |acts| {
        assert StepAt(run, acts, i) && AssumedAt(run, acts, i);
        assert run'[i] == run[i] && run'[i + 1] == run[i + 1] && acts'[i] == acts[i];
      }
    }
    assert HonestRun(run', acts') && run'[|acts'|] == Next(s, a);
  }

  lemma {:induction false} ReachableOn(s: Sys, acts: seq<Action>, s': Sys)
    requires Reachable(s) && Leads(s, acts, s')
    ensures Reachable(s')
    decreases |acts|
  {
    if acts != [] {
      ReachableNext(s, acts[0]);
      ReachableOn(Next(s, acts[0]), acts[1..], s');
    }
  }

  /** What holds in every state of every honest run holds wherever an honest run can be continued to. */
  lemma LedFromReachable(s: Sys, s': Sys)
    requires Reachable(s) && CanLead(s, s')
    ensures Reachable(s') && Inv(s') && NoDoubleBooking(s'.db)
  {
    var acts :| Leads(s, acts, s');
    ReachableOn(s, acts, s');
    ReachableIsSafe(s');
  }

  lemma ReachableIsSafe(s: Sys)
    requires Reachable(s)
    ensures Inv(s) && NoDoubleBooking(s.db)
  {
    var run: seq<Sys>, acts: seq<Action> :| HonestRun(run, acts) && run[|acts|] == s;
    RunKeeps(run, acts, |acts|);
    InvMeansNoDoubleBooking(s.db);
  }

  /** Wherever the invariant holds, it and what it is for hold on. */
  lemma {:induction false} LeadsKeep(s: Sys, acts: seq<Action>, s': Sys)
    requires Inv(s) && Leads(s, acts, s')
    ensures Inv(s') && NoDoubleBooking(s'.db)
    decreases |acts|
  {
    if acts == [] {
      InvMeansNoDoubleBooking(s.db);
    } else {
      StepKeeps(s, acts[0]);
      LeadsKeep(Next(s, acts[0]), acts[1..], s');
    }
  }
}
