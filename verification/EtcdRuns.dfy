/** Runs of the transition system, one action at a time. */
module EtcdRuns {
  import opened EtcdProtocol

  /** A run may be extended by any action enabled at its end. */
  lemma {:induction false} Extend(s: State, acts: seq<Action>, a: Action)
    requires Typed(s) && Runs(s, acts) && Enabled(Exec(s, acts), a)
    ensures Runs(s, acts + [a]) && Exec(s, acts + [a]) == Apply(Exec(s, acts), a)
    decreases |acts|
  {
    if acts == [] {
      ApplyTyped(s, a);
      assert (acts + [a])[1..] == [];
    } else {
      ApplyTyped(s, acts[0]);
      Extend(Apply(s, acts[0]), acts[1..], a);
      assert (acts + [a])[1..] == acts[1..] + [a];
    }
  }

  /** One run after another. */
  lemma {:induction false} RunOn(s: State, acts: seq<Action>, more: seq<Action>)
    requires Typed(s) && Runs(s, acts) && Runs(Exec(s, acts), more)
    ensures Runs(s, acts + more) && Exec(s, acts + more) == Exec(Exec(s, acts), more)
    decreases |acts|
  {
    if acts == [] {
      assert acts + more == more;
    } else {
      ApplyTyped(s, acts[0]);
      RunOn(Apply(s, acts[0]), acts[1..], more);
      assert (acts + more)[1..] == acts[1..] + more;
    }
  }
}
