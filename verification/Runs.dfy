/** Runs of a step function, and the two inductions over them that the booking services share. */
module Runs {

  /** The state reached from s by the events in order. */
  function Run<S, E>(step: (S, E) -> S, s: S, evs: seq<E>): S
    decreases |evs|
  {
    if evs == [] then s else Run(step, step(s, evs[0]), evs[1..])
  }

  /** Every event of the run meets the demand ok makes in the state it arrives in. */
  ghost predicate Admitted<S, E>(step: (S, E) -> S, ok: (S, E) -> bool, s: S, evs: seq<E>)
    decreases |evs|
  {
    evs == [] || (ok(s, evs[0]) && Admitted(step, ok, step(s, evs[0]), evs[1..]))
  }

  lemma {:induction false} RunKeeps<S(!new), E(!new)>(
    step: (S, E) -> S, ok: (S, E) -> bool, inv: S -> bool, s: S, evs: seq<E>)
    requires forall s, e :: inv(s) && ok(s, e) ==> inv(step(s, e))
    requires inv(s) && Admitted(step, ok, s, evs)
    ensures inv(Run(step, s, evs))
    decreases |evs|
  {
    if evs != [] {
      RunKeeps(step, ok, inv, step(s, evs[0]), evs[1..]);
    }
  }

  lemma RunCons<S, E>(step: (S, E) -> S, s: S, e: E, rest: seq<E>)
    ensures Run(step, s, [e] + rest) == Run(step, step(s, e), rest)
  {
    assert ([e] + rest)[1..] == rest;
  }

  lemma {:induction false} RunConcat<S, E>(step: (S, E) -> S, s: S, first: seq<E>, second: seq<E>)
    ensures Run(step, s, first + second) == Run(step, Run(step, s, first), second)
    decreases |first|
  {
    if first == [] {
      assert first + second == second;
    } else {
      assert (first + second)[1..] == first[1..] + second;
      RunConcat(step, step(s, first[0]), first[1..], second);
    }
  }

  lemma AdmittedCons<S, E>(step: (S, E) -> S, ok: (S, E) -> bool, s: S, e: E, rest: seq<E>)
    ensures Admitted(step, ok, s, [e] + rest) <==> ok(s, e) && Admitted(step, ok, step(s, e), rest)
  {
    assert ([e] + rest)[1..] == rest;
  }

  lemma RunSnoc<S, E>(step: (S, E) -> S, s: S, evs: seq<E>, e: E)
    ensures Run(step, s, evs + [e]) == step(Run(step, s, evs), e)
  {
    RunConcat(step, s, evs, [e]);
    assert [e] == [e] + [];
    RunCons(step, Run(step, s, evs), e, []);
  }

  lemma {:induction false} AdmittedSnoc<S, E>(step: (S, E) -> S, ok: (S, E) -> bool, s: S, evs: seq<E>, e: E)
    ensures Admitted(step, ok, s, evs + [e]) <==> Admitted(step, ok, s, evs) && ok(Run(step, s, evs), e)
    decreases |evs|
  {
    if evs == [] {
      assert [e] == [e] + [];
      AdmittedCons(step, ok, s, e, []);
      assert evs + [e] == [e];
    } else {
      assert evs + [e] == [evs[0]] + (evs[1..] + [e]);
      AdmittedCons(step, ok, s, evs[0], evs[1..] + [e]);
      AdmittedSnoc(step, ok, step(s, evs[0]), evs[1..], e);
    }
  }

  /** Two more known steps, the first admitted. */
  lemma SnocTwice<S, E>(step: (S, E) -> S, ok: (S, E) -> bool, s: S, evs: seq<E>, s1: S, s2: S, s3: S, e1: E, e2: E)
    requires Admitted(step, ok, s, evs) && Run(step, s, evs) == s1
    requires ok(s1, e1) && step(s1, e1) == s2 && step(s2, e2) == s3
    ensures Admitted(step, ok, s, evs + [e1]) && Run(step, s, evs + [e1] + [e2]) == s3
  {
    AdmittedSnoc(step, ok, s, evs, e1);
    RunSnoc(step, s, evs, e1);
    RunSnoc(step, s, evs + [e1], e2);
  }

  /** Three known steps, each admitted. */
  lemma ThreeSteps<S, E>(step: (S, E) -> S, ok: (S, E) -> bool, s0: S, s1: S, s2: S, s3: S, e1: E, e2: E, e3: E)
    requires step(s0, e1) == s1 && step(s1, e2) == s2 && step(s2, e3) == s3
    requires ok(s0, e1) && ok(s1, e2) && ok(s2, e3)
    ensures Run(step, s0, [e1, e2]) == s2 && Run(step, s0, [e1, e2, e3]) == s3
    ensures Admitted(step, ok, s0, [e1, e2, e3])
  {
    assert [e1, e2] == ([] + [e1]) + [e2] && [e1, e2, e3] == [e1, e2] + [e3];
    RunSnoc(step, s0, [], e1);
    RunSnoc(step, s0, [] + [e1], e2);
    RunSnoc(step, s0, [e1, e2], e3);
    AdmittedSnoc(step, ok, s0, [], e1);
    AdmittedSnoc(step, ok, s0, [] + [e1], e2);
    AdmittedSnoc(step, ok, s0, [e1, e2], e3);
  }

  /** A run of four known steps. */
  lemma FourSteps<S, E>(step: (S, E) -> S, s0: S, s1: S, s2: S, s3: S, s4: S, e1: E, e2: E, e3: E, e4: E)
    requires step(s0, e1) == s1 && step(s1, e2) == s2 && step(s2, e3) == s3 && step(s3, e4) == s4
    ensures Run(step, s0, [e1, e2, e3, e4]) == s4
  {
    assert [e1, e2, e3, e4] == [e1] + [e2, e3, e4] && [e2, e3, e4] == [e2] + [e3, e4];
    assert [e3, e4] == [e3] + [e4] && [e4] == [e4] + [];
    RunCons(step, s0, e1, [e2, e3, e4]);
    RunCons(step, s1, e2, [e3, e4]);
    RunCons(step, s2, e3, [e4]);
    RunCons(step, s3, e4, []);
  }

  lemma FourAdmitted<S, E>(step: (S, E) -> S, ok: (S, E) -> bool, s0: S, s1: S, s2: S, s3: S, e1: E, e2: E, e3: E,
                           e4: E)
    requires step(s0, e1) == s1 && step(s1, e2) == s2 && step(s2, e3) == s3
    requires ok(s0, e1) && ok(s1, e2) && ok(s2, e3) && ok(s3, e4)
    ensures Admitted(step, ok, s0, [e1, e2, e3, e4])
  {
    assert [e1, e2, e3, e4] == [e1] + [e2, e3, e4] && [e2, e3, e4] == [e2] + [e3, e4];
    assert [e3, e4] == [e3] + [e4] && [e4] == [e4] + [];
    AdmittedCons(step, ok, s0, e1, [e2, e3, e4]);
    AdmittedCons(step, ok, s1, e2, [e3, e4]);
    AdmittedCons(step, ok, s2, e3, [e4]);
    AdmittedCons(step, ok, s3, e4, []);
  }

  /** Two more known steps. */
  lemma TwoMore<S, E>(step: (S, E) -> S, s0: S, evs: seq<E>, s1: S, s2: S, s3: S, e1: E, e2: E)
    requires Run(step, s0, evs) == s1 && step(s1, e1) == s2 && step(s2, e2) == s3
    ensures Run(step, s0, evs + [e1, e2]) == s3
  {
    RunConcat(step, s0, evs, [e1, e2]);
    assert [e1, e2] == [e1] + [e2] && [e2] == [e2] + [];
    RunCons(step, s1, e1, [e2]);
    RunCons(step, s2, e2, []);
  }

  /** The events that drop does not select, in order. */
  function Without<E>(drop: E -> bool, evs: seq<E>): seq<E>
  {
    if evs == [] then []
    else (if drop(evs[0]) then [] else [evs[0]]) + Without(drop, evs[1..])
  }

  /** Once a state is settled for good and selected events leave settled states alone, deleting every
      selected event from the rest of the run changes nothing. */
  lemma {:induction false} IdleEventsVanish<S(!new), E(!new)>(
    step: (S, E) -> S, settled: S -> bool, drop: E -> bool, s: S, evs: seq<E>)
    requires forall s, e :: settled(s) ==> settled(step(s, e))
    requires forall s, e :: settled(s) && drop(e) ==> step(s, e) == s
    requires settled(s)
    ensures Run(step, s, evs) == Run(step, s, Without(drop, evs))
    decreases |evs|
  {
    if evs != [] {
      IdleEventsVanish(step, settled, drop, step(s, evs[0]), evs[1..]);
      var rest := Without(drop, evs[1..]);
      if !drop(evs[0]) {
        assert Without(drop, evs)[1..] == rest;
      } else {
        assert Without(drop, evs) == rest;
      }
    }
  }

  /** Deliveries of the same event after its first processing may be added or removed anywhere. */
  lemma {:induction false} RepeatsVanish<S(!new), E(!new)>(
    step: (S, E) -> S, settled: S -> bool, repeat: E -> bool, s: S, before: seq<E>, first: E, after: seq<E>,
    after': seq<E>)
    requires forall s, e :: settled(s) ==> settled(step(s, e))
    requires forall s, e :: settled(s) && repeat(e) ==> step(s, e) == s
    requires settled(step(Run(step, s, before), first))
    requires Without(repeat, after) == Without(repeat, after')
    ensures Run(step, s, before + ([first] + after)) == Run(step, s, before + ([first] + after'))
  {
    var s1 := Run(step, s, before);
    RunConcat(step, s, before, [first] + after);
    RunConcat(step, s, before, [first] + after');
    RunCons(step, s1, first, after);
    RunCons(step, s1, first, after');
    IdleEventsVanish(step, settled, repeat, step(s1, first), after);
    IdleEventsVanish(step, settled, repeat, step(s1, first), after');
  }
}
