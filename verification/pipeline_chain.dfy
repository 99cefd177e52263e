/** The chain of steps one pipeline run visits. Each stage's outcome alone
    chooses what runs next, so the visited chain is a function of the
    registry, the starting step and its arguments. */
module PipelineChain {
  import opened PipelineTypes

  /** One iteration of the step loop: the step run, its arguments and what
      awaiting it gave. */
  datatype Visit = Visit(step: StepType, args: seq<Arg>, outcome: Outcome)

  function Last<T>(s: seq<T>): T
    requires |s| > 0
  {
    s[|s| - 1]
  }

  /** Consecutive visits are joined by the first one's `[nextStepName, nextArgs]`. */
  ghost predicate Chained(tr: seq<Visit>)
  {
    forall i :: 0 <= i < |tr| - 1 ==> tr[i].outcome == Returned(Next(tr[i + 1].step, tr[i + 1].args))
  }

  /** `tr` is what the loop does when it starts at `name` with `args`: it
      starts there, every visit's outcome is what the registry gives for that
      step and those arguments, and each visit follows from the one before. */
  ghost predicate Linked(steps: StepRegistry, name: StepType, args: seq<Arg>, tr: seq<Visit>)
  {
    && (tr != [] ==> tr[0].step == name && tr[0].args == args)
    && (forall i :: 0 <= i < |tr| ==> tr[i].outcome == steps(tr[i].step, tr[i].args))
    && Chained(tr)
  }

  /** The loop has left: the last visit returned `null` or threw. */
  predicate Halts(tr: seq<Visit>)
  {
    |tr| > 0 && Terminal(Last(tr).outcome)
  }

  /** The first `fuel` iterations of the step loop (fewer when it leaves earlier). */
  function Walk(steps: StepRegistry, name: StepType, args: seq<Arg>, fuel: nat): (tr: seq<Visit>)
    ensures |tr| <= fuel
    decreases fuel
  {
    if fuel == 0 then []
    else
      var outcome := steps(name, args);
      if outcome.Returned? && outcome.result.Next?
      then [Visit(name, args, outcome)] + Walk(steps, outcome.result.step, outcome.result.args, fuel - 1)
      else [Visit(name, args, outcome)]
  }

  /** The walk runs all `fuel` iterations unless the loop left earlier. */
  lemma {:induction false} WalkFillsFuel(steps: StepRegistry, name: StepType, args: seq<Arg>, fuel: nat)
    ensures var tr := Walk(steps, name, args, fuel);
      |tr| == fuel || Halts(tr)
    decreases fuel
  {
    if fuel > 0 {
      var outcome := steps(name, args);
      WalkUnfold(steps, name, args, fuel);
      if outcome.Returned? && outcome.result.Next? {
        var tail := Walk(steps, outcome.result.step, outcome.result.args, fuel - 1);
        WalkFillsFuel(steps, outcome.result.step, outcome.result.args, fuel - 1);
        if tail != [] {
          assert Last([Visit(name, args, outcome)] + tail) == Last(tail);
        }
      }
    }
  }

  /** The loop started at `name` with `args` leaves after finitely many steps. */
  ghost predicate Terminates(steps: StepRegistry, name: StepType, args: seq<Arg>)
  {
    exists fuel: nat :: Halts(Walk(steps, name, args, fuel))
  }

  /** Every iteration of a loop that terminates, up to and including the one that leaves it. */
  ghost function Chain(steps: StepRegistry, name: StepType, args: seq<Arg>): (tr: seq<Visit>)
    requires Terminates(steps, name, args)
    ensures Linked(steps, name, args, tr) && Halts(tr)
  {
    var fuel: nat :| Halts(Walk(steps, name, args, fuel));
    WalkIsLinked(steps, name, args, fuel);
    Walk(steps, name, args, fuel)
  }

  /** The walk is what the loop does: it starts at `name`, asks the registry
      for every outcome, and follows each `[nextStepName, nextArgs]`. */
  lemma {:induction false} WalkIsLinked(steps: StepRegistry, name: StepType, args: seq<Arg>, fuel: nat)
    ensures Linked(steps, name, args, Walk(steps, name, args, fuel))
    decreases fuel
  {
    if fuel > 0 {
      var outcome := steps(name, args);
      WalkUnfold(steps, name, args, fuel);
      if outcome.Returned? && outcome.result.Next? {
        var next, nextArgs := outcome.result.step, outcome.result.args;
        var tail := Walk(steps, next, nextArgs, fuel - 1);
        WalkIsLinked(steps, next, nextArgs, fuel - 1);
        var tr := [Visit(name, args, outcome)] + tail;
        forall i | 0 <= i < |tr|
          ensures tr[i].outcome == steps(tr[i].step, tr[i].args)
        {
          if i > 0 { assert tr[i] == tail[i - 1]; }
        }
        forall i | 0 <= i < |tr| - 1
          ensures tr[i].outcome == Returned(Next(tr[i + 1].step, tr[i + 1].args))
        {
          if i > 0 { assert tr[i] == tail[i - 1] && tr[i + 1] == tail[i]; }
        }
      }
    }
  }

  /** A halting linked chain is exactly the walk of its own length: the
      outcomes alone decide every step that runs. */
  lemma {:induction false} LinkedIsWalk(steps: StepRegistry, name: StepType, args: seq<Arg>, tr: seq<Visit>)
    requires Linked(steps, name, args, tr) && Halts(tr)
    ensures Walk(steps, name, args, |tr|) == tr
    decreases |tr|
  {
    var outcome := steps(name, args);
    assert tr[0] == Visit(name, args, outcome);
    if |tr| > 1 {
      var rest := tr[1..];
      assert Linked(steps, tr[1].step, tr[1].args, rest) by {
        forall i | 0 <= i < |rest| - 1
          ensures rest[i].outcome == Returned(Next(rest[i + 1].step, rest[i + 1].args))
        {
          assert rest[i] == tr[i + 1] && rest[i + 1] == tr[i + 2];
        }
      }
      assert Last(rest) == Last(tr);
      LinkedIsWalk(steps, tr[1].step, tr[1].args, rest);
      assert tr == [tr[0]] + rest;
    } else {
      assert tr == [tr[0]];
    }
  }

  /** More fuel changes nothing once the walk has halted. */
  lemma {:induction false} WalkStable(steps: StepRegistry, name: StepType, args: seq<Arg>, fuel: nat, more: nat)
    requires Halts(Walk(steps, name, args, fuel))
    requires fuel <= more
    ensures Walk(steps, name, args, more) == Walk(steps, name, args, fuel)
    decreases fuel
  {
    var outcome := steps(name, args);
    assert fuel > 0;
    WalkUnfold(steps, name, args, fuel);
    WalkUnfold(steps, name, args, more);
    if outcome.Returned? && outcome.result.Next? {
      var next, nextArgs := outcome.result.step, outcome.result.args;
      WalkTailHalts(steps, name, args, fuel);
      WalkStable(steps, next, nextArgs, fuel - 1, more - 1);
    }
  }

  /** When the first stage continues the loop, the rest of a halted walk halts too. */
  lemma WalkTailHalts(steps: StepRegistry, name: StepType, args: seq<Arg>, fuel: nat)
    requires Halts(Walk(steps, name, args, fuel))
    requires steps(name, args).Returned? && steps(name, args).result.Next?
    ensures fuel > 0
    ensures Halts(Walk(steps, steps(name, args).result.step, steps(name, args).result.args, fuel - 1))
  {
    var outcome := steps(name, args);
    var whole := Walk(steps, name, args, fuel);
    var tail := Walk(steps, outcome.result.step, outcome.result.args, fuel - 1);
    WalkUnfold(steps, name, args, fuel);
    assert whole == [Visit(name, args, outcome)] + tail;
    assert tail != [] && Last(whole) == Last(tail);
  }

  /** One iteration of the loop, then the rest of the walk. */
  lemma WalkUnfold(steps: StepRegistry, name: StepType, args: seq<Arg>, fuel: nat)
    requires fuel > 0
    ensures var outcome := steps(name, args);
      Walk(steps, name, args, fuel) ==
        [Visit(name, args, outcome)] +
        if outcome.Returned? && outcome.result.Next?
        then Walk(steps, outcome.result.step, outcome.result.args, fuel - 1)
        else []
  {
  }

  /** Determinism: every halting chain linked from `name` and `args` is THE
      chain of that run. */
  lemma ChainIsUnique(steps: StepRegistry, name: StepType, args: seq<Arg>, tr: seq<Visit>)
    requires Linked(steps, name, args, tr) && Halts(tr)
    ensures Terminates(steps, name, args)
    ensures Chain(steps, name, args) == tr
  {
    LinkedIsWalk(steps, name, args, tr);
    var chosen := Chain(steps, name, args);
    LinkedIsWalk(steps, name, args, chosen);
    if |tr| <= |chosen| {
      WalkStable(steps, name, args, |tr|, |chosen|);
    } else {
      WalkStable(steps, name, args, |chosen|, |tr|);
    }
  }

  /** The step names in the order the loop runs them. */
  function Steps(tr: seq<Visit>): (names: seq<StepType>)
    ensures |names| == |tr|
    ensures forall i :: 0 <= i < |tr| ==> names[i] == tr[i].step
  {
    if tr == [] then [] else Steps(tr[..|tr| - 1]) + [Last(tr).step]
  }

  /** The chain starts at the entry step, and a step runs only when the one
      before it returned `[thatStep, args]`; only the last visit ends the loop. */
  lemma ChainOrder(steps: StepRegistry, name: StepType, args: seq<Arg>)
    requires Terminates(steps, name, args)
    ensures var tr := Chain(steps, name, args);
      && Steps(tr)[0] == name
      && (forall i :: 0 < i < |tr| ==> steps(tr[i - 1].step, tr[i - 1].args) == Returned(Next(tr[i].step, tr[i].args)))
      && (forall i :: 0 <= i < |tr| ==> (Terminal(tr[i].outcome) <==> i == |tr| - 1))
  {
    var tr := Chain(steps, name, args);
    forall i | 0 < i < |tr|
      ensures steps(tr[i - 1].step, tr[i - 1].args) == Returned(Next(tr[i].step, tr[i].args))
    {
      assert tr[i - 1].outcome == Returned(Next(tr[(i - 1) + 1].step, tr[(i - 1) + 1].args));
    }
    forall i | 0 <= i < |tr| - 1 ensures !Terminal(tr[i].outcome) {
      assert tr[i].outcome == Returned(Next(tr[i + 1].step, tr[i + 1].args));
    }
  }

  /** The `k`-th iteration of a terminating loop: the registry's outcome for
      it, and whether it is the last. */
  lemma ChainAt(steps: StepRegistry, name: StepType, args: seq<Arg>, k: nat)
    requires Terminates(steps, name, args)
    requires k < |Chain(steps, name, args)|
    ensures var tr := Chain(steps, name, args);
      && tr[k].outcome == steps(tr[k].step, tr[k].args)
      && (Terminal(tr[k].outcome) <==> k == |tr| - 1)
      && (!Terminal(tr[k].outcome) ==> tr[k].outcome == Returned(Next(tr[k + 1].step, tr[k + 1].args)))
  {
    var tr := Chain(steps, name, args);
    if k < |tr| - 1 {
      assert tr[k].outcome == Returned(Next(tr[k + 1].step, tr[k + 1].args));
    }
  }
}
