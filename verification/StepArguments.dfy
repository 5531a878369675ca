/** What the arguments that are printed for a step tell the step's process. */
module StepArguments {
  import opened Wrappers
  import opened Text
  import opened CommandLine
  import opened CommandLineRoundTrip

  // Result names without commas, as their validation demands.
  ghost predicate CommaFree(o: Options) {
    o.task.Some? ==>
      && (forall r :: r in o.task.value.results ==> Free(r.name, ','))
      && (forall k :: 0 <= k < |o.task.value.steps| ==> AllFree(o.task.value.steps[k].results, ','))
  }

  // ----- The results to collect -----

  // names are the names of the results without a value, in their order: those at the indices `at`.
  ghost predicate Picks(results: seq<TaskResult>, names: seq<string>, at: seq<nat>) {
    && |at| == |names|
    && (forall k :: 0 <= k < |at| ==> PickedAt(results, names[k], at[k]))
    && (forall j, k :: 0 <= j < k < |at| ==> at[j] < at[k])
    && (forall r :: 0 <= r < |results| && !results[r].hasValue ==> r in at)
  }

  predicate PickedAt(results: seq<TaskResult>, name: string, r: nat) {
    r < |results| && !results[r].hasValue && name == results[r].name
  }

  lemma {:induction false} NamesSnoc(results: seq<TaskResult>, last: TaskResult)
    ensures ResultNames(results + [last]) == ResultNames(results) + if last.hasValue then [] else [last.name]
  {
    if results != [] {
      NamesSnoc(results[1..], last);
      assert (results + [last])[1..] == results[1..] + [last];
    }
  }

  lemma PicksLess(results: seq<TaskResult>, last: TaskResult, names: seq<string>, at: seq<nat>)
    requires Picks(results, names, at) && last.hasValue
    ensures Picks(results + [last], names, at)
  {
    forall r | 0 <= r < |results + [last]| && !(results + [last])[r].hasValue
      ensures r in at
    {
      assert !results[r].hasValue;
    }
  }

  lemma PicksMore(results: seq<TaskResult>, last: TaskResult, names: seq<string>, at: seq<nat>)
    requires Picks(results, names, at) && !last.hasValue
    ensures Picks(results + [last], names + [last.name], at + [|results|])
  {
    var more, at' := results + [last], at + [|results|];
    forall r | 0 <= r < |more| && !more[r].hasValue
      ensures r in at'
    {
      if r < |results| {
        assert !results[r].hasValue;
      } else {
        assert at'[|at|] == r;
      }
    }
    forall j, k | 0 <= j < k < |at'|
      ensures at'[j] < at'[k]
    {
      assert PickedAt(results, names[j], at[j]);
    }
  }

  lemma {:induction false} NamesArePicked(results: seq<TaskResult>) returns (at: seq<nat>)
    ensures Picks(results, ResultNames(results), at)
  {
    at := [];
    if results != [] {
      var before, last := results[..|results| - 1], results[|results| - 1];
      at := NamesArePicked(before);
      NamesSnoc(before, last);
      assert before + [last] == results;
      if last.hasValue {
        PicksLess(before, last, ResultNames(before), at);
        assert ResultNames(before) + [] == ResultNames(before);
      } else {
        PicksMore(before, last, ResultNames(before), at);
        at := at + [|before|];
      }
    }
  }

  lemma {:induction false} NamesFree(results: seq<TaskResult>)
    requires forall r :: r in results ==> Free(r.name, ',')
    ensures AllFree(ResultNames(results), ',')
  {
    if results != [] {
      NamesFree(results[1..]);
      assert results[0] in results;
    }
  }

  // ----- The container -----

  /** A rewritten container keeps its name and runs the entrypoint with the printed arguments; only three values of
      onError are accepted, the empty one among them. */
  lemma OrderedRunsEntrypoint(o: Options, i: nat, c: Container, onError: string)
    ensures Ordered(o, i, c) == Container(c.name, ["/tekton/bin/entrypoint"], OrderedArgs(o, i, c))
    ensures onError in ON_ERRORS <==> onError == "" || onError == "continue" || onError == "stopAndFail"
  {
  }

  // ----- What the process is told -----

  // The process is told what the step's specification says.
  predicate Carries(p: Process, step: StepSpec) {
    && p.onError == step.onError
    && p.timeout == (if step.timeout.Some? then step.timeout.value else "0s")
    && p.stdoutPath == (if step.stdoutPath.Some? then step.stdoutPath.value else "")
    && p.stderrPath == (if step.stderrPath.Some? then step.stderrPath.value else "")
    && p.when == (if step.when.Some? then step.when.value else "")
    && p.stepResults == (if step.results == [] then [""] else step.results)
  }

  lemma DecodedProcess(o: Options, i: nat, c: Container, platform: Option<seq<string>>, p: Process)
    requires ProperExtra(o.extra) && CommaFree(o) && Decode(OrderedArgs(o, i, c), platform) == Some(p)
    ensures p == Intended(o, i, c, p.command)
  {
    NamesFree(TaskResults(o));
    DecodedIff(o, i, c, platform);
  }

  /** The process decoded from the arguments of step i is told what the task says of step i and of no other step, and
      nothing where the task says nothing of it. */
  lemma DecodedCarriesStep(o: Options, i: nat, c: Container, platform: Option<seq<string>>, p: Process)
    requires ProperExtra(o.extra) && CommaFree(o) && Decode(OrderedArgs(o, i, c), platform) == Some(p)
    ensures o.task.Some? && i < |o.task.value.steps| ==> Carries(p, o.task.value.steps[i])
    ensures o.task.None? || i >= |o.task.value.steps| ==> Carries(p, StepSpec("", None, None, None, [], None))
  {
    DecodedProcess(o, i, c, platform, p);
  }

  /** It is told to collect the results that the task does not compute itself, in order. */
  lemma DecodedCarriesResults(o: Options, i: nat, c: Container, platform: Option<seq<string>>, p: Process)
    returns (names: seq<string>, at: seq<nat>)
    requires ProperExtra(o.extra) && CommaFree(o) && Decode(OrderedArgs(o, i, c), platform) == Some(p)
    ensures Picks(if o.task.Some? then o.task.value.results else [], names, at)
    ensures p.results == if names == [] then [""] else names
  {
    DecodedProcess(o, i, c, platform, p);
    names := ResultNames(TaskResults(o));
    at := NamesArePicked(TaskResults(o));
  }

  /** It waits for the post file of the step before, or for the ready file, and posts in the run directory of step i. */
  lemma DecodedCarriesFiles(o: Options, i: nat, c: Container, platform: Option<seq<string>>, p: Process)
    requires ProperExtra(o.extra) && CommaFree(o) && Decode(OrderedArgs(o, i, c), platform) == Some(p)
    ensures p.postFile == "/tekton/run/" + Numeral(i) + "/" + "out"
    ensures p.metadataDir == "/tekton/run/" + Numeral(i) + "/" + "status"
    ensures i > 0 ==> p.waitFiles == ["/tekton/run/" + Numeral(i - 1) + "/" + "out"] && !p.waitFileContent
    ensures i == 0 && o.waitForReady ==> p.waitFiles == ["/tekton/downward/ready"] && p.waitFileContent
    ensures i == 0 && !o.waitForReady ==> p.waitFiles == [""] && !p.waitFileContent
    ensures p.terminationPath == "/tekton/termination"
    ensures p.breakpointOnFailure == o.breakpoints.onFailure
    ensures p.debugBeforeStep <==> c.name in o.breakpoints.beforeSteps
  {
    DecodedProcess(o, i, c, platform, p);
  }
}
