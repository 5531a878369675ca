/**
 orderContainers rewrites every step to run under the entrypoint; the entrypoint's main reads the
 command line back. The two are inverse to each other exactly when no flag value is a bare "--".
 */
module CommandLine {
  import opened Wrappers
  import opened Text
  import opened Flags

  // ----- What the controller knows about a step -----

  datatype Container = Container(name: string, command: seq<string>, args: seq<string>)

  datatype StepSpec = StepSpec(
    onError: string,            // "" when unset
    timeout: Option<string>,
    stdoutPath: Option<string>,
    stderrPath: Option<string>,
    results: seq<string>,
    when: Option<string>)       // its JSON form, when there are when expressions

  datatype TaskResult = TaskResult(name: string, hasValue: bool)

  datatype TaskSpec = TaskSpec(steps: seq<StepSpec>, results: seq<TaskResult>)

  datatype Breakpoints = Breakpoints(onFailure: bool, beforeSteps: set<string>)

  // What all containers of one pod share.
  datatype Options = Options(
    extra: seq<Item<Flag>>,     // credentials, result extraction and spire flags
    task: Option<TaskSpec>,
    breakpoints: Breakpoints,
    waitForReady: bool)

  const ENTRYPOINT_BINARY := "/tekton/bin/entrypoint"
  const READY_FILE := "/tekton/downward/ready"
  const TERMINATION_PATH := "/tekton/termination"

  function RunPath(i: nat, leaf: string): string {
    "/tekton/run/" + Numeral(i) + "/" + leaf
  }

  function OutPath(i: nat): string {
    RunPath(i, "out")
  }

  // ----- The flags of the entrypoint -----

  datatype Flag =
    | WaitFile | WaitFileContent | PostFile | TerminationPath | StepMetadataDir | OnError | Timeout | StdoutPath
    | StderrPath | StepResults | WhenExpressions | Results | BreakpointOnFailure | DebugBeforeStep | EntrypointFlag
    | ResultFrom | EnableSpire | BasicDocker | DockerConfig | DockerCfg | BasicGit | SshGit

  function FlagName(f: Flag): string {
    match f
    case WaitFile => "wait_file"
    case WaitFileContent => "wait_file_content"
    case PostFile => "post_file"
    case TerminationPath => "termination_path"
    case StepMetadataDir => "step_metadata_dir"
    case OnError => "on_error"
    case Timeout => "timeout"
    case StdoutPath => "stdout_path"
    case StderrPath => "stderr_path"
    case StepResults => "step_results"
    case WhenExpressions => "when_expressions"
    case Results => "results"
    case BreakpointOnFailure => "breakpoint_on_failure"
    case DebugBeforeStep => "debug_before_step"
    case EntrypointFlag => "entrypoint"
    case ResultFrom => "result_from"
    case EnableSpire => "enable_spire"
    case BasicDocker => "basic-docker"
    case DockerConfig => "docker-config"
    case DockerCfg => "docker-cfg"
    case BasicGit => "basic-git"
    case SshGit => "ssh-git"
  }

  function LookupFlag(s: string): Option<Flag> {
    if s == "wait_file" then Some(WaitFile)
    else if s == "wait_file_content" then Some(WaitFileContent)
    else if s == "post_file" then Some(PostFile)
    else if s == "termination_path" then Some(TerminationPath)
    else if s == "step_metadata_dir" then Some(StepMetadataDir)
    else if s == "on_error" then Some(OnError)
    else if s == "timeout" then Some(Timeout)
    else if s == "stdout_path" then Some(StdoutPath)
    else if s == "stderr_path" then Some(StderrPath)
    else if s == "step_results" then Some(StepResults)
    else if s == "when_expressions" then Some(WhenExpressions)
    else if s == "results" then Some(Results)
    else if s == "breakpoint_on_failure" then Some(BreakpointOnFailure)
    else if s == "debug_before_step" then Some(DebugBeforeStep)
    else if s == "entrypoint" then Some(EntrypointFlag)
    else if s == "result_from" then Some(ResultFrom)
    else if s == "enable_spire" then Some(EnableSpire)
    else if s == "basic-docker" then Some(BasicDocker)
    else if s == "docker-config" then Some(DockerConfig)
    else if s == "docker-cfg" then Some(DockerCfg)
    else if s == "basic-git" then Some(BasicGit)
    else if s == "ssh-git" then Some(SshGit)
    else None
  }

  predicate IsSwitch(f: Flag) {
    f == WaitFileContent || f == BreakpointOnFailure || f == DebugBeforeStep || f == EnableSpire
  }

  const FLAGS := FlagSet(FlagName, LookupFlag, IsSwitch,
                         {"1", "t", "T", "true", "TRUE", "True", "0", "f", "F", "false", "FALSE", "False"})

  // ----- The argument list, flag by flag -----

  function Plain(f: Flag, value: string): Item<Flag> {
    Pair("-", f, value)
  }

  function On(cond: bool, it: Item<Flag>): seq<Item<Flag>> {
    if cond then [it] else []
  }

  function Given(f: Flag, value: Option<string>): seq<Item<Flag>> {
    if value.Some? then [Plain(f, value.value)] else []
  }

  function WaitItems(i: nat, waitForReady: bool): seq<Item<Flag>> {
    if i > 0 then [Plain(WaitFile, OutPath(i - 1))]
    else if waitForReady then [Plain(WaitFile, READY_FILE), Switch(WaitFileContent)]
    else []
  }

  function PostItems(i: nat): seq<Item<Flag>> {
    [Plain(PostFile, OutPath(i)), Plain(TerminationPath, TERMINATION_PATH),
     Plain(StepMetadataDir, RunPath(i, "status"))]
  }

  function ResultNames(results: seq<TaskResult>): seq<string> {
    if results == [] then []
    else (if results[0].hasValue then [] else [results[0].name]) + ResultNames(results[1..])
  }

  const NO_STEP_SPEC := StepSpec("", None, None, None, [], None)

  function SpecOf(o: Options, i: nat): StepSpec {
    if o.task.Some? && i < |o.task.value.steps| then o.task.value.steps[i] else NO_STEP_SPEC
  }

  function TaskResults(o: Options): seq<TaskResult> {
    if o.task.Some? then o.task.value.results else []
  }

  // The flags of step i in the order they are appended, group by group.
  function Segment(o: Options, i: nat, c: Container, j: nat): seq<Item<Flag>> {
    var step := SpecOf(o, i);
    if j == 0 then WaitItems(i, o.waitForReady)
    else if j == 1 then PostItems(i)
    else if j == 2 then o.extra
    else if j == 3 then On(step.onError != "", Plain(OnError, step.onError))
    else if j == 4 then Given(Timeout, step.timeout)
    else if j == 5 then Given(StdoutPath, step.stdoutPath)
    else if j == 6 then Given(StderrPath, step.stderrPath)
    else if j == 7 then On(step.results != [], Plain(StepResults, Join(step.results, ',')))
    else if j == 8 then if step.when.Some? then [Pair("--", WhenExpressions, step.when.value)] else []
    else if j == 9 then On(TaskResults(o) != [], Plain(Results, Join(ResultNames(TaskResults(o)), ',')))
    else if j == 10 then On(o.breakpoints.onFailure, Switch(BreakpointOnFailure))
    else if j == 11 then On(c.name in o.breakpoints.beforeSteps, Switch(DebugBeforeStep))
    else if c.command != [] then [Plain(EntrypointFlag, c.command[0])]
    else []
  }

  function Segments(o: Options, i: nat, c: Container): seq<seq<Item<Flag>>> {
    seq(13, (j: nat) => Segment(o, i, c, j))
  }

  function Tail(c: Container): seq<string> {
    if |c.command| > 1 then c.command[1..] + c.args else c.args
  }

  function OrderedArgs(o: Options, i: nat, c: Container): seq<string> {
    TokensOf(FLAGS, Flatten(Segments(o, i, c))) + [TERMINATOR] + Tail(c)
  }

  // ----- orderContainers -----

  datatype OrderError = NoSteps | InvalidOnError

  // Appending the groups of flags one after the other.
  method Append(segments: seq<seq<Item<Flag>>>) returns (args: seq<string>)
    ensures args == TokensOf(FLAGS, Flatten(segments))
  {
    args := [];
    for k := 0 to |segments|
      invariant args == TokensOf(FLAGS, Flatten(segments[..k]))
    {
      FlattenSnoc(FLAGS, segments[..k], segments[k]);
      assert segments[..k + 1] == segments[..k] + [segments[k]];
      args := args + TokensOf(FLAGS, segments[k]);
    }
    assert segments[..|segments|] == segments;
  }

  function Ordered(o: Options, i: nat, c: Container): Container {
    Container(c.name, [ENTRYPOINT_BINARY], OrderedArgs(o, i, c))
  }

  method OrderContainer(o: Options, i: nat, c: Container) returns (now: Container)
    ensures now == Ordered(o, i, c)
  {
    var argsForEntrypoint := Append(Segments(o, i, c));
    argsForEntrypoint := argsForEntrypoint + [TERMINATOR] + Tail(c);
    return Container(c.name, [ENTRYPOINT_BINARY], argsForEntrypoint);
  }

  const ON_ERRORS := {"", "continue", "stopAndFail"}

  // The task gives step i an onError that is none of those known.
  predicate WrongOnError(task: Option<TaskSpec>, i: nat, known: set<string>) {
    task.Some? && i < |task.value.steps| && task.value.steps[i].onError !in known
  }

  // The loop over the steps; "" is the onError of a step without one.
  method OrderEach(o: Options, steps: array<Container>, known: set<string>) returns (error: Option<OrderError>)
    requires NO_STEP_SPEC.onError in known
    modifies steps
    ensures error in {None, Some(InvalidOnError)}
    ensures error.Some? <==> exists i :: 0 <= i < steps.Length && WrongOnError(o.task, i, known)
    ensures error == None ==> forall i :: 0 <= i < steps.Length ==> steps[i] == Ordered(o, i, old(steps[i]))
  {
    for i := 0 to steps.Length
      invariant forall j :: 0 <= j < i ==> !WrongOnError(o.task, j, known)
      invariant forall j :: 0 <= j < i ==> steps[j] == Ordered(o, j, old(steps[j]))
      invariant forall j :: i <= j < steps.Length ==> steps[j] == old(steps[j])
    {
      if SpecOf(o, i).onError !in known {
        assert WrongOnError(o.task, i, known);
        return Some(InvalidOnError);
      }
      steps[i] := OrderContainer(o, i, steps[i]);
    }
    return None;
  }

  /** Every container is rewritten in place to run under the entrypoint, or the task is refused. */
  method OrderContainers(o: Options, steps: array<Container>) returns (error: Option<OrderError>)
    modifies steps
    ensures error == Some(NoSteps) <==> steps.Length == 0
    ensures error == Some(InvalidOnError) <==> exists i :: 0 <= i < steps.Length && WrongOnError(o.task, i, ON_ERRORS)
    ensures error == None ==> forall i :: 0 <= i < steps.Length ==> steps[i] == Ordered(o, i, old(steps[i]))
  {
    if steps.Length == 0 {
      return Some(NoSteps);
    }
    error := OrderEach(o, steps, ON_ERRORS);
  }

  // ----- main -----

  datatype Process = Process(
    command: seq<string>, waitFiles: seq<string>, waitFileContent: bool, postFile: string, terminationPath: string,
    metadataDir: string, onError: string, timeout: string, stdoutPath: string, stderrPath: string, when: string,
    stepResults: seq<string>, results: seq<string>, breakpointOnFailure: bool, debugBeforeStep: bool)

  const SUBCOMMANDS := {"init", "cp", "decode-script", "step-init"}

  // The process main sets up, or None where it exits without one. `platform` is the command that
  // TEKTON_PLATFORM_COMMANDS gives for this platform, used when no entrypoint is given.
  function Decode(args: seq<string>, platform: Option<seq<string>>): Option<Process> {
    var (flagArgs, commandArgs) := SplitArgs(args);
    var parsed := ParseFlags(FLAGS, flagArgs);
    if parsed.Malformed? || (parsed.rest != [] && parsed.rest[0] in SUBCOMMANDS) then None
    else FromAssigns(parsed.assigns, commandArgs, platform)
  }

  // strconv.ParseBool on a text it accepts: the texts for true are those that do not start with 0, f or F.
  predicate Truth(text: string) {
    text != "" && text[0] !in {'0', 'f', 'F'}
  }

  predicate Switched(a: seq<Assign<Flag>>, f: Flag) {
    Truth(LastValue(a, f, "false"))
  }

  function FromAssigns(a: seq<Assign<Flag>>, commandArgs: seq<string>, platform: Option<seq<string>>): Option<Process> {
    var ep := LastValue(a, EntrypointFlag, "");
    if ep == "" && platform.None? then None
    else Some(Process(
      (if ep != "" then [ep] else platform.value) + commandArgs,
      Split(LastValue(a, WaitFile, ""), ','),
      Switched(a, WaitFileContent),
      LastValue(a, PostFile, ""),
      LastValue(a, TerminationPath, TERMINATION_PATH),
      LastValue(a, StepMetadataDir, ""),
      LastValue(a, OnError, ""),
      LastValue(a, Timeout, "0s"),
      LastValue(a, StdoutPath, ""),
      LastValue(a, StderrPath, ""),
      LastValue(a, WhenExpressions, ""),
      Split(LastValue(a, StepResults, ""), ','),
      Split(LastValue(a, Results, ""), ','),
      Switched(a, BreakpointOnFailure),
      Switched(a, DebugBeforeStep)))
  }
}

module CommandLineRoundTrip {
  import opened Wrappers
  import opened Text
  import opened Flags
  import opened CommandLine

  lemma FlagsCoherent()
    ensures Coherent(FLAGS)
  {
    forall f: Flag
      ensures FLAGS.lookup(FLAGS.name(f)) == Some(f) && PlainName(FLAGS.name(f))
    {
      NameIsPlain(f);
      LookupFindsName(f);
    }
  }

  // The flags of the protocol, as against those of the step's specification and the credentials.
  predicate Early(f: Flag) {
    f in {WaitFile, WaitFileContent, PostFile, TerminationPath, StepMetadataDir, OnError, Timeout, StdoutPath,
          StderrPath, StepResults}
  }

  lemma NameIsPlain(f: Flag)
    ensures PlainName(FlagName(f))
  {
    if Early(f) {
      EarlyNameIsPlain(f);
    } else {
      LateNameIsPlain(f);
    }
  }

  lemma EarlyNameIsPlain(f: Flag)
    requires Early(f)
    ensures PlainName(FlagName(f))
  {
  }

  lemma LateNameIsPlain(f: Flag)
    requires !Early(f)
    ensures PlainName(FlagName(f))
  {
  }

  lemma LookupFindsName(f: Flag)
    ensures LookupFlag(FlagName(f)) == Some(f)
  {
  }

  // ----- Which segment sets which flag -----

  function Owner(f: Flag): nat {
    match f
    case WaitFile | WaitFileContent => 0
    case PostFile | TerminationPath | StepMetadataDir => 1
    case OnError => 3
    case Timeout => 4
    case StdoutPath => 5
    case StderrPath => 6
    case StepResults => 7
    case WhenExpressions => 8
    case Results => 9
    case BreakpointOnFailure => 10
    case DebugBeforeStep => 11
    case EntrypointFlag => 12
    case _ => 2
  }

  // The extra flags are the credential, result extraction and spire flags.
  predicate ProperExtra(extra: seq<Item<Flag>>) {
    AllProper(FLAGS, extra) && forall k :: 0 <= k < |extra| ==> Owner(extra[k].flag) == 2
  }

  lemma SegmentOwned(o: Options, i: nat, c: Container, j: nat)
    requires ProperExtra(o.extra) && j < 13
    ensures AllProper(FLAGS, Segment(o, i, c, j))
    ensures forall k :: 0 <= k < |Segment(o, i, c, j)| ==> Owner(Segment(o, i, c, j)[k].flag) == j
  {
    if j < 3 {
      FirstSegmentsOwned(o, i, c, j);
    } else {
      OneFlagSegmentsOwned(o, i, c, j);
    }
  }

  lemma FirstSegmentsOwned(o: Options, i: nat, c: Container, j: nat)
    requires ProperExtra(o.extra) && j < 3
    ensures AllProper(FLAGS, Segment(o, i, c, j))
    ensures forall k :: 0 <= k < |Segment(o, i, c, j)| ==> Owner(Segment(o, i, c, j)[k].flag) == j
  {
  }

  lemma OneFlagSegmentsOwned(o: Options, i: nat, c: Container, j: nat)
    requires 3 <= j < 13
    ensures AllProper(FLAGS, Segment(o, i, c, j))
    ensures forall k :: 0 <= k < |Segment(o, i, c, j)| ==> Owner(Segment(o, i, c, j)[k].flag) == j
  {
    if j < 8 {
      TextSegmentsOwned(o, i, c, j);
    } else {
      LastSegmentsOwned(o, i, c, j);
    }
  }

  lemma TextSegmentsOwned(o: Options, i: nat, c: Container, j: nat)
    requires 3 <= j < 8
    ensures AllProper(FLAGS, Segment(o, i, c, j))
    ensures forall k :: 0 <= k < |Segment(o, i, c, j)| ==> Owner(Segment(o, i, c, j)[k].flag) == j
  {
  }

  lemma LastSegmentsOwned(o: Options, i: nat, c: Container, j: nat)
    requires 8 <= j < 13
    ensures AllProper(FLAGS, Segment(o, i, c, j))
    ensures forall k :: 0 <= k < |Segment(o, i, c, j)| ==> Owner(Segment(o, i, c, j)[k].flag) == j
  {
  }

  lemma SegmentsProper(o: Options, i: nat, c: Container)
    requires ProperExtra(o.extra)
    ensures AllProper(FLAGS, Flatten(Segments(o, i, c))) && Flatten(Segments(o, i, c)) != []
  {
    var segments := Segments(o, i, c);
    forall j | 0 <= j < |segments|
      ensures AllProper(FLAGS, segments[j])
    {
      SegmentOwned(o, i, c, j);
    }
    FlattenAll(FLAGS, segments);
    FlattenNonEmpty(segments, 1);
  }

  lemma {:induction false} FlattenNonEmpty<F>(segments: seq<seq<Item<F>>>, k: nat)
    requires k < |segments| && segments[k] != []
    ensures Flatten(segments) != []
  {
    if k > 0 {
      FlattenNonEmpty(segments[1..], k - 1);
    }
  }

  lemma FlagValue(o: Options, i: nat, c: Container, f: Flag, default: string)
    requires ProperExtra(o.extra)
    ensures LastValue(AssignsOf(Flatten(Segments(o, i, c))), f, default) ==
            LastValue(AssignsOf(Segments(o, i, c)[Owner(f)]), f, default)
  {
    forall j | 0 <= j < |Segments(o, i, c)| && j != Owner(f)
      ensures !Sets(Segments(o, i, c)[j], f)
    {
      SegmentOwned(o, i, c, j);
    }
    ValueInSegment(Segments(o, i, c), Owner(f), f, default);
  }

  // ----- The exact condition -----

  // No value that is printed after a flag is a bare "--".
  predicate NoBareTerminator(o: Options, i: nat, c: Container) {
    var step := SpecOf(o, i);
    && NoneHides(o.extra)
    && step.onError != TERMINATOR && step.timeout != Some(TERMINATOR)
    && step.stdoutPath != Some(TERMINATOR) && step.stderrPath != Some(TERMINATOR)
    && Join(step.results, ',') != TERMINATOR && step.when != Some(TERMINATOR)
    && Join(ResultNames(TaskResults(o)), ',') != TERMINATOR
    && (c.command != [] ==> c.command[0] != TERMINATOR)
  }

  lemma PathIsNoTerminator(i: nat, leaf: string)
    ensures RunPath(i, leaf) != TERMINATOR
  {
    assert RunPath(i, leaf)[0] == '/';
  }

  predicate SegmentClean(o: Options, i: nat, c: Container, j: nat) {
    NoneHides(Segment(o, i, c, j))
  }

  lemma ProtocolSegmentsClean(o: Options, i: nat, c: Container)
    ensures SegmentClean(o, i, c, 0) && SegmentClean(o, i, c, 1)
    ensures SegmentClean(o, i, c, 10) && SegmentClean(o, i, c, 11)
  {
    PathIsNoTerminator(i, "out");
    PathIsNoTerminator(i, "status");
    if i > 0 {
      PathIsNoTerminator(i - 1, "out");
    }
  }

  lemma SpecSegmentsClean(o: Options, i: nat, c: Container)
    ensures SegmentClean(o, i, c, 3) <==> SpecOf(o, i).onError != TERMINATOR
    ensures SegmentClean(o, i, c, 4) <==> SpecOf(o, i).timeout != Some(TERMINATOR)
    ensures SegmentClean(o, i, c, 5) <==> SpecOf(o, i).stdoutPath != Some(TERMINATOR)
    ensures SegmentClean(o, i, c, 6) <==> SpecOf(o, i).stderrPath != Some(TERMINATOR)
  {
    var step := SpecOf(o, i);
    Lone(Plain(OnError, step.onError));
    if step.timeout.Some? { Lone(Plain(Timeout, step.timeout.value)); }
    if step.stdoutPath.Some? { Lone(Plain(StdoutPath, step.stdoutPath.value)); }
    if step.stderrPath.Some? { Lone(Plain(StderrPath, step.stderrPath.value)); }
  }

  lemma NamesSegmentsClean(o: Options, i: nat, c: Container)
    ensures SegmentClean(o, i, c, 7) <==> Join(SpecOf(o, i).results, ',') != TERMINATOR
    ensures SegmentClean(o, i, c, 9) <==> Join(ResultNames(TaskResults(o)), ',') != TERMINATOR
  {
    Lone(Plain(StepResults, Join(SpecOf(o, i).results, ',')));
    Lone(Plain(Results, Join(ResultNames(TaskResults(o)), ',')));
  }

  lemma ResultSegmentsClean(o: Options, i: nat, c: Container)
    ensures SegmentClean(o, i, c, 7) <==> Join(SpecOf(o, i).results, ',') != TERMINATOR
    ensures SegmentClean(o, i, c, 8) <==> SpecOf(o, i).when != Some(TERMINATOR)
    ensures SegmentClean(o, i, c, 9) <==> Join(ResultNames(TaskResults(o)), ',') != TERMINATOR
    ensures SegmentClean(o, i, c, 12) <==> (c.command != [] ==> c.command[0] != TERMINATOR)
  {
    var step := SpecOf(o, i);
    NamesSegmentsClean(o, i, c);
    if step.when.Some? { Lone(Pair("--", WhenExpressions, step.when.value)); }
    if c.command != [] { Lone(Plain(EntrypointFlag, c.command[0])); }
  }

  lemma Lone(it: Item<Flag>)
    ensures NoneHides([it]) <==> !HidesTerminator(it)
  {
    assert [it][0] == it;
  }

  lemma CleanSegments(o: Options, i: nat, c: Container, j: nat)
    requires NoBareTerminator(o, i, c) && j < 13
    ensures SegmentClean(o, i, c, j)
  {
    ProtocolSegmentsClean(o, i, c);
    SpecSegmentsClean(o, i, c);
    ResultSegmentsClean(o, i, c);
  }

  lemma AllSegmentsClean(o: Options, i: nat, c: Container)
    requires forall j :: 0 <= j < 13 ==> SegmentClean(o, i, c, j)
    ensures NoBareTerminator(o, i, c)
  {
    assert SegmentClean(o, i, c, 2);
    SpecSegmentsClean(o, i, c);
    ResultSegmentsClean(o, i, c);
  }

  lemma CleanIff(o: Options, i: nat, c: Container)
    ensures NoneHides(Flatten(Segments(o, i, c))) <==> NoBareTerminator(o, i, c)
  {
    var segments := Segments(o, i, c);
    FlattenAll(FLAGS, segments);
    if NoBareTerminator(o, i, c) {
      forall j | 0 <= j < |segments|
        ensures NoneHides(segments[j])
      {
        CleanSegments(o, i, c, j);
      }
    }
    if NoneHides(Flatten(segments)) {
      forall j | 0 <= j < 13
        ensures SegmentClean(o, i, c, j)
      {
        assert NoneHides(segments[j]);
      }
      AllSegmentsClean(o, i, c);
    }
  }

  // ----- Reading the flags back -----

  function AllAssigns(o: Options, i: nat, c: Container): seq<Assign<Flag>> {
    AssignsOf(Flatten(Segments(o, i, c)))
  }

  lemma LoneValue(it: Item<Flag>, f: Flag, default: string)
    ensures LastValue(AssignsOf([it]), f, default) == if it.flag == f then AssignOf(it).value else default
  {
    assert AssignsOf([it]) == [AssignOf(it)] + AssignsOf([it][1..]);
    assert [AssignOf(it)][..0] == [];
  }

  // The file step i waits for; "" when it starts at once.
  function WaitPath(i: nat, waitForReady: bool): string {
    if i > 0 then OutPath(i - 1) else if waitForReady then READY_FILE else ""
  }

  lemma WaitValues(o: Options, i: nat, c: Container)
    requires ProperExtra(o.extra)
    ensures LastValue(AllAssigns(o, i, c), WaitFile, "") == WaitPath(i, o.waitForReady)
    ensures LastValue(AllAssigns(o, i, c), WaitFileContent, "false") ==
            if i == 0 && o.waitForReady then "true" else "false"
  {
    FlagValue(o, i, c, WaitFile, "");
    FlagValue(o, i, c, WaitFileContent, "false");
    if i > 0 {
      LoneValue(Plain(WaitFile, OutPath(i - 1)), WaitFile, "");
      LoneValue(Plain(WaitFile, OutPath(i - 1)), WaitFileContent, "false");
    } else if o.waitForReady {
      var assigns := AssignsOf(WaitItems(i, o.waitForReady));
      assert WaitItems(i, o.waitForReady) == [Plain(WaitFile, READY_FILE)] + [Switch(WaitFileContent)];
      AssignsConcat([Plain(WaitFile, READY_FILE)], [Switch(WaitFileContent)]);
      TwoValues(Plain(WaitFile, READY_FILE), Switch(WaitFileContent), WaitFile, "");
      TwoValues(Plain(WaitFile, READY_FILE), Switch(WaitFileContent), WaitFileContent, "false");
    }
  }

  lemma TwoValues(it: Item<Flag>, next: Item<Flag>, f: Flag, default: string)
    ensures LastValue(AssignsOf([it, next]), f, default) ==
              if next.flag == f then AssignOf(next).value else if it.flag == f then AssignOf(it).value else default
  {
    assert [it, next] == [it] + [next];
    AssignsConcat([it], [next]);
    LoneValue(it, f, default);
    LoneValue(next, f, LastValue(AssignsOf([it]), f, default));
    LastValueConcat(AssignsOf([it]), AssignsOf([next]), f, default);
  }

  lemma PostValues(o: Options, i: nat, c: Container)
    requires ProperExtra(o.extra)
    ensures LastValue(AllAssigns(o, i, c), PostFile, "") == OutPath(i)
    ensures LastValue(AllAssigns(o, i, c), TerminationPath, TERMINATION_PATH) == TERMINATION_PATH
    ensures LastValue(AllAssigns(o, i, c), StepMetadataDir, "") == RunPath(i, "status")
  {
    var first := Plain(PostFile, OutPath(i));
    var rest := [Plain(TerminationPath, TERMINATION_PATH), Plain(StepMetadataDir, RunPath(i, "status"))];
    assert PostItems(i) == [first] + rest;
    AssignsConcat([first], rest);
    FlagValue(o, i, c, PostFile, "");
    FlagValue(o, i, c, TerminationPath, TERMINATION_PATH);
    FlagValue(o, i, c, StepMetadataDir, "");
    forall f: Flag, default: string
      ensures LastValue(AssignsOf(PostItems(i)), f, default) ==
              LastValue(AssignsOf(rest), f, LastValue(AssignsOf([first]), f, default))
    {
      LastValueConcat(AssignsOf([first]), AssignsOf(rest), f, default);
    }
    LoneValue(first, PostFile, "");
    TwoValues(rest[0], rest[1], PostFile, OutPath(i));
    TwoValues(rest[0], rest[1], TerminationPath, LastValue(AssignsOf([first]), TerminationPath, TERMINATION_PATH));
    TwoValues(rest[0], rest[1], StepMetadataDir, LastValue(AssignsOf([first]), StepMetadataDir, ""));
  }

  function Or(value: Option<string>, default: string): string {
    if value.Some? then value.value else default
  }

  // A flag whose segment is at most one item of that flag.
  lemma OnValue(o: Options, i: nat, c: Container, f: Flag, on: bool, it: Item<Flag>, default: string)
    requires ProperExtra(o.extra) && it.flag == f && Segment(o, i, c, Owner(f)) == On(on, it)
    ensures LastValue(AllAssigns(o, i, c), f, default) == if on then AssignOf(it).value else default
  {
    FlagValue(o, i, c, f, default);
    if on {
      LoneValue(it, f, default);
    }
  }

  lemma GivenValue(o: Options, i: nat, c: Container, f: Flag, value: Option<string>, default: string)
    requires ProperExtra(o.extra) && Segment(o, i, c, Owner(f)) == Given(f, value)
    ensures LastValue(AllAssigns(o, i, c), f, default) == Or(value, default)
  {
    OnValue(o, i, c, f, value.Some?, Plain(f, if value.Some? then value.value else ""), default);
  }

  lemma SpecValues(o: Options, i: nat, c: Container)
    requires ProperExtra(o.extra)
    ensures var a, step := AllAssigns(o, i, c), SpecOf(o, i);
            && LastValue(a, OnError, "") == step.onError
            && LastValue(a, Timeout, "0s") == Or(step.timeout, "0s")
            && LastValue(a, StdoutPath, "") == Or(step.stdoutPath, "")
            && LastValue(a, StderrPath, "") == Or(step.stderrPath, "")
            && LastValue(a, WhenExpressions, "") == Or(step.when, "")
  {
    var step := SpecOf(o, i);
    OnValue(o, i, c, OnError, step.onError != "", Plain(OnError, step.onError), "");
    GivenValue(o, i, c, Timeout, step.timeout, "0s");
    StreamValues(o, i, c);
    OnValue(o, i, c, WhenExpressions, step.when.Some?, Pair("--", WhenExpressions, Or(step.when, "")), "");
  }

  lemma StreamValues(o: Options, i: nat, c: Container)
    requires ProperExtra(o.extra)
    ensures var a, step := AllAssigns(o, i, c), SpecOf(o, i);
            && LastValue(a, StdoutPath, "") == Or(step.stdoutPath, "")
            && LastValue(a, StderrPath, "") == Or(step.stderrPath, "")
  {
    GivenValue(o, i, c, StdoutPath, SpecOf(o, i).stdoutPath, "");
    GivenValue(o, i, c, StderrPath, SpecOf(o, i).stderrPath, "");
  }

  lemma NamesValue(o: Options, i: nat, c: Container, f: Flag, names: seq<string>, text: string)
    requires ProperExtra(o.extra) && text == Join(names, ',')
    requires Segment(o, i, c, Owner(f)) == On(names != [], Plain(f, text))
    ensures LastValue(AllAssigns(o, i, c), f, "") == text
  {
    OnValue(o, i, c, f, names != [], Plain(f, text), "");
  }

  lemma StepNamesValue(o: Options, i: nat, c: Container)
    requires ProperExtra(o.extra)
    ensures LastValue(AllAssigns(o, i, c), StepResults, "") == Join(SpecOf(o, i).results, ',')
  {
    NamesValue(o, i, c, StepResults, SpecOf(o, i).results, Join(SpecOf(o, i).results, ','));
  }

  lemma TaskNamesValue(o: Options, i: nat, c: Container)
    requires ProperExtra(o.extra)
    ensures LastValue(AllAssigns(o, i, c), Results, "") == Join(ResultNames(TaskResults(o)), ',')
  {
    var all := Join(ResultNames(TaskResults(o)), ',');
    OnValue(o, i, c, Results, TaskResults(o) != [], Plain(Results, all), "");
  }

  lemma ResultValues(o: Options, i: nat, c: Container)
    requires ProperExtra(o.extra)
    ensures var a := AllAssigns(o, i, c);
            && LastValue(a, StepResults, "") == Join(SpecOf(o, i).results, ',')
            && LastValue(a, Results, "") == Join(ResultNames(TaskResults(o)), ',')
  {
    StepNamesValue(o, i, c);
    TaskNamesValue(o, i, c);
  }

  lemma SwitchValues(o: Options, i: nat, c: Container)
    requires ProperExtra(o.extra)
    ensures var a := AllAssigns(o, i, c);
            && LastValue(a, BreakpointOnFailure, "false") == (if o.breakpoints.onFailure then "true" else "false")
            && LastValue(a, DebugBeforeStep, "false") ==
               (if c.name in o.breakpoints.beforeSteps then "true" else "false")
            && LastValue(a, EntrypointFlag, "") == (if c.command != [] then c.command[0] else "")
  {
    SwitchValue(o, i, c, BreakpointOnFailure, o.breakpoints.onFailure);
    SwitchValue(o, i, c, DebugBeforeStep, c.name in o.breakpoints.beforeSteps);
    EntrypointValue(o, i, c);
  }

  lemma SwitchValue(o: Options, i: nat, c: Container, f: Flag, on: bool)
    requires ProperExtra(o.extra) && Segment(o, i, c, Owner(f)) == On(on, Switch(f))
    ensures LastValue(AllAssigns(o, i, c), f, "false") == if on then "true" else "false"
  {
    OnValue(o, i, c, f, on, Switch(f), "false");
  }

  lemma EntrypointValue(o: Options, i: nat, c: Container)
    requires ProperExtra(o.extra)
    ensures LastValue(AllAssigns(o, i, c), EntrypointFlag, "") == if c.command != [] then c.command[0] else ""
  {
    var entrypoint := if c.command != [] then c.command[0] else "";
    OnValue(o, i, c, EntrypointFlag, c.command != [], Plain(EntrypointFlag, entrypoint), "");
  }

  // ----- The round trip -----

  // strings.Split of an empty flag gives one empty name.
  function NamesBack(names: seq<string>): seq<string> {
    if names == [] then [""] else names
  }

  lemma NamesRoundTrip(names: seq<string>)
    requires AllFree(names, ',')
    ensures Split(Join(names, ','), ',') == NamesBack(names)
  {
    if names != [] {
      SplitJoin(names, ',');
    }
  }

  lemma WaitPathRoundTrip(i: nat, waitForReady: bool)
    ensures Split(WaitPath(i, waitForReady), ',') == [WaitPath(i, waitForReady)]
  {
    assert Free(WaitPath(i, waitForReady), ',') by {
      if i > 0 {
        var n := Numeral(i - 1);
        assert Free("/tekton/run/", ',') && Free(n, ',') && Free("/", ',') && Free("out", ',');
      }
    }
    SplitFree(WaitPath(i, waitForReady), ',');
  }

  // The process that step i's container is meant to become.
  function Intended(o: Options, i: nat, c: Container, command: seq<string>): Process {
    var step := SpecOf(o, i);
    Process(command, [WaitPath(i, o.waitForReady)], i == 0 && o.waitForReady, OutPath(i), TERMINATION_PATH,
            RunPath(i, "status"), step.onError, Or(step.timeout, "0s"), Or(step.stdoutPath, ""),
            Or(step.stderrPath, ""),
            Or(step.when, ""), NamesBack(step.results), NamesBack(ResultNames(TaskResults(o))),
            o.breakpoints.onFailure, c.name in o.breakpoints.beforeSteps)
  }

  lemma ListsBack(o: Options, i: nat, c: Container)
    requires ProperExtra(o.extra) && AllFree(SpecOf(o, i).results, ',') && AllFree(ResultNames(TaskResults(o)), ',')
    ensures var a := AllAssigns(o, i, c);
            && Split(LastValue(a, WaitFile, ""), ',') == [WaitPath(i, o.waitForReady)]
            && Split(LastValue(a, StepResults, ""), ',') == NamesBack(SpecOf(o, i).results)
            && Split(LastValue(a, Results, ""), ',') == NamesBack(ResultNames(TaskResults(o)))
  {
    WaitValues(o, i, c);
    ResultValues(o, i, c);
    NamesRoundTrip(SpecOf(o, i).results);
    NamesRoundTrip(ResultNames(TaskResults(o)));
    WaitPathRoundTrip(i, o.waitForReady);
  }

  lemma SwitchesBack(o: Options, i: nat, c: Container)
    requires ProperExtra(o.extra)
    ensures var a := AllAssigns(o, i, c);
            && (Switched(a, WaitFileContent) <==> i == 0 && o.waitForReady)
            && (Switched(a, BreakpointOnFailure) <==> o.breakpoints.onFailure)
            && (Switched(a, DebugBeforeStep) <==> c.name in o.breakpoints.beforeSteps)
            && LastValue(a, EntrypointFlag, "") == (if c.command != [] then c.command[0] else "")
  {
    WaitValues(o, i, c);
    SwitchValues(o, i, c);
  }

  // The command the process runs: the container's, or without one the platform's.
  function Program(c: Container, platform: Option<seq<string>>): Option<seq<string>> {
    if c.command != [] && c.command[0] != "" then Some(c.command + c.args)
    else if platform.Some? then Some(platform.value + Tail(c))
    else None
  }

  lemma ProgramIs(c: Container, platform: Option<seq<string>>)
    ensures var ep := if c.command != [] then c.command[0] else "";
      Program(c, platform) ==
        if ep == "" && platform.None? then None else Some((if ep != "" then [ep] else platform.value) + Tail(c))
  {
    if c.command != [] {
      assert [c.command[0]] + Tail(c) == c.command + c.args;
    }
  }

  lemma ReadBack(o: Options, i: nat, c: Container, platform: Option<seq<string>>)
    requires ProperExtra(o.extra) && AllFree(SpecOf(o, i).results, ',') && AllFree(ResultNames(TaskResults(o)), ',')
    ensures var program := Program(c, platform);
      FromAssigns(AllAssigns(o, i, c), Tail(c), platform) ==
        if program.None? then None else Some(Intended(o, i, c, program.value))
  {
    ProgramIs(c, platform);
    ListsBack(o, i, c);
    SwitchesBack(o, i, c);
    PostValues(o, i, c);
    SpecValues(o, i, c);
  }

  /**
   For every step with comma-free result names: the entrypoint reads back exactly the command, arguments, files and
   settings that orderContainers printed, if and only if no flag value is a bare "--"; otherwise it refuses to start.
   In place of a missing or empty command stands the platform's; without that the entrypoint refuses too.
   */
  lemma DecodedIff(o: Options, i: nat, c: Container, platform: Option<seq<string>>)
    requires ProperExtra(o.extra) && AllFree(SpecOf(o, i).results, ',') && AllFree(ResultNames(TaskResults(o)), ',')
    ensures var program := Program(c, platform);
      Decode(OrderedArgs(o, i, c), platform) ==
        if NoBareTerminator(o, i, c) && program.Some? then Some(Intended(o, i, c, program.value)) else None
  {
    FlagsCoherent();
    SegmentsProper(o, i, c);
    CleanIff(o, i, c);
    SplitPrinted(FLAGS, Flatten(Segments(o, i, c)), Tail(c));
    ReadBack(o, i, c, platform);
  }

  /** In particular for every step with a command. */
  lemma RoundTrip(o: Options, i: nat, c: Container, platform: Option<seq<string>>)
    requires ProperExtra(o.extra) && AllFree(SpecOf(o, i).results, ',') && AllFree(ResultNames(TaskResults(o)), ',')
    requires c.command != [] && c.command[0] != ""
    ensures Decode(OrderedArgs(o, i, c), platform) ==
              if NoBareTerminator(o, i, c) then Some(Intended(o, i, c, c.command + c.args)) else None
  {
    DecodedIff(o, i, c, platform);
  }

  /** A step whose command is a bare "--" does not start, whatever else it declares. */
  lemma BareCommandRefused(o: Options, i: nat, c: Container, platform: Option<seq<string>>)
    requires ProperExtra(o.extra) && AllFree(SpecOf(o, i).results, ',') && AllFree(ResultNames(TaskResults(o)), ',')
    requires c.command == ["--"]
    ensures Decode(OrderedArgs(o, i, c), platform) == None
  {
    RoundTrip(o, i, c, platform);
  }
}
