/**
 The entrypoint binary that wraps every step: the poll that waits for the previous
 step, the body of one step's process, and the exit code its error becomes.
 Breakpoints and the before-step debugger are off throughout.
 */
module Entrypoint {
  import opened Wrappers
  import opened RunResults
  import opened Text

  // ----- Errors and what they turn into -----

  datatype GoError =
    | SkipError             // the previous step wrote its error file
    | StatError             // a stat failed with something other than not-exist
    | ContextCanceled
    | DeadlineExceeded
    | ExitError(status: int)  // wait status of the command; -1 when it was killed by a signal
    | OtherError

  // What Runner.Run may return for a command that ended.
  predicate RunOutcome(e: Option<GoError>) {
    match e
    case None => true
    case Some(ExitError(status)) => -1 <= status < 256 && status != 0
    case Some(ContextCanceled) | Some(DeadlineExceeded) | Some(OtherError) => true
    case _ => false
  }

  // Whether the post file carries the ".err" suffix, by the order of the cases in Go.
  predicate WritesErr(e: Option<GoError>, continueOnError: bool) {
    match e
    case None => false
    case Some(ContextCanceled) | Some(DeadlineExceeded) => true
    case Some(ExitError(_)) => !continueOnError
    case Some(_) => true
  }

  const SIGKILL := 9

  // The process exit code: os.Exit keeps the low eight bits of its argument.
  function ExitCode(e: Option<GoError>, continueOnError: bool): int {
    match e
    case None => 0
    case Some(ContextCanceled) => SIGKILL
    case Some(ExitError(status)) => if continueOnError then 0 else status % 256
    case Some(_) => 1
  }

  // The code a container is to exit with, in numbers: the command's own status, 255 for a command killed by a signal,
  // 9 for a cancelled step, 1 for any other error, and 0 for a tolerated failure.
  predicate ExitsWith(e: Option<GoError>, continueOnError: bool, code: int) {
    match e
    case None => code == 0
    case Some(ExitError(status)) => code == if continueOnError then 0 else if status == -1 then 255 else status
    case Some(ContextCanceled) => code == 9
    case Some(SkipError) | Some(StatError) | Some(DeadlineExceeded) | Some(OtherError) => code == 1
  }

  // A command that ended badly makes the container fail exactly when it makes the step write ".err", and which code it
  // fails with tells how the command ended.
  lemma ExitCodeAgreesWithPostFile(e: Option<GoError>, continueOnError: bool)
    requires RunOutcome(e) || e == Some(SkipError) || e == Some(StatError)
    ensures ExitCode(e, continueOnError) == 0 <==> !WritesErr(e, continueOnError)
    ensures 0 <= ExitCode(e, continueOnError) < 256
    ensures ExitsWith(e, continueOnError, ExitCode(e, continueOnError))
  {
    if e.Some? && e.value.ExitError? && !continueOnError {
      var status := e.value.status;
      assert status == -1 ==> status % 256 == 255;
      assert 0 < status < 256 ==> status % 256 == status;
    }
  }

  // ----- Waiting -----

  datatype Stat = Present(size: nat) | Absent | Failed

  datatype WaitResult = Passed | Bailed(error: GoError)

  // The stat of the awaited file: decisive, or go on to the ".err" file.
  function AfterPlain(st: Stat, expectContent: bool): Option<WaitResult> {
    match st
    case Present(size) => if !expectContent || size > 0 then Some(Passed) else None
    case Failed => Some(Bailed(StatError))
    case Absent => None
  }

  // The stat of the ".err" file: any failure of this one counts as absence.
  function AfterErr(st: Stat): Option<WaitResult> {
    if st.Present? then Some(Bailed(SkipError)) else None
  }

  datatype Context = Live | Canceled | TimedOut

  function AfterPause(ctx: Context): Option<WaitResult> {
    match ctx
    case Live => None
    case Canceled => Some(Bailed(ContextCanceled))
    case TimedOut => Some(Bailed(DeadlineExceeded))
  }

  // What one turn of the polling loop sees.
  datatype Probe = Probe(plain: Stat, err: Stat, ctx: Context)

  predicate Undecided(p: Probe, expectContent: bool) {
    AfterPlain(p.plain, expectContent).None? && AfterErr(p.err).None? && AfterPause(p.ctx).None?
  }

  /** The polling loop, fed with what its successive turns see. None: still polling. */
  method Wait(file: string, expectContent: bool, probes: seq<Probe>) returns (r: Option<WaitResult>)
    ensures file == "" ==> r == Some(Passed)
    ensures r.None? ==> forall k :: 0 <= k < |probes| ==> Undecided(probes[k], expectContent)
    // It polls on exactly while the file is not there, or empty where content is asked for, nothing says that the step
    // before failed, and nobody has called the wait off.
    ensures r.None? <==> file != "" && forall k :: 0 <= k < |probes| ==>
              && (probes[k].plain == Absent || (expectContent && probes[k].plain == Present(0)))
              && !probes[k].err.Present? && probes[k].ctx == Live
    ensures r == Some(Bailed(SkipError)) ==> exists k :: 0 <= k < |probes| && probes[k].err.Present?
    ensures r == Some(Bailed(StatError)) ==> exists k :: 0 <= k < |probes| && probes[k].plain == Failed
    ensures r == Some(Bailed(ContextCanceled)) ==> exists k :: 0 <= k < |probes| && probes[k].ctx == Canceled
    ensures r == Some(Bailed(DeadlineExceeded)) ==> exists k :: 0 <= k < |probes| && probes[k].ctx == TimedOut
    // The first turn that decides anything decides the outcome, and the awaited file is looked at first.
    ensures file != "" && r.Some? ==>
              exists k :: 0 <= k < |probes| && !Undecided(probes[k], expectContent)
                && (forall j :: 0 <= j < k ==> Undecided(probes[j], expectContent))
                && r == (if AfterPlain(probes[k].plain, expectContent).Some?
                         then AfterPlain(probes[k].plain, expectContent)
                         else if AfterErr(probes[k].err).Some? then AfterErr(probes[k].err)
                         else AfterPause(probes[k].ctx))
    ensures file != "" && r == Some(Passed) ==>
              exists k :: 0 <= k < |probes| && probes[k].plain.Present? && (expectContent ==> probes[k].plain.size > 0)
  {
    if file == "" {
      return Some(Passed);
    }
    var turn := 0;
    while turn < |probes|
      invariant 0 <= turn <= |probes|
      invariant forall k :: 0 <= k < turn ==> Undecided(probes[k], expectContent)
    {
      var probe := probes[turn];
      r := AfterPlain(probe.plain, expectContent);
      if r.Some? {
        return;
      }
      r := AfterErr(probe.err);
      if r.Some? {
        return;
      }
      r := AfterPause(probe.ctx);
      if r.Some? {
        return;
      }
      turn := turn + 1;
    }
    return None;
  }

  // ----- One step's process -----

  // The files a process writes, by path.
  class Disk {
    var files: map<string, string>

    method Write(path: string, content: string)
      modifies this
      ensures files == if path == "" then old(files) else old(files)[path := content]
    {
      if path != "" {
        files := files[path := content];
      }
    }
  }

  datatype WhenResult = WhenFailed | Allowed | Denied

  // What the calls out of Go return.
  datatype Calls = Calls(
    mkdirOk: bool,
    waits: seq<Option<GoError>>,   // one result per awaited file
    negativeTimeout: bool,
    allowExec: WhenResult,
    run: Option<GoError>,
    now: string)

  const SIGKILL_NAME := "killed"

  // The error of a process, in the order Go can meet one.
  function FirstWaitError(waits: seq<Option<GoError>>): (r: Option<GoError>)
    ensures r.None? <==> forall k :: 0 <= k < |waits| ==> waits[k].None?
    ensures r.Some? ==> r in waits
  {
    if waits == [] then None
    else if waits[0].Some? then waits[0]
    else FirstWaitError(waits[1..])
  }

  // How the calls decide the returned error and whether the command ran, once the directories are there.
  predicate GoOutcome(calls: Calls, err: Option<GoError>, ran: bool) {
    var waited := FirstWaitError(calls.waits);
    if waited.Some? then !ran && err == waited
    else if calls.negativeTimeout || calls.allowExec == WhenFailed then !ran && err == Some(OtherError)
    else if calls.allowExec == Denied then !ran && err == None
    else ran && err == calls.run
  }

  // What the exit code file says; None: it is not written.
  function ExitText(err: Option<GoError>, continueOnError: bool): Option<string> {
    match err
    case None => Some("0")
    case Some(ContextCanceled) => Some(SIGKILL_NAME)
    case Some(ExitError(status)) => if continueOnError then Some(Decimal(status)) else None
    case Some(_) => None
  }

  function WithFile(files: map<string, string>, path: string, text: Option<string>): map<string, string> {
    if text.Some? then files[path := text.value] else files
  }

  class Entrypointer {
    const waitFiles: seq<string>
    const postFile: string
    const metadataDir: string
    const onError: string
    const disk: Disk

    constructor (waitFiles: seq<string>, postFile: string, metadataDir: string, onError: string, disk: Disk)
      ensures this.waitFiles == waitFiles && this.postFile == postFile && this.metadataDir == metadataDir
      ensures this.onError == onError && this.disk == disk
    {
      this.waitFiles, this.postFile, this.metadataDir, this.onError, this.disk :=
        waitFiles, postFile, metadataDir, onError, disk;
    }

    function ExitCodeFile(): string {
      metadataDir + "/exitCode"
    }

    predicate ContinuesOnError() {
      onError == "continue"
    }

    method WritePostFile(e: Option<GoError>)
      modifies disk
      ensures disk.files == if postFile == "" then old(disk.files)
                            else old(disk.files)[(if e.Some? then postFile + ".err" else postFile) := ""]
    {
      var path := postFile;
      if e.Some? && path != "" {
        path := path + ".err";
      }
      if path != "" {
        disk.Write(path, "");
      }
    }

    /**
     Go: wait, run, post. At most one post file is written, its suffix is a function of the
     returned error, and the command runs only when every wait passed.
     */
    method Go(calls: Calls) returns (err: Option<GoError>, ran: bool, output: seq<RunResult>)
      requires |calls.waits| == |waitFiles| && RunOutcome(calls.run)
      // A wait without a deadline ends in one of these ways.
      requires forall k :: 0 <= k < |calls.waits| ==> calls.waits[k] in {None, Some(SkipError), Some(StatError)}
      modifies disk
      ensures !calls.mkdirOk ==> disk.files == old(disk.files) && err.Some? && !ran && output == []
      ensures calls.mkdirOk && postFile != "" ==>
                var post := if WritesErr(err, ContinuesOnError()) then postFile + ".err" else postFile;
                disk.files == WithFile(old(disk.files)[post := ""], ExitCodeFile(), ExitText(err, ContinuesOnError()))
      ensures ran ==> calls.mkdirOk && forall k :: 0 <= k < |calls.waits| ==> calls.waits[k].None?
      ensures calls.mkdirOk ==> GoOutcome(calls, err, ran)
      // The command runs exactly when nothing stands against it; when expressions that say no are no error.
      ensures ran <==> calls.mkdirOk && !calls.negativeTimeout && calls.allowExec == Allowed
                       && forall k :: 0 <= k < |calls.waits| ==> calls.waits[k].None?
      ensures ran ==> err == calls.run
      ensures !ran && err == None <==> calls.mkdirOk && !calls.negativeTimeout && calls.allowExec == Denied
                                       && forall k :: 0 <= k < |calls.waits| ==> calls.waits[k].None?
      // The termination message starts with the start time, and says why a step did not run.
      ensures calls.mkdirOk ==> 0 < |output| && output[0] == Internal("StartedAt", calls.now)
      ensures Internal("Reason", "Skipped") in output <==>
                calls.mkdirOk && !ran && (err == Some(SkipError) || err == None)
      // The exit code file says 0 for a step without an error, also one that was skipped, "killed" for a cancelled one,
      // and the command's status for a tolerated failure; for any other error it is not written.
      ensures calls.mkdirOk && postFile != "" && err == None ==>
                metadataDir + "/exitCode" in disk.files && disk.files[metadataDir + "/exitCode"] == "0"
      ensures calls.mkdirOk && postFile != "" && err == Some(ContextCanceled) ==>
                metadataDir + "/exitCode" in disk.files && disk.files[metadataDir + "/exitCode"] == "killed"
      ensures forall status ::
                calls.mkdirOk && postFile != "" && onError == "continue" && err == Some(ExitError(status)) ==>
                  && metadataDir + "/exitCode" in disk.files
                  && disk.files[metadataDir + "/exitCode"] == Decimal(status)
      ensures calls.mkdirOk && postFile != "" && err.Some? && err != Some(ContextCanceled)
              && !(onError == "continue" && err.value.ExitError?) ==>
                disk.files == old(disk.files)[postFile + ".err" := ""]
      ensures ran && err == Some(ContextCanceled) ==> Internal("Reason", "Cancelled") in output
      ensures ran && err == Some(DeadlineExceeded) ==> Internal("Reason", "TimeoutExceeded") in output
      // A tolerated failure reports the command's own exit status.
      ensures forall status :: ran && ContinuesOnError() && err == Some(ExitError(status)) ==>
                Internal("ExitCode", Decimal(status)) in output
    {
      output := [];
      ran := false;
      if !calls.mkdirOk {
        return Some(OtherError), false, [];
      }
      for k := 0 to |waitFiles|
        invariant disk.files == old(disk.files) && output == [] && !ran
        invariant forall j :: 0 <= j < k ==> calls.waits[j].None?
      {
        if calls.waits[k].Some? {
          FirstAtIndex(calls.waits, k);
          WritePostFile(calls.waits[k]);
          output := output + [Internal("StartedAt", calls.now)];
          if calls.waits[k] == Some(SkipError) {
            output := output + [Internal("Reason", "Skipped")];
          }
          return calls.waits[k], false, output;
        }
      }
      output := output + [Internal("StartedAt", calls.now)];
      err := None;
      if calls.negativeTimeout {
        err := Some(OtherError);
      }
      if err.None? {
        match calls.allowExec {
          case WhenFailed =>
            err := Some(OtherError);
          case Allowed =>
            ran := true;
            err := calls.run;
          case Denied =>
            output := output + [Internal("Reason", "Skipped")];
            WritePostFile(None);
            disk.Write(ExitCodeFile(), "0");
            return None, false, output;
        }
      }
      if err == Some(ContextCanceled) {
        output := output + [Internal("Reason", "Cancelled")];
        WritePostFile(err);
        disk.Write(ExitCodeFile(), SIGKILL_NAME);
      } else if err == Some(DeadlineExceeded) {
        WritePostFile(err);
        output := output + [Internal("Reason", "TimeoutExceeded")];
      } else if ContinuesOnError() && err.Some? && err.value.ExitError? {
        output := output + [Internal("ExitCode", Decimal(err.value.status))];
        WritePostFile(None);
        disk.Write(ExitCodeFile(), Decimal(err.value.status));
      } else if err.None? {
        WritePostFile(None);
        disk.Write(ExitCodeFile(), "0");
      } else {
        WritePostFile(err);
      }
    }
  }

  lemma {:induction false} FirstAtIndex(waits: seq<Option<GoError>>, k: nat)
    requires k < |waits| && waits[k].Some? && forall j :: 0 <= j < k ==> waits[j].None?
    ensures FirstWaitError(waits) == waits[k]
  {
    if k > 0 {
      FirstAtIndex(waits[1..], k - 1);
    }
  }
}
