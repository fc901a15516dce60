/**
 Start, Stop and Status of internal/program/manager.go. Each is a straight-line
 sequence of OS calls with early returns. The answers the operating system
 gives are the oracle values of an `Env`; each operation returns the OS calls
 it made, in order, and the outcome it reports (the log line it reaches).
 */
module Manager {
  import opened GoStrings
  import opened FilePath
  import opened Matcher

  datatype Option<T> = None | Some(value: T)

  /** What os.Stat reported: success, an error os.IsNotExist accepts, or any other error. */
  datatype StatResult = Present | NotExist | StatError

  /** Where a child's standard output or standard error goes: nowhere set, or the logger's output. */
  datatype Sink = Unset | LogOutput

  /** One call into the operating system. */
  datatype OsCall =
    | Abs(path: string)                                           // filepath.Abs
    | Stat(path: string)                                          // os.Stat
    | Pgrep(pattern: string)                                      // pgrep -fl <pattern>
    | Spawn(dir: string, name: string, stdout: Sink, stderr: Sink) // exec.Cmd.Start
    | Pkill(pattern: string)                                      // pkill -f <pattern>

  /** The answers of the operating system during one invocation. */
  datatype Env = Env(
    abs: Option<string>,   // filepath.Abs: the absolute path, or None on error
    stat: StatResult,      // os.Stat of that path
    pgrep: PgrepRun,       // the pgrep run made by isRunning
    currentPID: int,       // os.Getpid
    spawnOk: bool,         // whether exec.Cmd.Start succeeded
    pkillOk: bool)         // whether pkill ran without error

  /** The outcomes Start can log. */
  datatype StartOutcome = PathError | NotFound | StartQueryError | AlreadyRunning | SpawnError | Started

  /** The outcomes Stop can log. */
  datatype StopOutcome = StopQueryError | NotRunning | SignalError | Stopped

  /** The outcomes Status can log. */
  datatype StatusOutcome = StatusQueryError | ReportRunning | ReportNotRunning

  predicate Spawns(calls: seq<OsCall>) {
    exists i :: 0 <= i < |calls| && calls[i].Spawn?
  }

  predicate Signals(calls: seq<OsCall>) {
    exists i :: 0 <= i < |calls| && calls[i].Pkill?
  }

  /** Every pgrep call comes after a stat call. */
  predicate StatBeforePgrep(calls: seq<OsCall>) {
    forall i :: 0 <= i < |calls| && calls[i].Pgrep? ==> exists j :: 0 <= j < i && calls[j].Stat?
  }

  /** exec.Cmd: the program to run and the fields Start sets before starting it. */
  class Command {
    const name: string
    var dir: string
    var stdout: Sink
    var stderr: Sink

    /** exec.Command(name): no working directory and no output sinks yet. */
    constructor (name: string)
      ensures this.name == name && dir == "" && stdout == Unset && stderr == Unset
    {
      this.name := name;
      dir := "";
      stdout := Unset;
      stderr := Unset;
    }
  }

  /** Start: resolve the path, stop if the file does not exist, stop if the
      program named by the last path element is already running (or the check
      fails), otherwise spawn `./<name>` in the program's directory with its
      output sent to the logger. */
  method Start(path: string, env: Env) returns (calls: seq<OsCall>, outcome: StartOutcome)
    requires env.abs.Some? ==> IsCleanAbs(env.abs.value)
    ensures |calls| >= 1 && calls[0] == Abs(path)
    ensures !Signals(calls)
    ensures StatBeforePgrep(calls)
    ensures outcome == PathError <==> env.abs.None?
    ensures outcome == PathError ==> calls == [Abs(path)]
    ensures env.abs.Some? ==> |calls| >= 2 && calls[1] == Stat(env.abs.value)
    ensures outcome == NotFound <==> env.abs.Some? && env.stat == NotExist
    ensures outcome == NotFound ==> calls == [Abs(path), Stat(env.abs.value)]
    ensures env.abs.Some? && env.stat != NotExist ==>
      |calls| >= 3 && calls[2] == Pgrep(Base(env.abs.value))
    ensures outcome == StartQueryError <==>
      env.abs.Some? && env.stat != NotExist && Running(env.pgrep, Base(env.abs.value), env.currentPID).failed
    ensures outcome == AlreadyRunning <==>
      env.abs.Some? && env.stat != NotExist && Running(env.pgrep, Base(env.abs.value), env.currentPID).running
    ensures Spawns(calls) <==>
      env.abs.Some? && env.stat != NotExist &&
      Running(env.pgrep, Base(env.abs.value), env.currentPID) == Query(false, false)
    ensures outcome == StartQueryError || outcome == AlreadyRunning ==>
      calls == [Abs(path), Stat(env.abs.value), Pgrep(Base(env.abs.value))]
    ensures Spawns(calls) ==>
      calls == [Abs(path), Stat(env.abs.value), Pgrep(Base(env.abs.value)),
                Spawn(Dir(env.abs.value), "./" + Base(env.abs.value), LogOutput, LogOutput)]
    ensures outcome == Started <==> Spawns(calls) && env.spawnOk
    ensures outcome == SpawnError <==> Spawns(calls) && !env.spawnOk
  {
    calls := [Abs(path)];
    if env.abs.None? {
      return calls, PathError;
    }
    var absPath := env.abs.value;
    calls := calls + [Stat(absPath)];
    if env.stat == NotExist {
      return calls, NotFound;
    }
    var workDir := Dir(absPath);
    var program := Base(absPath);
    var cmd := new Command("./" + program);
    calls := calls + [Pgrep(program)];
    var running, failed := IsRunning(program, env.pgrep, env.currentPID);
    assert calls[1].Stat? && calls[2].Pgrep?;
    if failed {
      return calls, StartQueryError;
    }
    if running {
      return calls, AlreadyRunning;
    }
    cmd.dir := workDir;
    cmd.stdout := LogOutput;
    cmd.stderr := LogOutput;
    calls := calls + [Spawn(cmd.dir, cmd.name, cmd.stdout, cmd.stderr)];
    assert calls[1].Stat? && calls[3].Spawn?;
    if !env.spawnOk {
      return calls, SpawnError;
    }
    return calls, Started;
  }

  /** Stop: when the program is running, signal every process whose command line matches it. */
  method Stop(program: string, env: Env) returns (calls: seq<OsCall>, outcome: StopOutcome)
    ensures |calls| >= 1 && calls[0] == Pgrep(program)
    ensures !Spawns(calls)
    ensures Signals(calls) <==> Running(env.pgrep, program, env.currentPID) == Query(true, false)
    ensures Signals(calls) ==> calls == [Pgrep(program), Pkill(program)]
    ensures !Signals(calls) ==> calls == [Pgrep(program)]
    ensures outcome == StopQueryError <==> Running(env.pgrep, program, env.currentPID).failed
    ensures outcome == NotRunning <==> Running(env.pgrep, program, env.currentPID) == Query(false, false)
    ensures outcome == Stopped <==> Signals(calls) && env.pkillOk
    ensures outcome == SignalError <==> Signals(calls) && !env.pkillOk
  {
    calls := [Pgrep(program)];
    var running, failed := IsRunning(program, env.pgrep, env.currentPID);
    if failed {
      return calls, StopQueryError;
    }
    if !running {
      return calls, NotRunning;
    }
    calls := calls + [Pkill(program)];
    assert calls[1].Pkill?;
    if !env.pkillOk {
      return calls, SignalError;
    }
    return calls, Stopped;
  }

  /** Status: report whether the program is running; it never spawns or signals. */
  method Status(program: string, env: Env) returns (calls: seq<OsCall>, outcome: StatusOutcome)
    ensures calls == [Pgrep(program)]
    ensures !Spawns(calls) && !Signals(calls)
    ensures outcome == StatusQueryError <==> Running(env.pgrep, program, env.currentPID).failed
    ensures outcome == ReportRunning <==> Running(env.pgrep, program, env.currentPID).running
    ensures outcome == ReportNotRunning <==> Running(env.pgrep, program, env.currentPID) == Query(false, false)
  {
    calls := [Pgrep(program)];
    var running, failed := IsRunning(program, env.pgrep, env.currentPID);
    if failed {
      return calls, StatusQueryError;
    }
    if running {
      outcome := ReportRunning;
    } else {
      outcome := ReportNotRunning;
    }
  }

  // ---------------------------------------------------------------------------
  // Lemmas

  /** `./<name>` is a single field when the name has no white space. */
  lemma DotSlashIsWord(program: string)
    requires NoSpace(program)
    ensures IsWord("./" + program)
  {
    var s := "./" + program;
    forall i | 2 <= i < |s| ensures !IsSpace(s[i]) {
      assert s[i] == program[i - 2];
    }
  }

  /** Once the program Start spawned (`./<name>`, run from its directory, for a
      name without white space and whose `./<name>` does not mention both
      "ecctl" and "status") is listed by pgrep under a process id of two or
      more digits, the running
      check for `<name>` answers "running", so a second Start reports
      AlreadyRunning and spawns nothing, and Status reports ReportRunning. */
  lemma SpawnedChildIsSeen(lines: seq<string>, childPID: nat, program: string, currentPID: int)
    requires childPID >= 10
    requires IsSegment(program) && NoSpace(program)
    requires !(Contains("./" + program, "ecctl") && Contains("./" + program, "status"))
    requires forall i :: 0 <= i < |lines| ==> '\n' !in lines[i]
    requires Join([Decimal(childPID), "./" + program], " ") in lines
    ensures Running(Listed(Join(lines + [""], "\n")), program, currentPID) == Query(true, false)
  {
    var child := "./" + program;
    var ws := [Decimal(childPID), child];
    DotSlashIsWord(program);
    ContainsSuffix("./", program);
    assert ws[1..] == [child];
    assert Decimal(childPID) != RuneString(currentPID);
    LineOfWords(ws, program, currentPID);
    assert LineMatches(Join(ws, " "), program, currentPID);
    RunningOnLines(lines, program, currentPID);
  }

  /** When pgrep's listing shows the caller's own `<exe> start <path>` command
      line under whatever process id, the path names the program (as the path
      given to Start does), and the line does not mention "status", the running
      check answers
      "running": Start then reports AlreadyRunning and spawns nothing. */
  lemma StartSeesItself(lines: seq<string>, currentPID: nat, exe: string, path: string, program: string)
    requires IsWord(exe) && IsWord(path)
    requires Contains(path, program)
    requires !Contains(Join([exe, "start", path], " "), "status")
    requires forall i :: 0 <= i < |lines| ==> '\n' !in lines[i]
    requires Join([Decimal(currentPID), exe, "start", path], " ") in lines
    ensures Running(Listed(Join(lines + [""], "\n")), program, currentPID) == Query(true, false)
  {
    assert IsWord("start");
    OwnInvocationCountsAsRunning(currentPID, exe, "start", path, program);
    RunningOnLines(lines, program, currentPID);
    var k :| 0 <= k < |lines| && lines[k] == Join([Decimal(currentPID), exe, "start", path], " ");
    assert LineMatches(lines[k], program, currentPID);
  }
}
