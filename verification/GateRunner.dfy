/** Hard gates: commands run one after the other or all at once (loop-modules/gate-runner.ts). Durations are left
    out. */
module GateRunner {

  datatype CommandResult = CommandResult(command: string, passed: bool, exitCode: int, stdout: string, stderr: string)

  datatype GateResult = GateResult(passed: bool, command: string, exitCode: int, stdout: string, stderr: string,
                                   details: seq<CommandResult>)

  /** What running the command at each position comes to; the same command can come to something else the second
      time. */
  type Exec = (nat, string) -> CommandResult

  function Results(commands: seq<string>, exec: Exec): (r: seq<CommandResult>)
    ensures |r| == |commands| && forall k :: 0 <= k < |r| ==> r[k] == exec(k, commands[k])
  {
    if commands == [] then []
    else Results(commands[..|commands| - 1], exec) + [exec(|commands| - 1, commands[|commands| - 1])]
  }

  predicate AllPass(commands: seq<string>, exec: Exec) {
    forall k :: 0 <= k < |commands| ==> exec(k, commands[k]).passed
  }

  /** The index of the first command that fails, or the number of commands. */
  function FirstFailure(commands: seq<string>, exec: Exec, from: nat := 0): (k: nat)
    requires from <= |commands|
    ensures from <= k <= |commands|
    ensures k < |commands| ==> !exec(k, commands[k]).passed
    ensures forall j :: from <= j < k ==> exec(j, commands[j]).passed
    decreases |commands| - from
  {
    if from == |commands| || !exec(from, commands[from]).passed then from else FirstFailure(commands, exec, from + 1)
  }

  const NOTHING_TO_CHECK := GateResult(true, "none", 0, "", "", [])

  function Passing(details: seq<CommandResult>): GateResult { GateResult(true, "all", 0, "", "", details) }

  function Failing(f: CommandResult, details: seq<CommandResult>): GateResult {
    GateResult(false, f.command, f.exitCode, f.stdout, f.stderr, details)
  }

  /** The result of a check that stops at the first failure, or goes on. */
  function CheckOutcome(commands: seq<string>, exec: Exec, continueOnFailure: bool): GateResult {
    var k := FirstFailure(commands, exec);
    if commands == [] then NOTHING_TO_CHECK
    else if k == |commands| then Passing(Results(commands, exec))
    else Failing(exec(k, commands[k]), Results(if continueOnFailure then commands else commands[..k + 1], exec))
  }

  method Check(commands: seq<string>, exec: Exec, continueOnFailure: bool) returns (r: GateResult)
    ensures r == CheckOutcome(commands, exec, continueOnFailure)
  {
    if |commands| == 0 { return NOTHING_TO_CHECK; }
    var details: seq<CommandResult> := [];
    var failures: seq<CommandResult> := [];
    ghost var first := FirstFailure(commands, exec);
    var i := 0;
    while i < |commands|
      invariant 0 <= i <= |commands| && details == Results(commands[..i], exec)
      invariant failures == if first < i then [exec(first, commands[first])] else []
      invariant first < i ==> continueOnFailure
    {
      assert commands[..i + 1][..i] == commands[..i];
      var result := exec(i, commands[i]);
      details := details + [result];
      if !result.passed {
        if failures == [] { failures := [result]; }
        if !continueOnFailure { return Failing(result, details); }
      }
      i := i + 1;
    }
    assert commands[..i] == commands;
    r := if failures == [] then Passing(details) else Failing(failures[0], details);
  }

  /** All commands at once: every result, the first failure reported. */
  method CheckParallel(commands: seq<string>, exec: Exec) returns (r: GateResult)
    ensures r == if AllPass(commands, exec) then Passing(Results(commands, exec))
                 else var k := FirstFailure(commands, exec); Failing(exec(k, commands[k]), Results(commands, exec))
  {
    var results := Results(commands, exec);
    var i := 0;
    while i < |results| && results[i].passed
      invariant 0 <= i <= |results| && i <= FirstFailure(commands, exec)
    {
      i := i + 1;
    }
    r := if i == |results| then Passing(results) else Failing(results[i], results);
  }

  /** A check passes exactly when every command does; a failed one reports the first failing command, its exit code and
      what it printed, whatever was run after it, so a sequential and a parallel check of the same outcomes report the
      same failure. The details are the results in order,
        of all commands or up to the failure that stopped the check. */
  lemma CheckMeaning(commands: seq<string>, exec: Exec, continueOnFailure: bool)
    ensures var r := CheckOutcome(commands, exec, continueOnFailure);
      && (r.passed <==> forall k :: 0 <= k < |commands| ==> exec(k, commands[k]).passed)
      && (r.passed ==> r.exitCode == 0 && r.stdout == r.stderr == "" && |r.details| == |commands|)
      && (!r.passed ==> exists k :: 0 <= k < |commands| && ReportsFirst(commands, exec, k, r)
                                    && |r.details| == if continueOnFailure then |commands| else k + 1)
      && r.(details := []) == CheckOutcome(commands, exec, !continueOnFailure).(details := [])
      && |r.details| <= |commands| && forall k :: 0 <= k < |r.details| ==> r.details[k] == exec(k, commands[k])
  {
    var k := FirstFailure(commands, exec);
    if k < |commands| {
      assert ReportsFirst(commands, exec, k, CheckOutcome(commands, exec, continueOnFailure));
      forall j | 0 <= j < k + 1 ensures Results(commands[..k + 1], exec)[j] == exec(j, commands[j]) {
        assert commands[..k + 1][j] == commands[j];
      }
    }
  }

  /** The result reports the failure of command k, and all before it passed. */
  ghost predicate ReportsFirst(commands: seq<string>, exec: Exec, k: nat, r: GateResult)
    requires k < |commands|
  {
    var f := exec(k, commands[k]);
    && !f.passed && (forall j :: 0 <= j < k ==> exec(j, commands[j]).passed)
    && r.command == f.command && r.exitCode == f.exitCode && r.stdout == f.stdout && r.stderr == f.stderr
  }
}
