/**
 The running-process check (isRunning in internal/program/manager.go): the
 outcome of `pgrep -fl <program>`, and the filter over its output lines.
 */
module Matcher {
  import opened GoStrings

  /** What running `pgrep -fl <program>` gave back. */
  datatype PgrepRun =
    | Listed(output: string)  // exit status 0, with the text pgrep printed
    | ExitStatus(code: int)   // an *exec.ExitError: pgrep exited with this status
    | RunError                // any other error from cmd.Run (pgrep missing, I/O failure)

  /** The (bool, error) pair isRunning returns; `failed` stands for a non-nil error. */
  datatype Query = Query(running: bool, failed: bool)

  const Int32Modulus: int := 0x1_0000_0000

  /** Go's conversion of an int to int32 (the `rune` of `rune(n)`): two's-complement wrap-around. */
  function Int32(n: int): (r: int)
    ensures -0x8000_0000 <= r < 0x8000_0000
    ensures (n - r) % Int32Modulus == 0
  {
    (n + 0x8000_0000) % Int32Modulus - 0x8000_0000
  }

  /** A Unicode scalar value: a code point that is not a surrogate. */
  predicate IsScalar(n: int) {
    0 <= n < 0xD800 || 0xE000 <= n < 0x11_0000
  }

  /** Go's `string(rune(n))`: the one-character string whose code point is the
      int32 value of `n`, or U+FFFD when that is not a scalar value. It is NOT
      the decimal rendering of `n`. */
  function RuneString(n: int): (s: string)
    ensures |s| == 1
    ensures IsScalar(Int32(n)) ==> s[0] as int == Int32(n)
    ensures 0 <= n < 0xD800 ==> s[0] as int == n
    ensures !IsScalar(Int32(n)) ==> s == "\U{FFFD}"
  {
    var r := Int32(n);
    if IsScalar(r) then [r as char] else "\U{FFFD}"
  }

  /** The decimal digit for `d`. */
  function Digit(d: nat): (c: char)
    requires d < 10
    ensures '0' <= c <= '9'
  {
    ('0' as int + d) as char
  }

  /** The decimal rendering of `n`, as pgrep prints a process id. */
  function Decimal(n: nat): (s: string)
    ensures IsWord(s)
    ensures forall i :: 0 <= i < |s| ==> '0' <= s[i] <= '9'
    ensures |s| == 1 <==> n < 10
  {
    if n < 10 then [Digit(n)] else Decimal(n / 10) + [Digit(n % 10)]
  }

  /** The self-exclusion test: the process-id field equals `string(rune(currentPID))`,
      or the command mentions both "ecctl" and "status". */
  predicate Excluded(pid: string, command: string, currentPID: int) {
    pid == RuneString(currentPID) || (Contains(command, "ecctl") && Contains(command, "status"))
  }

  /** The fields of a line show the program running: there are at least two,
      the line is not excluded, and its command (the fields after the first,
      joined by single spaces) contains `program`. */
  predicate FieldsMatch(fields: seq<string>, program: string, currentPID: int) {
    && |fields| >= 2
    && !Excluded(fields[0], Join(fields[1..], " "), currentPID)
    && Contains(Join(fields[1..], " "), program)
  }

  /** One line of pgrep's output counts as the program running: it is not blank
      and its fields match. */
  predicate LineMatches(line: string, program: string, currentPID: int) {
    !AllSpace(line) && FieldsMatch(Fields(line), program, currentPID)
  }

  predicate AnyLineMatches(lines: seq<string>, program: string, currentPID: int) {
    exists i :: 0 <= i < |lines| && LineMatches(lines[i], program, currentPID)
  }

  /** What isRunning answers: exit status 1 means nothing found (no error), any
      other failure is an error, and a listing is running exactly when one of
      its newline-separated lines matches. */
  function Running(run: PgrepRun, program: string, currentPID: int): Query {
    match run
    case Listed(output) => Query(AnyLineMatches(Split(output, '\n'), program, currentPID), false)
    case ExitStatus(code) => Query(false, code != 1)
    case RunError => Query(false, true)
  }

  /** isRunning, given pgrep's outcome and the caller's process id (os.Getpid). */
  method IsRunning(program: string, run: PgrepRun, currentPID: int) returns (running: bool, failed: bool)
    ensures Query(running, failed) == Running(run, program, currentPID)
    ensures failed <==> run.RunError? || (run.ExitStatus? && run.code != 1)
    ensures failed ==> !running
    ensures running ==> run.Listed?
  {
    if !run.Listed? {
      if run.ExitStatus? && run.code == 1 {
        return false, false;
      }
      return false, true;
    }
    var lines := Split(run.output, '\n');
    var i := 0;
    while i < |lines|
      invariant 0 <= i <= |lines|
      invariant forall k :: 0 <= k < i ==> !LineMatches(lines[k], program, currentPID)
    {
      var line := lines[i];
      i := i + 1;
      if TrimSpace(line) == "" {
        continue;
      }
      var fields := Fields(line);
      if |fields| < 2 {
        continue;
      }
      var pid := fields[0];
      var command := Join(fields[1..], " ");
      if pid == RuneString(currentPID) || (Contains(command, "ecctl") && Contains(command, "status")) {
        continue;
      }
      if Contains(command, program) {
        assert LineMatches(lines[i - 1], program, currentPID);
        return true, false;
      }
    }
    return false, false;
  }

  // ---------------------------------------------------------------------------
  // Lemmas

  /** A line made of words matches exactly when it has at least two words, the
      first is not excluded together with the command, and the command (the
      remaining words joined by single spaces) contains `program`. */
  lemma LineOfWords(ws: seq<string>, program: string, currentPID: int)
    requires forall i :: 0 <= i < |ws| ==> IsWord(ws[i])
    ensures LineMatches(Join(ws, " "), program, currentPID) <==> FieldsMatch(ws, program, currentPID)
  {
    FieldsJoin(ws);
  }

  /** White space in front of a string does not change its fields. */
  lemma {:induction false} FieldsAfterSpace(pre: string, s: string)
    requires AllSpace(pre)
    ensures Fields(pre + s) == Fields(s)
  {
    if pre != [] {
      var rest := pre[1..];
      assert IsSpace(pre[0]);
      assert AllSpace(rest) by {
        forall i | 0 <= i < |rest| ensures IsSpace(rest[i]) { assert rest[i] == pre[i + 1]; }
      }
      calc {
        Fields(pre + s);
        { assert pre + s == [pre[0]] + (rest + s); }
        Fields([pre[0]] + (rest + s));
        { FieldsSkipsSpace(pre[0], rest + s); }
        Fields(rest + s);
        { FieldsAfterSpace(rest, s); }
        Fields(s);
      }
    } else {
      assert pre + s == s;
    }
  }

  /** A line that is at most one run of non-space characters, padded with white
      space, never matches, whatever the program name. */
  lemma BlankOrSingleFieldNeverMatches(pre: string, w: string, post: string, program: string, currentPID: int)
    requires AllSpace(pre) && NoSpace(w) && AllSpace(post)
    ensures |Fields(pre + w + post)| <= 1
    ensures !LineMatches(pre + w + post, program, currentPID)
  {
    var line, rest := pre + w + post, w + post;
    assert line == pre + rest;
    FieldsAfterSpace(pre, rest);
    var fields := Fields(rest);
    if w == [] {
      assert rest == post;
      assert fields == [];
    } else {
      FieldsOfWordThen(w, post);
      assert fields == [w] + Fields(post) == [w];
    }
    assert Fields(line) == fields;
  }

  /** A line whose command contains both "ecctl" and "status" is excluded even
      when its command contains the program name. */
  lemma StatusQueryLineExcluded(pid: string, words: seq<string>, program: string, currentPID: int)
    requires IsWord(pid)
    requires forall i :: 0 <= i < |words| ==> IsWord(words[i])
    requires Contains(Join(words, " "), "ecctl") && Contains(Join(words, " "), "status")
    ensures !LineMatches(Join([pid] + words, " "), program, currentPID)
  {
    LineOfWords([pid] + words, program, currentPID);
    assert ([pid] + words)[1..] == words;
  }

  /** The process-id test only ever drops a line whose first field is exactly one
      character long. */
  lemma PidTestNeedsOneCharacter(pid: string, command: string, currentPID: int)
    requires |pid| != 1
    ensures Excluded(pid, command, currentPID) <==> Contains(command, "ecctl") && Contains(command, "status")
  {
  }

  /** A line that shows the caller's own process id in decimal is never dropped
      by the process-id test, whatever the id: it matches exactly when its command
      contains the program and does not mention both "ecctl" and "status". A
      one-digit id is the digit character `'0' + id`, which is not the character
      with code point `id`. */
  lemma OwnDecimalPidKept(currentPID: nat, words: seq<string>, program: string)
    requires forall i :: 0 <= i < |words| ==> IsWord(words[i])
    requires |words| >= 1
    ensures LineMatches(Join([Decimal(currentPID)] + words, " "), program, currentPID) <==>
      && !(Contains(Join(words, " "), "ecctl") && Contains(Join(words, " "), "status"))
      && Contains(Join(words, " "), program)
  {
    LineOfWords([Decimal(currentPID)] + words, program, currentPID);
    assert ([Decimal(currentPID)] + words)[1..] == words;
    if currentPID < 10 {
      assert Decimal(currentPID)[0] as int == '0' as int + currentPID;
      assert RuneString(currentPID)[0] as int == currentPID;
    }
  }

  /** A rebuilt command (words joined by single spaces) never contains a name
      that holds a white-space character other than ` `, or two white-space
      characters in a row. */
  lemma CommandNeverContainsWideSpace(ws: seq<string>, program: string, j: nat)
    requires forall i :: 0 <= i < |ws| ==> IsWord(ws[i])
    requires j < |program| && IsSpace(program[j])
    requires program[j] != ' ' || (j + 1 < |program| && IsSpace(program[j + 1]))
    ensures !Contains(Join(ws, " "), program)
  {
    var s := Join(ws, " ");
    JoinSingleSpaced(ws);
    forall i | 0 <= i <= |s| ensures !(program <= s[i..]) {
      if i + |program| <= |s| {
        assert s[i..][j] == s[i + j];
        assert j + 1 < |program| ==> s[i..][j + 1] == s[i + j + 1];
        assert s[i + j] != program[j] || (j + 1 < |program| && s[i + j + 1] != program[j + 1]);
      }
    }
  }

  /** Because the command is rebuilt with single spaces, a program whose name
      holds a tab (or any white space but ` `) or two adjacent spaces is never
      found running, whatever pgrep lists. */
  lemma WideSpaceNameNeverRunning(run: PgrepRun, program: string, currentPID: int, j: nat)
    requires j < |program| && IsSpace(program[j])
    requires program[j] != ' ' || (j + 1 < |program| && IsSpace(program[j + 1]))
    ensures !Running(run, program, currentPID).running
  {
    if run.Listed? {
      var lines := Split(run.output, '\n');
      forall k | 0 <= k < |lines| ensures !LineMatches(lines[k], program, currentPID) {
        var fields := Fields(lines[k]);
        if |fields| >= 2 {
          CommandNeverContainsWideSpace(fields[1..], program, j);
        }
      }
    }
  }

  /** Text around a string that contains `sub` still contains it. */
  lemma ContainsExtended(before: string, s: string, after: string, sub: string)
    requires Contains(s, sub)
    ensures Contains(before + s + after, sub)
  {
    var i :| 0 <= i <= |s| && sub <= s[i..];
    var t := before + s + after;
    assert t[|before| + i..] == s[i..] + after;
  }

  /** With an empty program name every line of two or more fields that is not
      excluded matches, since every command contains the empty string. */
  lemma EmptyProgramMatchesEveryLine(line: string, currentPID: int)
    ensures LineMatches(line, "", currentPID) <==>
      var fields := Fields(line);
      |fields| >= 2 && !Excluded(fields[0], Join(fields[1..], " "), currentPID)
  {
    var fields := Fields(line);
    if |fields| >= 2 {
      ContainsEmpty(Join(fields[1..], " "));
    }
  }

  /** The empty output has no match (it splits into one empty line). */
  lemma EmptyOutputNotRunning(program: string, currentPID: int)
    ensures Running(Listed(""), program, currentPID) == Query(false, false)
  {
    assert Split("", '\n') == [""];
  }

  /** For an output made of newline-terminated lines, the answer is whether one of those lines matches. */
  lemma RunningOnLines(lines: seq<string>, program: string, currentPID: int)
    requires forall i :: 0 <= i < |lines| ==> '\n' !in lines[i]
    ensures Running(Listed(Join(lines + [""], "\n")), program, currentPID) ==
      Query(AnyLineMatches(lines, program, currentPID), false)
  {
    var all := lines + [""];
    SplitJoin(all, '\n');
    assert !LineMatches("", program, currentPID);
    if AnyLineMatches(all, program, currentPID) {
      var i :| 0 <= i < |all| && LineMatches(all[i], program, currentPID);
      assert i < |lines| && all[i] == lines[i];
    }
    if AnyLineMatches(lines, program, currentPID) {
      var i :| 0 <= i < |lines| && LineMatches(lines[i], program, currentPID);
      assert all[i] == lines[i];
    }
  }

  /** Reordering (or regrouping) the lines of pgrep's output does not change the answer. */
  lemma RunningIgnoresLineOrder(out1: string, out2: string, program: string, currentPID: int)
    requires multiset(Split(out1, '\n')) == multiset(Split(out2, '\n'))
    ensures Running(Listed(out1), program, currentPID) == Running(Listed(out2), program, currentPID)
  {
    var l1, l2 := Split(out1, '\n'), Split(out2, '\n');
    MatchInLinesOf(l1, l2, program, currentPID);
    MatchInLinesOf(l2, l1, program, currentPID);
  }

  /** A match among the lines of `a` is a match among the lines of `b` when every line of `a` is a line of `b`. */
  lemma MatchInLinesOf(a: seq<string>, b: seq<string>, program: string, currentPID: int)
    requires multiset(a) <= multiset(b)
    ensures AnyLineMatches(a, program, currentPID) ==> AnyLineMatches(b, program, currentPID)
  {
    if AnyLineMatches(a, program, currentPID) {
      var i :| 0 <= i < |a| && LineMatches(a[i], program, currentPID);
      assert a[i] in multiset(a);
      assert a[i] in b;
      var j :| 0 <= j < |b| && b[j] == a[i];
    }
  }

  /** The command `<exe> status <program>` mentions "ecctl" when the path of the
      executable does. */
  lemma StatusCommandMentionsEcctl(exe: string, program: string)
    requires Contains(exe, "ecctl")
    ensures Contains(Join([exe, "status", program], " "), "ecctl")
  {
    JoinThree(exe, "status", program, " ");
    ContainsExtended("", exe, " status " + program, "ecctl");
    assert "" + exe + (" status " + program) == Join([exe, "status", program], " ");
  }

  /** The command `<exe> status <program>` mentions "status". */
  lemma StatusCommandMentionsStatus(exe: string, program: string)
    ensures Contains(Join([exe, "status", program], " "), "status")
  {
    JoinThree(exe, "status", program, " ");
    var command := exe + " " + "status" + " " + program;
    assert command[|exe| + 1..] == "status" + " " + program;
  }

  /** The verb "status" is a single field. */
  lemma StatusIsWord()
    ensures IsWord("status")
  {
  }

  /** The controller checking itself (`<exe> status <program>` where the
      executable's path names ecctl, listed under whatever process id) is not a
      line that makes the program count as running. */
  lemma StatusSelfCheckNotRunning(pid: string, exe: string, program: string, currentPID: int)
    requires IsWord(pid) && IsWord(exe) && IsWord(program)
    requires Contains(exe, "ecctl")
    ensures !LineMatches(Join([pid, exe, "status", program], " "), program, currentPID)
  {
    var words := [exe, "status", program];
    StatusCommandMentionsEcctl(exe, program);
    StatusCommandMentionsStatus(exe, program);
    StatusIsWord();
    assert forall i :: 0 <= i < |words| ==> IsWord(words[i]);
    StatusQueryLineExcluded(pid, words, program, currentPID);
    assert [pid] + words == [pid, exe, "status", program];
  }

  /** When the caller runs `<exe> <verb> <arg>` (for instance `ecctl stop worker`
      or `ecctl start ./tools/worker`) under whatever process id,
      and pgrep lists the caller's own command line, the process-id test does not
      drop that line: whenever `arg` contains the program name and the command
      does not say "status", the caller counts itself as a running program. */
  lemma OwnInvocationCountsAsRunning(currentPID: nat, exe: string, verb: string, arg: string, program: string)
    requires IsWord(exe) && IsWord(verb) && IsWord(arg)
    requires Contains(arg, program)
    requires !Contains(Join([exe, verb, arg], " "), "status")
    ensures LineMatches(Join([Decimal(currentPID), exe, verb, arg], " "), program, currentPID)
  {
    JoinThree(exe, verb, arg, " ");
    ContainsExtended(exe + " " + verb + " ", arg, "", program);
    assert exe + " " + verb + " " + arg + "" == Join([exe, verb, arg], " ");
    OwnDecimalPidKept(currentPID, [exe, verb, arg], program);
    assert [Decimal(currentPID)] + [exe, verb, arg] == [Decimal(currentPID), exe, verb, arg];
  }

  /** When `string(rune(currentPID))` is a character that is not white space, a
      line whose first field is that very character is dropped, whatever its
      command: a caller with process id 49 (the code point of '1') ignores the
      listing of process 1. */
  lemma RunePidLineDropped(currentPID: int, words: seq<string>, program: string)
    requires !IsSpace(RuneString(currentPID)[0])
    requires forall i :: 0 <= i < |words| ==> IsWord(words[i])
    ensures !LineMatches(Join([RuneString(currentPID)] + words, " "), program, currentPID)
  {
    LineOfWords([RuneString(currentPID)] + words, program, currentPID);
  }

  /** The process id 49 is compared with the string "1". */
  lemma RuneStringOfFortyNine()
    ensures RuneString(49) == "1"
  {
  }
}
