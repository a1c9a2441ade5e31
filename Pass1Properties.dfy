/**
 * What pass 1 guarantees about the state it builds: the line map numbers every raw line, the
 * kept lines are exactly the instruction lines in order, the tables only grow, every label
 * is bound to the address reached when its line is read, and the first error stops the pass
 * with the state from before the failing line.
 */
module Pass1Properties {
  import opened Wrappers
  import opened Errors
  import opened Lexer
  import opened Substitution
  import opened Sizing

  /** The stripped instruction lines among the first `n` raw lines, in order. */
  function InstructionLines(lines: seq<string>, n: nat): (r: seq<string>)
    requires n <= |lines|
    ensures |r| <= n
  {
    if n == 0 then [] else InstructionLines(lines, n - 1) + Kept(lines[n - 1])
  }

  /** A kept line is an instruction line with an opcode. */
  lemma KeptLine(raw: string)
    ensures forall l | l in Kept(raw) :: IsInstructionLine(l) && Split(l) != []
  {
    if Kept(raw) != [] {
      StrippedSplit(raw);
    }
  }

  /** Every kept line is an instruction line with an opcode. */
  lemma {:induction false} InstructionLinesAreInstructions(lines: seq<string>, n: nat)
    requires n <= |lines|
    ensures forall l | l in InstructionLines(lines, n) :: IsInstructionLine(l) && Split(l) != []
  {
    if n > 0 {
      InstructionLinesAreInstructions(lines, n - 1);
      KeptLine(lines[n - 1]);
    }
  }

  /** The raw line numbers 1..n, as `line_map` records them. */
  function LineNumbers(n: nat): (r: seq<nat>)
    ensures |r| == n && forall i | 0 <= i < n :: r[i] == i + 1
  {
    if n == 0 then [] else LineNumbers(n - 1) + [n]
  }

  /** A step function every successful call of which records the line's number. */
  ghost predicate AlwaysNumbers(step: StepFunction) {
    forall st: Pass1State, raw: string, lineNum: nat :: step(st, raw, lineNum).Success? ==> Numbers(st, lineNum, step(st, raw, lineNum).value)
  }

  /** A step function every successful call of which keeps exactly the instruction lines. */
  ghost predicate AlwaysKeeps(step: StepFunction) {
    forall st: Pass1State, raw: string, lineNum: nat :: step(st, raw, lineNum).Success? ==> Keeps(st, raw, step(st, raw, lineNum).value)
  }

  /** A step function every successful call of which only grows the state. */
  ghost predicate AlwaysGrows(step: StepFunction) {
    forall st: Pass1State, raw: string, lineNum: nat :: step(st, raw, lineNum).Success? ==> Grows(st, step(st, raw, lineNum).value)
  }

  /** A step function that keeps constant values tokens. */
  ghost predicate KeepsTokens(step: StepFunction) {
    forall st: Pass1State, raw: string, lineNum: nat ::
      ValuesAreTokens(st.consts) && step(st, raw, lineNum).Success? ==> ValuesAreTokens(step(st, raw, lineNum).value.consts)
  }

  lemma StepAdvances()
    ensures AlwaysNumbers(Step) && AlwaysKeeps(Step) && AlwaysGrows(Step)
  {
    forall st: Pass1State, raw: string, lineNum: nat | Step(st, raw, lineNum).Success?
      ensures Advances(st, raw, lineNum, Step(st, raw, lineNum).value)
    {
      StepEffects(st, raw, lineNum);
    }
  }

  /** Stored constant values are tokens: a CONST line stores its third field. */
  lemma StepKeepsTokens(st: Pass1State, raw: string, lineNum: nat)
    requires ValuesAreTokens(st.consts) && Step(st, raw, lineNum).Success?
    ensures ValuesAreTokens(Step(st, raw, lineNum).value.consts)
  {
    var line := Strip(raw);
    if IsSkipped(line) {
      StepSkipped(st, raw, lineNum);
    } else if IsConstLine(line) {
      StepConst(st, raw, lineNum);
      var parts := Split(line);
      var c := Step(st, raw, lineNum).value.consts;
      forall k | k in c ensures IsToken(c[k]) {
        if k != parts[1] {
          assert k in st.consts;
        } else {
          assert c[k] == parts[2];
        }
      }
    } else if IsLabelLine(line) {
      StepLabel(st, raw, lineNum);
    } else {
      StepInstruction(st, raw, lineNum);
    }
  }

  lemma StepTokens()
    ensures KeepsTokens(Step)
  {
    forall st: Pass1State, raw: string, lineNum: nat | ValuesAreTokens(st.consts) && Step(st, raw, lineNum).Success?
      ensures ValuesAreTokens(Step(st, raw, lineNum).value.consts)
    {
      StepKeepsTokens(st, raw, lineNum);
    }
  }

  /** A fold that has not failed after `n` lines had not failed after `n - 1`, and line `n` stepped from there. */
  lemma RunLast(step: StepFunction, init: Pass1State, lines: seq<string>, n: nat)
    requires 0 < n <= |lines| && Run(step, init, lines, n).err.None?
    ensures Run(step, init, lines, n - 1).err.None?
    ensures var prev := Run(step, init, lines, n - 1).state;
      step(prev, lines[n - 1], n).Success? && step(prev, lines[n - 1], n).value == Run(step, init, lines, n).state
  {
  }

  /** RunLast for line `n` named as the line after line `m`, which keeps `n - 1` out of the terms of the callers' proofs. */
  lemma RunLastAt(step: StepFunction, init: Pass1State, lines: seq<string>, m: nat, n: nat)
    requires n == m + 1 <= |lines| && Run(step, init, lines, n).err.None?
    ensures Run(step, init, lines, m).err.None?
    ensures var prev := Run(step, init, lines, m).state;
      step(prev, lines[m], n).Success? && step(prev, lines[m], n).value == Run(step, init, lines, n).state
  {
    RunLast(step, init, lines, n);
  }

  /**
   * A step function that moves the address as pass 1 does: a line it does not keep leaves the
   * address alone, and a kept line moves it by the line's predicted size.
   */
  ghost predicate AlwaysSizes(step: StepFunction) {
    forall st: Pass1State, raw: string, lineNum: nat | step(st, raw, lineNum).Success? ::
      Sizes(st, raw, lineNum, step(st, raw, lineNum).value)
  }

  /** Reading raw line `lineNum` moves the address from `st` to `r` by the line's predicted size, or not at all when the line is not kept. */
  predicate Sizes(st: Pass1State, raw: string, lineNum: nat, r: Pass1State) {
    && (Kept(raw) == [] ==> r.addr == st.addr)
    && (Kept(raw) != [] && Split(Strip(raw)) != [] ==>
          InstrSize(Strip(raw), st.consts, lineNum).Success? && r.addr == st.addr + InstrSize(Strip(raw), st.consts, lineNum).value)
  }

  lemma StepSizes()
    ensures AlwaysSizes(Step)
  {
    forall st: Pass1State, raw: string, lineNum: nat | Step(st, raw, lineNum).Success?
      ensures Sizes(st, raw, lineNum, Step(st, raw, lineNum).value)
    {
      StepEffects(st, raw, lineNum);
      if Kept(raw) != [] {
        StepInstruction(st, raw, lineNum);
      }
    }
  }

  /**
   * How line `n` (following line `m`) moves a fold of such a step on: a line it does not keep leaves the kept lines
   * and the address alone; an instruction line is appended and moves the address by its
   * predicted size.
   */
  lemma StepAddress(step: StepFunction, init: Pass1State, lines: seq<string>, m: nat, n: nat)
    requires AlwaysKeeps(step) && AlwaysSizes(step)
    requires n == m + 1 <= |lines| && Run(step, init, lines, n).err.None?
    ensures Run(step, init, lines, m).err.None?
    ensures var prev, st, line := Run(step, init, lines, m).state, Run(step, init, lines, n).state, Strip(lines[m]);
      if Kept(lines[m]) == [] then st.asm == prev.asm && st.addr == prev.addr
      else
        && st.asm == prev.asm + [line] && Split(line) != []
        && InstrSize(line, prev.consts, n).Success? && st.addr == prev.addr + InstrSize(line, prev.consts, n).value
  {
    KeepsLast(step, init, lines, m, n);
    SizesLast(step, init, lines, m, n);
  }

  /** Line `n` of a fold of a sizing step moves the address by the line's predicted size, or not at all when the line is not kept. */
  lemma SizesLast(step: StepFunction, init: Pass1State, lines: seq<string>, m: nat, n: nat)
    requires AlwaysSizes(step)
    requires n == m + 1 <= |lines| && Run(step, init, lines, n).err.None?
    ensures Run(step, init, lines, m).err.None?
    ensures var prev, st, line := Run(step, init, lines, m).state, Run(step, init, lines, n).state, Strip(lines[m]);
      if Kept(lines[m]) == [] then st.addr == prev.addr
      else
        && Split(line) != []
        && InstrSize(line, prev.consts, n).Success? && st.addr == prev.addr + InstrSize(line, prev.consts, n).value
  {
    RunLastAt(step, init, lines, m, n);
    KeptLine(lines[m]);
    if Kept(lines[m]) != [] {
      assert Strip(lines[m]) in Kept(lines[m]);
    }
    var prev := Run(step, init, lines, m).state;
    assert Sizes(prev, lines[m], n, step(prev, lines[m], n).value);
  }

  /** A fold of a numbering step from an empty line map records the line numbers 1..n. */
  lemma {:induction false} RunNumbers(step: StepFunction, init: Pass1State, lines: seq<string>, n: nat)
    requires AlwaysNumbers(step) && init.lineMap == []
    requires n <= |lines| && Run(step, init, lines, n).err.None?
    ensures Run(step, init, lines, n).state.lineMap == LineNumbers(n)
  {
    if n > 0 {
      var m: nat := n - 1;
      RunLastAt(step, init, lines, m, n);
      RunNumbers(step, init, lines, m);
      var prev := Run(step, init, lines, m).state;
      assert Numbers(prev, n, step(prev, lines[m], n).value);
    }
  }

  /** Line `n`, following line `m`, appended itself to the kept lines of the fold exactly when it is an instruction line. */
  ghost predicate KeptAt(step: StepFunction, init: Pass1State, lines: seq<string>, m: nat, n: nat) {
    n == m + 1 <= |lines| &&
    (Run(step, init, lines, n).err.None? ==>
      Run(step, init, lines, m).err.None? && Run(step, init, lines, n).state.asm == Run(step, init, lines, m).state.asm + Kept(lines[m]))
  }

  /** A fold each line of which keeps itself exactly when it is an instruction line keeps the instruction lines in order. */
  lemma {:induction false} KeptLines(step: StepFunction, init: Pass1State, lines: seq<string>, n: nat)
    requires init.asm == [] && n <= |lines| && Run(step, init, lines, n).err.None?
    requires forall m: nat, k: nat | k == m + 1 <= n :: KeptAt(step, init, lines, m, k)
    ensures Run(step, init, lines, n).state.asm == InstructionLines(lines, n)
  {
    if n > 0 {
      var m: nat := n - 1;
      assert KeptAt(step, init, lines, m, n);
      KeptLines(step, init, lines, m);
      InstructionLinesLast(lines, m, n);
    }
  }

  lemma InstructionLinesLast(lines: seq<string>, m: nat, n: nat)
    requires n == m + 1 <= |lines|
    ensures InstructionLines(lines, n) == InstructionLines(lines, m) + Kept(lines[m])
  {
  }

  /** A fold of a keeping step from no kept lines keeps the instruction lines in order. */
  lemma RunKeeps(step: StepFunction, init: Pass1State, lines: seq<string>, n: nat)
    requires AlwaysKeeps(step) && init.asm == []
    requires n <= |lines| && Run(step, init, lines, n).err.None?
    ensures Run(step, init, lines, n).state.asm == InstructionLines(lines, n)
  {
    forall m: nat, k: nat | k == m + 1 <= n
      ensures KeptAt(step, init, lines, m, k)
    {
      if Run(step, init, lines, k).err.None? {
        KeepsLast(step, init, lines, m, k);
      }
    }
    KeptLines(step, init, lines, n);
  }

  /** Line `n` of a fold of a keeping step appends the line to the kept lines exactly when it is an instruction line. */
  lemma KeepsLast(step: StepFunction, init: Pass1State, lines: seq<string>, m: nat, n: nat)
    requires AlwaysKeeps(step)
    requires n == m + 1 <= |lines| && Run(step, init, lines, n).err.None?
    ensures Run(step, init, lines, m).err.None?
    ensures Run(step, init, lines, n).state.asm == Run(step, init, lines, m).state.asm + Kept(lines[m])
  {
    RunLastAt(step, init, lines, m, n);
    var prev := Run(step, init, lines, m).state;
    assert Keeps(prev, lines[m], step(prev, lines[m], n).value);
  }

  lemma {:induction false} RunTokens(step: StepFunction, init: Pass1State, lines: seq<string>, n: nat)
    requires KeepsTokens(step) && ValuesAreTokens(init.consts)
    requires n <= |lines| && Run(step, init, lines, n).err.None?
    ensures ValuesAreTokens(Run(step, init, lines, n).state.consts)
  {
    if n > 0 {
      var m: nat := n - 1;
      RunLastAt(step, init, lines, m, n);
      RunTokens(step, init, lines, m);
      var prev := Run(step, init, lines, m).state;
      assert ValuesAreTokens(step(prev, lines[m], n).value.consts);
    }
  }

  /**
   * After `n` raw lines without error, the line map is 1..n, the kept lines are the
   * instruction lines in order, and the constant values are still tokens.
   */
  lemma Pass1Shape(consts: map<string, string>, labels: map<string, nat>, lines: seq<string>, n: nat)
    requires n <= |lines| && Run(Step, Start(consts, labels), lines, n).err.None?
    ensures var st := Run(Step, Start(consts, labels), lines, n).state;
      && st.lineMap == LineNumbers(n)
      && st.asm == InstructionLines(lines, n)
      && (ValuesAreTokens(consts) ==> ValuesAreTokens(st.consts))
  {
    StepAdvances();
    RunNumbers(Step, Start(consts, labels), lines, n);
    RunKeeps(Step, Start(consts, labels), lines, n);
    if ValuesAreTokens(consts) {
      StepTokens();
      RunTokens(Step, Start(consts, labels), lines, n);
    }
  }

  lemma {:induction false} RunGrows(step: StepFunction, init: Pass1State, lines: seq<string>, m: nat, n: nat)
    requires AlwaysGrows(step)
    requires m <= n <= |lines| && Run(step, init, lines, n).err.None?
    ensures Run(step, init, lines, m).err.None?
    ensures Grows(Run(step, init, lines, m).state, Run(step, init, lines, n).state)
    decreases n - m
  {
    if m < n {
      var k: nat := n - 1;
      RunLastAt(step, init, lines, k, n);
      RunGrows(step, init, lines, m, k);
      var prev := Run(step, init, lines, k).state;
      assert Grows(prev, step(prev, lines[k], n).value);
    }
  }

  /**
   * An earlier point of a run without error had no error either, and from there to later the
   * tables only gain entries, the kept lines only grow at the end, and the address only rises.
   */
  lemma Pass1Grows(init: Pass1State, lines: seq<string>, m: nat, n: nat)
    requires m <= n <= |lines| && Run(Step, init, lines, n).err.None?
    ensures Run(Step, init, lines, m).err.None?
    ensures Grows(Run(Step, init, lines, m).state, Run(Step, init, lines, n).state)
  {
    StepAdvances();
    RunGrows(Step, init, lines, m, n);
  }

  /**
   * Label binding: in a run without error, the name of a label line is fresh when its line is
   * read, and the final table binds it to the address reached at that line.
   */
  lemma LabelBinding(init: Pass1State, lines: seq<string>, k: nat)
    requires k < |lines| && Run(Step, init, lines, |lines|).err.None?
    requires var line := Strip(lines[k]); !IsSkipped(line) && !IsConstLine(line) && IsLabelLine(line)
    ensures var name, before, after := LabelName(Strip(lines[k])), Run(Step, init, lines, k).state, Run(Step, init, lines, |lines|).state;
      && name != [] && name !in before.labels
      && name in after.labels && after.labels[name] == before.addr
  {
    Pass1Grows(init, lines, k + 1, |lines|);
    RunLast(Step, init, lines, k + 1);
    var before := Run(Step, init, lines, k).state;
    StepLabel(before, lines[k], k + 1);
  }

  /** A step function whose errors carry the number of the line it was given. */
  ghost predicate ReportsLine(step: StepFunction) {
    forall st: Pass1State, raw: string, lineNum: nat :: step(st, raw, lineNum).Failure? ==> step(st, raw, lineNum).error.line == lineNum
  }

  lemma StepReportsLine()
    ensures ReportsLine(Step)
  {
  }

  /**
   * The first error of a fold: the fold went through the lines before the failing line, the
   * fold up to that line has the final outcome, and the error names that line.
   */
  lemma {:induction false} RunFirstError(step: StepFunction, init: Pass1State, lines: seq<string>, n: nat)
    requires ReportsLine(step)
    requires n <= |lines| && Run(step, init, lines, n).err.Some?
    ensures var o := Run(step, init, lines, n);
      && 1 <= o.err.value.line <= n
      && Run(step, init, lines, o.err.value.line - 1) == Pass1Outcome(o.state, None)
      && Run(step, init, lines, o.err.value.line).err == o.err
  {
    if Run(step, init, lines, n - 1).err.Some? {
      RunFirstError(step, init, lines, n - 1);
    }
  }

  /**
   * The first error: a run that fails reports line m when the first m - 1 lines went through
   * and line m failed with this error; the state, tables included, is the one from before line m.
   */
  lemma Pass1FirstError(init: Pass1State, lines: seq<string>, n: nat)
    requires n <= |lines| && Run(Step, init, lines, n).err.Some?
    ensures var o, m := Run(Step, init, lines, n), Run(Step, init, lines, n).err.value.line;
      && 1 <= m <= n
      && Run(Step, init, lines, m - 1) == Pass1Outcome(o.state, None)
      && Run(Step, init, lines, m).err == o.err
  {
    StepReportsLine();
    RunFirstError(Step, init, lines, n);
  }
}
