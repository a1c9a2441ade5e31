/**
 * Pass 1 of the assembler (`parse_const_label`): the classification of source lines, the
 * CONST and label definitions, the predicted word count of every instruction line, and the
 * running word address that labels are bound to. The pass is given here as a fold over the
 * raw lines; the imperative pass in module Assembler is proved to compute it.
 */
module Sizing {
  import opened Wrappers
  import opened Errors
  import opened Lexer
  import opened Tables
  import opened Encoding

  /** What pass 1 has built after a prefix of the source. */
  datatype Pass1State = Pass1State(
    consts: map<string, string>,  // CONST_TABLE
    labels: map<string, nat>,     // LABEL_TABLE
    addr: nat,                    // instr_addr
    asm: seq<string>,             // assembly_lines
    lineMap: seq<nat>)            // line_map

  /** The state of pass 1 before it has read a line, over the tables it is handed. */
  function Start(consts: map<string, string>, labels: map<string, nat>): Pass1State {
    Pass1State(consts, labels, 0, [], [])
  }

  /** A stripped line that pass 1 skips: blank, or a comment starting with '#'. */
  predicate IsSkipped(line: string) {
    line == [] || "#" <= line
  }

  /** A stripped line that begins with the letters CONST is a constant definition. */
  predicate IsConstLine(line: string) {
    "CONST" <= line
  }

  /** A non-skipped, non-CONST line with a colon anywhere is a label definition. */
  predicate IsLabelLine(line: string) {
    ':' in line
  }

  /** A stripped line that pass 1 keeps as an instruction. */
  predicate IsInstructionLine(line: string) {
    !IsSkipped(line) && !IsConstLine(line) && !IsLabelLine(line)
  }

  /** The position of the first colon of a line. */
  function ColonIndex(s: string): (i: nat)
    requires ':' in s
    ensures i < |s| && s[i] == ':' && ':' !in s[..i]
  {
    if s[0] == ':' then 0
    else
      var i := 1 + ColonIndex(s[1..]);
      assert s[..i] == [s[0]] + s[1..][..i - 1];
      i
  }

  /** The label name: the text before the first colon, stripped of surrounding whitespace. */
  function LabelName(line: string): (name: string)
    requires ':' in line
    ensures ':' !in name && |name| <= ColonIndex(line)
    ensures name == [] || (!IsSpace(name[0]) && !IsSpace(name[|name| - 1]))
  {
    var before := line[..ColonIndex(line)];
    var name := Strip(before);
    assert name == RStrip(LStrip(before));
    assert ':' !in name by {
      var l := LStrip(before);
      assert l == before[|before| - |l|..];
      assert forall k | 0 <= k < |name| :: name[k] == l[k] == before[|before| - |l| + k];
    }
    name
  }

  /** The first colon of `a + ":" + b` is the one after `a` when `a` has none. */
  lemma ColonIndexOf(a: string, b: string)
    requires ':' !in a
    ensures ':' in a + ":" + b && ColonIndex(a + ":" + b) == |a|
  {
    var s := a + ":" + b;
    assert s[|a|] == ':';
    assert s[..|a|] == a;
  }

  /** The name of a label line is everything before its first colon, stripped, whatever follows that colon. */
  lemma LabelNameOf(a: string, b: string)
    requires ':' !in a
    ensures LabelName(a + ":" + b) == Strip(a)
  {
    ColonIndexOf(a, b);
    assert (a + ":" + b)[..|a|] == a;
  }

  /** `parse_const_definition`: exactly three fields, a fresh symbol; the value token is stored unchanged. */
  function ConstDefinition(line: string, lineNum: nat, consts: map<string, string>): (r: Result<map<string, string>, Error>)
    ensures |Split(line)| != 3 ==> r == Failure(Error(ConstSyntax, lineNum))
    ensures |Split(line)| == 3 && Split(line)[1] in consts ==> r == Failure(Error(DuplicateConst, lineNum))
    ensures |Split(line)| == 3 && Split(line)[1] !in consts ==>
      && r.Success?
      && r.value.Keys == consts.Keys + {Split(line)[1]}
      && r.value[Split(line)[1]] == Split(line)[2]
      && forall k | k in consts :: r.value[k] == consts[k]
  {
    var parts := Split(line);
    if |parts| != 3 then Failure(Error(ConstSyntax, lineNum))
    else if parts[1] in consts then Failure(Error(DuplicateConst, lineNum))
    else Success(consts[parts[1] := parts[2]])
  }

  /** `parse_label_definition`: a non-empty, fresh name, bound to the current word address. */
  function LabelDefinition(line: string, lineNum: nat, labels: map<string, nat>, addr: nat): (r: Result<map<string, nat>, Error>)
    requires ':' in line
    ensures LabelName(line) == [] ==> r == Failure(Error(EmptyLabel, lineNum))
    ensures LabelName(line) != [] && LabelName(line) in labels ==> r == Failure(Error(DuplicateLabel, lineNum))
    ensures LabelName(line) != [] && LabelName(line) !in labels ==>
      && r.Success?
      && r.value.Keys == labels.Keys + {LabelName(line)}
      && r.value[LabelName(line)] == addr
      && forall k | k in labels :: r.value[k] == labels[k]
  {
    var name := LabelName(line);
    if name == [] then Failure(Error(EmptyLabel, lineNum))
    else if name in labels then Failure(Error(DuplicateLabel, lineNum))
    else Success(labels[name := addr])
  }

  /** The last operand as pass 1 sees it: replaced by its CONST value if it names a constant defined so far. */
  function SizedOperand(ops: seq<string>, consts: map<string, string>): string
    requires ops != []
  {
    if Last(ops) in consts then consts[Last(ops)] else Last(ops)
  }

  /**
   * The word count pass 1 predicts for an instruction line: 1, plus 1 when the last operand
   * (after CONST replacement) is a literal outside [0, 2048), plus 1 for CMP or 2 for a
   * conditional branch. `int(x, 0)` refusing the literal is an error of the line.
   */
  function InstrSize(line: string, consts: map<string, string>, lineNum: nat): (r: Result<nat, Error>)
    requires Split(line) != []
    ensures r.Success? ==> 1 <= r.value <= 4
    ensures r.Success? && Split(line)[0] == "CMP" ==> r.value >= 2
    ensures r.Success? && Split(line)[0] in ConditionPseudoInstructions ==> r.value >= 3
    ensures r.Failure? <==> Split(line)[1..] != [] && IsImmediate(SizedOperand(Split(line)[1..], consts))
                            && ParseInt(SizedOperand(Split(line)[1..], consts)).None?
    ensures r.Failure? ==> r.error == Error(BadLiteral, lineNum)
  {
    var parts := Split(line);
    var ext :- SizedExtension(parts[1..], consts, lineNum);
    Success(1 + ext + (if parts[0] == "CMP" then 1 else if parts[0] in ConditionPseudoInstructions then 2 else 0))
  }

  /** One word for the last operand when, after CONST replacement, it is a literal outside [0, 2048). */
  function SizedExtension(ops: seq<string>, consts: map<string, string>, lineNum: nat): (r: Result<nat, Error>)
    ensures r.Success? ==> r.value <= 1
  {
    if ops != [] && IsImmediate(SizedOperand(ops, consts)) then
      var v :- Int(SizedOperand(ops, consts), lineNum);
      Success(if InShortRange(v) then 0 else 1)
    else Success(0)
  }

  /** InstrSize unfolded once: the extension word count plus the words of the opcode. */
  lemma InstrSizeParts(line: string, consts: map<string, string>, lineNum: nat, ext: nat)
    requires Split(line) != [] && SizedExtension(Split(line)[1..], consts, lineNum) == Success(ext)
    ensures InstrSize(line, consts, lineNum)
            == Success(1 + ext + (if Split(line)[0] == "CMP" then 1 else if Split(line)[0] in ConditionPseudoInstructions then 2 else 0))
  {
  }

  /** Whether pass 1 counts an extension word for the last operand of a line. */
  predicate SizedLong(line: string, consts: map<string, string>)
    requires Split(line) != []
  {
    var ops := Split(line)[1..];
    ops != [] && IsImmediate(SizedOperand(ops, consts)) && ParseInt(SizedOperand(ops, consts)).Some?
    && !InShortRange(ParseInt(SizedOperand(ops, consts)).value)
  }

  /** A stripped line that is not blank has an opcode token. */
  lemma StrippedSplit(raw: string)
    requires Strip(raw) != []
    ensures Split(Strip(raw)) != []
  {
    SplitNonEmpty(Strip(raw));
  }

  /** One raw line of pass 1: the line is stripped, its number recorded, and it is skipped, defined or sized. */
  function Step(st: Pass1State, raw: string, lineNum: nat): (r: Result<Pass1State, Error>)
    ensures r.Failure? ==> r.error.line == lineNum
  {
    var line := Strip(raw);
    var lineMap := st.lineMap + [lineNum];
    if IsSkipped(line) then Success(st.(lineMap := lineMap))
    else if IsConstLine(line) then
      var consts :- ConstDefinition(line, lineNum, st.consts);
      Success(st.(lineMap := lineMap, consts := consts))
    else if IsLabelLine(line) then
      var labels :- LabelDefinition(line, lineNum, st.labels, st.addr);
      Success(st.(lineMap := lineMap, labels := labels))
    else
      StrippedSplit(raw);
      var n :- InstrSize(line, st.consts, lineNum);
      Success(st.(lineMap := lineMap, addr := st.addr + n, asm := st.asm + [line]))
  }

  /** `big` holds every entry of `small` with the same value, as the tables do as pass 1 goes on. */
  predicate Extends<V(==)>(big: map<string, V>, small: map<string, V>) {
    small.Keys <= big.Keys && forall k | k in small :: big[k] == small[k]
  }

  /** The stripped line when pass 1 keeps it as an instruction, and nothing otherwise. */
  function Kept(raw: string): seq<string> {
    if IsInstructionLine(Strip(raw)) then [Strip(raw)] else []
  }

  /** From `st` to `r` the tables only gain entries, the kept lines only grow at the end, and the address only rises. */
  predicate Grows(st: Pass1State, r: Pass1State) {
    && Extends(r.consts, st.consts) && Extends(r.labels, st.labels)
    && st.asm <= r.asm && st.addr <= r.addr
  }

  /** The line map gains the number of the line just read. */
  predicate Numbers(st: Pass1State, lineNum: nat, r: Pass1State) {
    r.lineMap == st.lineMap + [lineNum]
  }

  /** The kept lines gain the line just read exactly when it is an instruction line. */
  predicate Keeps(st: Pass1State, raw: string, r: Pass1State) {
    r.asm == st.asm + Kept(raw)
  }

  /**
   * What reading one raw line may do to the state: record the line's number, keep the line
   * and move the address only when it is an instruction line, and otherwise only grow.
   */
  predicate Advances(st: Pass1State, raw: string, lineNum: nat, r: Pass1State) {
    && Numbers(st, lineNum, r) && Keeps(st, raw, r)
    && (Kept(raw) == [] ==> r.addr == st.addr)
    && Grows(st, r)
  }

  /** Every line that pass 1 reads without error advances the state in that way. */
  lemma StepEffects(st: Pass1State, raw: string, lineNum: nat)
    requires Step(st, raw, lineNum).Success?
    ensures Advances(st, raw, lineNum, Step(st, raw, lineNum).value)
  {
    var line := Strip(raw);
    if IsSkipped(line) {
      StepSkipped(st, raw, lineNum);
    } else if IsConstLine(line) {
      ConstEffects(st, raw, lineNum);
    } else if IsLabelLine(line) {
      LabelEffects(st, raw, lineNum);
    } else {
      InstructionEffects(st, raw, lineNum);
    }
  }

  lemma ConstEffects(st: Pass1State, raw: string, lineNum: nat)
    requires !IsSkipped(Strip(raw)) && IsConstLine(Strip(raw)) && Step(st, raw, lineNum).Success?
    ensures Advances(st, raw, lineNum, Step(st, raw, lineNum).value)
  {
    StepConst(st, raw, lineNum);
    var r := Step(st, raw, lineNum).value;
    assert Extends(r.consts, st.consts) && r.labels == st.labels;
  }

  lemma LabelEffects(st: Pass1State, raw: string, lineNum: nat)
    requires !IsSkipped(Strip(raw)) && !IsConstLine(Strip(raw)) && IsLabelLine(Strip(raw)) && Step(st, raw, lineNum).Success?
    ensures Advances(st, raw, lineNum, Step(st, raw, lineNum).value)
  {
    StepLabel(st, raw, lineNum);
    var r := Step(st, raw, lineNum).value;
    assert Extends(r.labels, st.labels) && r.consts == st.consts;
  }

  lemma InstructionEffects(st: Pass1State, raw: string, lineNum: nat)
    requires IsInstructionLine(Strip(raw)) && Step(st, raw, lineNum).Success?
    ensures Advances(st, raw, lineNum, Step(st, raw, lineNum).value)
  {
    StepInstruction(st, raw, lineNum);
  }

  /** `r` is a successful Step whose state has exactly these fields. */
  predicate IsState(r: Result<Pass1State, Error>, consts: map<string, string>, labels: map<string, nat>,
                    addr: nat, asm: seq<string>, lineMap: seq<nat>) {
    && r.Success? && r.value.consts == consts && r.value.labels == labels
    && r.value.addr == addr && r.value.asm == asm && r.value.lineMap == lineMap
  }

  /** A blank or comment line only has its number recorded. */
  lemma StepSkipped(st: Pass1State, raw: string, lineNum: nat)
    requires IsSkipped(Strip(raw))
    ensures IsState(Step(st, raw, lineNum), st.consts, st.labels, st.addr, st.asm, st.lineMap + [lineNum])
  {
  }

  /** A CONST line records its constant, or fails with the definition's error. */
  lemma StepConst(st: Pass1State, raw: string, lineNum: nat)
    requires !IsSkipped(Strip(raw)) && IsConstLine(Strip(raw))
    ensures var d, r := ConstDefinition(Strip(raw), lineNum, st.consts), Step(st, raw, lineNum);
      if d.Success? then IsState(r, d.value, st.labels, st.addr, st.asm, st.lineMap + [lineNum])
      else r == Failure(d.error)
  {
    var d := ConstDefinition(Strip(raw), lineNum, st.consts);
    if d.Success? {
      assert Step(st, raw, lineNum) == Success(st.(lineMap := st.lineMap + [lineNum], consts := d.value));
    }
  }

  /** A label line binds its label, or fails with the definition's error. */
  lemma StepLabel(st: Pass1State, raw: string, lineNum: nat)
    requires !IsSkipped(Strip(raw)) && !IsConstLine(Strip(raw)) && IsLabelLine(Strip(raw))
    ensures var d, r := LabelDefinition(Strip(raw), lineNum, st.labels, st.addr), Step(st, raw, lineNum);
      if d.Success? then IsState(r, st.consts, d.value, st.addr, st.asm, st.lineMap + [lineNum])
      else r == Failure(d.error)
  {
  }

  /** An instruction line is kept and moves the address by its size, or fails with the sizing error. */
  lemma StepInstruction(st: Pass1State, raw: string, lineNum: nat)
    requires IsInstructionLine(Strip(raw))
    ensures Split(Strip(raw)) != []
    ensures var size, r := InstrSize(Strip(raw), st.consts, lineNum), Step(st, raw, lineNum);
      if size.Success? then IsState(r, st.consts, st.labels, st.addr + size.value, st.asm + [Strip(raw)], st.lineMap + [lineNum])
      else r == Failure(size.error)
  {
    StrippedSplit(raw);
  }

  /** The state of pass 1 after some lines, and the error that stopped it, if any. */
  datatype Pass1Outcome = Pass1Outcome(state: Pass1State, err: Option<Error>)

  /** The function that reads one raw line: Step, or another one for stating facts of any such fold. */
  type StepFunction = (Pass1State, string, nat) -> Result<Pass1State, Error>

  /**
   * A fold of `step` over the first `n` raw lines, numbered from 1. The first error stops the
   * fold, and the state is then the one before the failing line. `Run(Step, init, lines, n)`
   * is pass 1 over the first `n` lines; a failing definition changes no table.
   */
  function Run(step: StepFunction, init: Pass1State, lines: seq<string>, n: nat): Pass1Outcome
    requires n <= |lines|
  {
    if n == 0 then Pass1Outcome(init, None)
    else
      var prev := Run(step, init, lines, n - 1);
      if prev.err.Some? then prev
      else
        match step(prev.state, lines[n - 1], n)
        case Success(st) => Pass1Outcome(st, None)
        case Failure(e) => Pass1Outcome(prev.state, Some(e))
  }

  /** Line `n + 1` advances a run of pass 1 that has not failed by one Step, or stops it with the line's error. */
  lemma Pass1Next(init: Pass1State, lines: seq<string>, n: nat, st: Pass1State)
    requires n < |lines| && Run(Step, init, lines, n) == Pass1Outcome(st, None)
    ensures Run(Step, init, lines, n + 1)
            == match Step(st, lines[n], n + 1)
               case Success(st') => Pass1Outcome(st', None)
               case Failure(e) => Pass1Outcome(st, Some(e))
  {
  }

  /** Once a fold has failed, later lines change nothing: the outcome stays the one of the failing line. */
  lemma {:induction false} RunErrorSticks(step: StepFunction, init: Pass1State, lines: seq<string>, m: nat, n: nat)
    requires m <= n <= |lines| && Run(step, init, lines, m).err.Some?
    ensures Run(step, init, lines, n) == Run(step, init, lines, m)
    decreases n - m
  {
    if m < n {
      RunErrorSticks(step, init, lines, m, n - 1);
    }
  }

  /** Once pass 1 has failed, later lines change nothing. */
  lemma Pass1ErrorSticks(init: Pass1State, lines: seq<string>, m: nat, n: nat)
    requires m <= n <= |lines| && Run(Step, init, lines, m).err.Some?
    ensures Run(Step, init, lines, n) == Run(Step, init, lines, m)
  {
    RunErrorSticks(Step, init, lines, m, n);
  }
}
