/**
 * How the passes fit together. Pass 1 predicts the word count of every instruction line and
 * binds each label to the running count; pass 3 then emits the words. The lemmas here state
 * when the prediction equals what pass 3 emits, line by line and over a whole program, so
 * that a label's address is the index of the first word emitted after it.
 */
module Consistency {
  import opened Wrappers
  import opened Errors
  import opened Lexer
  import opened Bits
  import opened Tables
  import opened Encoding
  import opened EncodingProperties
  import opened Sizing
  import opened Pass1Properties
  import opened Substitution
  import opened Emission


  /**
   * The condition under which pass 1 sizes the last operand as pass 3 later reads it: a
   * constant it names was already defined when pass 1 reached the line, and a label it names
   * (and that is no constant) is not itself spelt as a literal and has an address below 2048.
   */
  predicate ReadsAlike(t: string, sized: map<string, string>, consts: map<string, string>, labels: map<string, nat>) {
    && (t in consts ==> t in sized)
    && (t !in consts && t in labels ==> labels[t] < TwoTo11 && !IsImmediate(t))
  }

  /** ReadsAlike for the last operand of a line, when the line has operands. */
  predicate LastReadsAlike(line: string, sized: map<string, string>, consts: map<string, string>, labels: map<string, nat>) {
    var parts := Split(line);
    |parts| > 1 ==> ReadsAlike(Last(parts[1..]), sized, consts, labels)
  }

  /** The operands pass 3 encodes for a line: substituted by pass 2, with a leading condition removed. */
  function ResolvedOperands(line: string, consts: map<string, string>, labels: map<string, nat>): seq<string>
    requires Split(line) != []
  {
    SplitCondition(SubstAll(Split(line)[1..], consts, labels)).1
  }

  /**
   * The extension word pass 1 counts for a line's operands is the one pass 3 emits for the
   * resolved operands: one exactly when those end in a literal outside [0, 2048).
   */
  lemma ExtensionAgrees(ops: seq<string>, sized: map<string, string>, consts: map<string, string>, labels: map<string, nat>, lineNum: nat)
    requires Extends(consts, sized)
    requires ops != [] ==> ReadsAlike(Last(ops), sized, consts, labels)
    requires var r := SplitCondition(SubstAll(ops, consts, labels)).1; EndsInImmediate(r) ==> ParseInt(Last(r)).Some?
    ensures SizedExtension(ops, sized, lineNum)
            == Success(if EndsInLongImmediate(SplitCondition(SubstAll(ops, consts, labels)).1) then 1 else 0)
  {
    var s := SubstAll(ops, consts, labels);
    var r := SplitCondition(s).1;
    if ops != [] {
      var t := Last(ops);
      assert Last(s) == Subst(t, consts, labels);
      if |s| == 1 && s[0] in ConditionMap {
        // the only operand is a condition: pass 3 is left with no operand at all
        assert r == [];
        NamesAreNotImmediates(s[0]);
        assert !IsImmediate(SizedOperand(ops, sized));
      } else {
        assert r != [] && Last(r) == Last(s);
      }
    }
  }

  /**
   * Sizing agrees with emission for one line. If the resolved line encodes, pass 1 sized the
   * line without error, the line gets that many annotations, and, when the line emits its main
   * word and is no branch to a long literal target, that many words.
   */
  lemma SizingAgrees(line: string, sized: map<string, string>, consts: map<string, string>, labels: map<string, nat>,
                     sizeNum: nat, lineNum: nat, original: string)
    requires Split(line) != [] && ValuesAreTokens(consts) && Extends(consts, sized)
    requires LastReadsAlike(line, sized, consts, labels)
    ensures Split(ResolveLine(line, consts, labels)) != []
    ensures var out := EncodeLine(ResolveLine(line, consts, labels), lineNum, original);
      out.Success? ==>
        && InstrSize(line, sized, sizeNum).Success?
        && |out.value.notes| == InstrSize(line, sized, sizeNum).value
    ensures var out, op, r := EncodeLine(ResolveLine(line, consts, labels), lineNum, original), Opcode(line), ResolvedOperands(line, consts, labels);
      out.Success? && EmitsMainWord(op, r) && !(op in ConditionPseudoInstructions && EndsInLongImmediate(r)) ==>
        |out.value.words| == InstrSize(line, sized, sizeNum).value
  {
    ResolvedParts(line, consts, labels);
    var resolved := ResolveLine(line, consts, labels);
    var ops := Split(line)[1..];
    if EncodeLine(resolved, lineNum, original).Success? {
      LineCounts(resolved, lineNum, original);
      var r := ResolvedOperands(line, consts, labels);
      ExtensionAgrees(ops, sized, consts, labels, sizeNum);
      SizeIsPredicted(line, sized, sizeNum, r);
    }
  }

  /** InstrSize is the count the annotations allow for, once the extension words agree. */
  lemma SizeIsPredicted(line: string, sized: map<string, string>, sizeNum: nat, r: seq<string>)
    requires Split(line) != []
    requires SizedExtension(Split(line)[1..], sized, sizeNum) == Success(if EndsInLongImmediate(r) then 1 else 0)
    ensures InstrSize(line, sized, sizeNum) == Success(PredictedWords(Opcode(line), r))
  {
    InstrSizeParts(line, sized, sizeNum, if EndsInLongImmediate(r) then 1 else 0);
  }

  /** The opcode and the encoded operands of a resolved line, read through its tokens. */
  lemma ResolvedParts(line: string, consts: map<string, string>, labels: map<string, nat>)
    requires Split(line) != [] && ValuesAreTokens(consts)
    ensures Split(ResolveLine(line, consts, labels)) != []
    ensures Split(ResolveLine(line, consts, labels))[0] == Opcode(line)
    ensures SplitCondition(Split(ResolveLine(line, consts, labels))[1..]).1 == ResolvedOperands(line, consts, labels)
  {
    ResolvedTokens(line, consts, labels);
    assert Split(ResolveLine(line, consts, labels))[1..] == SubstAll(Split(line)[1..], consts, labels);
  }

  /** The word and annotation counts of one resolved line that encodes, against the count its annotations allow for. */
  lemma LineCounts(resolved: string, lineNum: nat, original: string)
    requires Split(resolved) != [] && EncodeLine(resolved, lineNum, original).Success?
    ensures var op, r, out := Split(resolved)[0], SplitCondition(Split(resolved)[1..]).1, EncodeLine(resolved, lineNum, original).value;
      && |out.notes| == PredictedWords(op, r)
      && (EndsInImmediate(r) ==> ParseInt(Last(r)).Some?)
      && (EmitsMainWord(op, r) && !(op in ConditionPseudoInstructions && EndsInLongImmediate(r)) ==> |out.words| == PredictedWords(op, r))
  {
    var parts := Split(resolved);
    var op := parts[0];
    var (cond, r) := SplitCondition(parts[1..]);
    var words := EncodeOp(op, cond, r, lineNum);
    assert words.Success? && EncodeLine(resolved, lineNum, original).value.words == words.value;
    NotesCount(op, r, original, lineNum);
    if EndsInImmediate(r) {
      LastOperandParses(op, cond, r, lineNum);
    }
    if EmitsMainWord(op, r) && !(op in ConditionPseudoInstructions && EndsInLongImmediate(r)) {
      WordCount(op, cond, r, lineNum);
    }
  }

  // ---------------------------------------------------------------------------------------
  // The whole program

  /** The state pass 1 starts from: both tables empty. */
  const Empty: Pass1State := Start(map[], map[])

  /**
   * Raw line `k + 1` is sized as pass 3 reads it: if pass 1 (a fold of `step`, Step in the
   * assembler) reaches the line and keeps it, its
   * last operand reads alike against the constants defined before it and the final tables.
   */
  predicate SizedAlikeAt(step: StepFunction, lines: seq<string>, k: nat, consts: map<string, string>, labels: map<string, nat>)
    requires k < |lines|
  {
    var o := Run(step, Empty, lines, k);
    o.err.None? && Kept(lines[k]) != [] ==> LastReadsAlike(Strip(lines[k]), o.state.consts, consts, labels)
  }

  /** What pass 2 hands to pass 3: every kept line resolved against the final tables. */
  predicate Resolves(resolved: seq<string>, final: Pass1State) {
    && |resolved| == |final.asm|
    && forall i | 0 <= i < |final.asm| :: Split(final.asm[i]) != [] && resolved[i] == ResolveLine(final.asm[i], final.consts, final.labels)
  }

  /** A kept line whose word count equals its annotation count: it emits its main word and is no branch to a long literal. */
  predicate EmitsFully(line: string, consts: map<string, string>, labels: map<string, nat>)
    requires Split(line) != []
  {
    var op, r := Opcode(line), ResolvedOperands(line, consts, labels);
    EmitsMainWord(op, r) && !(op in ConditionPseudoInstructions && EndsInLongImmediate(r))
  }

  predicate AllEmitFully(asm: seq<string>, n: nat, consts: map<string, string>, labels: map<string, nat>)
    requires n <= |asm| && forall i | 0 <= i < |asm| :: Split(asm[i]) != []
  {
    forall i | 0 <= i < n :: EmitsFully(asm[i], consts, labels)
  }

  /**
   * A pass 1 that goes through hands pass 3 what it indexes: a line number and an original line
   * for every kept line, each with an opcode; the constant values it stored are tokens.
   */
  lemma Pass1Hands(lines: seq<string>, resolved: seq<string>)
    requires Run(Step, Empty, lines, |lines|).err.None?
    ensures var f := Run(Step, Empty, lines, |lines|).state;
      && |f.asm| <= |f.lineMap| && ValuesAreTokens(f.consts)
      && forall i | 0 <= i < |f.asm| :: Split(f.asm[i]) != []
    ensures var f := Run(Step, Empty, lines, |lines|).state;
      Resolves(resolved, f) ==> WellFormedInput(resolved, f.lineMap, f.asm)
  {
    var f := Run(Step, Empty, lines, |lines|).state;
    Pass1Shape(map[], map[], lines, |lines|);
    InstructionLinesAreInstructions(lines, |lines|);
    assert forall i | 0 <= i < |f.asm| :: Split(f.asm[i]) != [] by {
      forall i | 0 <= i < |f.asm| ensures Split(f.asm[i]) != [] {
        assert f.asm[i] in InstructionLines(lines, |lines|);
      }
    }
    if Resolves(resolved, f) {
      forall i | 0 <= i < |resolved| ensures Split(resolved[i]) != [] {
        ResolvedParts(f.asm[i], f.consts, f.labels);
      }
    }
  }

  /**
   * What reading raw line `n` (following line `m`) must do for the address invariant to carry
   * over it, stated for any fold `step` and any encoder: the fold reaches line `m` without
   * error, keeps at most this one line, leaves the address alone when it keeps nothing, and
   * otherwise moves it by the number of annotations the encoder emits for the kept line.
   */
  ghost predicate LineAgrees(step: StepFunction, encode: LineEncoder, lines: seq<string>, resolved: seq<string>, m: nat, n: nat) {
    n == m + 1 <= |lines| &&
    var prev, st, f := Run(step, Empty, lines, m), Run(step, Empty, lines, n), Run(step, Empty, lines, |lines|).state;
    |resolved| == |f.asm| <= |f.lineMap| &&
    (st.err.None? ==>
      && prev.err.None?
      && |prev.state.asm| <= |st.state.asm| <= |prev.state.asm| + 1 && |st.state.asm| <= |f.asm|
      && (|st.state.asm| == |prev.state.asm| ==> st.state.addr == prev.state.addr)
      && (|st.state.asm| == |prev.state.asm| + 1 ==>
            var j := |prev.state.asm|;
            var out := encode(resolved[j], f.lineMap[j], f.asm[j]);
            out.Success? ==> st.state.addr == prev.state.addr + |out.value.notes|))
  }

  /**
   * The address invariant, for any fold and encoder that agree line by line: after the first
   * `n` raw lines, the address reached is the number of annotations emitted for the lines kept
   * so far.
   */
  lemma {:induction false} AddressInvariant(step: StepFunction, encode: LineEncoder, lines: seq<string>, resolved: seq<string>, n: nat)
    requires n <= |lines| && Run(step, Empty, lines, n).err.None?
    requires var f := Run(step, Empty, lines, |lines|).state; |resolved| == |f.asm| <= |f.lineMap|
    requires forall m: nat, k: nat | k == m + 1 <= n :: LineAgrees(step, encode, lines, resolved, m, k)
    ensures var f, st := Run(step, Empty, lines, |lines|).state, Run(step, Empty, lines, n).state;
      && |st.asm| <= |f.asm|
      && var out := Emit(encode, resolved, f.lineMap, f.asm, |st.asm|);
         out.Success? ==> |out.value.notes| == st.addr
  {
    if n > 0 {
      // the previous line is named by a variable, so that the facts about it match syntactically
      var m: nat := n - 1;
      assert LineAgrees(step, encode, lines, resolved, m, n);
      AddressInvariant(step, encode, lines, resolved, m);
      var f, prev, st := Run(step, Empty, lines, |lines|).state, Run(step, Empty, lines, m).state, Run(step, Empty, lines, n).state;
      if |st.asm| == |prev.asm| + 1 && Emit(encode, resolved, f.lineMap, f.asm, |st.asm|).Success? {
        EmitStep(encode, resolved, f.lineMap, f.asm, |st.asm|);
      }
    }
  }

  /** What the final state of a growing fold keeps of the states before and after raw line `n` (following line `m`). */
  lemma LaterTables(step: StepFunction, lines: seq<string>, m: nat, n: nat)
    requires AlwaysGrows(step) && n == m + 1 <= |lines| && Run(step, Empty, lines, |lines|).err.None?
    ensures Run(step, Empty, lines, n).err.None?
    ensures var prev, st, f := Run(step, Empty, lines, m).state, Run(step, Empty, lines, n).state, Run(step, Empty, lines, |lines|).state;
      && |st.asm| <= |f.asm| && (|prev.asm| < |st.asm| ==> f.asm[|prev.asm|] == st.asm[|prev.asm|])
      && Extends(f.consts, prev.consts)
  {
    RunGrows(step, Empty, lines, n, |lines|);
    RunGrows(step, Empty, lines, m, |lines|);
  }

  /** Pass 1 and pass 3 agree on raw line `n`, provided pass 1 sized it as pass 3 reads it. */
  lemma LineAgreesAt(lines: seq<string>, resolved: seq<string>, m: nat, n: nat)
    requires n == m + 1 <= |lines| && Run(Step, Empty, lines, |lines|).err.None?
    requires var f := Run(Step, Empty, lines, |lines|).state;
      && Resolves(resolved, f) && |f.asm| <= |f.lineMap| && ValuesAreTokens(f.consts)
      && SizedAlikeAt(Step, lines, m, f.consts, f.labels)
    ensures LineAgrees(Step, EncodeAny, lines, resolved, m, n)
  {
    StepAdvances();
    StepSizes();
    LaterTables(Step, lines, m, n);
    StepAddress(Step, Empty, lines, m, n);
    var f, prev, st := Run(Step, Empty, lines, |lines|).state, Run(Step, Empty, lines, m).state, Run(Step, Empty, lines, n).state;
    if Kept(lines[m]) != [] {
      var j := |prev.asm|;
      assert f.asm[j] == st.asm[j] == Strip(lines[m]);
      SizingAgrees(f.asm[j], prev.consts, f.consts, f.labels, n, f.lineMap[j], f.asm[j]);
    }
  }

  /** Every raw line up to `n` agrees, when pass 1 sized each as pass 3 reads it. */
  lemma AllLinesAgree(lines: seq<string>, resolved: seq<string>, n: nat)
    requires n <= |lines| && Run(Step, Empty, lines, |lines|).err.None?
    requires var f := Run(Step, Empty, lines, |lines|).state;
      && Resolves(resolved, f) && |f.asm| <= |f.lineMap| && ValuesAreTokens(f.consts)
      && forall k | 0 <= k < n :: SizedAlikeAt(Step, lines, k, f.consts, f.labels)
    ensures forall m: nat, k: nat | k == m + 1 <= n :: LineAgrees(Step, EncodeAny, lines, resolved, m, k)
  {
    forall m: nat, k: nat | k == m + 1 <= n
      ensures LineAgrees(Step, EncodeAny, lines, resolved, m, k)
    {
      LineAgreesAt(lines, resolved, m, k);
    }
  }

  /** A kept line that emits fully has as many words as annotations. */
  lemma FullLine(line: string, consts: map<string, string>, labels: map<string, nat>, lineNum: nat, original: string)
    requires Split(line) != [] && ValuesAreTokens(consts) && EmitsFully(line, consts, labels)
    ensures var out := EncodeAny(ResolveLine(line, consts, labels), lineNum, original);
      out.Success? ==> |out.value.words| == |out.value.notes|
  {
    ResolvedParts(line, consts, labels);
    var resolved := ResolveLine(line, consts, labels);
    if EncodeAny(resolved, lineNum, original).Success? {
      LineCounts(resolved, lineNum, original);
    }
  }

  /** Over the first `n` kept lines, all emitting fully, pass 3 emits as many words as annotations. */
  lemma FullWords(lines: seq<string>, resolved: seq<string>, n: nat)
    requires Run(Step, Empty, lines, |lines|).err.None?
    requires var f := Run(Step, Empty, lines, |lines|).state;
      && Resolves(resolved, f) && |f.asm| <= |f.lineMap| && ValuesAreTokens(f.consts)
      && n <= |f.asm| && AllEmitFully(f.asm, n, f.consts, f.labels)
    ensures var f := Run(Step, Empty, lines, |lines|).state;
      var out := Emit(EncodeAny, resolved, f.lineMap, f.asm, n);
      out.Success? ==> |out.value.words| == |out.value.notes|
  {
    var f := Run(Step, Empty, lines, |lines|).state;
    forall i | 0 <= i < n
      ensures var out := EncodeAny(resolved[i], f.lineMap[i], f.asm[i]); out.Success? ==> |out.value.words| == |out.value.notes|
    {
      FullLine(f.asm[i], f.consts, f.labels, f.lineMap[i], f.asm[i]);
    }
    EmitWordsMatchNotes(EncodeAny, resolved, f.lineMap, f.asm, n);
  }

  /**
   * Over a whole program that passes 1 and 3 accept, the annotation list has one entry per
   * word address that pass 1 counted, and so does the word list when every line emits fully.
   */
  lemma ProgramSize(lines: seq<string>, resolved: seq<string>)
    requires Run(Step, Empty, lines, |lines|).err.None?
    requires var f := Run(Step, Empty, lines, |lines|).state;
      && Resolves(resolved, f)
      && forall k | 0 <= k < |lines| :: SizedAlikeAt(Step, lines, k, f.consts, f.labels)
    ensures var f := Run(Step, Empty, lines, |lines|).state;
      && WellFormedInput(resolved, f.lineMap, f.asm)
      && var out := Pass3Upto(resolved, f.lineMap, f.asm, |f.asm|);
         out.Success? ==>
           && |out.value.notes| == f.addr
           && (AllEmitFully(f.asm, |f.asm|, f.consts, f.labels) ==> |out.value.words| == f.addr)
  {
    var f := Run(Step, Empty, lines, |lines|).state;
    Pass1Hands(lines, resolved);
    AllLinesAgree(lines, resolved, |lines|);
    AddressInvariant(Step, EncodeAny, lines, resolved, |lines|);
    if AllEmitFully(f.asm, |f.asm|, f.consts, f.labels) {
      FullWords(lines, resolved, |f.asm|);
    }
  }

  /**
   * A label is the index of the first word after it: the address bound to a label line is the
   * number of annotations, and of words when every line emits fully, that pass 3 emits for the
   * instruction lines before the label.
   */
  lemma LabelIsWordIndex(lines: seq<string>, resolved: seq<string>, k: nat)
    requires k < |lines| && Run(Step, Empty, lines, |lines|).err.None?
    requires var line := Strip(lines[k]); !IsSkipped(line) && !IsConstLine(line) && IsLabelLine(line)
    requires var f := Run(Step, Empty, lines, |lines|).state;
      && Resolves(resolved, f)
      && forall i | 0 <= i < k :: SizedAlikeAt(Step, lines, i, f.consts, f.labels)
    ensures var f, before := Run(Step, Empty, lines, |lines|).state, |Run(Step, Empty, lines, k).state.asm|;
      && LabelName(Strip(lines[k])) in f.labels
      && before <= |f.asm| && WellFormedInput(resolved, f.lineMap, f.asm)
      && (Pass3Upto(resolved, f.lineMap, f.asm, |f.asm|).Success? ==>
            && Pass3Upto(resolved, f.lineMap, f.asm, before).Success?
            && |Pass3Upto(resolved, f.lineMap, f.asm, before).value.notes| == f.labels[LabelName(Strip(lines[k]))]
            && (AllEmitFully(f.asm, |f.asm|, f.consts, f.labels) ==>
                  |Pass3Upto(resolved, f.lineMap, f.asm, before).value.words| == f.labels[LabelName(Strip(lines[k]))]))
  {
    var f := Run(Step, Empty, lines, |lines|).state;
    Pass1Hands(lines, resolved);
    LabelBinding(Empty, lines, k);
    Pass1Grows(Empty, lines, k, |lines|);
    AllLinesAgree(lines, resolved, k);
    AddressInvariant(Step, EncodeAny, lines, resolved, k);
    var before := |Run(Step, Empty, lines, k).state.asm|;
    if Pass3Upto(resolved, f.lineMap, f.asm, |f.asm|).Success? {
      Pass3Prefix(resolved, f.lineMap, f.asm, before, |f.asm|);
      if AllEmitFully(f.asm, |f.asm|, f.consts, f.labels) {
        assert AllEmitFully(f.asm, before, f.consts, f.labels);
        FullWords(lines, resolved, before);
      }
    }
  }
}
