/**
 * What the encoding of one instruction promises: which table its mnemonic is dispatched to,
 * how many words it emits, where its fields stand, how a conditional branch and CMP expand,
 * how an immediate is placed, which forms emit no word, and which operand lists are refused.
 */
module EncodingProperties {
  import opened Wrappers
  import opened Errors
  import opened Bits
  import opened Lexer
  import opened Tables
  import opened Encoding

  // ---------------------------------------------------------------------------------------
  // Dispatch

  lemma DispatchBranch(op: string, cond: string, ops: seq<string>, line: nat)
    requires IsCond(cond) && op in ConditionPseudoInstructions
    ensures IsCond(ConditionPseudoInstructions[op])
    ensures EncodeOp(op, cond, ops, line) == EncodeBranch(ConditionPseudoInstructions[op], ops, line)
  {
    TableCodeWidths();
    CodeWidth(ConditionPseudoInstructions, 3, op);
  }

  lemma DispatchPseudo(op: string, cond: string, ops: seq<string>, line: nat)
    requires IsCond(cond) && op in PseudoInstructions
    ensures IsOpcode(PseudoInstructions[op])
    ensures EncodeOp(op, cond, ops, line) == EncodePseudo(op, PseudoInstructions[op], cond, ops, line)
  {
    TableCodeWidths();
    CodeWidth(PseudoInstructions, 6, op);
    TablesDisjoint(op);
  }

  lemma DispatchReal(op: string, cond: string, ops: seq<string>, line: nat)
    requires IsCond(cond) && op in OpcodeMap
    ensures IsOpcode(OpcodeMap[op])
    ensures EncodeOp(op, cond, ops, line) == EncodeReal(op, OpcodeMap[op], cond, ops, line)
  {
    TableCodeWidths();
    CodeWidth(OpcodeMap, 6, op);
    TablesDisjoint(op);
  }

  // ---------------------------------------------------------------------------------------
  // Word counts

  predicate EndsInImmediate(ops: seq<string>) {
    ops != [] && IsImmediate(Last(ops))
  }

  /**
   * False for the forms that emit no word of their own: a real opcode without a register form
   * used without an immediate, and the two-operand immediate form of any real opcode other
   * than CMP, SW, PSET and NOT.
   */
  predicate EmitsMainWord(op: string, ops: seq<string>) {
    op in OpcodeMap ==>
      if EndsInImmediate(ops) then |ops| != 2 || op in NoDestinationOps || op == "NOT"
      else RegisterFormArity(op).Some?
  }

  /** The word count that the annotations of a line allow for: one, plus one for a long last immediate, one after CMP, two after a branch. */
  function PredictedWords(op: string, ops: seq<string>): nat {
    1 + (if EndsInLongImmediate(ops) then 1 else 0)
      + (if op == "CMP" then 1 else 0)
      + (if op in ConditionPseudoInstructions then 2 else 0)
  }

  lemma RealWordCount(op: string, code: string, cond: string, ops: seq<string>, line: nat)
    requires IsOpcode(code) && IsCond(cond) && EncodeReal(op, code, cond, ops, line).Success?
    requires EndsInImmediate(ops) ==> |ops| != 2 || op in NoDestinationOps || op == "NOT"
    requires !EndsInImmediate(ops) ==> RegisterFormArity(op).Some?
    ensures |EncodeReal(op, code, cond, ops, line).value|
            == 1 + (if EndsInLongImmediate(ops) then 1 else 0) + (if op == "CMP" then 1 else 0)
  {
    if EndsInImmediate(ops) {
      var v := ParseInt(Last(ops)).value;
      var (f, ext) := ImmediateField(v);
      assert |ext| == if InShortRange(v) then 0 else 1;
    }
  }

  lemma PseudoWordCount(op: string, code: string, cond: string, ops: seq<string>, line: nat)
    requires op in PseudoInstructions
    requires IsOpcode(code) && IsCond(cond) && EncodePseudo(op, code, cond, ops, line).Success?
    ensures |EncodePseudo(op, code, cond, ops, line).value| == 1 + (if EndsInLongImmediate(ops) then 1 else 0)
  {
    if op == "MOV" {
      assert Last(ops) == Last([ops[1]]);
    } else if op == "SQ" {
      assert ParseRegister(ops[1], line).Success?;
      NamesAreNotImmediates(Last(ops));
    } else if op == "INC" || op == "DEC" || op == "CLR" || op == "GET" {
      assert ParseRegister(ops[0], line).Success?;
      NamesAreNotImmediates(Last(ops));
    } else {
      assert ops == [ops[0]];
    }
  }

  /** The number of words an instruction emits, for every form that emits its own word and is not a branch with a long target. */
  lemma WordCount(op: string, cond: string, ops: seq<string>, line: nat)
    requires IsCond(cond) && EncodeOp(op, cond, ops, line).Success?
    requires EmitsMainWord(op, ops)
    requires !(op in ConditionPseudoInstructions && EndsInLongImmediate(ops))
    ensures |EncodeOp(op, cond, ops, line).value| == PredictedWords(op, ops)
  {
    TablesDisjoint(op);
    if op in ConditionPseudoInstructions {
      DispatchBranch(op, cond, ops, line);
      BranchInitial(op);
    } else if op in PseudoInstructions {
      DispatchPseudo(op, cond, ops, line);
      PseudoWordCount(op, PseudoInstructions[op], cond, ops, line);
      OtherInitial(op);
      PseudoEnds(op);
    } else {
      DispatchReal(op, cond, ops, line);
      RealWordCount(op, OpcodeMap[op], cond, ops, line);
      OtherInitial(op);
    }
  }

  /** Pass 3 gives every line one annotation for each word the pass-1 formula counts: the line's text, then empty entries. */
  lemma NotesCount(op: string, ops: seq<string>, original: string, line: nat)
    requires Annotations(op, ops, original, line).Success?
    ensures var notes := Annotations(op, ops, original, line).value;
      |notes| == PredictedWords(op, ops) && notes[0] == original
      && forall i | 1 <= i < |notes| :: notes[i] == ""
  {
  }

  /** An instruction that encodes has read its last operand with `int(x, 0)` whenever that operand is an immediate. */
  lemma LastOperandParses(op: string, cond: string, ops: seq<string>, line: nat)
    requires IsCond(cond) && EncodeOp(op, cond, ops, line).Success? && EndsInImmediate(ops)
    ensures ParseInt(Last(ops)).Some?
  {
    TablesDisjoint(op);
    if op in ConditionPseudoInstructions {
      DispatchBranch(op, cond, ops, line);
    } else if op in PseudoInstructions {
      DispatchPseudo(op, cond, ops, line);
      if op == "MOV" {
        assert Last(ops) == ops[1];
      } else if op == "SQ" {
        assert ParseRegister(ops[1], line).Success?;
        NamesAreNotImmediates(Last(ops));
      } else if op == "INC" || op == "DEC" || op == "CLR" || op == "GET" {
        assert ParseRegister(ops[0], line).Success?;
        NamesAreNotImmediates(Last(ops));
      } else {
        assert ops == [ops[0]];
      }
    } else {
      DispatchReal(op, cond, ops, line);
    }
  }

  /** The annotations of a line that encodes never fail: the literal they re-read has already been read. */
  lemma AnnotationsFollow(op: string, cond: string, ops: seq<string>, original: string, line: nat)
    requires IsCond(cond) && EncodeOp(op, cond, ops, line).Success?
    ensures Annotations(op, ops, original, line).Success?
  {
    if EndsInImmediate(ops) {
      LastOperandParses(op, cond, ops, line);
    }
  }

  // ---------------------------------------------------------------------------------------
  // Layout of the first word

  /** The opcode bits of the first word an instruction emits. */
  function OpcodeBits(op: string): string {
    if op in ConditionPseudoInstructions then CmpCode
    else if op in PseudoInstructions then PseudoInstructions[op]
    else if op in OpcodeMap then OpcodeMap[op]
    else ""
  }

  lemma RealFirstWord(op: string, code: string, cond: string, ops: seq<string>, line: nat)
    requires IsOpcode(code) && IsCond(cond) && EncodeReal(op, code, cond, ops, line).Success?
    requires EndsInImmediate(ops) ==> |ops| != 2 || op in NoDestinationOps || op == "NOT"
    requires !EndsInImmediate(ops) ==> RegisterFormArity(op).Some?
    ensures var words := EncodeReal(op, code, cond, ops, line).value;
      words != [] && words[0][..9] == code + cond
  {
    RealWordCount(op, code, cond, ops, line);
  }

  lemma SlicePrefix(w: string, a: string, b: string)
    requires |a| == 6 && |b| == 3 && |w| >= 9 && w[..9] == a + b
    ensures w[..6] == a && w[6..9] == b
  {
    assert w[..6] == w[..9][..6];
    assert w[6..9] == w[..9][6..];
  }

  /**
   * A leading operand found in the condition table is dropped from the operands and its code
   * fills the cond field of the first word; without one the field is 000. The opcode field
   * holds the mnemonic's code, and a branch's first word is a compare with cond 000.
   */
  lemma ConditionPrefix(line: string, lineNum: nat, original: string)
    requires Split(line) != [] && EncodeLine(line, lineNum, original).Success?
    requires EmitsMainWord(Opcode(line), Operands(line))
    ensures var raw := Split(line)[1..];
      var op := Opcode(line);
      var words := EncodeLine(line, lineNum, original).value.words;
      && Operands(line) == (if raw != [] && raw[0] in ConditionMap then raw[1..] else raw)
      && words != []
      && words[0][..6] == OpcodeBits(op)
      && words[0][6..9] == (if op in ConditionPseudoInstructions then "000"
                            else if raw != [] && raw[0] in ConditionMap then ConditionMap[raw[0]]
                            else "000")
  {
    var op := Opcode(line);
    var (cond, ops) := SplitCondition(Split(line)[1..]);
    var words := EncodeOp(op, cond, ops, lineNum).value;
    TablesDisjoint(op);
    BranchCodeWidths();
    if op in ConditionPseudoInstructions {
      DispatchBranch(op, cond, ops, lineNum);
      SlicePrefix(words[0], CmpCode, "000");
    } else if op in PseudoInstructions {
      DispatchPseudo(op, cond, ops, lineNum);
      SlicePrefix(words[0], PseudoInstructions[op], cond);
    } else {
      DispatchReal(op, cond, ops, lineNum);
      RealFirstWord(op, OpcodeMap[op], cond, ops, lineNum);
      SlicePrefix(words[0], OpcodeMap[op], cond);
    }
  }

  // ---------------------------------------------------------------------------------------
  // Conditional branches and CMP

  /**
   * A conditional branch takes three operands and emits a compare word, an all-zero word and a
   * jump word carrying the branch's code, whatever condition prefix it was written with.
   */
  lemma BranchExpansion(op: string, cond: string, ops: seq<string>, line: nat)
    requires IsCond(cond) && op in ConditionPseudoInstructions
    ensures |ops| != 3 ==> EncodeOp(op, cond, ops, line) == Failure(Error(Arity, line))
    ensures |ops| == 3 && ops[0] !in RegisterMap ==> EncodeOp(op, cond, ops, line) == Failure(Error(UnknownRegister, line))
    ensures |ops| == 3 && ops[0] in RegisterMap && ParseInt(ops[2]).None? ==> EncodeOp(op, cond, ops, line) == Failure(Error(BadLiteral, line))
    ensures |ops| == 3 && ops[0] in RegisterMap && ParseInt(ops[2]).Some? && !IsSource(ops[1]) ==>
      EncodeOp(op, cond, ops, line) == Failure(Error(if IsImmediate(ops[1]) then BadLiteral else UnknownRegister, line))
    ensures EncodeOp(op, cond, ops, line).Success? ==>
      var words := EncodeOp(op, cond, ops, line).value;
      && |ops| == 3 && ops[0] in RegisterMap && ParseInt(ops[2]).Some?
      && |words| == 3
      && Decode(words[0]) == Some(Fields(CmpCode, "000", 0, RegisterMap[ops[0]],
                                        if IsImmediate(ops[1]) then Short(ParseInt(ops[1]).value % TwoTo11)
                                        else Register(RegisterMap[ops[1]])))
      && words[1] == ZeroWord
      && Decode(words[2]) == Some(Fields(JmpCode, ConditionPseudoInstructions[op], 0, 0,
                                        Short(ParseInt(ops[2]).value % TwoTo11)))
  {
    DispatchBranch(op, cond, ops, line);
    if EncodeOp(op, cond, ops, line).Success? {
      BranchDecodes(op, cond, ops, line);
    }
  }

  /** The three words of a conditional branch that encodes. */
  lemma BranchDecodes(op: string, cond: string, ops: seq<string>, line: nat)
    requires IsCond(cond) && op in ConditionPseudoInstructions && EncodeOp(op, cond, ops, line).Success?
    ensures var words := EncodeOp(op, cond, ops, line).value;
      && |ops| == 3 && ops[0] in RegisterMap && ParseInt(ops[2]).Some?
      && |words| == 3
      && Decode(words[0]) == Some(Fields(CmpCode, "000", 0, RegisterMap[ops[0]],
                                        if IsImmediate(ops[1]) then Short(ParseInt(ops[1]).value % TwoTo11)
                                        else Register(RegisterMap[ops[1]])))
      && words[1] == ZeroWord
      && Decode(words[2]) == Some(Fields(JmpCode, ConditionPseudoInstructions[op], 0, 0,
                                        Short(ParseInt(ops[2]).value % TwoTo11)))
  {
    DispatchBranch(op, cond, ops, line);
    var code := ConditionPseudoInstructions[op];
    var r := EncodeBranch(code, ops, line);
    BranchCodeWidths();
    var rs1 := RegisterMap[ops[0]];
    var target := ParseInt(ops[2]).value;
    var cmp := CompareOperand(ops[1], line).value;
    assert r.value == [MainWord(CmpCode, "000", 0, rs1, cmp), ZeroWord, MainWord(JmpCode, code, 0, 0, Short(target % TwoTo11))];
    DecodeMainWord(CmpCode, "000", 0, rs1, cmp);
    DecodeMainWord(JmpCode, code, 0, 0, Short(target % TwoTo11));
  }

  lemma CompareIsReal()
    ensures "CMP" in OpcodeMap && OpcodeMap["CMP"] == CmpCode && "CMP" in NoDestinationOps
  {
  }

  /** CMP always ends with an all-zero filler word, after its extension word if it has one. */
  lemma CompareWords(cond: string, ops: seq<string>, line: nat)
    requires IsCond(cond) && EncodeOp("CMP", cond, ops, line).Success?
    ensures var words := EncodeOp("CMP", cond, ops, line).value;
      && |words| == (if EndsInLongImmediate(ops) then 3 else 2)
      && words[0][..6] == CmpCode
      && words[|words| - 1] == ZeroWord
  {
    CompareIsReal();
    DispatchReal("CMP", cond, ops, line);
    RealWordCount("CMP", CmpCode, cond, ops, line);
    RealFirstWord("CMP", CmpCode, cond, ops, line);
    var words := EncodeOp("CMP", cond, ops, line).value;
    assert words[0][..6] == words[0][..9][..6];
  }

  // ---------------------------------------------------------------------------------------
  // Immediates

  lemma RealImmediate(op: string, code: string, cond: string, ops: seq<string>, line: nat)
    requires IsOpcode(code) && IsCond(cond) && EncodeReal(op, code, cond, ops, line).Success?
    requires EndsInImmediate(ops) && (|ops| != 2 || op in NoDestinationOps || op == "NOT")
    ensures ParseInt(Last(ops)).Some?
    ensures var words := EncodeReal(op, code, cond, ops, line).value;
      var v := ParseInt(Last(ops)).value;
      && words != [] && words[0][19..] == FieldBits(ImmediateField(v).0)
      && (!InShortRange(v) ==> |words| >= 2 && words[1] == ExtWord(v))
  {
  }

  lemma PseudoImmediate(op: string, code: string, cond: string, ops: seq<string>, line: nat)
    requires op == "MOV" || op == "SETCOLOR"
    requires IsOpcode(code) && IsCond(cond) && EncodePseudo(op, code, cond, ops, line).Success?
    requires EndsInImmediate(ops)
    ensures ParseInt(Last(ops)).Some?
    ensures var words := EncodePseudo(op, code, cond, ops, line).value;
      var v := ParseInt(Last(ops)).value;
      && words != [] && words[0][19..] == FieldBits(ImmediateField(v).0)
      && (!InShortRange(v) ==> |words| >= 2 && words[1] == ExtWord(v))
  {
    var src := if op == "MOV" then ops[1] else ops[0];
    assert Last(ops) == src && Last([src]) == src;
  }

  /**
   * The immediate last operand of a real opcode, MOV or SETCOLOR: below 2048 and not negative
   * it fills the operand field as 10 and its 11 bits; otherwise the field is 01 and eleven
   * zeros and the next word holds the value modulo 2^32.
   */
  lemma ImmediateOperand(op: string, cond: string, ops: seq<string>, line: nat)
    requires IsCond(cond) && (op in OpcodeMap || op == "MOV" || op == "SETCOLOR")
    requires EncodeOp(op, cond, ops, line).Success? && EmitsMainWord(op, ops) && EndsInImmediate(ops)
    ensures ParseInt(Last(ops)).Some?
    ensures var words := EncodeOp(op, cond, ops, line).value;
      var v := ParseInt(Last(ops)).value;
      && words != []
      && (InShortRange(v) ==> words[0][19..] == "10" + Bin(v, 11) && FromBin(words[0][21..]) == v)
      && (!InShortRange(v) ==> words[0][19..] == "01" + Zeros11 && |words| >= 2
                                && words[1] == ExtWord(v) && FromBin(words[1]) == Mask32(v))
  {
    ImmediateLayout(op, cond, ops, line);
    var words := EncodeOp(op, cond, ops, line).value;
    var v := ParseInt(Last(ops)).value;
    if InShortRange(v) {
      Pow2Widths();
      assert words[0][21..] == words[0][19..][2..] == Bin(v, 11);
      FromBinBinExact(v, 11);
    } else {
      ExtWordValue(v);
    }
  }

  /** The fields of ImmediateOperand as bit strings, before their values are read back. */
  lemma ImmediateLayout(op: string, cond: string, ops: seq<string>, line: nat)
    requires IsCond(cond) && (op in OpcodeMap || op == "MOV" || op == "SETCOLOR")
    requires EncodeOp(op, cond, ops, line).Success? && EmitsMainWord(op, ops) && EndsInImmediate(ops)
    ensures ParseInt(Last(ops)).Some?
    ensures var words := EncodeOp(op, cond, ops, line).value;
      var v := ParseInt(Last(ops)).value;
      && words != []
      && (InShortRange(v) ==> words[0][19..] == "10" + Bin(v, 11))
      && (!InShortRange(v) ==> words[0][19..] == "01" + Zeros11 && |words| >= 2 && words[1] == ExtWord(v))
  {
    if op in OpcodeMap {
      DispatchReal(op, cond, ops, line);
      RealImmediate(op, OpcodeMap[op], cond, ops, line);
    } else {
      assert op in PseudoInstructions;
      DispatchPseudo(op, cond, ops, line);
      PseudoImmediate(op, PseudoInstructions[op], cond, ops, line);
    }
  }

  /** A decimal immediate with a superfluous leading zero passes is_immediate but not int(x, 0): the line is refused. */
  lemma LeadingZeroImmediateRefused(op: string, cond: string, ops: seq<string>, line: nat)
    requires IsCond(cond) && op in OpcodeMap && EndsInImmediate(ops) && IsLeadingZeroDecimal(Last(ops))
    ensures EncodeOp(op, cond, ops, line) == Failure(Error(BadLiteral, line))
  {
    ImmediateParses(Last(ops));
    DispatchReal(op, cond, ops, line);
  }

  // ---------------------------------------------------------------------------------------
  // Forms that emit no word of their own

  /** Of the real opcodes, exactly NEG, ASHR, JMP and CALL have no register form. */
  lemma UnwiredOpcodes(op: string)
    requires op in OpcodeMap
    ensures RegisterFormArity(op).None? <==> op in UnwiredOps
  {
  }

  lemma UnwiredAreReal(op: string)
    requires op in UnwiredOps
    ensures op in OpcodeMap && op != "CMP"
  {
  }

  lemma UnwiredRegisterForm(op: string, code: string, cond: string, ops: seq<string>, line: nat)
    requires IsOpcode(code) && IsCond(cond) && RegisterFormArity(op).None?
    ensures RegisterFormWords(op, code, cond, ops, line) == Success([])
  {
  }

  /** NEG, ASHR, JMP and CALL without an immediate emit no word, yet the line keeps its annotation. */
  lemma UnwiredOpcodesEmitNothing(op: string, cond: string, ops: seq<string>, original: string, line: nat)
    requires IsCond(cond) && op in UnwiredOps && !EndsInImmediate(ops)
    ensures EncodeOp(op, cond, ops, line) == Success([])
    ensures Annotations(op, ops, original, line) == Success([original])
  {
    UnwiredAreReal(op);
    TablesDisjoint(op);
    UnwiredOpcodes(op);
    DispatchReal(op, cond, ops, line);
    UnwiredRegisterForm(op, OpcodeMap[op], cond, ops, line);
    assert LongImmediatePadding(ops, line) == Success([]);
    assert [original] + [] + [] + [] == [original];
  }

  /** The two-operand immediate form of a real opcode other than CMP, SW, PSET and NOT emits only the extension word, if any. */
  lemma TwoOperandImmediateForm(op: string, cond: string, ops: seq<string>, line: nat)
    requires IsCond(cond) && op in OpcodeMap && op !in NoDestinationOps && op != "NOT"
    requires |ops| == 2 && IsImmediate(ops[1]) && ParseInt(ops[1]).Some?
    ensures var v := ParseInt(ops[1]).value;
      EncodeOp(op, cond, ops, line) == Success(if InShortRange(v) then [] else [ExtWord(v)])
  {
    DispatchReal(op, cond, ops, line);
    var v := ParseInt(ops[1]).value;
    var ext := ImmediateField(v).1;
    assert Last(ops) == ops[1];
    assert ImmediateFormWord(op, OpcodeMap[op], cond, ops, ImmediateField(v).0, line) == Success([]);
    assert [] + ext + [] == ext;
  }

  // ---------------------------------------------------------------------------------------
  // Errors

  /** MOV and SQ take two operands, the other pseudo-instructions one; any other count is an Arity error. */
  lemma PseudoArityErrors(op: string, cond: string, ops: seq<string>, line: nat)
    requires IsCond(cond) && op in PseudoInstructions
    ensures |ops| != (if op == "MOV" || op == "SQ" then 2 else 1) ==> EncodeOp(op, cond, ops, line) == Failure(Error(Arity, line))
  {
    DispatchPseudo(op, cond, ops, line);
  }

  /**
   * A pseudo-instruction with its operand count whose register operand is not a register name
   * raises UnknownRegister: the destination of MOV, INC, DEC, CLR, SQ and GET, and the source of
   * SQ once its destination is read. The source of MOV and SETCOLOR is stated by MoveWords.
   */
  lemma PseudoUnknownRegister(op: string, cond: string, ops: seq<string>, line: nat, k: nat)
    requires IsCond(cond) && op in PseudoInstructions && op != "SETCOLOR"
    requires |ops| == (if op == "MOV" || op == "SQ" then 2 else 1)
    requires k == 0 || (op == "SQ" && k == 1)
    requires ops[k] !in RegisterMap && forall j | 0 <= j < k :: ops[j] in RegisterMap
    ensures EncodeOp(op, cond, ops, line) == Failure(Error(UnknownRegister, line))
  {
    DispatchPseudo(op, cond, ops, line);
    PseudoRegisterFails(op, PseudoInstructions[op], cond, ops, line, k);
  }

  lemma PseudoRegisterFails(op: string, code: string, cond: string, ops: seq<string>, line: nat, k: nat)
    requires IsOpcode(code) && IsCond(cond) && op in PseudoInstructions && op != "SETCOLOR"
    requires |ops| == (if op == "MOV" || op == "SQ" then 2 else 1)
    requires k == 0 || (op == "SQ" && k == 1)
    requires ops[k] !in RegisterMap && forall j | 0 <= j < k :: ops[j] in RegisterMap
    ensures EncodePseudo(op, code, cond, ops, line) == Failure(Error(UnknownRegister, line))
  {
    var e := Failure(Error(UnknownRegister, line));
    assert ParseRegister(ops[k], line) == e;
    if op == "SQ" {
      if k == 1 {
        assert ParseRegister(ops[0], line).Success?;
      }
    } else if op == "MOV" {
      assert |ops| == 2 && ParseRegister(ops[0], line) == e;
    } else if op == "INC" || op == "DEC" {
      assert |ops| == 1 && ParseRegister(ops[0], line) == e;
    } else if op == "CLR" {
      assert |ops| == 1 && ParseRegister(ops[0], line) == e;
    } else {
      assert op == "GET";
      assert |ops| == 1 && ParseRegister(ops[0], line) == e;
    }
  }

  lemma RegisterFormArityError(op: string, code: string, cond: string, ops: seq<string>, line: nat)
    requires IsOpcode(code) && IsCond(cond)
    requires RegisterFormArity(op).Some? && |ops| != RegisterFormArity(op).value
    ensures RegisterFormWords(op, code, cond, ops, line) == Failure(Error(Arity, line))
  {
  }

  /** The register form of a real opcode refuses an operand count other than its arity with an Arity error. */
  lemma RealArityError(op: string, cond: string, ops: seq<string>, line: nat)
    requires IsCond(cond) && op in OpcodeMap && !EndsInImmediate(ops)
    requires RegisterFormArity(op).Some? && |ops| != RegisterFormArity(op).value
    ensures EncodeOp(op, cond, ops, line) == Failure(Error(Arity, line))
  {
    DispatchReal(op, cond, ops, line);
    RegisterFormArityError(op, OpcodeMap[op], cond, ops, line);
  }

  lemma RegisterFormUnknownRegister(op: string, code: string, cond: string, ops: seq<string>, line: nat, k: nat)
    requires IsOpcode(code) && IsCond(cond) && RegisterFormArity(op) == Some(|ops|)
    requires k < |ops| && ops[k] !in RegisterMap
    ensures RegisterFormWords(op, code, cond, ops, line) == Failure(Error(UnknownRegister, line))
  {
    if op in ThreeRegisterOps {
      assert |ops| == 3;
    } else if op == "NOT" || op in NoDestinationOps || op == "LW" {
      PairFormUnknownRegister(op, code, cond, ops, line, k);
    } else {
      assert op in {"PUSH", "OUTSEG", "POP", "RAND"} && |ops| == 1;
      ShortFormUnknownRegister(op, code, cond, ops, line);
    }
  }

  lemma PairFormUnknownRegister(op: string, code: string, cond: string, ops: seq<string>, line: nat, k: nat)
    requires IsOpcode(code) && IsCond(cond) && (op == "NOT" || op in NoDestinationOps || op == "LW")
    requires |ops| == 2 && k < 2 && ops[k] !in RegisterMap
    ensures PairRegisterForm(op, code, cond, ops, line) == Failure(Error(UnknownRegister, line))
  {
    if ops[0] in RegisterMap {
      assert ParseRegister(ops[1], line) == Failure(Error(UnknownRegister, line));
    } else {
      assert ParseRegister(ops[0], line) == Failure(Error(UnknownRegister, line));
    }
  }

  lemma ShortFormUnknownRegister(op: string, code: string, cond: string, ops: seq<string>, line: nat)
    requires IsOpcode(code) && IsCond(cond) && op in {"PUSH", "OUTSEG", "POP", "RAND"}
    requires |ops| == 1 && ops[0] !in RegisterMap
    ensures ShortRegisterForm(op, code, cond, ops, line) == Failure(Error(UnknownRegister, line))
  {
  }

  /** In the register form of a real opcode every operand must name a register; one that does not is an UnknownRegister error. */
  lemma UnknownRegisterError(op: string, cond: string, ops: seq<string>, line: nat, k: nat)
    requires IsCond(cond) && op in OpcodeMap && !EndsInImmediate(ops)
    requires RegisterFormArity(op) == Some(|ops|)
    requires k < |ops| && ops[k] !in RegisterMap
    ensures EncodeOp(op, cond, ops, line) == Failure(Error(UnknownRegister, line))
  {
    DispatchReal(op, cond, ops, line);
    RegisterFormUnknownRegister(op, OpcodeMap[op], cond, ops, line, k);
  }

  /** A mnemonic in none of the tables is an UnknownOpcode error. */
  lemma UnknownOpcodeError(op: string, cond: string, ops: seq<string>, line: nat)
    requires IsCond(cond)
    requires op !in OpcodeMap && op !in PseudoInstructions && op !in ConditionPseudoInstructions
    ensures EncodeOp(op, cond, ops, line) == Failure(Error(UnknownOpcode, line))
  {
  }
}
