/**
 * What each field of the main word of every non-branch form holds: the opcode and condition
 * codes, rd and rs1, and the operand field, each read back from the word by Decode and given
 * in terms of the operands through REGISTER_MAP. Then the layout of an instruction's whole
 * output: a main word, the extension word of a long immediate, the all-zero filler word.
 */
module EncodingFields {
  import opened Wrappers
  import opened Errors
  import opened Bits
  import opened Lexer
  import opened Tables
  import opened Encoding
  import opened EncodingProperties

  // ---------------------------------------------------------------------------------------
  // Pseudo-instructions

  /** MOV and SETCOLOR: the destination in rd, 0 in rs1, the source's immediate or register in the operand field. */
  lemma MoveFields(code: string, cond: string, rd: nat, src: string, line: nat)
    requires IsOpcode(code) && IsCond(cond) && rd < 32 && MoveWords(code, cond, rd, src, line).Success?
    ensures IsSource(src)
    ensures HasFields(MoveWords(code, cond, rd, src, line).value[0], Fields(code, cond, rd, 0, SourceField(src)))
  {
    DecodeMainWord(code, cond, rd, 0, SourceField(src));
  }

  /**
   * The main word of each pseudo-instruction: MOV writes its destination and source, INC and
   * DEC use their register as both rd and rs1 with the immediate 1, CLR clears rd with register
   * 0, SQ uses its source as both rs1 and rs2, GET reads register 30, and SETCOLOR writes
   * register 31.
   */
  lemma PseudoFields(op: string, code: string, cond: string, ops: seq<string>, line: nat)
    requires IsOpcode(code) && IsCond(cond) && EncodePseudo(op, code, cond, ops, line).Success?
    ensures var ws := EncodePseudo(op, code, cond, ops, line).value;
      op == "MOV" ==>
        && |ops| == 2 && ops[0] in RegisterMap && IsSource(ops[1])
        && HasFields(ws[0], Fields(code, cond, RegisterMap[ops[0]], 0, SourceField(ops[1])))
    ensures var ws := EncodePseudo(op, code, cond, ops, line).value;
      op == "INC" || op == "DEC" ==>
        && |ops| == 1 && ops[0] in RegisterMap && |ws| == 1
        && HasFields(ws[0], Fields(code, cond, RegisterMap[ops[0]], RegisterMap[ops[0]], Short(1)))
    ensures var ws := EncodePseudo(op, code, cond, ops, line).value;
      op == "CLR" ==>
        && |ops| == 1 && ops[0] in RegisterMap && |ws| == 1
        && HasFields(ws[0], Fields(code, cond, RegisterMap[ops[0]], 0, Register(0)))
    ensures var ws := EncodePseudo(op, code, cond, ops, line).value;
      op == "SQ" ==>
        && |ops| == 2 && ops[0] in RegisterMap && ops[1] in RegisterMap && |ws| == 1
        && HasFields(ws[0], Fields(code, cond, RegisterMap[ops[0]], RegisterMap[ops[1]], Register(RegisterMap[ops[1]])))
    ensures var ws := EncodePseudo(op, code, cond, ops, line).value;
      op == "GET" ==>
        && |ops| == 1 && ops[0] in RegisterMap && |ws| == 1
        && HasFields(ws[0], Fields(code, cond, RegisterMap[ops[0]], 30, Register(0)))
    ensures var ws := EncodePseudo(op, code, cond, ops, line).value;
      op == "SETCOLOR" ==>
        && |ops| == 1 && IsSource(ops[0])
        && HasFields(ws[0], Fields(code, cond, 31, 0, SourceField(ops[0])))
  {
    if op == "MOV" {
      var rd := ParseRegister(ops[0], line).value;
      MoveFields(code, cond, rd, ops[1], line);
    } else if op == "SQ" {
      var rd := ParseRegister(ops[0], line).value;
      var rs := ParseRegister(ops[1], line).value;
      DecodeMainWord(code, cond, rd, rs, Register(rs));
    } else if op in {"INC", "DEC", "CLR", "GET"} {
      var rd := ParseRegister(ops[0], line).value;
      if op == "CLR" {
        DecodeMainWord(code, cond, rd, 0, Register(0));
      } else if op == "GET" {
        DecodeMainWord(code, cond, rd, 30, Register(0));
      } else {
        DecodeMainWord(code, cond, rd, rd, Short(1));
      }
    } else if op == "SETCOLOR" {
      MoveFields(code, cond, 31, ops[0], line);
    }
  }

  // ---------------------------------------------------------------------------------------
  // Real opcodes, register forms

  /** ADD to SHR: rd, rs1 and rs2 are the three operands in order. */
  lemma ThreeRegisterFields(op: string, code: string, cond: string, ops: seq<string>, line: nat)
    requires IsOpcode(code) && IsCond(cond) && op in ThreeRegisterOps
    requires RegisterFormWords(op, code, cond, ops, line).Success?
    ensures var ws := RegisterFormWords(op, code, cond, ops, line).value;
      && |ops| == 3 && ops[0] in RegisterMap && ops[1] in RegisterMap && ops[2] in RegisterMap
      && |ws| == 1
      && HasFields(ws[0], Fields(code, cond, RegisterMap[ops[0]], RegisterMap[ops[1]], Register(RegisterMap[ops[2]])))
  {
    var rd := ParseRegister(ops[0], line).value;
    var rs1 := ParseRegister(ops[1], line).value;
    var rs2 := ParseRegister(ops[2], line).value;
    DecodeMainWord(code, cond, rd, rs1, Register(rs2));
  }

  /** NOT writes rd from rs2; LW loads rd from the address in rs1; CMP, SW and PSET read rs1 and rs2 and write no register. */
  lemma PairFields(op: string, code: string, cond: string, ops: seq<string>, line: nat)
    requires IsOpcode(code) && IsCond(cond) && (op == "NOT" || op in NoDestinationOps || op == "LW")
    requires PairRegisterForm(op, code, cond, ops, line).Success?
    ensures |ops| == 2 && ops[0] in RegisterMap && ops[1] in RegisterMap
    ensures var ws := PairRegisterForm(op, code, cond, ops, line).value;
      op == "NOT" ==> HasFields(ws[0], Fields(code, cond, RegisterMap[ops[0]], 0, Register(RegisterMap[ops[1]])))
    ensures var ws := PairRegisterForm(op, code, cond, ops, line).value;
      op == "LW" ==> HasFields(ws[0], Fields(code, cond, RegisterMap[ops[0]], RegisterMap[ops[1]], Register(0)))
    ensures var ws := PairRegisterForm(op, code, cond, ops, line).value;
      op in NoDestinationOps ==> HasFields(ws[0], Fields(code, cond, 0, RegisterMap[ops[0]], Register(RegisterMap[ops[1]])))
  {
    var ws := PairRegisterForm(op, code, cond, ops, line).value;
    var a := ParseRegister(ops[0], line).value;
    var b := ParseRegister(ops[1], line).value;
    if op == "NOT" {
      assert ws[0] == MainWord(code, cond, a, 0, Register(b));
      DecodeMainWord(code, cond, a, 0, Register(b));
    } else if op == "LW" {
      assert ws[0] == MainWord(code, cond, a, b, Register(0));
      DecodeMainWord(code, cond, a, b, Register(0));
    } else {
      var filler := if op == "CMP" then [ZeroWord] else [];
      assert ws == [MainWord(code, cond, 0, a, Register(b))] + filler;
      DecodeMainWord(code, cond, 0, a, Register(b));
    }
  }

  /** NOP and RET have every field zero; PUSH and OUTSEG read their register as rs2; POP and RAND write theirs as rd. */
  lemma ShortFields(op: string, code: string, cond: string, ops: seq<string>, line: nat)
    requires IsOpcode(code) && IsCond(cond) && op in {"NOP", "RET", "PUSH", "OUTSEG", "POP", "RAND"}
    requires ShortRegisterForm(op, code, cond, ops, line).Success?
    ensures op == "NOP" || op == "RET" ==> ops == []
    ensures op != "NOP" && op != "RET" ==> |ops| == 1 && ops[0] in RegisterMap
    ensures var ws := ShortRegisterForm(op, code, cond, ops, line).value;
      op == "NOP" || op == "RET" ==> HasFields(ws[0], Fields(code, cond, 0, 0, Register(0)))
    ensures var ws := ShortRegisterForm(op, code, cond, ops, line).value;
      op == "PUSH" || op == "OUTSEG" ==> HasFields(ws[0], Fields(code, cond, 0, 0, Register(RegisterMap[ops[0]])))
    ensures var ws := ShortRegisterForm(op, code, cond, ops, line).value;
      op == "POP" || op == "RAND" ==> HasFields(ws[0], Fields(code, cond, RegisterMap[ops[0]], 0, Register(0)))
  {
    if op == "NOP" || op == "RET" {
      DecodeMainWord(code, cond, 0, 0, Register(0));
    } else {
      var r := ParseRegister(ops[0], line).value;
      if op == "PUSH" || op == "OUTSEG" {
        DecodeMainWord(code, cond, 0, 0, Register(r));
      } else {
        DecodeMainWord(code, cond, r, 0, Register(0));
      }
    }
  }

  // ---------------------------------------------------------------------------------------
  // Real opcodes, immediate forms

  /**
   * The main word of the immediate form, by operand count: with one operand rd and rs1 are 0;
   * with two, CMP, SW and PSET put the first operand in rs1 and NOT puts it in rd; with three or
   * more the first two operands are rd and rs1. The operand field holds the immediate's field.
   */
  lemma ImmediateFormFields(op: string, code: string, cond: string, ops: seq<string>, f: OperandField, line: nat)
    requires IsOpcode(code) && IsCond(cond) && ValidField(f) && ops != []
    requires ImmediateFormWord(op, code, cond, ops, f, line).Success?
    requires |ops| != 2 || op in NoDestinationOps || op == "NOT"
    ensures var ws := ImmediateFormWord(op, code, cond, ops, f, line).value;
      |ops| == 1 ==> HasFields(ws[0], Fields(code, cond, 0, 0, f))
    ensures var ws := ImmediateFormWord(op, code, cond, ops, f, line).value;
      |ops| == 2 && op in NoDestinationOps ==> ops[0] in RegisterMap && HasFields(ws[0], Fields(code, cond, 0, RegisterMap[ops[0]], f))
    ensures var ws := ImmediateFormWord(op, code, cond, ops, f, line).value;
      |ops| == 2 && op == "NOT" ==> ops[0] in RegisterMap && HasFields(ws[0], Fields(code, cond, RegisterMap[ops[0]], 0, f))
    ensures var ws := ImmediateFormWord(op, code, cond, ops, f, line).value;
      |ops| > 2 ==> ops[0] in RegisterMap && ops[1] in RegisterMap
                    && HasFields(ws[0], Fields(code, cond, RegisterMap[ops[0]], RegisterMap[ops[1]], f))
  {
    if |ops| == 1 {
      ImmediateOneFields(op, code, cond, ops, f, line);
    } else if |ops| == 2 {
      ImmediatePairFields(op, code, cond, ops, f, line);
    } else {
      ImmediateManyFields(op, code, cond, ops, f, line);
    }
  }

  lemma ImmediateOneFields(op: string, code: string, cond: string, ops: seq<string>, f: OperandField, line: nat)
    requires IsOpcode(code) && IsCond(cond) && ValidField(f) && |ops| == 1
    ensures ImmediateFormWord(op, code, cond, ops, f, line) == Success([MainWord(code, cond, 0, 0, f)])
    ensures HasFields(MainWord(code, cond, 0, 0, f), Fields(code, cond, 0, 0, f))
  {
    DecodeMainWord(code, cond, 0, 0, f);
  }

  lemma ImmediatePairFields(op: string, code: string, cond: string, ops: seq<string>, f: OperandField, line: nat)
    requires IsOpcode(code) && IsCond(cond) && ValidField(f) && |ops| == 2
    requires op in NoDestinationOps || op == "NOT"
    requires ImmediateFormWord(op, code, cond, ops, f, line).Success?
    ensures ops[0] in RegisterMap
    ensures var ws := ImmediateFormWord(op, code, cond, ops, f, line).value;
      op in NoDestinationOps ==> HasFields(ws[0], Fields(code, cond, 0, RegisterMap[ops[0]], f))
    ensures var ws := ImmediateFormWord(op, code, cond, ops, f, line).value;
      op == "NOT" ==> HasFields(ws[0], Fields(code, cond, RegisterMap[ops[0]], 0, f))
  {
    var r := ParseRegister(ops[0], line).value;
    if op in NoDestinationOps {
      assert ImmediateFormWord(op, code, cond, ops, f, line).value == [MainWord(code, cond, 0, r, f)];
      DecodeMainWord(code, cond, 0, r, f);
    } else {
      assert ImmediateFormWord(op, code, cond, ops, f, line).value == [MainWord(code, cond, r, 0, f)];
      DecodeMainWord(code, cond, r, 0, f);
    }
  }

  lemma ImmediateManyFields(op: string, code: string, cond: string, ops: seq<string>, f: OperandField, line: nat)
    requires IsOpcode(code) && IsCond(cond) && ValidField(f) && |ops| > 2
    requires ImmediateFormWord(op, code, cond, ops, f, line).Success?
    ensures ops[0] in RegisterMap && ops[1] in RegisterMap
    ensures var ws := ImmediateFormWord(op, code, cond, ops, f, line).value;
      HasFields(ws[0], Fields(code, cond, RegisterMap[ops[0]], RegisterMap[ops[1]], f))
  {
    var rd := ParseRegister(ops[0], line).value;
    var rs1 := ParseRegister(ops[1], line).value;
    assert ImmediateFormWord(op, code, cond, ops, f, line).value == [MainWord(code, cond, rd, rs1, f)];
    DecodeMainWord(code, cond, rd, rs1, f);
  }

  // ---------------------------------------------------------------------------------------
  // Layout of the whole output

  /** The main word of a pseudo-instruction reads back with its opcode and condition. */
  lemma PseudoMainWord(op: string, code: string, cond: string, ops: seq<string>, line: nat)
    requires op in PseudoInstructions
    requires IsOpcode(code) && IsCond(cond) && EncodePseudo(op, code, cond, ops, line).Success?
    ensures IsMainWordOf(EncodePseudo(op, code, cond, ops, line).value[0], code, cond)
  {
    PseudoFields(op, code, cond, ops, line);
  }

  /** Only the extension word of a long immediate source follows the main word of a pseudo-instruction. */
  lemma PseudoLayout(op: string, code: string, cond: string, ops: seq<string>, line: nat)
    requires op in PseudoInstructions
    requires IsOpcode(code) && IsCond(cond) && EncodePseudo(op, code, cond, ops, line).Success?
    ensures var ws := EncodePseudo(op, code, cond, ops, line).value;
      ws == [ws[0]] + TrailingWords(op, ops)
  {
    var ws := EncodePseudo(op, code, cond, ops, line).value;
    PseudoWordCount(op, code, cond, ops, line);
    if op == "MOV" || op == "SETCOLOR" {
      if EndsInLongImmediate(ops) {
        PseudoImmediate(op, code, cond, ops, line);
        assert ws == [ws[0], ws[1]];
      } else {
        assert ws == [ws[0]];
      }
    } else {
      if op == "SQ" {
        assert ParseRegister(ops[1], line).Success?;
      } else {
        assert ParseRegister(ops[0], line).Success?;
      }
      NamesAreNotImmediates(Last(ops));
      assert ws == [ws[0]];
    }
  }

  /** The main word of a real instruction that has one reads back with the instruction's opcode and condition. */
  lemma RealMainWord(op: string, code: string, cond: string, ops: seq<string>, line: nat)
    requires IsOpcode(code) && IsCond(cond) && EncodeReal(op, code, cond, ops, line).Success?
    requires EndsInImmediate(ops) ==> |ops| != 2 || op in NoDestinationOps || op == "NOT"
    requires !EndsInImmediate(ops) ==> RegisterFormArity(op).Some?
    ensures var ws := EncodeReal(op, code, cond, ops, line).value;
      ws != [] && IsMainWordOf(ws[0], code, cond)
  {
    var ws := EncodeReal(op, code, cond, ops, line).value;
    RealWordCount(op, code, cond, ops, line);
    if EndsInImmediate(ops) {
      RealImmediate(op, code, cond, ops, line);
      var v := ParseInt(Last(ops)).value;
      var f := ImmediateField(v).0;
      var main := ImmediateFormWord(op, code, cond, ops, f, line).value;
      assert ws[0] == main[0];
      ImmediateFormFields(op, code, cond, ops, f, line);
    } else if op in ThreeRegisterOps {
      ThreeRegisterFields(op, code, cond, ops, line);
    } else if op == "NOT" || op in NoDestinationOps || op == "LW" {
      assert ws == PairRegisterForm(op, code, cond, ops, line).value;
      PairFields(op, code, cond, ops, line);
    } else {
      assert ws == ShortRegisterForm(op, code, cond, ops, line).value;
      ShortFields(op, code, cond, ops, line);
    }
  }

  /** The forms of a real opcode without a main word emit exactly the trailing words. */
  lemma RealWithoutMainWord(op: string, cond: string, ops: seq<string>, line: nat)
    requires IsCond(cond) && op in OpcodeMap && EncodeOp(op, cond, ops, line).Success?
    requires !EmitsMainWord(op, ops)
    ensures EncodeOp(op, cond, ops, line).value == TrailingWords(op, ops)
  {
    if EndsInImmediate(ops) {
      LastOperandParses(op, cond, ops, line);
      assert Last(ops) == ops[1];
      TwoOperandImmediateForm(op, cond, ops, line);
    } else {
      DispatchReal(op, cond, ops, line);
      UnwiredRegisterForm(op, OpcodeMap[op], cond, ops, line);
    }
  }

  /**
   * The whole output of an instruction other than a branch: its main word, whose fields read
   * back with the mnemonic's opcode and the condition (absent exactly for the forms that emit
   * none), then the extension word of a long last immediate, then CMP's filler word.
   */
  lemma WordLayout(op: string, cond: string, ops: seq<string>, line: nat)
    requires IsCond(cond) && op !in ConditionPseudoInstructions && EncodeOp(op, cond, ops, line).Success?
    ensures var ws := EncodeOp(op, cond, ops, line).value;
      var m := if EmitsMainWord(op, ops) then 1 else 0;
      && |ws| == m + |TrailingWords(op, ops)|
      && ws[m..] == TrailingWords(op, ops)
      && (m == 1 ==> IsMainWordOf(ws[0], OpcodeBits(op), cond))
  {
    var ws := EncodeOp(op, cond, ops, line).value;
    TablesDisjoint(op);
    if op in PseudoInstructions {
      DispatchPseudo(op, cond, ops, line);
      PseudoLayout(op, PseudoInstructions[op], cond, ops, line);
      PseudoMainWord(op, PseudoInstructions[op], cond, ops, line);
    } else if EmitsMainWord(op, ops) {
      DispatchReal(op, cond, ops, line);
      var code := OpcodeMap[op];
      RealWordCount(op, code, cond, ops, line);
      RealMainWord(op, code, cond, ops, line);
      assert |TrailingWords(op, ops)| == (if EndsInLongImmediate(ops) then 1 else 0) + (if op == "CMP" then 1 else 0);
    } else {
      RealWithoutMainWord(op, cond, ops, line);
    }
  }

  /**
   * A main word of the line's own instruction: for a branch its compare word (opcode `001110`,
   * cond 000) or its jump word (opcode `001111`, the branch's code in cond); for any other
   * mnemonic a word with its opcode and the line's cond.
   */
  predicate IsLineMainWord(w: Word, op: string, cond: string) {
    if op in ConditionPseudoInstructions then
      IsMainWordOf(w, CmpCode, "000") || IsMainWordOf(w, JmpCode, ConditionPseudoInstructions[op])
    else IsMainWordOf(w, OpcodeBits(op), cond)
  }

  /** A word of one of the three kinds pass 3 writes for a line: a main word of the line's instruction, the all-zero filler word, or the extension word of a long last immediate. */
  predicate IsEmittedKind(w: Word, op: string, cond: string, ops: seq<string>) {
    || IsLineMainWord(w, op, cond)
    || w == ZeroWord
    || (EndsInLongImmediate(ops) && w == ExtWord(ParseInt(Last(ops)).value))
  }

  lemma TrailingKinds(op: string, cond: string, ops: seq<string>)
    ensures forall i | 0 <= i < |TrailingWords(op, ops)| :: IsEmittedKind(TrailingWords(op, ops)[i], op, cond, ops)
  {
  }

  lemma ThreeKinds(ws: seq<Word>, op: string, cond: string, ops: seq<string>)
    requires op in ConditionPseudoInstructions
    requires |ws| == 3 && IsMainWordOf(ws[0], CmpCode, "000") && ws[1] == ZeroWord
    requires IsMainWordOf(ws[2], JmpCode, ConditionPseudoInstructions[op])
    ensures forall i | 0 <= i < |ws| :: IsEmittedKind(ws[i], op, cond, ops)
  {
  }

  lemma LayoutKinds(ws: seq<Word>, m: nat, op: string, cond: string, ops: seq<string>)
    requires op !in ConditionPseudoInstructions
    requires m <= 1 && m <= |ws| && ws[m..] == TrailingWords(op, ops)
    requires m == 1 ==> IsMainWordOf(ws[0], OpcodeBits(op), cond)
    ensures forall i | 0 <= i < |ws| :: IsEmittedKind(ws[i], op, cond, ops)
  {
    TrailingKinds(op, cond, ops);
    forall i | 0 <= i < |ws|
      ensures IsEmittedKind(ws[i], op, cond, ops)
    {
      if i >= m {
        assert ws[i] == ws[m..][i - m];
      }
    }
  }

  lemma BranchKinds(op: string, cond: string, ops: seq<string>, line: nat)
    requires IsCond(cond) && op in ConditionPseudoInstructions && EncodeOp(op, cond, ops, line).Success?
    ensures var ws := EncodeOp(op, cond, ops, line).value;
      forall i | 0 <= i < |ws| :: IsEmittedKind(ws[i], op, cond, ops)
  {
    BranchDecodes(op, cond, ops, line);
    ThreeKinds(EncodeOp(op, cond, ops, line).value, op, cond, ops);
  }

  lemma OtherKinds(op: string, cond: string, ops: seq<string>, line: nat)
    requires IsCond(cond) && op !in ConditionPseudoInstructions && EncodeOp(op, cond, ops, line).Success?
    ensures var ws := EncodeOp(op, cond, ops, line).value;
      forall i | 0 <= i < |ws| :: IsEmittedKind(ws[i], op, cond, ops)
  {
    WordLayout(op, cond, ops, line);
    LayoutKinds(EncodeOp(op, cond, ops, line).value, if EmitsMainWord(op, ops) then 1 else 0, op, cond, ops);
  }

  /** Every word pass 3 writes for an instruction is a main word of that instruction, the zero word or its extension word. */
  lemma WordKinds(op: string, cond: string, ops: seq<string>, line: nat)
    requires IsCond(cond) && EncodeOp(op, cond, ops, line).Success?
    ensures var ws := EncodeOp(op, cond, ops, line).value;
      forall i | 0 <= i < |ws| :: IsEmittedKind(ws[i], op, cond, ops)
  {
    if op in ConditionPseudoInstructions {
      BranchKinds(op, cond, ops, line);
    } else {
      OtherKinds(op, cond, ops, line);
    }
  }
}
