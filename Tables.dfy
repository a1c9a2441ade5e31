/**
 * The assembler's fixed tables: real opcodes, condition codes, the conditional-branch and
 * other pseudo-instructions, and the register names. Codes are kept as the bit strings the
 * source writes into each word.
 */
module Tables {
  import opened Wrappers
  import opened Errors
  import opened Lexer
  import opened Bits

  const OpcodeMap: map<string, string> := map[
    // ALU
    "NOP" := "000000", "ADD" := "000001", "SUB" := "000010", "MUL" := "000011",
    "DIV" := "000100", "MOD" := "000101", "NEG" := "000110", "NOT" := "000111",
    "AND" := "001000", "OR" := "001001", "XOR" := "001010", "ASHR" := "001011",
    "SHL" := "001100", "SHR" := "001101", "CMP" := "001110", "JMP" := "001111",
    // memory
    "CALL" := "010000", "RET" := "010001", "SW" := "010010", "LW" := "010011",
    "PUSH" := "010100", "POP" := "010101",
    // I/O
    "RAND" := "100000", "OUTSEG" := "100001", "PSET" := "100010"
  ]

  const ConditionMap: map<string, string> := map[
    "EQ" := "001", "NE" := "010", "LT" := "011", "LE" := "100",
    "GT" := "101", "GE" := "110", "NEV" := "111"
  ]

  /** The conditional branches; each maps to the condition code its jump word carries. */
  const ConditionPseudoInstructions: map<string, string> := map[
    "BEQ" := "001", "BNE" := "010", "BLT" := "011", "BLE" := "100",
    "BGT" := "101", "BGE" := "110", "BNEV" := "111"
  ]

  /** The other pseudo-instructions; each maps to the real opcode it is written as. */
  const PseudoInstructions: map<string, string> := map[
    "MOV" := "000001", "INC" := "000001", "DEC" := "000010", "CLR" := "000001",
    "SQ" := "000011", "GET" := "000001", "SETCOLOR" := "000001"
  ]

  /** R0..R29 are registers 0..29; IN is 30 and COLOR is 31. */
  const RegisterMap: map<string, nat> := map[
    "R0" := 0, "R1" := 1, "R2" := 2, "R3" := 3, "R4" := 4, "R5" := 5, "R6" := 6,
    "R7" := 7, "R8" := 8, "R9" := 9, "R10" := 10, "R11" := 11, "R12" := 12, "R13" := 13,
    "R14" := 14, "R15" := 15, "R16" := 16, "R17" := 17, "R18" := 18, "R19" := 19,
    "R20" := 20, "R21" := 21, "R22" := 22, "R23" := 23, "R24" := 24, "R25" := 25,
    "R26" := 26, "R27" := 27, "R28" := 28, "R29" := 29,
    "IN" := 30, "COLOR" := 31
  ]

  /** The opcode of the compare word and of the jump word that a conditional branch expands into. */
  const CmpCode: string := "001110"
  const JmpCode: string := "001111"

  predicate IsCodeTable(m: map<string, string>, width: nat) {
    forall v | v in m.Values :: |v| == width && IsBitString(v)
  }

  lemma OpcodeWidths()
    ensures IsCodeTable(OpcodeMap, 6)
  {
  }

  lemma PseudoWidths()
    ensures IsCodeTable(PseudoInstructions, 6)
  {
  }

  lemma ConditionCodeWidths()
    ensures IsCodeTable(ConditionMap, 3)
  {
  }

  lemma BranchConditionWidths()
    ensures IsCodeTable(ConditionPseudoInstructions, 3)
  {
  }

  lemma ConditionWidths()
    ensures IsCodeTable(ConditionMap, 3) && IsCodeTable(ConditionPseudoInstructions, 3)
  {
    ConditionCodeWidths();
    BranchConditionWidths();
  }

  /** Fields of the tables have the widths of the word layout: opcodes 6 bits, conditions 3. */
  lemma TableCodeWidths()
    ensures IsCodeTable(OpcodeMap, 6) && IsCodeTable(PseudoInstructions, 6)
    ensures IsCodeTable(ConditionMap, 3) && IsCodeTable(ConditionPseudoInstructions, 3)
  {
    OpcodeWidths();
    PseudoWidths();
    ConditionWidths();
  }

  lemma BranchCodeWidths()
    ensures |CmpCode| == 6 && IsBitString(CmpCode) && |JmpCode| == 6 && IsBitString(JmpCode)
  {
  }

  /** A code looked up in a table has the table's width. */
  lemma CodeWidth(m: map<string, string>, width: nat, k: string)
    requires IsCodeTable(m, width) && k in m
    ensures |m[k]| == width && IsBitString(m[k])
  {
    assert m[k] in m.Values;
  }

  /** Every register number fits the 5-bit register fields. */
  lemma RegisterNumbersFit()
    ensures forall v | v in RegisterMap.Values :: v < 32
  {
  }

  /** `parse_register`: the register number of a name, or an UnknownRegister error for the line. */
  function ParseRegister(t: string, line: nat): (r: Result<nat, Error>)
    ensures r.Success? <==> t in RegisterMap
    ensures r.Success? ==> r.value == RegisterMap[t] && r.value < 32
    ensures r.Failure? ==> r.error == Error(UnknownRegister, line)
  {
    if t in RegisterMap then
      RegisterNumbersFit();
      assert RegisterMap[t] in RegisterMap.Values;
      Success(RegisterMap[t])
    else Failure(Error(UnknownRegister, line))
  }

  /** No register name, condition or opcode looks like an immediate. */
  lemma NamesAreNotImmediates(t: string)
    requires t in RegisterMap || t in ConditionMap
    ensures !IsImmediate(t)
  {
    if t in RegisterMap {
      RegisterInitial(t);
    } else {
      ConditionInitial(t);
    }
    assert DigitValue(t[0]) >= 10;
  }

  lemma RegisterInitial(t: string)
    requires t in RegisterMap
    ensures t != [] && t[0] in "RIC"
  {
  }

  lemma ConditionInitial(t: string)
    requires t in ConditionMap
    ensures t != [] && t[0] in "ENLG"
  {
  }

  /** Every conditional branch is spelled with a leading B; no other mnemonic is. */
  lemma BranchInitial(op: string)
    requires op in ConditionPseudoInstructions
    ensures op != [] && op[0] == 'B'
  {
  }

  lemma OtherInitial(op: string)
    requires op in OpcodeMap || op in PseudoInstructions
    ensures op != [] && op[0] != 'B'
  {
  }

  lemma PseudoEnds(op: string)
    requires op in PseudoInstructions
    ensures op != [] && op[0] in "MIDCSG" && op[|op| - 1] in "VCRQT"
  {
  }

  lemma RealEnds(op: string)
    requires op in OpcodeMap && op != [] && op[0] in "MDCS"
    ensures op[|op| - 1] in "LDVPRBW"
  {
  }

  lemma PseudoNotReal(op: string)
    requires op in PseudoInstructions
    ensures op !in OpcodeMap
  {
    PseudoEnds(op);
    if op in OpcodeMap {
      assert op[0] != 'I' && op[0] != 'G';
      RealEnds(op);
      assert false;
    }
  }

  /** The three opcode tables have no mnemonic in common, so the order in which dispatch consults them is immaterial. */
  lemma TablesDisjoint(op: string)
    ensures op in ConditionPseudoInstructions ==> op !in PseudoInstructions && op !in OpcodeMap
    ensures op in PseudoInstructions ==> op !in OpcodeMap
  {
    if op in ConditionPseudoInstructions {
      BranchInitial(op);
      if op in PseudoInstructions || op in OpcodeMap {
        OtherInitial(op);
      }
    }
    if op in PseudoInstructions {
      PseudoNotReal(op);
    }
  }
}
