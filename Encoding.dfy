/**
 * Pass 3 of the assembler, one line at a time: the 32-bit word layout
 * opcode(6) cond(3) rd(5) rs1(5) operand(13), the extension and filler words, and the
 * per-opcode dispatch of `parse_instruction`, including the pseudo-instruction expansions
 * and the annotation entries that accompany every word.
 */
module Encoding {
  import opened Wrappers
  import opened Errors
  import opened Bits
  import opened Lexer
  import opened Tables

  /** A machine word as the assembler writes it: a string of '0' and '1' (spaces removed). */
  type Word = string

  predicate IsWord(w: Word) {
    |w| == 32 && IsBitString(w)
  }

  predicate AllWords(ws: seq<Word>) {
    forall i | 0 <= i < |ws| :: IsWord(ws[i])
  }

  /** The 13-bit operand field: a register (tag 00), an 11-bit immediate (tag 10), or a marker (tag 01) for an extension word. */
  datatype OperandField = Register(rs2: nat) | Short(imm: nat) | Extended

  predicate ValidField(f: OperandField) {
    match f
    case Register(r) => r < 32
    case Short(v) => v < TwoTo11
    case Extended => true
  }

  const Zeros8: string := "00000000"
  const Zeros11: string := "00000000000"
  const ZeroWord: Word := "00000000000000000000000000000000"

  function FieldBits(f: OperandField): (s: string)
    requires ValidField(f)
    ensures |s| == 13 && IsBitString(s)
  {
    match f
    case Register(r) => Zeros8 + Bin(r, 5)
    case Short(v) => "10" + Bin(v, 11)
    case Extended => "01" + Zeros11
  }

  predicate IsOpcode(s: string) { |s| == 6 && IsBitString(s) }
  predicate IsCond(s: string) { |s| == 3 && IsBitString(s) }

  /** A word with the field structure opcode, cond, rd, rs1, operand. */
  function MainWord(opcode: string, cond: string, rd: nat, rs1: nat, f: OperandField): (w: Word)
    requires IsOpcode(opcode) && IsCond(cond) && rd < 32 && rs1 < 32 && ValidField(f)
    ensures IsWord(w)
    ensures w[..9] == opcode + cond && w[19..] == FieldBits(f)
  {
    var w := opcode + cond + Bin(rd, 5) + Bin(rs1, 5) + FieldBits(f);
    assert w[..9] == opcode + cond;
    w
  }

  /** A raw extension word: the low 32 bits of `v`, two's complement for a negative value. */
  function ExtWord(v: int): (w: Word)
    ensures IsWord(w)
  {
    Bin(Mask32(v), 32)
  }

  lemma ZeroWordIsWord()
    ensures IsWord(ZeroWord)
  {
  }

  // ---------------------------------------------------------------------------------------
  // Reading a word back: the independent decoder that the layout lemmas relate words to.

  datatype Fields = Fields(opcode: string, cond: string, rd: nat, rs1: nat, operand: OperandField)

  function DecodeField(s: string): Option<OperandField>
    requires |s| == 13
  {
    if s[..2] == "10" then Some(Short(FromBin(s[2..])))
    else if s == "01" + Zeros11 then Some(Extended)
    else if s[..8] == Zeros8 then Some(Register(FromBin(s[8..])))
    else None
  }

  /** The fields of a word, read by position; None when the operand field has no defined form. */
  function Decode(w: Word): Option<Fields>
    requires |w| == 32
  {
    match DecodeField(w[19..])
    case None => None
    case Some(f) => Some(Fields(w[..6], w[6..9], FromBin(w[9..14]), FromBin(w[14..19]), f))
  }

  lemma DecodeFieldBits(f: OperandField)
    requires ValidField(f)
    ensures DecodeField(FieldBits(f)) == Some(f)
  {
    Pow2Widths();
    var s := FieldBits(f);
    match f
    case Register(r) =>
      assert s[..2] == "00";
      assert s != "01" + Zeros11;
      assert s[..8] == Zeros8 && s[8..] == Bin(r, 5);
      FromBinBinExact(r, 5);
    case Short(v) =>
      assert s[..2] == "10" && s[2..] == Bin(v, 11);
      FromBinBinExact(v, 11);
    case Extended =>
      assert s[..2] == "01";
  }

  /** Every field of a word stands at its position in the layout and reads back as written. */
  lemma {:induction false} DecodeMainWord(opcode: string, cond: string, rd: nat, rs1: nat, f: OperandField)
    requires IsOpcode(opcode) && IsCond(cond) && rd < 32 && rs1 < 32 && ValidField(f)
    ensures Decode(MainWord(opcode, cond, rd, rs1, f)) == Some(Fields(opcode, cond, rd, rs1, f))
  {
    Pow2Widths();
    var w := MainWord(opcode, cond, rd, rs1, f);
    assert w[..6] == opcode;
    assert w[6..9] == cond;
    assert w[9..14] == Bin(rd, 5);
    assert w[14..19] == Bin(rs1, 5);
    assert w[19..] == FieldBits(f);
    FromBinBinExact(rd, 5);
    FromBinBinExact(rs1, 5);
    DecodeFieldBits(f);
  }

  /** An operand field that reads back is the field bits of what it reads as. */
  lemma DecodedField(s: string)
    requires |s| == 13 && IsBitString(s) && DecodeField(s).Some?
    ensures ValidField(DecodeField(s).value) && FieldBits(DecodeField(s).value) == s
  {
    Pow2Widths();
    match DecodeField(s).value
    case Short(v) =>
      BinFromBin(s[2..]);
      assert s == "10" + s[2..];
    case Extended =>
    case Register(r) =>
      BinFromBin(s[8..]);
      assert s == s[..8] + s[8..];
  }

  lemma FieldSlices(w: Word)
    requires |w| == 32
    ensures w == w[..6] + w[6..9] + w[9..14] + w[14..19] + w[19..]
  {
    assert w[..9] == w[..6] + w[6..9];
    assert w[..14] == w[..9] + w[9..14];
    assert w[..19] == w[..14] + w[14..19];
    assert w == w[..19] + w[19..];
  }

  /** The converse of DecodeMainWord: a word whose fields read back is the main word of those fields. */
  lemma DecodedIsMainWord(w: Word)
    requires IsWord(w) && Decode(w).Some?
    ensures var d := Decode(w).value;
      && IsOpcode(d.opcode) && IsCond(d.cond) && d.rd < 32 && d.rs1 < 32 && ValidField(d.operand)
      && w == MainWord(d.opcode, d.cond, d.rd, d.rs1, d.operand)
  {
    Pow2Widths();
    var d := Decode(w).value;
    BinFromBin(w[9..14]);
    BinFromBin(w[14..19]);
    DecodedField(w[19..]);
    FieldSlices(w);
  }

  /** `w` is a 32-bit word whose fields read back as `f`. */
  predicate HasFields(w: Word, f: Fields) {
    IsWord(w) && Decode(w) == Some(f)
  }

  /** An extension word holds `v` modulo 2^32, which reads back as `v` in 32-bit two's complement. */
  lemma ExtWordValue(v: int)
    ensures FromBin(ExtWord(v)) == Mask32(v)
    ensures -(TwoTo31 as int) <= v < TwoTo31 ==> ToSigned32(FromBin(ExtWord(v))) == v
  {
    Pow2Widths();
    FromBinBinExact(Mask32(v), 32);
    if -(TwoTo31 as int) <= v < TwoTo31 {
      SignedRoundTrip(v);
    }
  }

  // ---------------------------------------------------------------------------------------
  // Operand helpers

  function Last(s: seq<string>): string
    requires s != []
  {
    s[|s| - 1]
  }

  /** `int(t, 0)` with the error it raises. */
  function Int(t: string, line: nat): (r: Result<int, Error>)
    ensures r.Success? <==> ParseInt(t).Some?
    ensures r.Success? ==> r.value == ParseInt(t).value
    ensures r.Failure? ==> r.error == Error(BadLiteral, line)
  {
    match ParseInt(t)
    case None => Failure(Error(BadLiteral, line))
    case Some(v) => Success(v)
  }

  predicate InShortRange(v: int) { 0 <= v < TwoTo11 }

  /** The operand field of an immediate and the extension words that follow its word. */
  function ImmediateField(v: int): (p: (OperandField, seq<Word>))
    ensures ValidField(p.0) && AllWords(p.1)
  {
    if InShortRange(v) then (Short(v), []) else (Extended, [ExtWord(v)])
  }

  /** Whether an operand list ends in an immediate outside [0, 2048): the form that needs an extension word. */
  predicate EndsInLongImmediate(ops: seq<string>) {
    ops != [] && IsImmediate(Last(ops)) && ParseInt(Last(ops)).Some? && !InShortRange(ParseInt(Last(ops)).value)
  }

  /** The words that follow the main word of an instruction: the extension word of a long last immediate, then CMP's filler word. */
  function TrailingWords(op: string, ops: seq<string>): (ws: seq<Word>)
    ensures AllWords(ws)
  {
    ZeroWordIsWord();
    (if EndsInLongImmediate(ops) then [ExtWord(ParseInt(Last(ops)).value)] else [])
      + (if op == "CMP" then [ZeroWord] else [])
  }

  /** `w` is a main word whose fields read back, with the given opcode and condition. */
  predicate IsMainWordOf(w: Word, code: string, cond: string) {
    IsWord(w) && Decode(w).Some? && Decode(w).value.opcode == code && Decode(w).value.cond == cond
  }

  // ---------------------------------------------------------------------------------------
  // Conditional branches

  /** The second operand of a branch: an immediate taken modulo 2^11, or a register. */
  function CompareOperand(t: string, line: nat): (r: Result<OperandField, Error>)
    ensures r.Success? ==> ValidField(r.value)
    ensures r.Success? <==> IsSource(t)
    ensures r.Failure? ==> r.error == Error(if IsImmediate(t) then BadLiteral else UnknownRegister, line)
  {
    if IsImmediate(t) then
      var v :- Int(t, line);
      Success(Short(v % TwoTo11))
    else
      var rs2 :- ParseRegister(t, line);
      Success(Register(rs2))
  }

  /** A conditional branch: compare word, filler word, jump word carrying the branch's code. */
  function EncodeBranch(code: string, ops: seq<string>, line: nat): (r: Result<seq<Word>, Error>)
    requires IsCond(code)
    ensures r.Success? ==> |r.value| == 3 && AllWords(r.value)
    ensures r.Success? ==> r.value[0][..9] == CmpCode + "000" && r.value[1] == ZeroWord && r.value[2][..9] == JmpCode + code
    ensures r.Failure? ==> r.error.line == line
  {
    if |ops| != 3 then Failure(Error(Arity, line))
    else
      var rs1 :- ParseRegister(ops[0], line);
      var target :- Int(ops[2], line);
      var cmp :- CompareOperand(ops[1], line);
      Success(BranchWords(code, rs1, cmp, target))
  }

  /** The compare word, the all-zero word and the jump word of a branch whose operands have been read. */
  function BranchWords(code: string, rs1: nat, cmp: OperandField, target: int): (ws: seq<Word>)
    requires IsCond(code) && rs1 < 32 && ValidField(cmp)
    ensures |ws| == 3 && AllWords(ws)
    ensures ws[0][..9] == CmpCode + "000" && ws[1] == ZeroWord && ws[2][..9] == JmpCode + code
  {
    BranchCodeWidths();
    ZeroWordIsWord();
    [MainWord(CmpCode, "000", 0, rs1, cmp), ZeroWord, MainWord(JmpCode, code, 0, 0, Short(target % TwoTo11))]
  }

  // ---------------------------------------------------------------------------------------
  // Other pseudo-instructions

  /** A source operand of MOV and SETCOLOR that can be read: an immediate `int(x, 0)` accepts, or a register name. */
  predicate IsSource(t: string) {
    if IsImmediate(t) then ParseInt(t).Some? else t in RegisterMap
  }

  /** The operand field a source is read into: the field of its immediate, or its register. */
  function SourceField(t: string): (f: OperandField)
    requires IsSource(t)
    ensures ValidField(f)
    ensures IsImmediate(t) ==> f == ImmediateField(ParseInt(t).value).0
    ensures !IsImmediate(t) ==> f == Register(RegisterMap[t])
  {
    if IsImmediate(t) then ImmediateField(ParseInt(t).value).0
    else
      var n := ParseRegister(t, 0).value;
      Register(n)
  }

  /** The source operand of MOV and SETCOLOR: an immediate (with an extension word when long) or a register, with rs1 0. */
  function MoveWords(code: string, cond: string, rd: nat, src: string, line: nat): (r: Result<seq<Word>, Error>)
    requires IsOpcode(code) && IsCond(cond) && rd < 32
    ensures r.Success? <==> IsSource(src)
    ensures r.Success? ==> AllWords(r.value) && r.value != [] && r.value[0][..9] == code + cond
    ensures r.Success? ==> |r.value| == if EndsInLongImmediate([src]) then 2 else 1
    ensures r.Success? && EndsInLongImmediate([src]) ==> r.value[1] == ExtWord(ParseInt(src).value)
    ensures r.Success? && IsImmediate(src) ==> ParseInt(src).Some? && r.value[0][19..] == FieldBits(ImmediateField(ParseInt(src).value).0)
    ensures r.Failure? ==> r.error == Error(if IsImmediate(src) then BadLiteral else UnknownRegister, line)
  {
    if IsImmediate(src) then
      var v :- Int(src, line);
      var (f, ext) := ImmediateField(v);
      Success([MainWord(code, cond, rd, 0, f)] + ext)
    else
      var rs2 :- ParseRegister(src, line);
      Success([MainWord(code, cond, rd, 0, Register(rs2))])
  }

  function EncodePseudo(op: string, code: string, cond: string, ops: seq<string>, line: nat): (r: Result<seq<Word>, Error>)
    requires IsOpcode(code) && IsCond(cond)
    ensures r.Success? ==> AllWords(r.value) && r.value != [] && r.value[0][..9] == code + cond
    ensures r.Failure? ==> r.error.line == line
  {
    if op == "MOV" then
      if |ops| != 2 then Failure(Error(Arity, line))
      else
        var rd :- ParseRegister(ops[0], line);
        MoveWords(code, cond, rd, ops[1], line)
    else if op == "INC" || op == "DEC" then
      if |ops| != 1 then Failure(Error(Arity, line))
      else
        var rd :- ParseRegister(ops[0], line);
        Success([MainWord(code, cond, rd, rd, Short(1))])
    else if op == "CLR" then
      if |ops| != 1 then Failure(Error(Arity, line))
      else
        var rd :- ParseRegister(ops[0], line);
        Success([MainWord(code, cond, rd, 0, Register(0))])
    else if op == "SQ" then
      if |ops| != 2 then Failure(Error(Arity, line))
      else
        var rd :- ParseRegister(ops[0], line);
        var rs :- ParseRegister(ops[1], line);
        Success([MainWord(code, cond, rd, rs, Register(rs))])
    else if op == "GET" then
      if |ops| != 1 then Failure(Error(Arity, line))
      else
        var rd :- ParseRegister(ops[0], line);
        Success([MainWord(code, cond, rd, 30, Register(0))])
    else // SETCOLOR, the one remaining pseudo-instruction
      if |ops| != 1 then Failure(Error(Arity, line))
      else MoveWords(code, cond, 31, ops[0], line)
  }

  // ---------------------------------------------------------------------------------------
  // Real opcodes

  const ThreeRegisterOps: set<string> := {"ADD", "SUB", "MUL", "DIV", "MOD", "AND", "OR", "XOR", "SHL", "SHR"}
  const NoDestinationOps: set<string> := {"CMP", "SW", "PSET"}

  /** The real opcodes that no register-form branch of the dispatch handles. */
  const UnwiredOps: set<string> := {"NEG", "ASHR", "JMP", "CALL"}

  /** The operand count of the register form of a real opcode; None for the opcodes no branch handles. */
  function RegisterFormArity(op: string): Option<nat> {
    if op == "NOP" || op == "RET" then Some(0)
    else if op in ThreeRegisterOps then Some(3)
    else if op == "NOT" || op in NoDestinationOps || op == "LW" then Some(2)
    else if op in {"PUSH", "OUTSEG", "POP", "RAND"} then Some(1)
    else None
  }

  /** The word of an immediate-form real instruction; no word at all for the two-operand form of most opcodes. */
  function ImmediateFormWord(op: string, code: string, cond: string, ops: seq<string>, f: OperandField, line: nat): (r: Result<seq<Word>, Error>)
    requires IsOpcode(code) && IsCond(cond) && ValidField(f) && ops != []
    ensures r.Success? ==> AllWords(r.value)
    ensures r.Success? ==> |r.value| == if |ops| == 2 && op !in NoDestinationOps && op != "NOT" then 0 else 1
    ensures r.Success? && r.value != [] ==> r.value[0][..9] == code + cond && r.value[0][19..] == FieldBits(f)
    ensures r.Success? <==>
      if |ops| == 1 then true
      else if |ops| == 2 then (op in NoDestinationOps || op == "NOT") ==> ops[0] in RegisterMap
      else ops[0] in RegisterMap && ops[1] in RegisterMap
    ensures r.Failure? ==> r.error == Error(UnknownRegister, line)
  {
    if |ops| == 1 then
      Success([MainWord(code, cond, 0, 0, f)])
    else if |ops| == 2 then
      if op in NoDestinationOps then
        var rs1 :- ParseRegister(ops[0], line);
        Success([MainWord(code, cond, 0, rs1, f)])
      else if op == "NOT" then
        var rd :- ParseRegister(ops[0], line);
        Success([MainWord(code, cond, rd, 0, f)])
      else Success([])
    else
      var rd :- ParseRegister(ops[0], line);
      var rs1 :- ParseRegister(ops[1], line);
      Success([MainWord(code, cond, rd, rs1, f)])
  }

  /** The register forms without a destination-and-source pair: NOP and RET take no operand; PUSH, OUTSEG, POP and RAND take one. */
  function ShortRegisterForm(op: string, code: string, cond: string, ops: seq<string>, line: nat): (r: Result<seq<Word>, Error>)
    requires IsOpcode(code) && IsCond(cond)
    requires op in {"NOP", "RET", "PUSH", "OUTSEG", "POP", "RAND"}
    ensures r.Success? ==> |r.value| == 1 && IsWord(r.value[0]) && r.value[0][..9] == code + cond
    ensures r.Success? <==> if op == "NOP" || op == "RET" then ops == [] else |ops| == 1 && ops[0] in RegisterMap
    ensures r.Failure? ==> r.error.line == line
  {
    if op == "NOP" || op == "RET" then
      if |ops| != 0 then Failure(Error(Arity, line))
      else
        Success([MainWord(code, cond, 0, 0, Register(0))])
    else if |ops| != 1 then Failure(Error(Arity, line))
    else
      var r :- ParseRegister(ops[0], line);
      if op == "PUSH" || op == "OUTSEG" then
        Success([MainWord(code, cond, 0, 0, Register(r))])
      else
        Success([MainWord(code, cond, r, 0, Register(0))])
  }

  /** The two-operand register forms: NOT, CMP, SW, PSET and LW; CMP adds its all-zero filler word. */
  function PairRegisterForm(op: string, code: string, cond: string, ops: seq<string>, line: nat): (r: Result<seq<Word>, Error>)
    requires IsOpcode(code) && IsCond(cond)
    requires op == "NOT" || op in NoDestinationOps || op == "LW"
    ensures r.Success? ==> AllWords(r.value) && r.value != [] && r.value[0][..9] == code + cond
    ensures r.Success? ==> |r.value| == (if op == "CMP" then 2 else 1)
    ensures r.Success? && op == "CMP" ==> r.value[1] == ZeroWord
    ensures r.Success? <==> |ops| == 2 && ops[0] in RegisterMap && ops[1] in RegisterMap
    ensures r.Failure? ==> r.error == Error(if |ops| != 2 then Arity else UnknownRegister, line)
  {
    if |ops| != 2 then Failure(Error(Arity, line))
    else
      var a :- ParseRegister(ops[0], line);
      var b :- ParseRegister(ops[1], line);
      if op == "NOT" then
        Success([MainWord(code, cond, a, 0, Register(b))])
      else if op == "LW" then
        Success([MainWord(code, cond, a, b, Register(0))])
      else
        ZeroWordIsWord();
        Success([MainWord(code, cond, 0, a, Register(b))] + (if op == "CMP" then [ZeroWord] else []))
  }

  /** The register forms of the real opcodes, each with its operand count; no word for an opcode without one. */
  function RegisterFormWords(op: string, code: string, cond: string, ops: seq<string>, line: nat): (r: Result<seq<Word>, Error>)
    requires IsOpcode(code) && IsCond(cond)
    ensures r.Success? ==> AllWords(r.value)
    ensures r.Success? && r.value != [] ==> r.value[0][..9] == code + cond
    ensures r.Success? ==> |r.value| == if op == "CMP" then 2 else if RegisterFormArity(op).None? then 0 else 1
    ensures r.Success? && op == "CMP" ==> r.value[1] == ZeroWord
    ensures r.Failure? ==> r.error.line == line
  {
    if op in ThreeRegisterOps then
      if |ops| != 3 then Failure(Error(Arity, line))
      else
        var rd :- ParseRegister(ops[0], line);
        var rs1 :- ParseRegister(ops[1], line);
        var rs2 :- ParseRegister(ops[2], line);
        Success([MainWord(code, cond, rd, rs1, Register(rs2))])
    else if op == "NOT" || op in NoDestinationOps || op == "LW" then PairRegisterForm(op, code, cond, ops, line)
    else if op in {"NOP", "RET", "PUSH", "OUTSEG", "POP", "RAND"} then ShortRegisterForm(op, code, cond, ops, line)
    else Success([])
  }

  /** The words of a real or pseudo instruction: at most one main word, then exactly the trailing words. */
  predicate HasLayout(ws: seq<Word>, op: string, code: string, cond: string, ops: seq<string>) {
    var t := TrailingWords(op, ops);
    && |t| <= |ws| <= |t| + 1
    && ws[|ws| - |t|..] == t
    && (|ws| > |t| ==> IsWord(ws[0]) && ws[0][..9] == code + cond)
  }

  lemma LayoutOf(main: seq<Word>, tail: seq<Word>, op: string, code: string, cond: string, ops: seq<string>)
    requires |main| <= 1 && (main != [] ==> IsWord(main[0]) && main[0][..9] == code + cond)
    requires tail == TrailingWords(op, ops)
    ensures HasLayout(main + tail, op, code, cond, ops)
  {
    assert (main + tail)[|main|..] == tail;
  }

  /** The immediate form of a real instruction: its main word when the form has one, the extension word, CMP's filler word. */
  function ImmediateWords(op: string, code: string, cond: string, ops: seq<string>, line: nat): (r: Result<seq<Word>, Error>)
    requires IsOpcode(code) && IsCond(cond) && ops != [] && IsImmediate(Last(ops))
    ensures r.Success? ==> ParseInt(Last(ops)).Some? && AllWords(r.value)
    ensures r.Success? ==> HasLayout(r.value, op, code, cond, ops)
    ensures r.Failure? ==> r.error.line == line
  {
    var v :- Int(Last(ops), line);
    var (f, ext) := ImmediateField(v);
    var main :- ImmediateFormWord(op, code, cond, ops, f, line);
    ZeroWordIsWord();
    var filler := if op == "CMP" then [ZeroWord] else [];
    assert TrailingWords(op, ops) == ext + filler;
    LayoutOf(main, ext + filler, op, code, cond, ops);
    assert main + ext + filler == main + (ext + filler);
    Success(main + ext + filler)
  }

  /**
   * A real instruction: its main word (absent for the forms that emit none), then the extension
   * word of a long last immediate, then CMP's filler word.
   */
  function EncodeReal(op: string, code: string, cond: string, ops: seq<string>, line: nat): (r: Result<seq<Word>, Error>)
    requires IsOpcode(code) && IsCond(cond)
    ensures r.Success? ==> AllWords(r.value) && HasLayout(r.value, op, code, cond, ops)
    ensures r.Failure? ==> r.error.line == line
  {
    if ops != [] && IsImmediate(Last(ops)) then ImmediateWords(op, code, cond, ops, line)
    else
      var r := RegisterFormWords(op, code, cond, ops, line);
      assert r.Success? && op == "CMP" ==> r.value[1..] == [ZeroWord];
      r
  }

  /** The words of one instruction once its condition prefix is removed: the dispatch of `parse_instruction`. */
  function EncodeOp(op: string, cond: string, ops: seq<string>, line: nat): (r: Result<seq<Word>, Error>)
    requires IsCond(cond)
    ensures r.Success? ==> AllWords(r.value)
    ensures r.Failure? ==> r.error.line == line
  {
    TableCodeWidths();
    if op in ConditionPseudoInstructions then
      CodeWidth(ConditionPseudoInstructions, 3, op);
      EncodeBranch(ConditionPseudoInstructions[op], ops, line)
    else if op in PseudoInstructions then
      CodeWidth(PseudoInstructions, 6, op);
      EncodePseudo(op, PseudoInstructions[op], cond, ops, line)
    else if op in OpcodeMap then
      CodeWidth(OpcodeMap, 6, op);
      EncodeReal(op, OpcodeMap[op], cond, ops, line)
    else Failure(Error(UnknownOpcode, line))
  }

  // ---------------------------------------------------------------------------------------
  // Annotations and whole lines

  /** The empty annotation for the extension word of a last operand outside [0, 2048). */
  function LongImmediatePadding(ops: seq<string>, line: nat): (r: Result<seq<string>, Error>)
    ensures r.Failure? ==> r.error.line == line
  {
    if ops != [] && IsImmediate(Last(ops)) then
      var v :- Int(Last(ops), line);
      Success(if InShortRange(v) then [] else [""])
    else Success([])
  }

  /** The annotations of one line: its original text, then an empty entry for each word the source expects after the first. */
  function Annotations(op: string, ops: seq<string>, original: string, line: nat): (r: Result<seq<string>, Error>)
    ensures r.Failure? ==> r.error.line == line
  {
    var pad :- LongImmediatePadding(ops, line);
    Success([original] + pad
            + (if op in ConditionPseudoInstructions then ["", ""] else [])
            + (if op == "CMP" then [""] else []))
  }

  /** A leading condition operand is removed and gives the condition field; otherwise the field is 000. */
  function SplitCondition(operands: seq<string>): (p: (string, seq<string>))
    ensures IsCond(p.0)
  {
    ConditionWidths();
    if operands != [] && operands[0] in ConditionMap then
      CodeWidth(ConditionMap, 3, operands[0]);
      (ConditionMap[operands[0]], operands[1..])
    else ("000", operands)
  }

  datatype Output = Output(words: seq<Word>, notes: seq<string>)

  function Opcode(line: string): string
    requires Split(line) != []
  {
    Split(line)[0]
  }

  /** The operands of a line after its condition prefix, if any, is removed. */
  function Operands(line: string): seq<string>
    requires Split(line) != []
  {
    SplitCondition(Split(line)[1..]).1
  }

  /** One resolved line of pass 3: its words and its annotations, or the error it raises. */
  function EncodeLine(line: string, lineNum: nat, original: string): (r: Result<Output, Error>)
    requires Split(line) != []
    ensures r.Success? ==> AllWords(r.value.words)
    ensures r.Failure? ==> r.error.line == lineNum
  {
    var parts := Split(line);
    var (cond, ops) := SplitCondition(parts[1..]);
    var words :- EncodeOp(parts[0], cond, ops, lineNum);
    var notes :- Annotations(parts[0], ops, original, lineNum);
    Success(Output(words, notes))
  }
}
