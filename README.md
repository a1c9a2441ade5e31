# A verified model of the three-pass assembler

This project models the core of `assembler.py`, an assembler for a small 32-bit fixed-width
instruction set, together with proofs about it. The assembler reads source lines and produces
two parallel lists: one of 32-bit machine words and one of annotations. Each word is written as
a string of `0`/`1` characters.

The core works in three passes:

- **Pass 1** (`parse_const_label`, with `parse_const_definition` and `parse_label_definition`).
  - It strips every raw line and records its line number.
  - It skips blank lines and `#` comments.
  - It records `CONST name value` definitions and binds every `name:` label to the running
    word address.
  - It keeps each instruction line and advances the address by the line's predicted word count.
    That count is 1, plus 1 when the last operand, after constant replacement, is a literal
    outside [0, 2048), plus 1 for `CMP`, or plus 2 for a conditional branch.
- **Pass 2** (`replace_const_label`).
  - It replaces each operand that names a constant by the constant's value token.
  - Otherwise, it replaces each operand that names a label by the label's address in decimal.
  - It joins the tokens back with single spaces.
- **Pass 3** (`parse_instruction`).
  - It removes a leading condition operand (`EQ` … `NEV`) and puts its code in the cond field.
  - It dispatches the mnemonic to one of three tables: the conditional branches (`BEQ` … `BNEV`),
    the other pseudo-instructions (`MOV INC DEC CLR SQ GET SETCOLOR`) or the real opcodes.
  - It emits words laid out as opcode(6) cond(3) rd(5) rs1(5) operand(13). The operand field is
    `00` + 6 zeros + a register number, `10` + an 11-bit immediate, or `01` + 11 zeros. In the
    last case an extension word holding the value modulo 2^32 follows.
  - Branches expand to a compare word, an all-zero word and a jump word. `CMP` is followed by
    an all-zero word.
  - Alongside the words it builds the annotation list: the line's text, then one empty entry
    for each further word the line is expected to take.

## How the model is organised

- Data:
  - `Errors.Error`: the assembler's exceptions, as an error kind plus the number of the line
    they report. Every operation that can raise returns a `Result`.
  - The two global tables `CONST_TABLE` and `LABEL_TABLE`: the fields `consts` and `labels` of
    the class `Assembler.Assembler`.
  - Only pass 1 writes those fields: `ParseConstLabel`, through `DefineConst` and
    `DefineLabel`, updates them in place. Pass 2 (`ReplaceConstLabel`) only reads them.
    Pass 3 (`Assembler.ParseInstruction`) is a module-level method, as `parse_instruction` is a
    module-level function; it takes the resolved lines and never touches the tables.
- Passes 1 and 2 (`ParseConstLabel`, `ReplaceConstLabel`): methods of the class, with loops.
  - Pass 1 is proved to compute `Sizing.Run(Sizing.Step, …)`, a fold of one-line steps.
  - Pass 2 is proved to compute `Substitution.ResolveLine` line by line.
- Pass 3 (`Assembler.ParseInstruction`): a loop proved to compute `Emission.Pass3Upto`, the
  in-order concatenation of `Encoding.EncodeLine` over the resolved lines.
- Properties:
  - `EncodingProperties`: the encoding of one instruction (dispatch, word counts, field
    layout, branch and CMP expansion, immediates and error cases).
  - `EncodingFields`: the fields of every word each form writes, read back with
    `Encoding.Decode`; the layout of each line's words (main word, then the extension word
    and the CMP zero word); every emitted word is a main word of the line's own opcode and
    cond, the zero word or an extension word.
  - `Pass1Properties`: pass 1 (line map, kept lines, growing tables, label binding, first error).
  - `Consistency`: how the passes fit together, line by line (`SizingAgrees`) and over a whole
    program (`ProgramSize`, `LabelIsWordIndex`).

### Modelling choices

- A word is a `string` of 32 `0`/`1` characters. The layout is then visible field by field,
  and `Encoding.Decode` reads a word back into its fields. The spaces inside the source's
  format strings are left out, because the output stage removes them before it checks the
  length.
- `int(x, 0)` is modelled by `Lexer.ParseInt`:
  - an optional sign, then a `0b`/`0o`/`0x` prefix in either case, or plain decimal;
  - a decimal with a superfluous leading zero (such as `007`) is refused, as Python refuses
    it, so the line fails with `BadLiteral`.
- `is_immediate` is modelled by the recogniser `Lexer.IsImmediate`.
- Pass 3 reports the error of line `i` (counting kept lines) as `line_map[i]`. That is the
  number of raw line `i + 1`, not of the failing line. The model keeps this.

### Quirks of the code that the model keeps

- The jump word of a branch (assembler.py:214) has opcode `001111` and carries the branch's
  code in its cond field.
- The word and annotation lists are not always of equal length:
  - `NEG`, `ASHR`, `JMP` and `CALL` without an immediate match no register form, so they emit
    no word, yet they get their annotation (assembler.py:330-393).
  - The two-operand immediate form of a real opcode other than `CMP`, `SW`, `PSET` and `NOT`
    emits no main word, only the extension word if any (assembler.py:311-319).
  - The lemmas about word counts therefore carry the hypothesis `EmitsMainWord` /
    `AllEmitFully`.
- The condition operand, when present, is the first token after the mnemonic
  (assembler.py:192-196).

## Model

| member | source | states |
|---|---|---|
| Bits.Bin | assembler.py:205-208 | the `:0Nb` formatting of a number: exactly N binary characters |
| Bits.FromBinBin | assembler.py:205 | formatting a number in N bits and reading it back gives the number modulo 2^N (the `& ((1 << 11) - 1)` mask) |
| Bits.FromBinBinExact | assembler.py:227-228 | a number below 2^N is read back unchanged from its N-bit form |
| Bits.BinFromBin | assembler.py:231 | a bit string reads as a number below 2^width, and formatting that number gives the string back |
| Bits.Mask32 | assembler.py:305 | `v & 0xFFFFFFFF` is below 2^32 |
| Bits.SignedOfMask | assembler.py:305 | for -2^31 <= v < 2^31, reading the 32-bit mask of v as two's complement gives v |
| Bits.SignedRoundTrip | assembler.py:231 | the 32-character extension word of such a v, read as two's complement, gives back v |
| Lexer.Strip | assembler.py:121 | `strip()`: the result keeps no surrounding whitespace and leaves a stripped line unchanged |
| Lexer.LStrip | assembler.py:121 | the result is a suffix of the input, and everything removed was whitespace |
| Lexer.RStrip | assembler.py:121 | the result is a prefix of the input, and everything removed was whitespace |
| Lexer.TokenLen | assembler.py:136 | the first token of `split()` ends at the first whitespace |
| Lexer.Split | assembler.py:136 | `split()` yields non-empty tokens without whitespace |
| Lexer.TokenLenAppend | assembler.py:136 | text appended after the first token's end does not change that token |
| Lexer.SplitAppend | assembler.py:169 | splitting two texts joined by a space gives the tokens of the first followed by those of the second |
| Lexer.SplitOfToken | assembler.py:169 | a token followed by whitespace splits as that token followed by the split of the rest |
| Lexer.SplitNonEmpty | assembler.py:136-137 | a line starting with a non-space has a first token `parts[0]` |
| Lexer.SplitJoin | assembler.py:169 | the `' '.join` of tokens splits back into the same tokens (the resolved line is re-split at 188) |
| Lexer.IsImmediate | assembler.py:83-86 | `is_immediate`: the whole token is an optional `-`, then `0b` and binary digits, `0x` and hexadecimal digits, `0o` and octal digits, or decimal digits alone (no ensures; characterised by ImmediateParses, DecimalStringParses and Tables.NamesAreNotImmediates) |
| Lexer.ParseInt | assembler.py:142 | `int(x, 0)`: an optional sign, a base prefix of either case with digits, or a decimal without a superfluous leading zero, else None (no ensures; characterised by ImmediateParses and DecimalStringParses, and used for every `int(x, 0)` call: 142, 204, 207, 226, 280, 298, 395) |
| Lexer.ImmediateParses | assembler.py:83-86 | a token that `is_immediate` accepts is refused by `int(x, 0)` exactly when it is a decimal with a superfluous leading zero |
| Lexer.DecimalString | assembler.py:169 | `str(n)`: a non-empty decimal string whose value is n, without leading zero |
| Lexer.DecimalStringParses | assembler.py:165-169 | a label address written by `str` is an immediate token that `int(x, 0)` reads back as the address |
| Lexer.DigitValue | assembler.py:85 | the value a digit character stands for, at most 16 |
| Lexer.DigitValues | assembler.py:85 | a character has a value below 10 exactly when it is a decimal digit, below 16 exactly when it is a hexadecimal digit of either case, and `a`-`f` count 10-15 as `A`-`F` do |
| Lexer.DecimalDigit | assembler.py:169 | the decimal character of a digit below 10, whose value is that digit |
| Tables.ParseRegister | assembler.py:174-178 | `parse_register`: succeeds exactly for names in REGISTER_MAP, with the number REGISTER_MAP gives, below 32; otherwise UnknownRegister for the line |
| Tables.RegisterNumbersFit | assembler.py:71-75 | every register number fits the 5-bit fields |
| Tables.TableCodeWidths | assembler.py:7-58 | the opcode codes are 6-bit strings and the condition and branch codes 3-bit strings |
| Tables.CodeWidth | assembler.py:7-58 | a looked-up code has its table's width |
| Tables.NamesAreNotImmediates | assembler.py:40-75 | no register or condition name is an immediate |
| Tables.TablesDisjoint | assembler.py:7-68 | the branch, pseudo and real tables share no mnemonic, so the dispatch order at 199, 217 and 293 does not matter |
| Tables.PseudoNotReal | assembler.py:7-68 | no pseudo-instruction is a real opcode |
| Encoding.FieldBits | assembler.py:300-306 | every operand field is 13 bits |
| Encoding.MainWord | assembler.py:229 | a main word is 32 bits, with the opcode and cond in its first 9 bits and the operand field in its last 13 |
| Encoding.ExtWord | assembler.py:231 | an extension word is 32 bits |
| Encoding.DecodeFieldBits | assembler.py:300-306 | an operand field decodes back to itself |
| Encoding.DecodeMainWord | assembler.py:229 | a main word decodes back to exactly the opcode, cond, rd, rs1 and operand field it was built from |
| Encoding.DecodedField | assembler.py:300-306 | a 13-bit string that reads as an operand field is exactly that field's bits |
| Encoding.DecodedIsMainWord | assembler.py:229 | the converse of DecodeMainWord: a word that decodes is the main word of its decoded opcode, cond, rd and rs1 (each below 32) and field |
| Encoding.ExtWordValue | assembler.py:305 | an extension word holds `v & 0xFFFFFFFF`, and two's complement gives back v in the 32-bit range |
| Encoding.Int | assembler.py:204 | `int(x, 0)` succeeds exactly when ParseInt does, with its value; otherwise BadLiteral for the line |
| Encoding.ImmediateField | assembler.py:300-306 | an immediate's operand field and extension words are valid 32-bit words |
| Encoding.CompareOperand | assembler.py:206-212 | the second operand of a branch gives a valid field exactly when it is an immediate `int(x, 0)` reads or a register name; otherwise BadLiteral for a refused literal (207) or UnknownRegister (211), of the line |
| Encoding.EncodeBranch | assembler.py:199-214 | a branch gives three 32-bit words: a compare word with cond 000, the all-zero word, a jump word with the branch code; errors name the line |
| Encoding.BranchWords | assembler.py:209-214 | the three words of a branch whose operands are read, in that order |
| Encoding.SourceField | assembler.py:225-236 | the field a MOV/SETCOLOR source is read into: the immediate's field, or the register's number |
| Encoding.MoveWords | assembler.py:225-236 | MOV/SETCOLOR source: succeeds exactly when the source is an immediate `int(x, 0)` reads or a register name, else BadLiteral or UnknownRegister of the line; one word, or two when the immediate is long, the second the extension word; an immediate source fills the operand field |
| Encoding.EncodePseudo | assembler.py:217-290 | a pseudo-instruction gives 32-bit words whose first carries the pseudo's real opcode and the cond, or an error of the line (its error kinds: EncodingProperties.PseudoArityErrors, PseudoUnknownRegister and MoveWords) |
| Encoding.ImmediateFormWord | assembler.py:307-323 | the immediate form gives no word for two operands outside CMP/SW/PSET/NOT and otherwise one word carrying the opcode, cond and field; it succeeds exactly when the operands it reads as registers are register names, else UnknownRegister of the line: none for one operand; for two, the first for CMP/SW/PSET/NOT and none for any other opcode (which writes no word); the first two for more |
| Encoding.ShortRegisterForm | assembler.py:331-387 | NOP/RET/PUSH/OUTSEG/POP/RAND register forms give exactly one word with the opcode and cond; they succeed exactly when NOP/RET have no operand and the others one register name |
| Encoding.PairRegisterForm | assembler.py:347-371 | NOT/CMP/SW/PSET/LW register forms give one word with the opcode and cond, and CMP a second all-zero word; they succeed exactly for two register names, else Arity for another count or UnknownRegister |
| Encoding.RegisterFormWords | assembler.py:330-387 | the register forms: two words for CMP (the second all zero), none for an opcode without a form, else one |
| Encoding.ImmediateWords | assembler.py:297-327 | the immediate path reads its last operand with `int(x, 0)` and gives at most one word with the opcode and cond, followed by exactly the extension word if the immediate is long and the zero word for CMP |
| Encoding.EncodeReal | assembler.py:293-387 | a real opcode gives 32-bit words laid out as at most one word with its opcode and the cond, then exactly the extension word of a long last immediate and the zero word of CMP; or an error of the line |
| Encoding.EncodeOp | assembler.py:199-390 | the dispatch gives 32-bit words or an error of the line (its layout and word kinds: EncodingFields.WordLayout and WordKinds) |
| Encoding.LongImmediatePadding | assembler.py:394-397 | the padding annotation fails only with an error of the line |
| Encoding.Annotations | assembler.py:392-402 | the annotations of a line fail only with an error of the line |
| Encoding.SplitCondition | assembler.py:193-196 | the condition prefix always gives a 3-bit cond code |
| Encoding.EncodeLine | assembler.py:186-402 | one resolved line gives 32-bit words, or an error naming the line number it was given |
| EncodingFields.MoveFields | assembler.py:223-236 | the MOV/SETCOLOR word decodes to the opcode, cond, the given rd, rs1 0 and the source's field |
| EncodingFields.PseudoFields | assembler.py:220-290 | the first word of each pseudo-instruction decoded: MOV rd = its register, rs1 0, the source; INC/DEC rd = rs1 = the register, the immediate 1; CLR rd = the register, rs1 0, register 0; SQ rd = the first register, rs1 and rs2 the second; GET rd = the register, rs1 30, register 0; SETCOLOR rd 31, rs1 0, the source; each with its operand count |
| EncodingFields.ThreeRegisterFields | assembler.py:339-345 | a three-register form has three register operands and emits one word decoding to rd, rs1 and rs2 = the three registers in order |
| EncodingFields.PairFields | assembler.py:347-371 | the word of NOT decodes to rd = first, rs1 0, rs2 = second; LW to rd = first, rs1 = second, rs2 0; CMP/SW/PSET to rd 0, rs1 = first, rs2 = second |
| EncodingFields.ShortFields | assembler.py:331-387 | the word of NOP/RET decodes to all-zero registers; PUSH/OUTSEG to rd 0, rs1 0, rs2 = the register; POP/RAND to rd = the register, rs1 0, rs2 0 |
| EncodingFields.ImmediateFormFields | assembler.py:307-323 | the immediate-form word decodes to rd 0, rs1 0 for one operand; rd 0, rs1 = first for CMP/SW/PSET with two; rd = first, rs1 0 for NOT with two; rd = first, rs1 = second for more; always with the immediate's field |
| EncodingFields.PseudoMainWord | assembler.py:220-290 | the first word of a pseudo-instruction decodes, with the pseudo's opcode and the cond |
| EncodingFields.PseudoLayout | assembler.py:220-290 | a pseudo-instruction emits its main word followed by exactly the extension word of a long immediate source |
| EncodingFields.RealMainWord | assembler.py:293-387 | a real opcode that emits its main word puts first a word that decodes with its opcode and the cond |
| EncodingFields.RealWithoutMainWord | assembler.py:311-390 | a real opcode that emits no main word emits exactly the trailing words: the extension word, if any |
| EncodingFields.WordLayout | assembler.py:217-390 | outside the branches, a line's words are its main word (when it emits one; it decodes with the opcode and cond) followed by exactly the extension word of a long last immediate and the zero word of CMP |
| EncodingFields.WordKinds | assembler.py:199-390 | every word a line emits is one of its own main words (for a branch the compare word with opcode `001110` and cond 000 or the jump word with opcode `001111` and the branch code; otherwise a word with the mnemonic's opcode and the line's cond, each decoding), the all-zero word, or the extension word of its long last immediate |
| EncodingProperties.DispatchBranch | assembler.py:199-200 | a mnemonic in the branch table is encoded as a branch with its code |
| EncodingProperties.DispatchPseudo | assembler.py:217-218 | a pseudo-instruction is encoded with its real opcode |
| EncodingProperties.DispatchReal | assembler.py:293-294 | a real opcode is encoded with its code |
| EncodingProperties.RealWordCount | assembler.py:293-327 | a real opcode that emits its main word gives 1 word, plus 1 for a long immediate, plus 1 for CMP |
| EncodingProperties.PseudoWordCount | assembler.py:217-290 | a pseudo-instruction gives 1 word, plus 1 for a long immediate |
| EncodingProperties.WordCount | assembler.py:199-390 | a line that emits its main word and is no branch to a long target gives exactly the count pass 1 predicts (139-149) |
| EncodingProperties.NotesCount | assembler.py:392-402 | the annotations are the predicted count: the line's text, then empty entries |
| EncodingProperties.LastOperandParses | assembler.py:297-298 | an instruction that encodes has read its immediate last operand with `int(x, 0)` |
| EncodingProperties.AnnotationsFollow | assembler.py:394-395 | the annotation step never fails after a line has encoded |
| EncodingProperties.RealFirstWord | assembler.py:293-387 | the first word of a real opcode that emits one carries its code and the cond |
| EncodingProperties.ConditionPrefix | assembler.py:192-196 | a leading condition operand is removed and its code fills the cond field; otherwise cond 000; a branch's first word is a compare with cond 000 |
| EncodingProperties.BranchExpansion | assembler.py:199-214 | a branch needs 3 operands, a register, a literal target and a readable compare operand, each error named (Arity, UnknownRegister, BadLiteral, then BadLiteral or UnknownRegister for the compare operand); it emits exactly the compare word, the zero word and the jump word, decoded field by field, with immediates taken modulo 2^11 |
| EncodingProperties.BranchDecodes | assembler.py:209-214 | the three words of a branch that encodes, decoded field by field |
| EncodingProperties.CompareWords | assembler.py:297-363 | CMP gives 2 words, or 3 with an extension word, and always ends with the all-zero word |
| EncodingProperties.RealImmediate | assembler.py:297-325 | an immediate last operand of a real opcode fills the field, and a long one is followed by its extension word |
| EncodingProperties.PseudoImmediate | assembler.py:225-287 | the same for the immediate source of MOV and SETCOLOR |
| EncodingProperties.ImmediateLayout | assembler.py:297-306 | the field is `10` + the value in 11 bits for 0 <= v < 2048, else `01` + 11 zeros with the extension word next |
| EncodingProperties.ImmediateOperand | assembler.py:297-325 | an immediate in [0, 2048) reads back from the field; any other is read back modulo 2^32 from the next word |
| EncodingProperties.LeadingZeroImmediateRefused | assembler.py:297-298 | a real opcode whose last operand is a decimal with a leading zero fails with BadLiteral |
| EncodingProperties.UnwiredOpcodes | assembler.py:330-387 | of the real opcodes, exactly NEG, ASHR, JMP and CALL have no register form |
| EncodingProperties.UnwiredRegisterForm | assembler.py:330-387 | an opcode without a register form emits nothing there |
| EncodingProperties.UnwiredOpcodesEmitNothing | assembler.py:330-393 | NEG, ASHR, JMP and CALL without an immediate emit no word yet get their annotation |
| EncodingProperties.TwoOperandImmediateForm | assembler.py:311-325 | the two-operand immediate form outside CMP/SW/PSET/NOT emits only the extension word, if any |
| EncodingProperties.PseudoArityErrors | assembler.py:220-278 | MOV and SQ need two operands and the other pseudo-instructions one; any other count is an Arity error |
| EncodingProperties.PseudoUnknownRegister | assembler.py:220-274 | with its operand count, a pseudo-instruction whose register operand is not a register name fails with UnknownRegister of the line: the destination of MOV, INC, DEC, CLR, SQ and GET, and SQ's source once its destination is read |
| EncodingProperties.RegisterFormArityError | assembler.py:331-383 | a register form with the wrong operand count is an Arity error |
| EncodingProperties.RealArityError | assembler.py:331-383 | a real opcode without an immediate and with the wrong operand count is an Arity error |
| EncodingProperties.RegisterFormUnknownRegister | assembler.py:339-387 | a register form with a non-register operand is an UnknownRegister error |
| EncodingProperties.PairFormUnknownRegister | assembler.py:347-371 | the same for the two-operand forms |
| EncodingProperties.ShortFormUnknownRegister | assembler.py:373-387 | the same for the one-operand forms |
| EncodingProperties.UnknownRegisterError | assembler.py:330-387 | a real opcode without an immediate, with its arity and a non-register operand, is an UnknownRegister error |
| EncodingProperties.UnknownOpcodeError | assembler.py:389-390 | a mnemonic in no table is an UnknownOpcode error |
| Sizing.ColonIndex | assembler.py:103 | the position of the first colon |
| Sizing.LabelName | assembler.py:103-104 | the stripped text before the first colon; what follows the colon is dropped |
| Sizing.ColonIndexOf | assembler.py:103 | in `a:b` with no colon in `a`, the first colon is at position `len(a)` |
| Sizing.LabelNameOf | assembler.py:103-104 | the label of `a:b`, with no colon in `a`, is `a` stripped, whatever `b` is |
| Sizing.IsSkipped | assembler.py:123 | the blank-or-comment test `not line or line.startswith('#')` (no ensures; characterised by StepSkipped) |
| Sizing.IsConstLine | assembler.py:127 | `line.startswith('CONST')` (no ensures; characterised by StepConst and ConstEffects) |
| Sizing.IsLabelLine | assembler.py:131 | `':' in line`, tried after the CONST test (no ensures; characterised by StepLabel and LabelEffects) |
| Sizing.ConstDefinition | assembler.py:89-98 | ConstSyntax unless there are exactly 3 fields, DuplicateConst for a defined name, else the table gains name → value token and keeps every other entry |
| Sizing.LabelDefinition | assembler.py:101-110 | EmptyLabel for an empty name, DuplicateLabel for a defined one, else the table gains name → current address and keeps every other entry |
| Sizing.SizedExtension | assembler.py:139-144 | at most one extension word for the last operand |
| Sizing.InstrSize | assembler.py:136-149 | the predicted size is 1 to 4 words, at least 2 for CMP and 3 for a branch; it fails, with BadLiteral, exactly when the const-replaced last operand is an immediate `int(x, 0)` refuses |
| Sizing.InstrSizeParts | assembler.py:139-149 | the size is 1, plus the extension word, plus 1 for CMP or 2 for a branch |
| Sizing.StrippedSplit | assembler.py:136-137 | a stripped non-blank line has an opcode |
| Sizing.Step | assembler.py:120-150 | one raw line of pass 1; its error names the line |
| Sizing.StepEffects | assembler.py:120-150 | a line read without error records its number, keeps itself exactly when it is an instruction line, moves the address only then, and only grows the tables |
| Sizing.ConstEffects | assembler.py:127-128 | the same for a CONST line |
| Sizing.LabelEffects | assembler.py:131-132 | the same for a label line |
| Sizing.InstructionEffects | assembler.py:135-150 | the same for an instruction line |
| Sizing.StepSkipped | assembler.py:123-124 | a blank or comment line only has its number recorded |
| Sizing.StepConst | assembler.py:127-128 | a CONST line records its constant, or fails with the definition's error |
| Sizing.StepLabel | assembler.py:131-132 | a label line binds its label at the current address, or fails with the definition's error |
| Sizing.StepInstruction | assembler.py:135-150 | an instruction line is kept and moves the address by its size, or fails with the sizing error |
| Sizing.Pass1Next | assembler.py:120-150 | the next raw line advances the pass by one Step, or stops it with that line's error |
| Sizing.RunErrorSticks | assembler.py:120-150 | once a fold of steps has failed, later lines change nothing |
| Sizing.Pass1ErrorSticks | assembler.py:120-150 | the first exception ends pass 1: later lines change nothing |
| Sizing.Run | assembler.py:120-150 | the loop of `parse_const_label` as a fold of Step over the raw lines, numbered from 1, stopping at the first error with the state before it (no ensures; characterised by Pass1Next, RunErrorSticks and Pass1Properties.RunFirstError, and proved equal to the loop by Assembler.Assembler.ParseConstLabel) |
| Pass1Properties.InstructionLines | assembler.py:117 | the instruction lines among n raw lines are at most n |
| Pass1Properties.KeptLine | assembler.py:123-150 | a kept line is an instruction line with an opcode |
| Pass1Properties.InstructionLinesAreInstructions | assembler.py:117-150 | every line in `assembly_lines` is an instruction line with an opcode |
| Pass1Properties.LineNumbers | assembler.py:122 | the numbers 1..n in order |
| Pass1Properties.StepAdvances | assembler.py:120-150 | Step always records the line number, keeps exactly the instruction lines and only grows the state |
| Pass1Properties.StepKeepsTokens | assembler.py:95-98 | the stored constant values stay single tokens |
| Pass1Properties.StepTokens | assembler.py:95-98 | the same for every Step |
| Pass1Properties.RunLast | assembler.py:120-150 | a fold without error after n lines went through line n - 1 and stepped line n from there |
| Pass1Properties.RunLastAt | assembler.py:120-150 | RunLast for line n named as the line after m |
| Pass1Properties.StepSizes | assembler.py:135-149 | Step leaves the address alone on a line it does not keep, and moves it by the predicted size on a kept one |
| Pass1Properties.StepAddress | assembler.py:120-150 | each raw line either leaves the kept lines and address alone, or appends itself and moves the address by its predicted size |
| Pass1Properties.SizesLast | assembler.py:135-149 | the address part of StepAddress |
| Pass1Properties.KeepsLast | assembler.py:150 | the kept lines gain the raw line exactly when it is an instruction line |
| Pass1Properties.RunNumbers | assembler.py:122 | `line_map` is 1..n: every raw line, blank and comment ones included |
| Pass1Properties.KeptLines | assembler.py:150 | kept lines that grow line by line are the instruction lines in order |
| Pass1Properties.InstructionLinesLast | assembler.py:150 | the instruction lines of n raw lines are those of n - 1 plus the last line if kept |
| Pass1Properties.RunKeeps | assembler.py:117-150 | `assembly_lines` is exactly the stripped instruction lines, in their original order |
| Pass1Properties.RunTokens | assembler.py:95-98 | constant values stay tokens over a whole run |
| Pass1Properties.Pass1Shape | assembler.py:113-151 | after n lines without error: line map 1..n, kept lines the instruction lines in order, constant values tokens |
| Pass1Properties.RunGrows | assembler.py:120-150 | between two points of a fold the tables only gain entries, the kept lines only grow at the end, the address only rises |
| Pass1Properties.Pass1Grows | assembler.py:120-150 | the same for pass 1 |
| Pass1Properties.LabelBinding | assembler.py:101-132 | a label's name is fresh when its line is read, and the final table binds it to the address reached at that line |
| Pass1Properties.StepReportsLine | assembler.py:93-108 | every error of Step names the line it was given |
| Pass1Properties.RunFirstError | assembler.py:120-150 | a failing fold reports line m, went through the lines before m, and failed at m |
| Pass1Properties.Pass1FirstError | assembler.py:120-150 | a failing pass 1 reports the first failing line m; the state, tables included, is the one before line m |
| Substitution.Subst | assembler.py:162-168 | a constant becomes its value (looked up first), else a label becomes a string of decimal digits, an immediate that reads back as its address, else the token stays |
| Substitution.SubstIsToken | assembler.py:162-169 | a substituted token is still a token |
| Substitution.SubstAll | assembler.py:161-168 | the inner loop of `replace_const_label`: one replacement per operand, in order (no ensures; characterised by ResolvedTokens) |
| Substitution.ResolveLine | assembler.py:157-169 | one resolved line: the opcode, then the replaced operands, joined by single spaces (no ensures; characterised by ResolvedSplit and ResolvedTokens, and proved equal to the loop body by Assembler.Assembler.ReplaceConstLabel) |
| Substitution.ResolvedSplit | assembler.py:169 | a resolved line splits back into the opcode followed by the substituted operands |
| Substitution.ResolvedTokens | assembler.py:154-171 | a resolved line keeps its opcode and its operand count, and its operand i is the replacement of operand i |
| Emission.EmitStep | assembler.py:186-402 | a successful run over n lines is the run over n - 1 lines followed by line n |
| Emission.Emit | assembler.py:186-404 | a fold of a line encoder over the first n lines: the outputs concatenated in line order, or the first error (no ensures; characterised by EmitStep, EmitPrefix, EmitErrorSticks and EmitWordsMatchNotes) |
| Emission.Pass3Upto | assembler.py:186-404 | the loop of `parse_instruction` over the first n resolved lines (no ensures; characterised by Pass3Step, Pass3Next, Pass3Prefix, Pass3Words and Pass3ErrorLine, and proved equal to the loop by Assembler.ParseInstruction) |
| Emission.Pass3Step | assembler.py:186-402 | the same for pass 3 |
| Emission.Pass3Next | assembler.py:186-402 | line i + 1 appends its words and annotations to the output so far, or ends pass 3 with its error |
| Emission.EmitPrefix | assembler.py:186-404 | a successful run succeeds on every prefix, whose output is a prefix of its output |
| Emission.Pass3Prefix | assembler.py:186-404 | the same for pass 3 |
| Emission.EmitErrorSticks | assembler.py:186-404 | once a run has failed, later lines change nothing |
| Emission.Pass3ErrorSticks | assembler.py:186-404 | the first exception ends pass 3 |
| Emission.EmitWordsMatchNotes | assembler.py:186-404 | lines each giving as many words as annotations give a whole run with as many |
| Emission.EncodeAnyHonest | assembler.py:186-402 | every encoded line gives 32-bit words, and its errors name its line number |
| Emission.EmitWords | assembler.py:186-404 | every word of a successful run is 32 bits |
| Emission.EmitErrorLine | assembler.py:186-404 | a failing run reports the line number of one of its lines |
| Emission.Pass3Words | assembler.py:186-404 | every word pass 3 emits is exactly 32 binary characters |
| Emission.Pass3ErrorLine | assembler.py:186-404 | a failing pass 3 reports `line_map[i]` of one of the lines it read |
| Assembler.Assembler.constructor | assembler.py:78-79 | both tables start empty |
| Assembler.Assembler.DefineConst | assembler.py:89-98 | `parse_const_definition` on the table in place: the table becomes ConstDefinition's, or stays unchanged with its error; labels untouched |
| Assembler.Assembler.DefineLabel | assembler.py:101-110 | `parse_label_definition` in place: the table becomes LabelDefinition's, or stays unchanged with its error; constants untouched |
| Assembler.Assembler.ParseConstLabel | assembler.py:113-151 | `parse_const_label`: the kept lines and line map of pass 1 or its first error, with the tables left as pass 1 leaves them |
| Assembler.Assembler.ScanLine | assembler.py:120-150 | the loop body for one raw line performs exactly one Step in place, and a failing line changes no table |
| Assembler.ScannedSkipped | assembler.py:123-124 | a skipped line, as ScanLine reports it |
| Assembler.Assembler.SizeInstruction | assembler.py:136-149 | the address increments of one instruction line add up to InstrSize |
| Assembler.Assembler.ReplaceConstLabel | assembler.py:154-171 | `replace_const_label`: one resolved line per line in order, each ResolveLine of it against the current tables |
| Assembler.EncodeResolvedLine | assembler.py:186-402 | the loop body of `parse_instruction` computes EncodeLine |
| Assembler.AnnotateLine | assembler.py:392-402 | the appended annotations are Annotations' |
| Assembler.AppendLine | assembler.py:186-402 | one turn of the loop extends Pass3Upto by one line |
| Assembler.ParseInstruction | assembler.py:181-404 | `parse_instruction`: all words and annotations in line order or the first error, every word 32 bits |
| Consistency.ExtensionAgrees | assembler.py:139-144 | the extension word pass 1 counts is the one pass 3 emits for the resolved operands, when the last operand reads alike |
| Consistency.SizingAgrees | assembler.py:135-149 | a resolved line that encodes was sized without error, gets as many annotations as its pass-1 size (393-402), and as many words when it emits fully (199-387) |
| Consistency.SizeIsPredicted | assembler.py:141-149 | InstrSize is the count the annotations allow for |
| Consistency.ResolvedParts | assembler.py:154-171 | the opcode and operands pass 3 reads from a resolved line |
| Consistency.LineCounts | assembler.py:392-402 | a line that encodes has the predicted annotation count, and the predicted word count when it emits fully |
| Consistency.Pass1Hands | assembler.py:113-151 | pass 1 hands pass 3 a line number and an opcode for every kept line |
| Consistency.AddressInvariant | assembler.py:113-151 | after n raw lines the address is the annotation count pass 3 emits for the lines kept so far |
| Consistency.LaterTables | assembler.py:113-151 | the final tables extend those at every line |
| Consistency.LineAgreesAt | assembler.py:135-150 | pass 1 and pass 3 agree on one raw line that is sized as pass 3 reads it |
| Consistency.AllLinesAgree | assembler.py:120-150 | the same for every line up to n |
| Consistency.FullLine | assembler.py:392-402 | a kept line that emits fully gives as many words as annotations |
| Consistency.FullWords | assembler.py:186-404 | kept lines all emitting fully give as many words as annotations |
| Consistency.ProgramSize | assembler.py:113-151 | for a program passes 1 and 3 accept, the annotations number the final word address, and so do the words when every line emits fully |
| Consistency.LabelIsWordIndex | assembler.py:101-110 | a label's address is the number of annotations, and of words when all lines emit fully, emitted for the lines before it |

## Left out

- `open_file_dialog` and `save_file_dialog` (assembler.py:408-429): user interface.
- `read_assembly_file` (assembler.py:432-446): file input. The passes take the lines as a
  sequence of strings.
- `write_machine_code` (assembler.py:449-473), with its hexadecimal formatting, and `main`
  (assembler.py:476-507): file output and printing. Its 32-bit length check is stated instead
  as `Emission.Pass3Words` and the `ParseInstruction` postcondition.
- The `re` engine: `is_immediate` is a hand-written recogniser of the same language over ASCII.
- `int(x, 0)` with `_` digit separators and non-ASCII digits: only ASCII digits are
  modelled.
- Part of the whitespace that `strip()`/`split()` remove: `Lexer.IsSpace` accepts tab, line
  feed, vertical tab, form feed, carriage return and space. The separators `\x1c`-`\x1f`,
  which Python also treats as whitespace, and non-ASCII whitespace (such as `\x85`, `\xa0` and
  the Unicode spaces) are not modelled as whitespace.
- Error message text: an error is its kind plus the line it reports. Python's exceptions are
  `Result` failures.
- `Emission.EncodeAny`: a resolved line without an opcode, which pass 1 never keeps, is
  reported as UnknownOpcode. The source would raise `IndexError` on `parts[0]`.
- Consistency.ProgramSize: stated under the hypothesis that each kept line's last operand is
  sized as pass 3 reads it (`SizedAlikeAt`). That means:
  - a constant it names was defined before the line;
  - a label it names has an address below 2048 and is not itself spelt as a literal.
  Pass 1 replaces only constants, and only in the last operand. A forward constant or a
  label operand can therefore be sized differently from what pass 3 emits. The word-count
  half also needs `AllEmitFully`, because of the forms that emit no main word.
- Consistency.LabelIsWordIndex: under the same `SizedAlikeAt` and `AllEmitFully` hypotheses,
  for the lines before the label.
- EncodingProperties.WordCount: excludes branches whose target is a literal outside
  [0, 2048). Pass 1 counts an extension word for such a target, but pass 3 takes the target
  modulo 2^11 and emits none.
- Encoding.MoveWords: its own contract states success, errors, word count and the opcode and
  cond of the first word, not rd and rs1; those are stated by `EncodingFields.MoveFields`,
  because field facts in the encoders' own contracts make every caller's proof too large.
- Encoding.EncodePseudo: the same; the fields are stated by `EncodingFields.PseudoFields`, the
  layout by `EncodingFields.PseudoLayout`, and the error kinds by
  `EncodingProperties.PseudoArityErrors`, `EncodingProperties.PseudoUnknownRegister` and
  `Encoding.MoveWords`.
- Encoding.ImmediateFormWord: the same; rd and rs1 are stated by
  `EncodingFields.ImmediateFormFields`.
- Encoding.ShortRegisterForm: the same; the register fields are stated by
  `EncodingFields.ShortFields`.
- Encoding.PairRegisterForm: the same; the register fields are stated by
  `EncodingFields.PairFields`.
- Encoding.RegisterFormWords: the same; the three-register fields are stated by
  `EncodingFields.ThreeRegisterFields`, the others by the two lemmas above.
- Encoding.EncodeReal: its own contract states the layout (main word, then the trailing
  words), not the fields; those are stated by the per-form lemmas of `EncodingFields`.
- Encoding.EncodeOp: its own contract states 32-bit words and the error line; the layout of
  its words and their kinds are stated by `EncodingFields.WordLayout` and
  `EncodingFields.WordKinds`.
