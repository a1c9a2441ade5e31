/**
 * The three passes as the source runs them: pass 1 updates the constant and label tables in
 * place while it walks the lines, pass 2 reads them to rewrite the instruction lines, and
 * pass 3 walks the resolved lines appending words and annotations. Each method is proved to
 * compute its specification function in Sizing, Substitution or Emission.
 */
module Assembler {
  import opened Wrappers
  import opened Errors
  import opened Lexer
  import opened Tables
  import opened Encoding
  import opened EncodingProperties
  import opened Sizing
  import opened Substitution
  import opened Emission

  /** The symbol tables that the source keeps in the globals CONST_TABLE and LABEL_TABLE. */
  class Assembler {
    var consts: map<string, string>
    var labels: map<string, nat>

    constructor ()
      ensures consts == map[] && labels == map[]
    {
      consts := map[];
      labels := map[];
    }

    /** `parse_const_definition`: records a constant, or reports the line's error and changes nothing. */
    method DefineConst(line: string, lineNum: nat) returns (err: Option<Error>)
      modifies this
      ensures labels == old(labels)
      ensures var r := ConstDefinition(line, lineNum, old(consts));
        if r.Success? then err.None? && consts == r.value else err == Some(r.error) && consts == old(consts)
    {
      var parts := Split(line);
      if |parts| != 3 {
        return Some(Error(ConstSyntax, lineNum));
      }
      var symbol, valueToken := parts[1], parts[2];
      if symbol in consts {
        return Some(Error(DuplicateConst, lineNum));
      }
      consts := consts[symbol := valueToken];
      return None;
    }

    /** `parse_label_definition`: binds a label to the current address, or reports the line's error and changes nothing. */
    method DefineLabel(line: string, lineNum: nat, instrAddr: nat) returns (err: Option<Error>)
      requires ':' in line
      modifies this
      ensures consts == old(consts)
      ensures var r := LabelDefinition(line, lineNum, old(labels), instrAddr);
        if r.Success? then err.None? && labels == r.value else err == Some(r.error) && labels == old(labels)
    {
      var name := LabelName(line);
      if name == [] {
        return Some(Error(EmptyLabel, lineNum));
      }
      if name in labels {
        return Some(Error(DuplicateLabel, lineNum));
      }
      labels := labels[name := instrAddr];
      return None;
    }

    /**
     * `parse_const_label`: the instruction lines and the line map, or the first error; the
     * tables end as pass 1 leaves them, including the definitions made before an error.
     */
    method ParseConstLabel(lines: seq<string>) returns (r: Result<(seq<string>, seq<nat>), Error>)
      modifies this
      ensures var o := Run(Step, Start(old(consts), old(labels)), lines, |lines|);
        && consts == o.state.consts && labels == o.state.labels
        && r == if o.err.Some? then Failure(o.err.value) else Success((o.state.asm, o.state.lineMap))
    {
      ghost var init := Start(consts, labels);
      var instrAddr: nat := 0;
      var lineMap: seq<nat> := [];
      var assemblyLines: seq<string> := [];
      for k := 0 to |lines|
        invariant Run(Step, init, lines, k) == Pass1Outcome(Pass1State(consts, labels, instrAddr, assemblyLines, lineMap), None)
      {
        Pass1Next(init, lines, k, Pass1State(consts, labels, instrAddr, assemblyLines, lineMap));
        var next := ScanLine(lines[k], k + 1, instrAddr, assemblyLines, lineMap);
        if next.Failure? {
          Pass1ErrorSticks(init, lines, k + 1, |lines|);
          return Failure(next.error);
        }
        instrAddr, assemblyLines, lineMap := next.value.0, next.value.1, next.value.2;
      }
      return Success((assemblyLines, lineMap));
    }

    /** The body of the loop of `parse_const_label` for one raw line: one Step of pass 1, carried out on the tables in place. */
    method ScanLine(raw: string, lineNum: nat, instrAddr: nat, assemblyLines: seq<string>, lineMap: seq<nat>)
      returns (r: Result<(nat, seq<string>, seq<nat>), Error>)
      modifies this
      ensures Scanned(Step(Pass1State(old(consts), old(labels), instrAddr, assemblyLines, lineMap), raw, lineNum), r, old(consts), old(labels), consts, labels)
    {
      ghost var before := Pass1State(consts, labels, instrAddr, assemblyLines, lineMap);
      var line := Strip(raw);
      var newMap := lineMap + [lineNum];
      if line == [] || "#" <= line {
        ScannedSkipped(before, raw, lineNum);
        return Success((instrAddr, assemblyLines, newMap));
      }
      if "CONST" <= line {
        StepConst(before, raw, lineNum);
        var err := DefineConst(line, lineNum);
        if err.Some? {
          return Failure(err.value);
        }
        return Success((instrAddr, assemblyLines, newMap));
      } else if ':' in line {
        StepLabel(before, raw, lineNum);
        var err := DefineLabel(line, lineNum, instrAddr);
        if err.Some? {
          return Failure(err.value);
        }
        return Success((instrAddr, assemblyLines, newMap));
      } else {
        StepInstruction(before, raw, lineNum);
        var size := SizeInstruction(line, lineNum);
        if size.Failure? {
          return Failure(size.error);
        }
        return Success((instrAddr + size.value, assemblyLines + [line], newMap));
      }
    }

    /** The sizing of one instruction line inside `parse_const_label`: the words it will occupy, counted up one by one. */
    method SizeInstruction(line: string, lineNum: nat) returns (r: Result<nat, Error>)
      requires Split(line) != []
      ensures r == InstrSize(line, consts, lineNum)
    {
      var parts := Split(line);
      var op, operands := parts[0], parts[1..];
      var size: nat := 0;
      if operands != [] {
        // the last operand, replaced by its constant's value when it names one
        var last := Last(operands);
        if last in consts {
          last := consts[last];
        }
        if IsImmediate(last) {
          var imm := ParseInt(last);
          if imm.None? {
            return Failure(Error(BadLiteral, lineNum));
          }
          if imm.value < 0 || imm.value >= 2048 {
            size := size + 1;
          }
        }
      }
      assert SizedExtension(operands, consts, lineNum) == Success(size);
      InstrSizeParts(line, consts, lineNum, size);
      if op == "CMP" {
        size := size + 1;
      } else if op in ConditionPseudoInstructions {
        size := size + 2;
      }
      size := size + 1;
      return Success(size);
    }

    /** `replace_const_label`: one resolved line per instruction line, in order, read against the current tables. */
    method ReplaceConstLabel(lines: seq<string>) returns (resolved: seq<string>)
      requires forall i | 0 <= i < |lines| :: Split(lines[i]) != []
      ensures |resolved| == |lines|
      ensures forall i | 0 <= i < |lines| :: resolved[i] == ResolveLine(lines[i], consts, labels)
    {
      resolved := [];
      for i := 0 to |lines|
        invariant |resolved| == i
        invariant forall j | 0 <= j < i :: resolved[j] == ResolveLine(lines[j], consts, labels)
      {
        var parts := Split(lines[i]);
        var op, operands := parts[0], parts[1..];
        var replaced: seq<string> := [];
        for j := 0 to |operands|
          invariant |replaced| == j
          invariant forall m | 0 <= m < j :: replaced[m] == Subst(operands[m], consts, labels)
        {
          var token := operands[j];
          if token in consts {
            replaced := replaced + [consts[token]];
          } else if token in labels {
            replaced := replaced + [DecimalString(labels[token])];
          } else {
            replaced := replaced + [token];
          }
        }
        assert replaced == SubstAll(operands, consts, labels);
        resolved := resolved + [Join([op] + replaced)];
      }
    }
  }

  /**
   * `r` and the tables `consts`, `labels` (which were `oldConsts`, `oldLabels`) are what the Step `s` of pass 1 gives:
   * on success its address, kept lines and line map, and its tables; on failure its error, and the tables unchanged.
   */
  predicate Scanned(s: Result<Pass1State, Error>, r: Result<(nat, seq<string>, seq<nat>), Error>,
                    oldConsts: map<string, string>, oldLabels: map<string, nat>, consts: map<string, string>, labels: map<string, nat>) {
    if s.Success? then r == Success((s.value.addr, s.value.asm, s.value.lineMap)) && consts == s.value.consts && labels == s.value.labels
    else r == Failure(s.error) && consts == oldConsts && labels == oldLabels
  }

  /** A skipped line, as ScanLine reports it: only its number is recorded. */
  lemma ScannedSkipped(st: Pass1State, raw: string, lineNum: nat)
    requires IsSkipped(Strip(raw))
    ensures Scanned(Step(st, raw, lineNum), Success((st.addr, st.asm, st.lineMap + [lineNum])), st.consts, st.labels, st.consts, st.labels)
  {
    StepSkipped(st, raw, lineNum);
  }

  /** The body of the loop of `parse_instruction` for one resolved line: its condition prefix, its words and its annotations. */
  method EncodeResolvedLine(line: string, lineNum: nat, original: string) returns (r: Result<Output, Error>)
    requires Split(line) != []
    ensures r == EncodeLine(line, lineNum, original)
  {
    var parts := Split(line);
    var op, operands := parts[0], parts[1..];
    var condCode := "000";
    if operands != [] && operands[0] in ConditionMap {
      ConditionWidths();
      CodeWidth(ConditionMap, 3, operands[0]);
      condCode := ConditionMap[operands[0]];
      operands := operands[1..];
    }
    assert (condCode, operands) == SplitCondition(parts[1..]);
    var words := EncodeOp(op, condCode, operands, lineNum);
    if words.Failure? {
      return Failure(words.error);
    }
    AnnotationsFollow(op, condCode, operands, original, lineNum);
    var finalLines := AnnotateLine(op, operands, original, lineNum);
    return Success(Output(words.value, finalLines));
  }

  /** The annotations `parse_instruction` appends for one line: its original text, then an empty entry per further word. */
  method AnnotateLine(op: string, operands: seq<string>, original: string, lineNum: nat) returns (finalLines: seq<string>)
    requires Annotations(op, operands, original, lineNum).Success?
    ensures finalLines == Annotations(op, operands, original, lineNum).value
  {
    finalLines := [original];
    if operands != [] && IsImmediate(Last(operands)) {
      var immVal := ParseInt(Last(operands)).value;
      if immVal < 0 || immVal >= 2048 {
        finalLines := finalLines + [""];
      }
    }
    if op in ConditionPseudoInstructions {
      finalLines := finalLines + ["", ""];
    }
    if op == "CMP" {
      finalLines := finalLines + [""];
    }
  }

  /**
   * `parse_instruction`: the words and annotations of all resolved lines, or the first error.
   * Line i is reported as line_map[i].
   */
  method ParseInstruction(lines: seq<string>, lineMap: seq<nat>, assemblyLines: seq<string>) returns (r: Result<Output, Error>)
    requires WellFormedInput(lines, lineMap, assemblyLines)
    ensures r == Pass3Upto(lines, lineMap, assemblyLines, |lines|)
    ensures r.Success? ==> AllWords(r.value.words)
  {
    var machineCode: seq<Word> := [];
    var finalLines: seq<string> := [];
    for i := 0 to |lines|
      invariant Pass3Upto(lines, lineMap, assemblyLines, i) == Success(Output(machineCode, finalLines))
    {
      var next := AppendLine(lines, lineMap, assemblyLines, i, Output(machineCode, finalLines));
      if next.Failure? {
        Pass3ErrorSticks(lines, lineMap, assemblyLines, i + 1, |lines|);
        return Failure(next.error);
      }
      machineCode, finalLines := next.value.words, next.value.notes;
    }
    Pass3Words(lines, lineMap, assemblyLines, |lines|);
    return Success(Output(machineCode, finalLines));
  }

  /** One turn of the loop of `parse_instruction`: the output so far extended by line `i + 1`'s words and annotations, or its error. */
  method AppendLine(lines: seq<string>, lineMap: seq<nat>, assemblyLines: seq<string>, i: nat, acc: Output) returns (r: Result<Output, Error>)
    requires WellFormedInput(lines, lineMap, assemblyLines) && i < |lines|
    requires Pass3Upto(lines, lineMap, assemblyLines, i) == Success(acc)
    ensures r == Pass3Upto(lines, lineMap, assemblyLines, i + 1)
  {
    var out := EncodeResolvedLine(lines[i], lineMap[i], assemblyLines[i]);
    Pass3Next(lines, lineMap, assemblyLines, i, acc);
    if out.Failure? {
      return Failure(out.error);
    }
    return Success(Output(acc.words + out.value.words, acc.notes + out.value.notes));
  }
}
