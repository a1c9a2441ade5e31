/**
 * Pass 3 of the assembler (`parse_instruction`) over a whole program: the words and the
 * annotations of every resolved line in order, or the error of the first line that fails.
 * The imperative pass in module Assembler is proved to compute it.
 */
module Emission {
  import opened Wrappers
  import opened Errors
  import opened Lexer
  import opened Encoding

  /** The inputs pass 3 indexes: a line number and an original line for every resolved line, each with an opcode. */
  predicate WellFormedInput(lines: seq<string>, lineMap: seq<nat>, asm: seq<string>) {
    |lineMap| >= |lines| && |asm| >= |lines| && forall i | 0 <= i < |lines| :: Split(lines[i]) != []
  }

  /** The function that encodes one line from its text, its line number and its original text. */
  type LineEncoder = (string, nat, string) -> Result<Output, Error>

  /** EncodeLine on any line; a line without an opcode, which pass 1 never keeps, counts as an unknown opcode. */
  function EncodeAny(line: string, lineNum: nat, original: string): Result<Output, Error> {
    if Split(line) == [] then Failure(Error(UnknownOpcode, lineNum)) else EncodeLine(line, lineNum, original)
  }

  /** The first `n` lines have a line number and an original text. */
  predicate Encodes(lines: seq<string>, lineMap: seq<nat>, asm: seq<string>, n: nat) {
    n <= |lines| && n <= |lineMap| && n <= |asm|
  }

  /** The outputs of `encode` on the first `n` lines, concatenated in line order, or the error of the first line that fails. */
  function Emit(encode: LineEncoder, lines: seq<string>, lineMap: seq<nat>, asm: seq<string>, n: nat): Result<Output, Error>
    requires Encodes(lines, lineMap, asm, n)
  {
    if n == 0 then Success(Output([], []))
    else
      var acc :- Emit(encode, lines, lineMap, asm, n - 1);
      var out :- encode(lines[n - 1], lineMap[n - 1], asm[n - 1]);
      Success(Output(acc.words + out.words, acc.notes + out.notes))
  }

  /** Pass 3 over the first `n` resolved lines: all words and annotations in line order, or the first error. */
  function Pass3Upto(lines: seq<string>, lineMap: seq<nat>, asm: seq<string>, n: nat): Result<Output, Error>
    requires WellFormedInput(lines, lineMap, asm) && n <= |lines|
  {
    Emit(EncodeAny, lines, lineMap, asm, n)
  }

  /** A run over `n` lines that succeeds is the run over the first `n - 1` lines followed by line `n`. */
  lemma EmitStep(encode: LineEncoder, lines: seq<string>, lineMap: seq<nat>, asm: seq<string>, n: nat)
    requires Encodes(lines, lineMap, asm, n) && 0 < n
    requires Emit(encode, lines, lineMap, asm, n).Success?
    ensures Emit(encode, lines, lineMap, asm, n - 1).Success?
    ensures encode(lines[n - 1], lineMap[n - 1], asm[n - 1]).Success?
    ensures var prev, out := Emit(encode, lines, lineMap, asm, n - 1).value, encode(lines[n - 1], lineMap[n - 1], asm[n - 1]).value;
      Emit(encode, lines, lineMap, asm, n).value == Output(prev.words + out.words, prev.notes + out.notes)
  {
  }

  lemma Pass3Step(lines: seq<string>, lineMap: seq<nat>, asm: seq<string>, n: nat)
    requires WellFormedInput(lines, lineMap, asm) && 0 < n <= |lines|
    requires Pass3Upto(lines, lineMap, asm, n).Success?
    ensures Pass3Upto(lines, lineMap, asm, n - 1).Success?
    ensures EncodeLine(lines[n - 1], lineMap[n - 1], asm[n - 1]).Success?
    ensures var prev, out := Pass3Upto(lines, lineMap, asm, n - 1).value, EncodeLine(lines[n - 1], lineMap[n - 1], asm[n - 1]).value;
      Pass3Upto(lines, lineMap, asm, n).value == Output(prev.words + out.words, prev.notes + out.notes)
  {
    EmitStep(EncodeAny, lines, lineMap, asm, n);
  }

  /** Line `n + 1` extends a successful run over `n` lines by its words and annotations, or ends it with its error. */
  lemma Pass3Next(lines: seq<string>, lineMap: seq<nat>, asm: seq<string>, n: nat, acc: Output)
    requires WellFormedInput(lines, lineMap, asm) && n < |lines|
    requires Pass3Upto(lines, lineMap, asm, n) == Success(acc)
    ensures var out := EncodeLine(lines[n], lineMap[n], asm[n]);
      Pass3Upto(lines, lineMap, asm, n + 1)
        == if out.Success? then Success(Output(acc.words + out.value.words, acc.notes + out.value.notes))
           else Failure(out.error)
  {
  }

  /** A run that succeeds on `n` lines succeeds on every prefix, and its output extends the prefix's output. */
  lemma {:induction false} EmitPrefix(encode: LineEncoder, lines: seq<string>, lineMap: seq<nat>, asm: seq<string>, m: nat, n: nat)
    requires Encodes(lines, lineMap, asm, n) && m <= n
    requires Emit(encode, lines, lineMap, asm, n).Success?
    ensures Emit(encode, lines, lineMap, asm, m).Success?
    ensures var small, big := Emit(encode, lines, lineMap, asm, m).value, Emit(encode, lines, lineMap, asm, n).value;
      small.words <= big.words && small.notes <= big.notes
    decreases n - m
  {
    if m < n {
      EmitStep(encode, lines, lineMap, asm, n);
      EmitPrefix(encode, lines, lineMap, asm, m, n - 1);
    }
  }

  lemma Pass3Prefix(lines: seq<string>, lineMap: seq<nat>, asm: seq<string>, m: nat, n: nat)
    requires WellFormedInput(lines, lineMap, asm) && m <= n <= |lines|
    requires Pass3Upto(lines, lineMap, asm, n).Success?
    ensures Pass3Upto(lines, lineMap, asm, m).Success?
    ensures var small, big := Pass3Upto(lines, lineMap, asm, m).value, Pass3Upto(lines, lineMap, asm, n).value;
      small.words <= big.words && small.notes <= big.notes
  {
    EmitPrefix(EncodeAny, lines, lineMap, asm, m, n);
  }

  /** Once a run has failed, later lines change nothing: the whole run reports the first failing line. */
  lemma {:induction false} EmitErrorSticks(encode: LineEncoder, lines: seq<string>, lineMap: seq<nat>, asm: seq<string>, m: nat, n: nat)
    requires Encodes(lines, lineMap, asm, n) && m <= n
    requires Emit(encode, lines, lineMap, asm, m).Failure?
    ensures Emit(encode, lines, lineMap, asm, n) == Emit(encode, lines, lineMap, asm, m)
    decreases n - m
  {
    if m < n {
      EmitErrorSticks(encode, lines, lineMap, asm, m, n - 1);
    }
  }

  lemma Pass3ErrorSticks(lines: seq<string>, lineMap: seq<nat>, asm: seq<string>, m: nat, n: nat)
    requires WellFormedInput(lines, lineMap, asm) && m <= n <= |lines|
    requires Pass3Upto(lines, lineMap, asm, m).Failure?
    ensures Pass3Upto(lines, lineMap, asm, n) == Pass3Upto(lines, lineMap, asm, m)
  {
    EmitErrorSticks(EncodeAny, lines, lineMap, asm, m, n);
  }

  /** When every line read emits as many words as annotations, so does the whole run. */
  lemma {:induction false} EmitWordsMatchNotes(encode: LineEncoder, lines: seq<string>, lineMap: seq<nat>, asm: seq<string>, n: nat)
    requires Encodes(lines, lineMap, asm, n)
    requires forall i | 0 <= i < n ::
      var out := encode(lines[i], lineMap[i], asm[i]); out.Success? ==> |out.value.words| == |out.value.notes|
    ensures var r := Emit(encode, lines, lineMap, asm, n); r.Success? ==> |r.value.words| == |r.value.notes|
  {
    if n > 0 && Emit(encode, lines, lineMap, asm, n).Success? {
      EmitStep(encode, lines, lineMap, asm, n);
      EmitWordsMatchNotes(encode, lines, lineMap, asm, n - 1);
    }
  }

  /** An encoder whose words are 32-bit words and whose errors report the line number it was given. */
  ghost predicate Honest(encode: LineEncoder) {
    forall line, lineNum, original ::
      var r := encode(line, lineNum, original);
      (r.Success? ==> AllWords(r.value.words)) && (r.Failure? ==> r.error.line == lineNum)
  }

  lemma EncodeAnyHonest()
    ensures Honest(EncodeAny)
  {
  }

  lemma {:induction false} EmitWords(encode: LineEncoder, lines: seq<string>, lineMap: seq<nat>, asm: seq<string>, n: nat)
    requires Encodes(lines, lineMap, asm, n) && Honest(encode)
    requires Emit(encode, lines, lineMap, asm, n).Success?
    ensures AllWords(Emit(encode, lines, lineMap, asm, n).value.words)
  {
    if n > 0 {
      EmitStep(encode, lines, lineMap, asm, n);
      EmitWords(encode, lines, lineMap, asm, n - 1);
    }
  }

  lemma {:induction false} EmitErrorLine(encode: LineEncoder, lines: seq<string>, lineMap: seq<nat>, asm: seq<string>, n: nat)
    requires Encodes(lines, lineMap, asm, n) && Honest(encode)
    requires Emit(encode, lines, lineMap, asm, n).Failure?
    ensures exists i | 0 <= i < n :: Emit(encode, lines, lineMap, asm, n).error.line == lineMap[i]
  {
    var prev := Emit(encode, lines, lineMap, asm, n - 1);
    if prev.Failure? {
      EmitErrorLine(encode, lines, lineMap, asm, n - 1);
    } else {
      var out := encode(lines[n - 1], lineMap[n - 1], asm[n - 1]);
      assert Emit(encode, lines, lineMap, asm, n).error.line == lineMap[n - 1];
    }
  }

  /** Every word of a successful run is a 32-bit word. */
  lemma Pass3Words(lines: seq<string>, lineMap: seq<nat>, asm: seq<string>, n: nat)
    requires WellFormedInput(lines, lineMap, asm) && n <= |lines|
    requires Pass3Upto(lines, lineMap, asm, n).Success?
    ensures AllWords(Pass3Upto(lines, lineMap, asm, n).value.words)
  {
    EncodeAnyHonest();
    EmitWords(EncodeAny, lines, lineMap, asm, n);
  }

  /** A failing run reports the line number of one of the lines it has read. */
  lemma Pass3ErrorLine(lines: seq<string>, lineMap: seq<nat>, asm: seq<string>, n: nat)
    requires WellFormedInput(lines, lineMap, asm) && n <= |lines|
    requires Pass3Upto(lines, lineMap, asm, n).Failure?
    ensures exists i | 0 <= i < n :: Pass3Upto(lines, lineMap, asm, n).error.line == lineMap[i]
  {
    EncodeAnyHonest();
    EmitErrorLine(EncodeAny, lines, lineMap, asm, n);
  }
}
