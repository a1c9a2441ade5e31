/**
 * Pass 2 of the assembler (`replace_const_label`): every operand token that names a constant
 * is replaced by the constant's value token, else every token that names a label by the
 * label's address in decimal; the opcode stays, and the tokens are joined by single spaces.
 */
module Substitution {
  import opened Wrappers
  import opened Lexer

  /** The replacement of one operand token; constants are looked up first, and the result is not substituted again. */
  function Subst(t: string, consts: map<string, string>, labels: map<string, nat>): (r: string)
    ensures t in consts ==> r == consts[t]
    ensures t !in consts && t in labels ==> IsImmediate(r) && ParseInt(r) == Some(labels[t]) && r[0] != '-' && AllDigitsIn(r, 10)
    ensures t !in consts && t !in labels ==> r == t
  {
    if t in consts then consts[t]
    else if t in labels then
      DecimalStringParses(labels[t]);
      DecimalString(labels[t])
    else t
  }

  function SubstAll(ts: seq<string>, consts: map<string, string>, labels: map<string, nat>): seq<string> {
    seq(|ts|, i requires 0 <= i < |ts| => Subst(ts[i], consts, labels))
  }

  /** One resolved line: the opcode, then the substituted operands, joined by single spaces. */
  function ResolveLine(line: string, consts: map<string, string>, labels: map<string, nat>): string
    requires Split(line) != []
  {
    var parts := Split(line);
    Join([parts[0]] + SubstAll(parts[1..], consts, labels))
  }

  /** Every constant value is a token, as pass 1 stores them. */
  predicate ValuesAreTokens(consts: map<string, string>) {
    forall k | k in consts :: IsToken(consts[k])
  }

  lemma SubstIsToken(t: string, consts: map<string, string>, labels: map<string, nat>)
    requires IsToken(t) && ValuesAreTokens(consts)
    ensures IsToken(Subst(t, consts, labels))
  {
    if t !in consts && t in labels {
      DecimalStringParses(labels[t]);
    }
  }

  /**
   * Splitting a resolved line gives back the opcode and one substituted token per operand:
   * the line keeps its opcode and its operand count, and operand i becomes the replacement
   * of operand i.
   */
  lemma ResolvedTokens(line: string, consts: map<string, string>, labels: map<string, nat>)
    requires Split(line) != [] && ValuesAreTokens(consts)
    ensures Split(ResolveLine(line, consts, labels)) == [Split(line)[0]] + SubstAll(Split(line)[1..], consts, labels)
    ensures |Split(ResolveLine(line, consts, labels))| == |Split(line)|
    ensures Split(ResolveLine(line, consts, labels))[0] == Split(line)[0]
    ensures forall i | 1 <= i < |Split(line)| :: Split(ResolveLine(line, consts, labels))[i] == Subst(Split(line)[i], consts, labels)
  {
    ResolvedSplit(line, consts, labels);
    var parts, ts := Split(line), Split(ResolveLine(line, consts, labels));
    forall i | 1 <= i < |parts| ensures ts[i] == Subst(parts[i], consts, labels) {
      assert ts[i] == SubstAll(parts[1..], consts, labels)[i - 1];
    }
  }

  /** A resolved line splits back into the opcode followed by the substituted operands. */
  lemma ResolvedSplit(line: string, consts: map<string, string>, labels: map<string, nat>)
    requires Split(line) != [] && ValuesAreTokens(consts)
    ensures Split(ResolveLine(line, consts, labels)) == [Split(line)[0]] + SubstAll(Split(line)[1..], consts, labels)
  {
    var parts := Split(line);
    var ts := [parts[0]] + SubstAll(parts[1..], consts, labels);
    assert AllTokens(ts) by {
      forall i | 0 <= i < |ts| ensures IsToken(ts[i]) {
        if i > 0 {
          SubstIsToken(parts[i], consts, labels);
        }
      }
    }
    SplitJoin(ts);
  }
}
