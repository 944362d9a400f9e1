/** The three-address intermediate representation. */
module Ir {
  import opened Strings

  /** One IR instruction: exactly one of five kinds.  Every field is a name
      or token text, never a nested expression. */
  datatype Instr =
      /** `dest = left`, or `dest = left op right` when `op` is non-empty. */
    | AssignCode(dest: Text, left: Text, op: Text, right: Text)
    | JumpCode(dist: Text)
    | LabelCode(name: Text)
      /** `if (left operation right) goto jump`. */
    | CompareCode(left: Text, operation: Text, right: Text, jump: Text)
      /** `kind` is "string" or "int". */
    | PrintCode(kind: Text, value: Text)

  /** An assignment with no operator copies `left`; its `right` is then unused. */
  predicate IsPlainCopy(i: Instr) {
    i.AssignCode? && i.op == []
  }

  /** The growing instruction list of one lowering. */
  class InterCodeArray {
    var code: seq<Instr>

    constructor ()
      ensures code == []
    {
      code := [];
    }

    /** Adds `n` at the end; earlier entries and their order are kept. */
    method Append(n: Instr)
      modifies this
      ensures code == old(code) + [n]
      ensures |code| == |old(code)| + 1 && code[..|old(code)|] == old(code) && code[|code| - 1] == n
    {
      code := code + [n];
    }
  }

  /** What the lowering hands to the code generator. */
  datatype GeneratedIR = GeneratedIR(code: seq<Instr>, identifiers: map<Text, Text>, constants: map<Text, Text>)
}
