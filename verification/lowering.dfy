/** Lowering of the program tree into three-address code.

    The pass is specified twice: by functions that thread a `LowerState`
    record through the tree (`LowerExpr`, `LowerCondition`, `LowerStmt`),
    and by the class `IntermediateCodeGen`, which updates its fields step by
    step as the C++ class does and whose methods are proved to reach exactly
    the state the functions compute.  Lemmas about the pass are stated on the
    functions, in `LoweringProperties`. */
module IrLowering {
  import opened Strings
  import opened Ast
  import opened Ir

  /** Fresh names: a prefix followed by the decimal value of a counter. */
  function TempName(k: nat): Text { "T" + Decimal(k) }
  function LabelName(k: nat): Text { "L" + Decimal(k) }
  function SymName(k: nat): Text { "S" + Decimal(k) }

  /** Everything the lowering changes: the instruction list, the two tables
      and the three name counters. */
  datatype LowerState = LowerState(
    code: seq<Instr>,
    identifiers: map<Text, Text>,
    constants: map<Text, Text>,
    tCounter: nat,
    lCounter: nat,
    sCounter: nat)

  /** A new lowering: no code, empty tables, every counter at 1. */
  const Initial := LowerState([], map[], map[], 1, 1, 1)

  /** The name an expression was lowered to, and the state afterwards. */
  datatype ExprResult = ExprResult(name: Text, st: LowerState)

  /** A statement either completes, or throws; the state is the one at the
      point of completion or of the throw. */
  datatype Outcome = Completed(st: LowerState) | Threw(st: LowerState)

  /** `t` is a later state than `s`: the code only grew at its end and no
      counter went back. */
  predicate Extends(s: LowerState, t: LowerState) {
    s.code <= t.code && s.tCounter <= t.tCounter && s.lCounter <= t.lCounter && s.sCounter <= t.sCounter
  }

  /** The instructions appended between `s` and `t`. */
  function Emitted(s: LowerState, t: LowerState): seq<Instr>
    requires s.code <= t.code
  {
    t.code[|s.code|..]
  }

  function Emit(s: LowerState, i: Instr): LowerState {
    s.(code := s.code + [i])
  }

  /** `nextTemp()`, `nextLabel()`, `nextStringSym()`: the name the counter
      currently gives, and the state with that counter advanced. */
  function FreshTemp(s: LowerState): ExprResult {
    ExprResult(TempName(s.tCounter), s.(tCounter := s.tCounter + 1))
  }

  function FreshLabel(s: LowerState): ExprResult {
    ExprResult(LabelName(s.lCounter), s.(lCounter := s.lCounter + 1))
  }

  function FreshSym(s: LowerState): ExprResult {
    ExprResult(SymName(s.sCounter), s.(sCounter := s.sCounter + 1))
  }

  /** Expression lowering: returns the name holding the value.  Literals and
      identifiers stand for themselves; a string literal is bound to a fresh
      `S` symbol; a binary operation lowers its left operand fully, then its
      right one, then assigns the result to a fresh `T` temporary typed "int".
      Any other node kind in an expression slot yields the empty name. */
  function LowerExpr(n: Node, s: LowerState): (r: ExprResult)
    ensures Extends(s, r.st) && r.st.lCounter == s.lCounter
    ensures forall i :: |s.code| <= i < |r.st.code| ==> r.st.code[i].AssignCode?
    decreases n
  {
    match n
    case Identifier(v) => ExprResult(v, s)
    case Number(v) => ExprResult(v, s)
    case StringLiteral(v) =>
      var sym := FreshSym(s);
      ExprResult(sym.name, sym.st.(constants := sym.st.constants[sym.name := v]))
    case BinOp(l, op, rt) =>
      var a := LowerExpr(l, s);
      var b := LowerExpr(rt, a.st);
      var t := FreshTemp(b.st);
      ExprResult(t.name, Emit(t.st.(identifiers := t.st.identifiers[t.name := "int"]), AssignCode(t.name, a.name, op, b.name)))
    case _ => ExprResult([], s)
  }

  /** Condition lowering: both operands, then a fresh label and a compare
      that jumps there when the comparison (taken verbatim) holds. */
  function LowerCondition(c: Node, s: LowerState): (r: ExprResult)
    requires c.Condition?
    ensures Extends(s, r.st)
    ensures r.name == LabelName(s.lCounter) && r.st.lCounter == s.lCounter + 1
    ensures |r.st.code| > |s.code| && r.st.code[|r.st.code| - 1].CompareCode?
  {
    var a := LowerExpr(c.lhs, s);
    var b := LowerExpr(c.rhs, a.st);
    var l := FreshLabel(b.st);
    ExprResult(l.name, Emit(l.st, CompareCode(a.name, c.comparison, b.name, l.name)))
  }

  /** Registers every name of a declaration with type `ty`, in list order. */
  function Register(ids: map<Text, Text>, names: seq<Text>, ty: Text): (r: map<Text, Text>)
    ensures forall k :: k in r <==> k in ids || k in names
    ensures forall k :: k in names ==> r[k] == ty
    ensures forall k :: k in ids && k !in names ==> r[k] == ids[k]
    decreases |names|
  {
    if names == [] then ids
    else Register(ids, names[..|names| - 1], ty)[names[|names| - 1] := ty]
  }

  /** Statement lowering of a possibly absent child: absent is a no-op. */
  function LowerStmtOpt(o: Option<Node>, s: LowerState): (r: Outcome)
    requires WellFormedOpt(o)
    ensures Extends(s, r.st)
    ensures o.None? ==> r == Completed(s)
    decreases o, 2
  {
    match o
    case None => Completed(s)
    case Some(n) => LowerStmt(n, s)
  }

  /** Statement lowering, dispatched on the node kind.  Expression nodes in
      statement position emit nothing. */
  function LowerStmt(n: Node, s: LowerState): (r: Outcome)
    requires WellFormed(n)
    ensures Extends(s, r.st)
    decreases n, 1
  {
    match n
    case Statement(a, b) =>
      var o := LowerStmtOpt(a, s);
      if o.Threw? then o else LowerStmtOpt(b, o.st)
    case If(_, _, _) => LowerIf(n, s)
    case While(_, _) => LowerWhile(n, s)
    case Print(_, _, _) => Completed(LowerPrint(n, s))
    case Assignment(_, _) => Completed(LowerAssignment(n, s))
    case Declaration(_, _, _) => LowerDeclaration(n, s)
    case _ => Completed(s)
  }

  /** `if`: the condition jumps to its own label (the then-label) when true;
      else-label and end-label are drawn right after it.  Layout:
      condition, `goto else`, `then:`, then-branch, `goto end`, `else:`,
      else-branch, `end:`.  A throw in a branch stops the lowering there. */
  function LowerIf(n: Node, s: LowerState): (r: Outcome)
    requires n.If? && WellFormed(n)
    ensures Extends(s, r.st)
    decreases n, 0
  {
    var cond := LowerCondition(n.condition, s);
    var elseL := FreshLabel(cond.st);
    var endL := FreshLabel(elseL.st);
    var s1 := Emit(Emit(endL.st, JumpCode(elseL.name)), LabelCode(cond.name));
    var o1 := LowerStmtOpt(n.thenBody, s1);
    if o1.Threw? then o1 else
    var s2 := Emit(Emit(o1.st, JumpCode(endL.name)), LabelCode(elseL.name));
    var o2 := LowerStmtOpt(n.elseBody, s2);
    if o2.Threw? then o2 else
    Completed(Emit(o2.st, LabelCode(endL.name)))
  }

  /** `while`: three labels are drawn up front (start, an unused body label,
      end) before the condition draws its own.  Layout: `start:`,
      condition, `goto end`, `cond:`, body, `goto start`, `end:`. */
  function LowerWhile(n: Node, s: LowerState): (r: Outcome)
    requires n.While? && WellFormed(n)
    ensures Extends(s, r.st)
    decreases n, 0
  {
    var startL := FreshLabel(s);
    var bodyL := FreshLabel(startL.st);
    var endL := FreshLabel(bodyL.st);
    var s1 := Emit(endL.st, LabelCode(startL.name));
    var cond := LowerCondition(n.condition, s1);
    var s2 := Emit(Emit(cond.st, JumpCode(endL.name)), LabelCode(cond.name));
    var o := LowerStmtOpt(n.body, s2);
    if o.Threw? then o else
    Completed(Emit(Emit(o.st, JumpCode(startL.name)), LabelCode(endL.name)))
  }

  /** `print`: a non-empty string literal is bound to a fresh `S` symbol;
      otherwise the expression is lowered and its name printed. */
  function LowerPrint(n: Node, s: LowerState): (r: LowerState)
    requires n.Print? && WellFormed(n)
    ensures Extends(s, r) && r.lCounter == s.lCounter
  {
    if n.kind == "string" && n.strValue != [] then
      var sym := FreshSym(s);
      Emit(sym.st.(constants := sym.st.constants[sym.name := n.strValue]), PrintCode("string", sym.name))
    else
      var x := LowerExpr(n.intExpr.value, s);
      Emit(x.st, PrintCode(if n.kind == "string" then "string" else "int", x.name))
  }

  /** Assignment: an undeclared target is first registered as "string". */
  function LowerAssignment(n: Node, s: LowerState): (r: LowerState)
    requires n.Assignment?
    ensures Extends(s, r) && r.lCounter == s.lCounter
  {
    var s1 := if n.name in s.identifiers then s else s.(identifiers := s.identifiers[n.name := "string"]);
    var x := LowerExpr(n.expression, s1);
    Emit(x.st, AssignCode(n.name, x.name, "", ""))
  }

  /** Declaration: every name is registered with the declared type; an
      initialiser is only accepted with exactly one name, and otherwise the
      lowering throws after the registration. */
  function LowerDeclaration(n: Node, s: LowerState): (r: Outcome)
    requires n.Declaration?
    ensures Extends(s, r.st) && r.st.lCounter == s.lCounter
  {
    var s1 := s.(identifiers := Register(s.identifiers, n.names, n.declType));
    if n.initExpr.None? then Completed(s1)
    else if |n.names| != 1 then Threw(s1)
    else
      var x := LowerExpr(n.initExpr.value, s1);
      Completed(Emit(x.st, AssignCode(n.names[0], x.name, "", "")))
  }

  /** The whole pass as the caller sees it: construct the lowering on the
      root, then take its result; a throw yields no result. */
  function LowerProgram(root: Option<Node>): Option<GeneratedIR>
    requires WellFormedOpt(root)
  {
    var o := LowerStmtOpt(root, Initial);
    if o.Threw? then None else Some(GeneratedIR(o.st.code, o.st.identifiers, o.st.constants))
  }

  /** The lowering object.  Its methods change the fields exactly as the
      functions above change a `LowerState`. */
  class IntermediateCodeGen {
    const root: Option<Node>
    const arr: InterCodeArray
    var identifiers: map<Text, Text>
    var constants: map<Text, Text>
    var tCounter: nat
    var lCounter: nat
    var sCounter: nat

    /** The fields, read as a `LowerState`. */
    function State(): LowerState
      reads this, arr
    {
      LowerState(arr.code, identifiers, constants, tCounter, lCounter, sCounter)
    }

    /** Empty code and tables, all three counters at 1.  The C++ constructor
        then lowers `root`; here that is `Run`. */
    constructor (root: Option<Node>)
      ensures this.root == root && fresh(arr)
      ensures State() == Initial
    {
      this.root := root;
      arr := new InterCodeArray();
      identifiers, constants := map[], map[];
      tCounter, lCounter, sCounter := 1, 1, 1;
    }

    /** The generated code and both tables. */
    function Get(): (g: GeneratedIR)
      reads this, arr
      ensures g.code == arr.code && g.identifiers == identifiers && g.constants == constants
    {
      GeneratedIR(arr.code, identifiers, constants)
    }

    method NextTemp() returns (name: Text)
      modifies this`tCounter
      ensures ExprResult(name, State()) == FreshTemp(old(State()))
    {
      name := "T" + Decimal(tCounter);
      tCounter := tCounter + 1;
    }

    method NextLabel() returns (name: Text)
      modifies this`lCounter
      ensures ExprResult(name, State()) == FreshLabel(old(State()))
    {
      name := "L" + Decimal(lCounter);
      lCounter := lCounter + 1;
    }

    method NextStringSym() returns (name: Text)
      modifies this`sCounter
      ensures ExprResult(name, State()) == FreshSym(old(State()))
    {
      name := "S" + Decimal(sCounter);
      sCounter := sCounter + 1;
    }

    method ExecExpr(n: Node) returns (name: Text)
      modifies this, arr
      ensures ExprResult(name, State()) == LowerExpr(n, old(State()))
      decreases n, 1
    {
      match n
      case Identifier(v) =>
        name := v;
      case Number(v) =>
        name := v;
      case StringLiteral(v) =>
        name := NextStringSym();
        constants := constants[name := v];
      case BinOp(_, _, _) =>
        name := ExecBinOp(n);
      case _ =>
        name := [];
    }

    method ExecBinOp(n: Node) returns (t: Text)
      requires n.BinOp?
      modifies this, arr
      ensures ExprResult(t, State()) == LowerExpr(n, old(State()))
      decreases n, 0
    {
      var left := ExecExpr(n.lhs);
      var right := ExecExpr(n.rhs);
      t := NextTemp();
      identifiers := identifiers[t := "int"];
      arr.Append(AssignCode(t, left, n.op, right));
    }

    method ExecAssignment(n: Node)
      requires n.Assignment?
      modifies this, arr
      ensures State() == LowerAssignment(n, old(State()))
      decreases n, 0
    {
      if n.name !in identifiers {
        identifiers := identifiers[n.name := "string"];
      }
      var right := ExecExpr(n.expression);
      arr.Append(AssignCode(n.name, right, "", ""));
    }

    method ExecCondition(c: Node) returns (trueLabel: Text)
      requires c.Condition?
      modifies this, arr
      ensures ExprResult(trueLabel, State()) == LowerCondition(c, old(State()))
      decreases c, 0
    {
      var left := ExecExpr(c.lhs);
      var right := ExecExpr(c.rhs);
      trueLabel := NextLabel();
      arr.Append(CompareCode(left, c.comparison, right, trueLabel));
    }

    method ExecIf(n: Node) returns (ok: bool)
      requires n.If? && WellFormed(n)
      modifies this, arr
      ensures ok == LowerIf(n, old(State())).Completed? && State() == LowerIf(n, old(State())).st
      decreases n, 0
    {
      ghost var cond := LowerCondition(n.condition, State());
      var thenLabel := ExecCondition(n.condition);
      var elseLabel := NextLabel();
      ghost var elseL := FreshLabel(cond.st);
      var endLabel := NextLabel();
      ghost var endL := FreshLabel(elseL.st);
      arr.Append(JumpCode(elseLabel));
      arr.Append(LabelCode(thenLabel));
      ghost var s1 := State();
      assert s1 == Emit(Emit(endL.st, JumpCode(elseL.name)), LabelCode(cond.name));
      ok := ExecStatement(n.thenBody);
      ghost var o1 := LowerStmtOpt(n.thenBody, s1);
      if ok {
        arr.Append(JumpCode(endLabel));
        arr.Append(LabelCode(elseLabel));
        ghost var s2 := State();
        assert s2 == Emit(Emit(o1.st, JumpCode(endL.name)), LabelCode(elseL.name));
        if n.elseBody.Some? {
          ok := ExecStatement(n.elseBody);
        }
        if ok {
          arr.Append(LabelCode(endLabel));
        }
      }
    }

    method ExecWhile(n: Node) returns (ok: bool)
      requires n.While? && WellFormed(n)
      modifies this, arr
      ensures ok == LowerWhile(n, old(State())).Completed? && State() == LowerWhile(n, old(State())).st
      decreases n, 0
    {
      ghost var startL := FreshLabel(State());
      var startLabel := NextLabel();
      ghost var bodyL := FreshLabel(State());
      var bodyLabel := NextLabel();
      ghost var endL := FreshLabel(State());
      var endLabel := NextLabel();
      arr.Append(LabelCode(startLabel));
      ghost var s1 := State();
      assert s1 == Emit(endL.st, LabelCode(startL.name));
      ghost var cond := LowerCondition(n.condition, s1);
      var trueLabel := ExecCondition(n.condition);
      arr.Append(JumpCode(endLabel));
      arr.Append(LabelCode(trueLabel));
      ghost var s2 := State();
      assert s2 == Emit(Emit(cond.st, JumpCode(endL.name)), LabelCode(cond.name));
      ok := ExecStatement(n.body);
      if !ok { return; }
      arr.Append(JumpCode(startLabel));
      arr.Append(LabelCode(endLabel));
    }

    method ExecPrint(n: Node)
      requires n.Print? && WellFormed(n)
      modifies this, arr
      ensures State() == LowerPrint(n, old(State()))
      decreases n, 0
    {
      if n.kind == "string" {
        if n.strValue != [] {
          var sym := NextStringSym();
          constants := constants[sym := n.strValue];
          arr.code := arr.code + [PrintCode("string", sym)];
        } else {
          var name := ExecExpr(n.intExpr.value);
          arr.code := arr.code + [PrintCode("string", name)];
        }
      } else {
        var name := ExecExpr(n.intExpr.value);
        arr.Append(PrintCode("int", name));
      }
    }

    method ExecDeclaration(n: Node) returns (ok: bool)
      requires n.Declaration?
      modifies this, arr
      ensures ok == LowerDeclaration(n, old(State())).Completed? && State() == LowerDeclaration(n, old(State())).st
      decreases n, 0
    {
      var i := 0;
      while i < |n.names|
        invariant 0 <= i <= |n.names|
        invariant identifiers == Register(old(identifiers), n.names[..i], n.declType)
        invariant State() == old(State()).(identifiers := identifiers)
        modifies this`identifiers
      {
        assert n.names[..i + 1][..i] == n.names[..i];
        identifiers := identifiers[n.names[i] := n.declType];
        i := i + 1;
      }
      assert n.names[..i] == n.names;
      if n.initExpr.Some? {
        if |n.names| != 1 {
          return false;
        }
        var varname := n.names[0];
        var right := ExecExpr(n.initExpr.value);
        arr.Append(AssignCode(varname, right, "", ""));
      }
      ok := true;
    }

    method ExecStatementNode(n: Node) returns (ok: bool)
      requires WellFormed(n)
      modifies this, arr
      ensures ok == LowerStmt(n, old(State())).Completed? && State() == LowerStmt(n, old(State())).st
      decreases n, 1
    {
      ok := true;
      match n
      case Statement(a, b) =>
        ok := ExecStatement(a);
        if ok {
          ok := ExecStatement(b);
        }
      case If(_, _, _) =>
        ok := ExecIf(n);
      case While(_, _) =>
        ok := ExecWhile(n);
      case Print(_, _, _) =>
        ExecPrint(n);
      case Declaration(_, _, _) =>
        ok := ExecDeclaration(n);
      case Assignment(_, _) =>
        ExecAssignment(n);
      case _ =>
    }

    /** A null child is a no-op. */
    method ExecStatement(o: Option<Node>) returns (ok: bool)
      requires WellFormedOpt(o)
      modifies this, arr
      ensures ok == LowerStmtOpt(o, old(State())).Completed? && State() == LowerStmtOpt(o, old(State())).st
      decreases o, 2
    {
      if o.None? {
        return true;
      }
      ok := ExecStatementNode(o.value);
    }

    /** The part of the C++ constructor after the member initialisers:
        lower the whole tree.  `ok` is false where the C++ code throws. */
    method Run() returns (ok: bool)
      requires WellFormedOpt(root)
      modifies this, arr
      ensures ok == LowerStmtOpt(root, old(State())).Completed? && State() == LowerStmtOpt(root, old(State())).st
    {
      ok := ExecStatement(root);
    }
  }

  /** The pass as the driver runs it: construct the lowering object on the
      tree and take its result, or nothing when it throws. */
  method Lower(root: Option<Node>) returns (r: Option<GeneratedIR>)
    requires WellFormedOpt(root)
    ensures r == LowerProgram(root)
  {
    var gen := new IntermediateCodeGen(root);
    var ok := gen.Run();
    if ok {
      r := Some(gen.Get());
    } else {
      r := None;
    }
  }
}
