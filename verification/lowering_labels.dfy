/** Labels are never reused: every label the lowering defines is `L<n>`
    for a number the label counter handed out during that lowering, and no
    label is defined twice. */
module LoweringLabels {
  import opened Strings
  import opened Ast
  import opened Ir
  import opened IrLowering
  import opened LoweringProperties

  // ---------------------------------------------------------------------
  // Code without control flow

  /** Expression code neither defines nor targets a label. */
  lemma ExprCode(n: Node, s: LowerState)
    ensures var d := Emitted(s, LowerExpr(n, s).st);
            Defined(d) == {} && Targets(d) == {} && DistinctLabels(d)
  {
    var d := Emitted(s, LowerExpr(n, s).st);
    assert forall i :: 0 <= i < |d| ==> d[i] == LowerExpr(n, s).st.code[|s.code| + i];
    AssignsOnly(d);
  }

  /** Condition code defines no label. */
  lemma ConditionLabels(c: Node, s: LowerState)
    requires c.Condition?
    ensures var d := Emitted(s, LowerCondition(c, s).st);
            Defined(d) == {} && DistinctLabels(d)
  {
    var a := LowerExpr(c.lhs, s);
    var b := LowerExpr(c.rhs, a.st);
    ExprCode(c.lhs, s);
    ExprCode(c.rhs, a.st);
    CodeSplit(s, a.st, b.st);
    var r := LowerCondition(c, s);
    CodeEmit(s, b.st.(lCounter := b.st.lCounter + 1), CompareCode(a.name, c.comparison, b.name, r.name));
  }

  /** Code appended after label-free code by one more non-label, non-jump
      instruction is still free of labels and jumps. */
  lemma EmitPlain(s: LowerState, x: LowerState, i: Instr)
    requires s.code <= x.code && Defined(Emitted(s, x)) == {} && Targets(Emitted(s, x)) == {} && DistinctLabels(Emitted(s, x))
    requires i.AssignCode? || i.PrintCode?
    ensures var d := Emitted(s, Emit(x, i));
            Defined(d) == {} && Targets(d) == {} && DistinctLabels(d)
  {
    CodeEmit(s, x, i);
  }

  lemma PrintNoFlow(n: Node, s: LowerState)
    requires n.Print? && WellFormed(n)
    ensures var d := Emitted(s, LowerPrint(n, s));
            Defined(d) == {} && Targets(d) == {} && DistinctLabels(d)
  {
    if n.kind == "string" && n.strValue != [] {
      var s1 := s.(sCounter := s.sCounter + 1, constants := s.constants[SymName(s.sCounter) := n.strValue]);
      EmitPlain(s, s1, PrintCode("string", SymName(s.sCounter)));
    } else {
      var x := LowerExpr(n.intExpr.value, s);
      ExprCode(n.intExpr.value, s);
      EmitPlain(s, x.st, PrintCode(if n.kind == "string" then "string" else "int", x.name));
    }
  }

  lemma AssignmentNoFlow(n: Node, s: LowerState)
    requires n.Assignment?
    ensures var d := Emitted(s, LowerAssignment(n, s));
            Defined(d) == {} && Targets(d) == {} && DistinctLabels(d)
  {
    var s1 := if n.name in s.identifiers then s else s.(identifiers := s.identifiers[n.name := "string"]);
    var x := LowerExpr(n.expression, s1);
    ExprCode(n.expression, s1);
    assert Emitted(s, x.st) == Emitted(s1, x.st);
    EmitPlain(s, x.st, AssignCode(n.name, x.name, "", ""));
  }

  lemma DeclarationNoFlow(n: Node, s: LowerState)
    requires n.Declaration?
    ensures var d := Emitted(s, LowerDeclaration(n, s).st);
            Defined(d) == {} && Targets(d) == {} && DistinctLabels(d)
  {
    var s1 := s.(identifiers := Register(s.identifiers, n.names, n.declType));
    if n.initExpr.Some? && |n.names| == 1 {
      var x := LowerExpr(n.initExpr.value, s1);
      ExprCode(n.initExpr.value, s1);
      assert Emitted(s, x.st) == Emitted(s1, x.st);
      EmitPlain(s, x.st, AssignCode(n.names[0], x.name, "", ""));
    } else {
      assert Emitted(s, s1) == [];
    }
  }

  // ---------------------------------------------------------------------
  // `if`

  /** Code consisting of one label, `L<k>`. */
  lemma LabelStep(u: LowerState, t: LowerState, k: nat)
    requires t.code == u.code + [LabelCode(LabelName(k))]
    ensures u.code <= t.code && Defined(Emitted(u, t)) == Labels(k, k + 1) && DistinctLabels(Emitted(u, t))
  {
    var l := LabelCode(LabelName(k));
    assert Emitted(u, t) == [] + [l];
    LabelsOne(k);
  }

  /** Code consisting of a jump followed by one label, `L<k>`. */
  lemma JumpLabelStep(u: LowerState, t: LowerState, j: Text, k: nat)
    requires t.code == u.code + [JumpCode(j), LabelCode(LabelName(k))]
    ensures u.code <= t.code && Defined(Emitted(u, t)) == Labels(k, k + 1) && DistinctLabels(Emitted(u, t))
  {
    var l := LabelCode(LabelName(k));
    assert Emitted(u, t) == [JumpCode(j)] + [l];
    assert [JumpCode(j)] == [] + [JumpCode(j)];
    CodeAppend([JumpCode(j)], [l]);
    LabelsOne(k);
  }

  lemma IfHead(n: Node, s: LowerState)
    requires n.If? && n.condition.Condition?
    ensures var s1 := ThenStart(n, s);
            Extends(s, s1) && s1.lCounter == s.lCounter + 3 &&
            Defined(Emitted(s, s1)) == Labels(s.lCounter, s.lCounter + 1) && DistinctLabels(Emitted(s, s1))
  {
    var k := s.lCounter;
    var cond := LowerCondition(n.condition, s);
    ConditionLabels(n.condition, s);
    var s1 := ThenStart(n, s);
    JumpLabelStep(cond.st, s1, LabelName(k + 1), k);
    CodeSplit(s, cond.st, s1);
  }

  /** Head and then-branch of an `if`. */
  lemma IfThenLabels(s: LowerState, s1: LowerState, u: LowerState)
    requires s1.lCounter == s.lCounter + 3 && Extends(s, s1) && Extends(s1, u)
    requires Defined(Emitted(s, s1)) == Labels(s.lCounter, s.lCounter + 1) && DistinctLabels(Emitted(s, s1))
    requires Defined(Emitted(s1, u)) <= Labels(s1.lCounter, u.lCounter) && DistinctLabels(Emitted(s1, u))
    ensures Defined(Emitted(s, u)) <= Labels(s.lCounter, s.lCounter + 1) + Labels(s.lCounter + 3, u.lCounter)
    ensures Defined(Emitted(s, u)) <= Labels(s.lCounter, u.lCounter) && DistinctLabels(Emitted(s, u))
  {
    var k, m := s.lCounter, u.lCounter;
    LabelsDisjoint(k, k + 1, k + 3, m);
    Join(s, s1, u, Labels(k, k + 1), Labels(k + 3, m));
    LabelsSub(k, m, k, k + 1);
    LabelsSub(k, m, k + 3, m);
  }

  /** Adding `goto end; else:` and the else-branch. */
  lemma IfElseLabels(s: LowerState, u: LowerState, w: LowerState, v: LowerState, k: nat)
    requires s.lCounter == k && k + 3 <= u.lCounter && w == ElseStart(u, k) && Extends(s, u) && Extends(w, v)
    requires Defined(Emitted(s, u)) <= Labels(k, k + 1) + Labels(k + 3, u.lCounter) && DistinctLabels(Emitted(s, u))
    requires Defined(Emitted(w, v)) <= Labels(u.lCounter, v.lCounter) && DistinctLabels(Emitted(w, v))
    ensures Defined(Emitted(s, v)) <= Labels(k, k + 2) + Labels(k + 3, v.lCounter)
    ensures Defined(Emitted(s, v)) <= Labels(k, v.lCounter) && DistinctLabels(Emitted(s, v))
  {
    var m1, m2 := u.lCounter, v.lCounter;
    JumpLabelStep(u, w, LabelName(k + 2), k + 1);
    LabelsDisjoint(k, k + 1, k + 1, k + 2);
    LabelsDisjoint(k + 1, k + 2, k + 3, m1);
    Join(s, u, w, Labels(k, k + 1) + Labels(k + 3, m1), Labels(k + 1, k + 2));
    LabelsDisjoint(k, k + 1, m1, m2);
    LabelsDisjoint(k + 1, k + 2, m1, m2);
    LabelsDisjoint(k + 3, m1, m1, m2);
    Join(s, w, v, Labels(k, k + 1) + Labels(k + 3, m1) + Labels(k + 1, k + 2), Labels(m1, m2));
    LabelsSplit(k, k + 1, k + 2);
    LabelsSplit(k + 3, m1, m2);
    LabelsSub(k, m2, k, k + 2);
    LabelsSub(k, m2, k + 3, m2);
  }

  /** Adding the end label. */
  lemma IfEndLabels(s: LowerState, v: LowerState, t: LowerState, k: nat)
    requires s.lCounter == k && k + 3 <= v.lCounter && s.code <= v.code && t.code == v.code + [LabelCode(LabelName(k + 2))]
    requires Defined(Emitted(s, v)) <= Labels(k, k + 2) + Labels(k + 3, v.lCounter) && DistinctLabels(Emitted(s, v))
    ensures Defined(Emitted(s, t)) <= Labels(k, v.lCounter) && DistinctLabels(Emitted(s, t))
  {
    var m := v.lCounter;
    LabelStep(v, t, k + 2);
    LabelsDisjoint(k, k + 2, k + 2, k + 3);
    LabelsDisjoint(k + 2, k + 3, k + 3, m);
    Join(s, v, t, Labels(k, k + 2) + Labels(k + 3, m), Labels(k + 2, k + 3));
    LabelsSplit(k, k + 2, k + 3);
    LabelsSplit(k, k + 3, m);
  }

  lemma {:induction false} IfLabelsFresh(n: Node, s: LowerState)
    requires n.If? && WellFormed(n)
    ensures var t := LowerIf(n, s).st;
            Defined(Emitted(s, t)) <= Labels(s.lCounter, t.lCounter) && DistinctLabels(Emitted(s, t))
    decreases n, 0
  {
    var k := s.lCounter;
    var s1 := ThenStart(n, s);
    IfSteps(n, s);
    IfHead(n, s);
    var o1 := LowerStmtOpt(n.thenBody, s1);
    StmtOptLabelsFresh(n.thenBody, s1);
    IfThenLabels(s, s1, o1.st);
    if o1.Threw? {
      return;
    }
    var w := ElseStart(o1.st, k);
    var o2 := LowerStmtOpt(n.elseBody, w);
    StmtOptLabelsFresh(n.elseBody, w);
    IfElseLabels(s, o1.st, w, o2.st, k);
    if o2.Threw? {
      return;
    }
    IfEndLabels(s, o2.st, LowerIf(n, s).st, k);
  }

  // ---------------------------------------------------------------------
  // `while`

  /** The start label and the condition of a `while`. */
  lemma WhileStart(n: Node, s: LowerState)
    requires n.While? && n.condition.Condition?
    ensures var x := LowerCondition(n.condition, CondStart(s)).st;
            Extends(s, x) && Defined(Emitted(s, x)) <= Labels(s.lCounter, s.lCounter + 1) && DistinctLabels(Emitted(s, x))
  {
    var k := s.lCounter;
    var s1 := CondStart(s);
    LabelStep(s, s1, k);
    ConditionLabels(n.condition, s1);
    Join(s, s1, LowerCondition(n.condition, s1).st, Labels(k, k + 1), {});
  }

  lemma WhileHead(n: Node, s: LowerState)
    requires n.While? && n.condition.Condition?
    ensures var s2 := BodyStart(n, s);
            var k := s.lCounter;
            Extends(s, s2) && s2.lCounter == k + 4 &&
            Defined(Emitted(s, s2)) <= Labels(k, k + 1) + Labels(k + 3, k + 4) && DistinctLabels(Emitted(s, s2))
  {
    var k := s.lCounter;
    var x := LowerCondition(n.condition, CondStart(s)).st;
    WhileStart(n, s);
    JumpLabelStep(x, BodyStart(n, s), LabelName(k + 2), k + 3);
    LabelsDisjoint(k, k + 1, k + 3, k + 4);
    Join(s, x, BodyStart(n, s), Labels(k, k + 1), Labels(k + 3, k + 4));
  }

  /** Head and body of a `while`, and the closing `goto start; end:`. */
  lemma WhileRestLabels(s: LowerState, s2: LowerState, v: LowerState)
    requires s2.lCounter == s.lCounter + 4 && Extends(s, s2) && Extends(s2, v)
    requires Defined(Emitted(s, s2)) <= Labels(s.lCounter, s.lCounter + 1) + Labels(s.lCounter + 3, s.lCounter + 4)
    requires DistinctLabels(Emitted(s, s2))
    requires Defined(Emitted(s2, v)) <= Labels(s2.lCounter, v.lCounter) && DistinctLabels(Emitted(s2, v))
    ensures var names := Labels(s.lCounter, s.lCounter + 1) + Labels(s.lCounter + 2, v.lCounter);
            Defined(Emitted(s, v)) <= names && DistinctLabels(Emitted(s, v)) &&
            var t := Emit(Emit(v, JumpCode(LabelName(s.lCounter))), LabelCode(LabelName(s.lCounter + 2)));
            Defined(Emitted(s, t)) <= names && DistinctLabels(Emitted(s, t))
  {
    var k, m := s.lCounter, v.lCounter;
    var h := Labels(k, k + 1) + Labels(k + 3, k + 4);
    LabelsDisjoint(k, k + 1, k + 4, m);
    LabelsDisjoint(k + 3, k + 4, k + 4, m);
    Join(s, s2, v, h, Labels(k + 4, m));
    var t := Emit(Emit(v, JumpCode(LabelName(k))), LabelCode(LabelName(k + 2)));
    JumpLabelStep(v, t, LabelName(k), k + 2);
    LabelsDisjoint(k, k + 1, k + 2, k + 3);
    LabelsDisjoint(k + 2, k + 3, k + 3, k + 4);
    LabelsDisjoint(k + 2, k + 3, k + 4, m);
    Join(s, v, t, h + Labels(k + 4, m), Labels(k + 2, k + 3));
    LabelsSplit(k + 2, k + 3, k + 4);
    LabelsSplit(k + 2, k + 4, m);
    LabelsSplit(k + 3, k + 4, m);
  }

  /** The labels of a `while`: every number drawn except `k + 1` (the
      unused body label) may be defined, none twice. */
  lemma {:induction false} WhileLabelsFresh(n: Node, s: LowerState)
    requires n.While? && WellFormed(n)
    ensures var t := LowerWhile(n, s).st;
            Defined(Emitted(s, t)) <= Labels(s.lCounter, s.lCounter + 1) + Labels(s.lCounter + 2, t.lCounter) &&
            Defined(Emitted(s, t)) <= Labels(s.lCounter, t.lCounter) && DistinctLabels(Emitted(s, t))
    decreases n, 0
  {
    var s2 := BodyStart(n, s);
    WhileSteps(n, s);
    WhileHead(n, s);
    var o := LowerStmtOpt(n.body, s2);
    StmtOptLabelsFresh(n.body, s2);
    WhileRestLabels(s, s2, o.st);
    var t := LowerWhile(n, s).st;
    LabelsSub(s.lCounter, t.lCounter, s.lCounter, s.lCounter + 1);
    LabelsSub(s.lCounter, t.lCounter, s.lCounter + 2, t.lCounter);
  }

  // ---------------------------------------------------------------------
  // Statements

  /** Every label a statement's lowering defines is `L<n>` for a number
      drawn during that lowering, and no label is defined twice, whether
      the lowering completes or throws. */
  lemma {:induction false} StmtLabelsFresh(n: Node, s: LowerState)
    requires WellFormed(n)
    ensures var t := LowerStmt(n, s).st;
            Defined(Emitted(s, t)) <= Labels(s.lCounter, t.lCounter) && DistinctLabels(Emitted(s, t))
    decreases n, 1
  {
    var t := LowerStmt(n, s).st;
    match n
    case Statement(_, _) =>
      SeqLabelsFresh(n, s);
    case If(_, _, _) =>
      IfLabelsFresh(n, s);
    case While(_, _) =>
      WhileLabelsFresh(n, s);
    case Print(_, _, _) =>
      PrintNoFlow(n, s);
    case Assignment(_, _) =>
      AssignmentNoFlow(n, s);
    case Declaration(_, _, _) =>
      DeclarationNoFlow(n, s);
    case Number(_) =>
      assert Emitted(s, t) == [];
    case Identifier(_) =>
      assert Emitted(s, t) == [];
    case StringLiteral(_) =>
      assert Emitted(s, t) == [];
    case BinOp(_, _, _) =>
      assert Emitted(s, t) == [];
    case Condition(_, _, _) =>
      assert Emitted(s, t) == [];
  }

  /** A sequence: the second part's labels are drawn after the first's. */
  lemma {:induction false} SeqLabelsFresh(n: Node, s: LowerState)
    requires n.Statement? && WellFormed(n)
    ensures var t := LowerStmt(n, s).st;
            Defined(Emitted(s, t)) <= Labels(s.lCounter, t.lCounter) && DistinctLabels(Emitted(s, t))
    decreases n, 0
  {
    var o := LowerStmtOpt(n.first, s);
    StmtOptLabelsFresh(n.first, s);
    if o.Completed? {
      var t := LowerStmtOpt(n.rest, o.st).st;
      StmtOptLabelsFresh(n.rest, o.st);
      LabelsDisjoint(s.lCounter, o.st.lCounter, o.st.lCounter, t.lCounter);
      Join(s, o.st, t, Labels(s.lCounter, o.st.lCounter), Labels(o.st.lCounter, t.lCounter));
      LabelsSplit(s.lCounter, o.st.lCounter, t.lCounter);
    }
  }

  lemma {:induction false} StmtOptLabelsFresh(o: Option<Node>, s: LowerState)
    requires WellFormedOpt(o)
    ensures var t := LowerStmtOpt(o, s).st;
            Defined(Emitted(s, t)) <= Labels(s.lCounter, t.lCounter) && DistinctLabels(Emitted(s, t))
    decreases o, 2
  {
    if o.Some? {
      StmtLabelsFresh(o.value, s);
    } else {
      assert Emitted(s, s) == [];
    }
  }

  /** A whole program defines every label at most once, and every label it
      defines is `L<n>` for a number the label counter handed out. */
  lemma ProgramLabelsDistinct(root: Option<Node>)
    requires WellFormedOpt(root)
    ensures var code := LowerStmtOpt(root, Initial).st.code;
            forall i, j :: 0 <= i < j < |code| && code[i].LabelCode? && code[j].LabelCode? ==> code[i].name != code[j].name
    ensures var t := LowerStmtOpt(root, Initial).st;
            forall i :: 0 <= i < |t.code| && t.code[i].LabelCode? ==>
              IsLabelName(t.code[i].name) && 1 <= NameNum(t.code[i].name) < t.lCounter
  {
    var t := LowerStmtOpt(root, Initial).st;
    StmtOptLabelsFresh(root, Initial);
    assert Emitted(Initial, t) == t.code;
    DistinctMeaning(t.code);
    forall i | 0 <= i < |t.code| && t.code[i].LabelCode?
      ensures IsLabelName(t.code[i].name) && 1 <= NameNum(t.code[i].name) < t.lCounter
    {
      CodeMeaning(t.code, t.code[i].name);
      LabelsAreLabelNames(t.code[i].name, 1, t.lCounter);
    }
  }
}
