/** Control flow of the lowered code: where `if` and `while` put their
    compares, jumps and labels, and that in code whose lowering completed
    every jump and compare goes to a label defined in that same code. */
module LoweringFlow {
  import opened Strings
  import opened Ast
  import opened Ir
  import opened IrLowering
  import opened LoweringProperties
  import opened LoweringLabels

  /** Every transfer of control in `d` lands on a label of `d`. */
  predicate Closed(d: seq<Instr>) {
    Targets(d) <= Defined(d)
  }

  // ---------------------------------------------------------------------
  // Small pieces of code

  lemma LabelFlow(u: LowerState, t: LowerState, l: Text)
    requires t.code == u.code + [LabelCode(l)]
    ensures u.code <= t.code && Defined(Emitted(u, t)) == {l} && Targets(Emitted(u, t)) == {}
  {
    assert Emitted(u, t) == [] + [LabelCode(l)];
  }

  lemma JumpLabelFlow(u: LowerState, t: LowerState, j: Text, l: Text)
    requires t.code == u.code + [JumpCode(j), LabelCode(l)]
    ensures u.code <= t.code && Defined(Emitted(u, t)) == {l} && Targets(Emitted(u, t)) == {j}
  {
    assert Emitted(u, t) == [JumpCode(j)] + [LabelCode(l)];
    assert [JumpCode(j)] == [] + [JumpCode(j)];
    CodeAppend([JumpCode(j)], [LabelCode(l)]);
  }

  /** Condition code defines no label and targets only the label the
      condition drew. */
  lemma ConditionTargets(c: Node, s: LowerState)
    requires c.Condition?
    ensures var r := LowerCondition(c, s);
            Defined(Emitted(s, r.st)) == {} && Targets(Emitted(s, r.st)) == {r.name}
  {
    var a := LowerExpr(c.lhs, s);
    var b := LowerExpr(c.rhs, a.st);
    ExprCode(c.lhs, s);
    ExprCode(c.rhs, a.st);
    CodeSplit(s, a.st, b.st);
    var r := LowerCondition(c, s);
    CodeEmit(s, b.st.(lCounter := b.st.lCounter + 1), CompareCode(a.name, c.comparison, b.name, r.name));
  }

  /** Condition code: assignments for the operands, then one compare with
      the comparison token taken verbatim and the drawn label as target. */
  lemma CondCode(c: Node, s: LowerState)
    requires c.Condition?
    ensures var d := Emitted(s, LowerCondition(c, s).st);
            |d| >= 1 && d[|d| - 1].CompareCode? &&
            d[|d| - 1].operation == c.comparison && d[|d| - 1].jump == LabelName(s.lCounter) &&
            forall i :: 0 <= i < |d| - 1 ==> d[i].AssignCode?
    ensures var a := LowerExpr(c.lhs, s);
            var b := LowerExpr(c.rhs, a.st);
            var d := Emitted(s, LowerCondition(c, s).st);
            |d| >= 1 && d[|d| - 1].left == a.name && d[|d| - 1].right == b.name && d[..|d| - 1] == Emitted(s, b.st)
  {
    var a := LowerExpr(c.lhs, s);
    var b := LowerExpr(c.rhs, a.st);
    var d := Emitted(s, LowerCondition(c, s).st);
    assert forall i :: 0 <= i < |d| - 1 ==> d[i] == b.st.code[|s.code| + i];
  }

  // ---------------------------------------------------------------------
  // Layout of `if` and `while`

  /** The code between `s` and `t` when `t` is reached from `c` by
      appending two instructions, then the code up to `u`, then two more
      instructions, the code up to `v`, and one last instruction. */
  lemma IfCode(s: LowerState, c: LowerState, s1: LowerState, u: LowerState, w: LowerState, v: LowerState, t: LowerState,
               i1: Instr, i2: Instr, i3: Instr, i4: Instr, i5: Instr)
    requires s.code <= c.code && s1.code == c.code + [i1, i2] && s1.code <= u.code
    requires w.code == u.code + [i3, i4] && w.code <= v.code && t.code == v.code + [i5]
    ensures Emitted(s, t) == Emitted(s, c) + [i1, i2] + Emitted(s1, u) + [i3, i4] + Emitted(w, v) + [i5]
  {
  }

  /** The same for a `while`: one instruction, the code up to `c`, two
      instructions, the code up to `v`, two instructions. */
  lemma WhileCode(s: LowerState, s1: LowerState, c: LowerState, s2: LowerState, v: LowerState, t: LowerState,
                  i1: Instr, i2: Instr, i3: Instr, i4: Instr, i5: Instr)
    requires s1.code == s.code + [i1] && s1.code <= c.code && s2.code == c.code + [i2, i3] && s2.code <= v.code
    requires t.code == v.code + [i4, i5]
    ensures Emitted(s, t) == [i1] + Emitted(s1, c) + [i2, i3] + Emitted(s2, v) + [i4, i5]
  {
  }

  /** The code of an `if` that completes, piece by piece: the condition
      code (see `CondCode`: operand assignments, then the compare to the
      then-label `L<k>`), `goto L<k+1>`, `L<k>:`, the then-branch,
      `goto L<k+2>`, `L<k+1>:`, the else-branch, `L<k+2>:` (three
      distinct labels, by `FreshNamesDistinct`). */
  lemma IfLayout(n: Node, s: LowerState) returns (head: seq<Instr>, thenCode: seq<Instr>, elseCode: seq<Instr>)
    requires n.If? && WellFormed(n) && LowerIf(n, s).Completed?
    ensures var k := s.lCounter;
            Emitted(s, LowerIf(n, s).st) ==
              head + [JumpCode(LabelName(k + 1)), LabelCode(LabelName(k))] + thenCode +
              [JumpCode(LabelName(k + 2)), LabelCode(LabelName(k + 1))] + elseCode + [LabelCode(LabelName(k + 2))]
    ensures head == Emitted(s, LowerCondition(n.condition, s).st)
    ensures thenCode == Emitted(ThenStart(n, s), LowerStmtOpt(n.thenBody, ThenStart(n, s)).st)
    ensures var o1 := LowerStmtOpt(n.thenBody, ThenStart(n, s));
            elseCode == Emitted(ElseStart(o1.st, s.lCounter), LowerStmtOpt(n.elseBody, ElseStart(o1.st, s.lCounter)).st)
  {
    var k := s.lCounter;
    IfSteps(n, s);
    var cond := LowerCondition(n.condition, s);
    head := Emitted(s, cond.st);
    var s1 := ThenStart(n, s);
    var o1 := LowerStmtOpt(n.thenBody, s1);
    thenCode := Emitted(s1, o1.st);
    var w := ElseStart(o1.st, k);
    var o2 := LowerStmtOpt(n.elseBody, w);
    elseCode := Emitted(w, o2.st);
    var t := Emit(o2.st, LabelCode(LabelName(k + 2)));
    IfCode(s, cond.st, s1, o1.st, w, o2.st, t, JumpCode(LabelName(k + 1)), LabelCode(LabelName(k)),
           JumpCode(LabelName(k + 2)), LabelCode(LabelName(k + 1)), LabelCode(LabelName(k + 2)));
  }

  /** The code of a `while` that completes: `L<k>:`, the condition code
      (see `CondCode`: operand assignments, then the compare to `L<k+3>`),
      `goto L<k+2>`, `L<k+3>:`, the body, `goto L<k>`, `L<k+2>:`.  The
      loop-back jump goes to the start label. */
  lemma WhileLayout(n: Node, s: LowerState) returns (head: seq<Instr>, body: seq<Instr>)
    requires n.While? && WellFormed(n) && LowerWhile(n, s).Completed?
    ensures var k := s.lCounter;
            Emitted(s, LowerWhile(n, s).st) ==
              [LabelCode(LabelName(k))] + head + [JumpCode(LabelName(k + 2)), LabelCode(LabelName(k + 3))] +
              body + [JumpCode(LabelName(k)), LabelCode(LabelName(k + 2))]
    ensures head == Emitted(CondStart(s), LowerCondition(n.condition, CondStart(s)).st)
    ensures body == Emitted(BodyStart(n, s), LowerStmtOpt(n.body, BodyStart(n, s)).st)
  {
    var k := s.lCounter;
    WhileSteps(n, s);
    var s1 := CondStart(s);
    var cond := LowerCondition(n.condition, s1);
    head := Emitted(s1, cond.st);
    var s2 := BodyStart(n, s);
    var o := LowerStmtOpt(n.body, s2);
    body := Emitted(s2, o.st);
    var t := Emit(Emit(o.st, JumpCode(LabelName(k))), LabelCode(LabelName(k + 2)));
    WhileCode(s, s1, cond.st, s2, o.st, t, LabelCode(LabelName(k)), JumpCode(LabelName(k + 2)),
              LabelCode(LabelName(k + 3)), JumpCode(LabelName(k)), LabelCode(LabelName(k + 2)));
  }

  // ---------------------------------------------------------------------
  // Closed control flow

  /** Extending code whose targets lie among its labels and `open` by a
      piece whose targets lie among its labels and `open2`, where the piece
      defines every label of `open` not in `open2`. */
  lemma Extend(s: LowerState, u: LowerState, v: LowerState, open: set<Text>, open2: set<Text>)
    requires s.code <= u.code <= v.code
    requires Targets(Emitted(s, u)) <= Defined(Emitted(s, u)) + open
    requires Targets(Emitted(u, v)) <= Defined(Emitted(u, v)) + open2
    requires open <= Defined(Emitted(u, v)) + open2
    ensures Targets(Emitted(s, v)) <= Defined(Emitted(s, v)) + open2
  {
    CodeSplit(s, u, v);
  }

  /** The head of an `if`: the condition, `goto else`, `then:`. */
  lemma IfHeadFlow(n: Node, s: LowerState)
    requires n.If? && n.condition.Condition?
    ensures var s1 := ThenStart(n, s);
            var name := LowerCondition(n.condition, s).name;
            s.code <= s1.code && Defined(Emitted(s, s1)) == {name} &&
            Targets(Emitted(s, s1)) == {name, LabelName(s.lCounter + 1)}
  {
    var cond := LowerCondition(n.condition, s);
    ConditionTargets(n.condition, s);
    var s1 := ThenStart(n, s);
    JumpLabelFlow(cond.st, s1, LabelName(s.lCounter + 1), cond.name);
    CodeSplit(s, cond.st, s1);
  }

  /** An `if` closes once its head leaves only the else-label open and
      both branches are closed. */
  lemma IfParts(s: LowerState, s1: LowerState, u: LowerState, w: LowerState, v: LowerState, t: LowerState, y: Text, z: Text)
    requires s.code <= s1.code <= u.code && w.code == u.code + [JumpCode(z), LabelCode(y)] && w.code <= v.code
    requires t.code == v.code + [LabelCode(z)]
    requires Targets(Emitted(s, s1)) <= Defined(Emitted(s, s1)) + {y}
    requires Closed(Emitted(s1, u)) && Closed(Emitted(w, v))
    ensures Closed(Emitted(s, t))
  {
    Extend(s, s1, u, {y}, {y});
    JumpLabelFlow(u, w, z, y);
    Extend(s, u, w, {y}, {z});
    Extend(s, w, v, {z}, {z});
    LabelFlow(v, t, z);
    Extend(s, v, t, {z}, {});
  }

  lemma {:induction false} IfClosed(n: Node, s: LowerState)
    requires n.If? && WellFormed(n) && LowerIf(n, s).Completed?
    ensures Closed(Emitted(s, LowerIf(n, s).st))
    decreases n, 0
  {
    var k := s.lCounter;
    IfSteps(n, s);
    var s1 := ThenStart(n, s);
    IfHeadFlow(n, s);
    var o1 := LowerStmtOpt(n.thenBody, s1);
    StmtOptClosed(n.thenBody, s1);
    var w := ElseStart(o1.st, k);
    var o2 := LowerStmtOpt(n.elseBody, w);
    StmtOptClosed(n.elseBody, w);
    IfParts(s, s1, o1.st, w, o2.st, LowerIf(n, s).st, LabelName(k + 1), LabelName(k + 2));
  }

  /** The front of a `while`: start label, condition, `goto end`, `cond:`;
      its only open target is the end label. */
  lemma WhileFrontFlow(n: Node, s: LowerState)
    requires n.While? && n.condition.Condition?
    ensures var s2 := BodyStart(n, s);
            s.code <= s2.code && LabelName(s.lCounter) in Defined(Emitted(s, s2)) &&
            Targets(Emitted(s, s2)) <= Defined(Emitted(s, s2)) + {LabelName(s.lCounter + 2)}
  {
    var k := s.lCounter;
    var s1 := CondStart(s);
    LabelFlow(s, s1, LabelName(k));
    var cond := LowerCondition(n.condition, s1);
    ConditionTargets(n.condition, s1);
    Extend(s, s1, cond.st, {}, {cond.name});
    var s2 := BodyStart(n, s);
    JumpLabelFlow(cond.st, s2, LabelName(k + 2), cond.name);
    Extend(s, cond.st, s2, {cond.name}, {LabelName(k + 2)});
    CodeSplit(s, s1, cond.st);
    CodeSplit(s, cond.st, s2);
  }

  /** A `while` closes once its front leaves only the end label open,
      its start label is defined and its body is closed. */
  lemma WhileParts(s: LowerState, s2: LowerState, v: LowerState, t: LowerState, x: Text, z: Text)
    requires s.code <= s2.code <= v.code && t.code == v.code + [JumpCode(x), LabelCode(z)]
    requires x in Defined(Emitted(s, s2)) && Targets(Emitted(s, s2)) <= Defined(Emitted(s, s2)) + {z}
    requires Closed(Emitted(s2, v))
    ensures Closed(Emitted(s, t))
  {
    Extend(s, s2, v, {z}, {z});
    JumpLabelFlow(v, t, x, z);
    Extend(s, v, t, {z}, {x});
    CodeSplit(s, s2, t);
  }

  lemma {:induction false} WhileClosed(n: Node, s: LowerState)
    requires n.While? && WellFormed(n) && LowerWhile(n, s).Completed?
    ensures Closed(Emitted(s, LowerWhile(n, s).st))
    decreases n, 0
  {
    WhileSteps(n, s);
    var s2 := BodyStart(n, s);
    WhileFrontFlow(n, s);
    var o := LowerStmtOpt(n.body, s2);
    StmtOptClosed(n.body, s2);
    WhileParts(s, s2, o.st, LowerWhile(n, s).st, LabelName(s.lCounter), LabelName(s.lCounter + 2));
  }

  /** A sequence of two closed pieces is closed. */
  lemma {:induction false} SeqClosed(n: Node, s: LowerState)
    requires n.Statement? && WellFormed(n) && LowerStmt(n, s).Completed?
    ensures Closed(Emitted(s, LowerStmt(n, s).st))
    decreases n, 0
  {
    var o := LowerStmtOpt(n.first, s);
    StmtOptClosed(n.first, s);
    StmtOptClosed(n.rest, o.st);
    CodeSplit(s, o.st, LowerStmt(n, s).st);
  }

  /** In the code of a statement whose lowering completes, every jump and
      every compare goes to a label defined in that code. */
  lemma {:induction false} StmtClosed(n: Node, s: LowerState)
    requires WellFormed(n) && LowerStmt(n, s).Completed?
    ensures Closed(Emitted(s, LowerStmt(n, s).st))
    decreases n, 1
  {
    var t := LowerStmt(n, s).st;
    match n
    case Statement(_, _) =>
      SeqClosed(n, s);
    case If(_, _, _) =>
      IfClosed(n, s);
    case While(_, _) =>
      WhileClosed(n, s);
    case Print(_, _, _) =>
      PrintNoFlow(n, s);
    case Assignment(_, _) =>
      AssignmentNoFlow(n, s);
    case Declaration(_, _, _) =>
      DeclarationNoFlow(n, s);
    case Number(_) =>
      assert Emitted(s, t) == [];
    case Identifier(_) =>
      assert Emitted(s, t) == [];
    case StringLiteral(_) =>
      assert Emitted(s, t) == [];
    case BinOp(_, _, _) =>
      assert Emitted(s, t) == [];
    case Condition(_, _, _) =>
      assert Emitted(s, t) == [];
  }

  lemma {:induction false} StmtOptClosed(o: Option<Node>, s: LowerState)
    requires WellFormedOpt(o) && LowerStmtOpt(o, s).Completed?
    ensures Closed(Emitted(s, LowerStmtOpt(o, s).st))
    decreases o, 2
  {
    if o.Some? {
      StmtClosed(o.value, s);
    } else {
      assert Emitted(s, s) == [];
    }
  }

  /** A label that closed code cannot define is not jumped to either. */
  lemma Undefined(d: seq<Instr>, x: Text, a: set<Text>)
    requires Defined(d) <= a && Closed(d) && x !in a
    ensures x !in Defined(d) && x !in Targets(d)
  {
  }

  /** The body label `L<k+1>` lies outside the labels a `while` may define. */
  lemma OutsideRange(k: nat, m: nat)
    ensures LabelName(k + 1) !in Labels(k, k + 1) + Labels(k + 2, m)
  {
    LabelsMember(k + 1, k, k + 1);
    LabelsMember(k + 1, k + 2, m);
  }

  /** The code of a completed `while`, the labels it may define, and the
      fact that the body label is not among them. */
  lemma WhileRange(n: Node, s: LowerState) returns (d: seq<Instr>, a: set<Text>)
    requires n.While? && WellFormed(n) && LowerWhile(n, s).Completed?
    ensures d == Emitted(s, LowerWhile(n, s).st)
    ensures Defined(d) <= a && Closed(d) && LabelName(s.lCounter + 1) !in a
  {
    var m := LowerWhile(n, s).st.lCounter;
    WhileLabelsFresh(n, s);
    WhileClosed(n, s);
    OutsideRange(s.lCounter, m);
    d, a := Emitted(s, LowerWhile(n, s).st), Labels(s.lCounter, s.lCounter + 1) + Labels(s.lCounter + 2, m);
  }

  /** `L<k+1>`, drawn by a `while` for its body, is neither defined nor
      targeted anywhere in the loop's code. */
  lemma WhileUnusedLabel(n: Node, s: LowerState)
    requires n.While? && WellFormed(n) && LowerWhile(n, s).Completed?
    ensures var d := Emitted(s, LowerWhile(n, s).st);
            LabelName(s.lCounter + 1) !in Defined(d) && LabelName(s.lCounter + 1) !in Targets(d)
  {
    var d, a := WhileRange(n, s);
    Undefined(d, LabelName(s.lCounter + 1), a);
  }

  /** In a whole lowered program every jump and every compare names a
      label that the program defines. */
  lemma ProgramClosed(root: Option<Node>)
    requires WellFormedOpt(root) && LowerStmtOpt(root, Initial).Completed?
    ensures var code := LowerStmtOpt(root, Initial).st.code;
            forall i :: 0 <= i < |code| && (code[i].JumpCode? || code[i].CompareCode?) ==>
              exists j :: 0 <= j < |code| && code[j] == LabelCode(if code[i].JumpCode? then code[i].dist else code[i].jump)
  {
    var code := LowerStmtOpt(root, Initial).st.code;
    StmtOptClosed(root, Initial);
    assert Emitted(Initial, LowerStmtOpt(root, Initial).st) == code;
    forall i | 0 <= i < |code| && (code[i].JumpCode? || code[i].CompareCode?)
      ensures exists j :: 0 <= j < |code| && code[j] == LabelCode(if code[i].JumpCode? then code[i].dist else code[i].jump)
    {
      var x := if code[i].JumpCode? then code[i].dist else code[i].jump;
      CodeMeaning(code, x);
    }
  }
}
