/** What the lowering pass does to its two tables: `identifiers` gains
    exactly the temporaries it draws (typed "int") besides the declared and
    assigned names, and `constants` only ever gains entries under fresh
    `S` symbols, so no literal is overwritten. */
module LoweringTables {
  import opened Strings
  import opened Ast
  import opened Ir
  import opened IrLowering
  import opened LoweringProperties
  import opened LoweringLabels

  // ---------------------------------------------------------------------
  // Temporaries in `identifiers`

  /** The table entries `T<lo>` to `T<hi - 1>`, all typed "int". */
  ghost function Temps(lo: nat, hi: nat): map<Text, Text>
    decreases hi
  {
    if hi <= lo then map[] else Temps(lo, hi - 1)[TempName(hi - 1) := "int"]
  }

  lemma {:induction false} TempsSplit(lo: nat, mid: nat, hi: nat)
    requires lo <= mid <= hi
    ensures Temps(lo, hi) == Temps(lo, mid) + Temps(mid, hi)
    decreases hi
  {
    if hi > mid {
      TempsSplit(lo, mid, hi - 1);
    }
  }

  lemma {:induction false} TempsMember(x: Text, lo: nat, hi: nat)
    ensures x in Temps(lo, hi) <==> exists j :: lo <= j < hi && x == TempName(j)
    ensures x in Temps(lo, hi) ==> Temps(lo, hi)[x] == "int"
    decreases hi
  {
    if hi > lo {
      TempsMember(x, lo, hi - 1);
    }
  }

  lemma MapUnionAssoc(a: map<Text, Text>, b: map<Text, Text>, c: map<Text, Text>)
    ensures a + b + c == a + (b + c)
  {
  }

  lemma MapUnionUpdate(a: map<Text, Text>, b: map<Text, Text>, x: Text, v: Text)
    ensures (a + b)[x := v] == a + b[x := v]
  {
  }

  /** Lowering an expression adds to `identifiers` exactly one "int" entry
      per temporary it draws, and changes nothing else in it. */
  lemma {:induction false} ExprIdentifiers(n: Node, s: LowerState)
    ensures var r := LowerExpr(n, s).st;
            r.identifiers == s.identifiers + Temps(s.tCounter, r.tCounter)
    decreases n
  {
    match n
    case BinOp(l, op, rt) =>
      var a := LowerExpr(l, s);
      var b := LowerExpr(rt, a.st);
      ExprIdentifiers(l, s);
      ExprIdentifiers(rt, a.st);
      var lo, m := s.tCounter, b.st.tCounter;
      TempsSplit(lo, a.st.tCounter, m);
      assert b.st.identifiers == s.identifiers + Temps(lo, m) by {
        MapUnionAssoc(s.identifiers, Temps(lo, a.st.tCounter), Temps(a.st.tCounter, m));
      }
      MapUnionUpdate(s.identifiers, Temps(lo, m), TempName(m), "int");
    case _ =>
  }

  /** An assignment registers its target as "string" unless it is already
      known; the right-hand side adds only its temporaries. */
  lemma AssignmentIdentifiers(n: Node, s: LowerState)
    requires n.Assignment?
    ensures var t := LowerAssignment(n, s);
            var s1 := if n.name in s.identifiers then s.identifiers else s.identifiers[n.name := "string"];
            t.identifiers == s1 + Temps(s.tCounter, t.tCounter)
  {
    var s1 := if n.name in s.identifiers then s else s.(identifiers := s.identifiers[n.name := "string"]);
    ExprIdentifiers(n.expression, s1);
  }

  /** A declaration registers every listed name with the declared type,
      overwriting earlier entries; an initialiser adds only its
      temporaries.  This holds whether or not the declaration throws. */
  lemma DeclarationIdentifiers(n: Node, s: LowerState)
    requires n.Declaration?
    ensures var t := LowerDeclaration(n, s).st;
            t.identifiers == Register(s.identifiers, n.names, n.declType) + Temps(s.tCounter, t.tCounter)
  {
    var s1 := s.(identifiers := Register(s.identifiers, n.names, n.declType));
    if n.initExpr.Some? && |n.names| == 1 {
      ExprIdentifiers(n.initExpr.value, s1);
    } else {
      assert Temps(s.tCounter, s.tCounter) == map[];
    }
  }

  // ---------------------------------------------------------------------
  // Symbols in `constants`

  /** The symbol names `S<lo>` to `S<hi - 1>`. */
  ghost function Syms(lo: nat, hi: nat): set<Text>
    decreases hi - lo
  {
    if lo >= hi then {} else {SymName(lo)} + Syms(lo + 1, hi)
  }

  lemma {:induction false} SymsMember(j: nat, lo: nat, hi: nat)
    ensures SymName(j) in Syms(lo, hi) <==> lo <= j < hi
    decreases hi - lo
  {
    if lo < hi {
      SymsMember(j, lo + 1, hi);
      FreshNamesDistinct(j, lo);
    }
  }

  lemma {:induction false} SymsGrow(lo: nat, hi: nat)
    ensures Syms(lo, hi + 1) == Syms(lo, hi) + (if lo <= hi then {SymName(hi)} else {})
    decreases hi - lo
  {
    if lo < hi {
      SymsGrow(lo + 1, hi);
    }
  }

  lemma {:induction false} SymsMono(lo: nat, hi: nat, hi2: nat)
    requires hi <= hi2
    ensures Syms(lo, hi) <= Syms(lo, hi2)
    decreases hi2 - hi
  {
    if hi < hi2 {
      SymsMono(lo, hi, hi2 - 1);
      SymsGrow(lo, hi2 - 1);
    }
  }

  /** Every key of the constants table is a symbol drawn before `k`. */
  ghost predicate SymbolsBelow(c: map<Text, Text>, k: nat) {
    1 <= k && c.Keys <= Syms(1, k)
  }

  /** `t` keeps every entry of `c` unchanged. */
  ghost predicate Keeps(c: map<Text, Text>, t: map<Text, Text>) {
    forall x :: x in c ==> x in t && t[x] == c[x]
  }

  /** Binding a fresh symbol keeps the invariant and every older entry. */
  lemma BindFresh(c: map<Text, Text>, k: nat, v: Text)
    requires SymbolsBelow(c, k)
    ensures SymbolsBelow(c[SymName(k) := v], k + 1) && Keeps(c, c[SymName(k) := v])
  {
    SymsMember(k, 1, k);
    SymsGrow(1, k);
  }

  lemma {:induction false} ExprConstants(n: Node, s: LowerState)
    requires SymbolsBelow(s.constants, s.sCounter)
    ensures var r := LowerExpr(n, s).st;
            SymbolsBelow(r.constants, r.sCounter) && Keeps(s.constants, r.constants)
    decreases n
  {
    match n
    case StringLiteral(v) =>
      BindFresh(s.constants, s.sCounter, v);
    case BinOp(l, op, rt) =>
      var a := LowerExpr(l, s);
      ExprConstants(l, s);
      ExprConstants(rt, a.st);
    case _ =>
  }

  lemma PrintConstants(n: Node, s: LowerState)
    requires n.Print? && WellFormed(n) && SymbolsBelow(s.constants, s.sCounter)
    ensures var t := LowerPrint(n, s);
            SymbolsBelow(t.constants, t.sCounter) && Keeps(s.constants, t.constants)
  {
    if n.kind == "string" && n.strValue != [] {
      BindFresh(s.constants, s.sCounter, n.strValue);
    } else {
      ExprConstants(n.intExpr.value, s);
    }
  }

  /** No statement overwrites a constant: every entry present before is
      still there with the same literal, and every key stays a symbol the
      counter has handed out.  This holds up to a throw as well. */
  lemma {:induction false} StmtConstants(n: Node, s: LowerState)
    requires WellFormed(n) && SymbolsBelow(s.constants, s.sCounter)
    ensures var t := LowerStmt(n, s).st;
            SymbolsBelow(t.constants, t.sCounter) && Keeps(s.constants, t.constants)
    decreases n, 1
  {
    match n
    case Statement(a, b) =>
      var o := LowerStmtOpt(a, s);
      StmtOptConstants(a, s);
      if o.Completed? {
        StmtOptConstants(b, o.st);
      }
    case If(_, _, _) =>
      IfConstants(n, s);
    case While(_, _) =>
      WhileConstants(n, s);
    case Print(_, _, _) =>
      PrintConstants(n, s);
    case Assignment(name, e) =>
      var s1 := if name in s.identifiers then s else s.(identifiers := s.identifiers[name := "string"]);
      ExprConstants(e, s1);
    case Declaration(ty, names, init) =>
      var s1 := s.(identifiers := Register(s.identifiers, names, ty));
      if init.Some? && |names| == 1 {
        ExprConstants(init.value, s1);
      }
    case _ =>
  }

  lemma {:induction false} StmtOptConstants(o: Option<Node>, s: LowerState)
    requires WellFormedOpt(o) && SymbolsBelow(s.constants, s.sCounter)
    ensures var t := LowerStmtOpt(o, s).st;
            SymbolsBelow(t.constants, t.sCounter) && Keeps(s.constants, t.constants)
    decreases o, 2
  {
    if o.Some? {
      StmtConstants(o.value, s);
    }
  }

  lemma {:induction false} ConditionConstants(c: Node, s: LowerState)
    requires c.Condition? && SymbolsBelow(s.constants, s.sCounter)
    ensures var r := LowerCondition(c, s).st;
            SymbolsBelow(r.constants, r.sCounter) && Keeps(s.constants, r.constants)
  {
    var a := LowerExpr(c.lhs, s);
    ExprConstants(c.lhs, s);
    ExprConstants(c.rhs, a.st);
  }

  lemma {:induction false} IfConstants(n: Node, s: LowerState)
    requires n.If? && WellFormed(n) && SymbolsBelow(s.constants, s.sCounter)
    ensures var t := LowerIf(n, s).st;
            SymbolsBelow(t.constants, t.sCounter) && Keeps(s.constants, t.constants)
    decreases n, 0
  {
    var cond := LowerCondition(n.condition, s);
    ConditionConstants(n.condition, s);
    IfSteps(n, s);
    var s1 := ThenStart(n, s);
    var o1 := LowerStmtOpt(n.thenBody, s1);
    StmtOptConstants(n.thenBody, s1);
    if o1.Completed? {
      var w := ElseStart(o1.st, s.lCounter);
      StmtOptConstants(n.elseBody, w);
    }
  }

  lemma {:induction false} WhileConstants(n: Node, s: LowerState)
    requires n.While? && WellFormed(n) && SymbolsBelow(s.constants, s.sCounter)
    ensures var t := LowerWhile(n, s).st;
            SymbolsBelow(t.constants, t.sCounter) && Keeps(s.constants, t.constants)
    decreases n, 0
  {
    WhileSteps(n, s);
    var s1 := CondStart(s);
    ConditionConstants(n.condition, s1);
    StmtOptConstants(n.body, BodyStart(n, s));
  }
}
