/** What each construct emits, what it returns and how it changes the two
    tables, stated on the functions of `IrLowering`. */
module LoweringShapes {
  import opened Strings
  import opened Ast
  import opened Ir
  import opened IrLowering
  import opened LoweringProperties
  import opened LoweringTables

  // ---------------------------------------------------------------------
  // Expressions

  /** An identifier or a number is its own name: nothing is emitted, no
      table and no counter changes. */
  lemma LeafExpr(n: Node, s: LowerState)
    requires n.Identifier? || n.Number?
    ensures LowerExpr(n, s).name == n.value && LowerExpr(n, s).st == s
  {
  }

  /** A string literal emits nothing and is bound, under the next `S`
      symbol, to its text.  While every key of the constants table is a
      symbol already handed out, that symbol is not yet a key, so no
      literal is overwritten. */
  lemma StringLiteralExpr(n: Node, s: LowerState)
    requires n.StringLiteral?
    ensures var r := LowerExpr(n, s);
            r.name == SymName(s.sCounter) && IsSymName(r.name) &&
            r.st.code == s.code && r.st.sCounter == s.sCounter + 1 &&
            r.st.constants == s.constants[r.name := n.value] && r.st.identifiers == s.identifiers
    ensures SymbolsBelow(s.constants, s.sCounter) ==> SymName(s.sCounter) !in s.constants
  {
    NameNumOfName(s.sCounter);
    if SymbolsBelow(s.constants, s.sCounter) {
      SymsMember(s.sCounter, 1, s.sCounter);
    }
  }

  /** `d` assigns, in order, the temporaries `T<k>`, `T<k + 1>`, ... */
  predicate WritesTempsFrom(d: seq<Instr>, k: nat) {
    forall i :: 0 <= i < |d| ==> d[i].AssignCode? && d[i].dest == TempName(k + i)
  }

  lemma WritesTempsAppend(d1: seq<Instr>, d2: seq<Instr>, k: nat)
    requires WritesTempsFrom(d1, k) && WritesTempsFrom(d2, k + |d1|)
    ensures WritesTempsFrom(d1 + d2, k)
  {
    forall i | 0 <= i < |d1 + d2|
      ensures (d1 + d2)[i].AssignCode? && (d1 + d2)[i].dest == TempName(k + i)
    {
      if i >= |d1| {
        assert (d1 + d2)[i] == d2[i - |d1|];
      }
    }
  }

  /** The step of `ExprTemps` for a binary operation, on the states alone. */
  lemma TempsStep(s: LowerState, a: LowerState, b: LowerState, r: LowerState, i: Instr)
    requires s.code <= a.code <= b.code && r.code == b.code + [i]
    requires |Emitted(s, a)| == a.tCounter - s.tCounter && WritesTempsFrom(Emitted(s, a), s.tCounter)
    requires |Emitted(a, b)| == b.tCounter - a.tCounter && WritesTempsFrom(Emitted(a, b), a.tCounter)
    requires i.AssignCode? && i.dest == TempName(b.tCounter) && r.tCounter == b.tCounter + 1
    ensures |Emitted(s, r)| == r.tCounter - s.tCounter && WritesTempsFrom(Emitted(s, r), s.tCounter)
  {
    EmittedSplit(s, a, b);
    WritesTempsAppend(Emitted(s, a), Emitted(a, b), s.tCounter);
    assert Emitted(s, r) == Emitted(s, b) + [i];
    WritesTempsAppend(Emitted(s, b), [i], s.tCounter);
  }

  /** The code of an expression is one assignment per temporary it draws,
      in drawing order: the `i`-th emitted instruction writes the `i`-th
      new temporary.  With `FreshNamesDistinct`, no temporary is written
      twice. */
  lemma {:induction false} ExprTemps(n: Node, s: LowerState)
    ensures var r := LowerExpr(n, s).st;
            |Emitted(s, r)| == r.tCounter - s.tCounter && WritesTempsFrom(Emitted(s, r), s.tCounter)
    decreases n
  {
    if n.BinOp? {
      var a := LowerExpr(n.lhs, s);
      var b := LowerExpr(n.rhs, a.st);
      var r := LowerExpr(n, s);
      ExprTemps(n.lhs, s);
      ExprTemps(n.rhs, a.st);
      TempsStep(s, a.st, b.st, r.st, AssignCode(r.name, a.name, n.op, b.name));
    }
  }

  /** The next temporary is not among those drawn before it. */
  lemma NewTemp(lo: nat, hi: nat)
    requires lo <= hi
    ensures TempName(hi) !in Temps(lo, hi) && IsTempIn(TempName(hi), lo, hi + 1)
  {
    NameNumOfName(hi);
    TempsMember(TempName(hi), lo, hi);
    if TempName(hi) in Temps(lo, hi) {
      var j :| lo <= j < hi && TempName(hi) == TempName(j);
      FreshNamesDistinct(j, hi);
      assert false;
    }
  }

  /** A binary operation lowers its left operand completely, then its right
      one, then assigns `left op right` to a new temporary, which is typed
      "int", was not drawn by either operand, and is the result. */
  lemma BinOpExpr(n: Node, s: LowerState)
    requires n.BinOp?
    ensures var a := LowerExpr(n.lhs, s);
            var b := LowerExpr(n.rhs, a.st);
            var r := LowerExpr(n, s);
            Emitted(s, r.st) == Emitted(s, a.st) + Emitted(a.st, b.st) + [AssignCode(r.name, a.name, n.op, b.name)] &&
            IsTempIn(r.name, s.tCounter, r.st.tCounter) && r.name !in Temps(s.tCounter, b.st.tCounter) &&
            r.st.identifiers[r.name] == "int"
  {
    var a := LowerExpr(n.lhs, s);
    var b := LowerExpr(n.rhs, a.st);
    EmittedSplit(s, a.st, b.st);
    NewTemp(s.tCounter, b.st.tCounter);
  }

  // ---------------------------------------------------------------------
  // Statements

  /** An assignment ends with the plain copy `name = x`, `x` being the
      name its right-hand side was lowered to; everything before that
      copy is the right-hand side's code.  The target is registered, as
      "string" when it was unknown and with its old type otherwise
      (unless the target is spelled like a temporary the right-hand side
      drew, which that temporary's "int" then overrides). */
  lemma AssignmentShape(n: Node, s: LowerState)
    requires n.Assignment?
    ensures var s1 := if n.name in s.identifiers then s else s.(identifiers := s.identifiers[n.name := "string"]);
            var x := LowerExpr(n.expression, s1);
            var t := LowerAssignment(n, s);
            Emitted(s, t) == Emitted(s1, x.st) + [AssignCode(n.name, x.name, "", "")] &&
            IsPlainCopy(t.code[|t.code| - 1]) && n.name in t.identifiers &&
            (n.name !in Temps(s.tCounter, t.tCounter) ==>
               t.identifiers[n.name] == if n.name in s.identifiers then s.identifiers[n.name] else "string")
  {
    var t := LowerAssignment(n, s);
    AssignmentIdentifiers(n, s);
  }

  /** A declaration throws exactly when it has an initialiser and not
      exactly one name.  In every case each listed name ends up with the
      declared type (a temporary's "int" aside, as for assignments).
      Without an initialiser, or when it throws, nothing is emitted; with
      one, the code ends with the plain copy into the single name. */
  lemma DeclarationShape(n: Node, s: LowerState)
    requires n.Declaration?
    ensures var o := LowerDeclaration(n, s);
            (o.Threw? <==> n.initExpr.Some? && |n.names| != 1) &&
            (forall x :: x in n.names ==>
               x in o.st.identifiers && (x !in Temps(s.tCounter, o.st.tCounter) ==> o.st.identifiers[x] == n.declType)) &&
            (n.initExpr.None? || o.Threw? ==> o.st.code == s.code && o.st.tCounter == s.tCounter)
    ensures var o := LowerDeclaration(n, s);
            n.initExpr.Some? && |n.names| == 1 ==>
              var x := LowerExpr(n.initExpr.value, s.(identifiers := Register(s.identifiers, n.names, n.declType)));
              o.st.code == x.st.code + [AssignCode(n.names[0], x.name, "", "")]
  {
    var o := LowerDeclaration(n, s);
    DeclarationIdentifiers(n, s);
  }

  /** A print ends with a print instruction whose kind is "string" exactly
      when the node's kind is.  A non-empty string literal is bound to the
      next `S` symbol and printed through it, with nothing else emitted;
      otherwise the expression is lowered and its name printed, as an
      "int" for every kind other than "string". */
  lemma PrintShape(n: Node, s: LowerState)
    requires n.Print? && WellFormed(n)
    ensures var t := LowerPrint(n, s);
            |t.code| > |s.code| && t.code[|t.code| - 1].PrintCode? &&
            (t.code[|t.code| - 1].kind == "string" <==> n.kind == "string") &&
            (t.code[|t.code| - 1].kind == "int" <==> n.kind != "string")
    ensures var t := LowerPrint(n, s);
            n.kind == "string" && n.strValue != [] ==>
              t.code == s.code + [PrintCode("string", SymName(s.sCounter))] &&
              t.constants == s.constants[SymName(s.sCounter) := n.strValue] && t.sCounter == s.sCounter + 1
    ensures var t := LowerPrint(n, s);
            !(n.kind == "string" && n.strValue != []) ==>
              var x := LowerExpr(n.intExpr.value, s);
              t.code == x.st.code + [t.code[|t.code| - 1]] && t.code[|t.code| - 1].value == x.name
  {
  }

  // ---------------------------------------------------------------------
  // The whole program

  lemma {:induction false} SymsAreSymNames(x: Text, lo: nat, hi: nat)
    requires x in Syms(lo, hi)
    ensures IsSymName(x) && lo <= NameNum(x) < hi
    decreases hi - lo
  {
    if x == SymName(lo) {
      NameNumOfName(lo);
    } else {
      SymsAreSymNames(x, lo + 1, hi);
    }
  }

  /** Every key of the final constants table is an `S` symbol the counter
      handed out, whether or not the lowering threw. */
  lemma ProgramConstants(root: Option<Node>)
    requires WellFormedOpt(root)
    ensures var t := LowerStmtOpt(root, Initial).st;
            forall x :: x in t.constants ==> IsSymName(x) && 1 <= NameNum(x) < t.sCounter
  {
    var t := LowerStmtOpt(root, Initial).st;
    StmtOptConstants(root, Initial);
    forall x | x in t.constants
      ensures IsSymName(x) && 1 <= NameNum(x) < t.sCounter
    {
      SymsAreSymNames(x, 1, t.sCounter);
    }
  }
}
