/** What the lowering pass guarantees, stated on the functions of `IrLowering`. */
module LoweringProperties {
  import opened Strings
  import opened Ast
  import opened Ir
  import opened IrLowering

  // ---------------------------------------------------------------------
  // Fresh names

  /** The counter behind a generated name (its text after the prefix). */
  function NameNum(x: Text): nat
    requires |x| >= 1
  {
    ParseDecimal(x[1..])
  }

  predicate IsLabelName(x: Text) {
    |x| >= 1 && x == LabelName(NameNum(x))
  }

  predicate IsSymName(x: Text) {
    |x| >= 1 && x == SymName(NameNum(x))
  }

  /** `x` is a temporary drawn while the temp counter went from `lo` to `hi`. */
  predicate IsTempIn(x: Text, lo: nat, hi: nat) {
    |x| >= 1 && x == TempName(NameNum(x)) && lo <= NameNum(x) < hi
  }

  /** Each generated name reads back as its counter. */
  lemma NameNumOfName(k: nat)
    ensures NameNum(TempName(k)) == k && NameNum(LabelName(k)) == k && NameNum(SymName(k)) == k
    ensures IsLabelName(LabelName(k)) && IsSymName(SymName(k))
  {
    assert TempName(k)[1..] == Decimal(k);
    assert LabelName(k)[1..] == Decimal(k);
    assert SymName(k)[1..] == Decimal(k);
    ParseDecimalOfDecimal(k);
  }

  /** Names drawn from one counter are equal only for equal counter values,
      and names drawn from different counters never clash. */
  lemma FreshNamesDistinct(i: nat, j: nat)
    ensures TempName(i) == TempName(j) <==> i == j
    ensures LabelName(i) == LabelName(j) <==> i == j
    ensures SymName(i) == SymName(j) <==> i == j
    ensures TempName(i) != LabelName(j) && TempName(i) != SymName(j) && LabelName(i) != SymName(j)
  {
    NameNumOfName(i);
    NameNumOfName(j);
    assert TempName(i)[0] == 'T' && LabelName(j)[0] == 'L' && SymName(j)[0] == 'S';
    assert LabelName(i)[0] == 'L';
  }


  // ---------------------------------------------------------------------
  // Checkpoints inside `if` and `while`

  /** Where an `if`'s then-branch starts: after the condition, `goto else`
      and the then-label. */
  ghost function ThenStart(n: Node, s: LowerState): LowerState
    requires n.If? && n.condition.Condition?
  {
    var cond := LowerCondition(n.condition, s);
    Emit(Emit(cond.st.(lCounter := cond.st.lCounter + 2), JumpCode(LabelName(cond.st.lCounter))), LabelCode(cond.name))
  }

  /** Where an `if`'s else-branch starts, given the state `u` after the
      then-branch and the label counter `k` before the `if`: after
      `goto end` and the else-label. */
  ghost function ElseStart(u: LowerState, k: nat): LowerState {
    Emit(Emit(u, JumpCode(LabelName(k + 2))), LabelCode(LabelName(k + 1)))
  }

  /** An `if` is its head, its then-branch from `ThenStart`, its
      else-branch from `ElseStart` and its end label. */
  lemma IfSteps(n: Node, s: LowerState)
    requires n.If? && WellFormed(n)
    ensures var o1 := LowerStmtOpt(n.thenBody, ThenStart(n, s));
            var o2 := LowerStmtOpt(n.elseBody, ElseStart(o1.st, s.lCounter));
            ThenStart(n, s).lCounter == s.lCounter + 3 &&
            LowerIf(n, s) ==
              if o1.Threw? then o1 else if o2.Threw? then o2 else Completed(Emit(o2.st, LabelCode(LabelName(s.lCounter + 2))))
  {
  }

  /** Where a `while`'s condition starts: after the three labels are drawn
      and the start label is placed. */
  ghost function CondStart(s: LowerState): LowerState {
    Emit(s.(lCounter := s.lCounter + 3), LabelCode(LabelName(s.lCounter)))
  }

  /** Where a `while`'s body starts: after the condition, `goto end` and
      the condition's label. */
  ghost function BodyStart(n: Node, s: LowerState): LowerState
    requires n.While? && n.condition.Condition?
  {
    var cond := LowerCondition(n.condition, CondStart(s));
    Emit(Emit(cond.st, JumpCode(LabelName(s.lCounter + 2))), LabelCode(cond.name))
  }

  /** A `while` lowers its body from `BodyStart`, then closes the loop. */
  lemma WhileSteps(n: Node, s: LowerState)
    requires n.While? && WellFormed(n)
    ensures var o := LowerStmtOpt(n.body, BodyStart(n, s));
            LowerWhile(n, s) ==
              if o.Threw? then o else Completed(Emit(Emit(o.st, JumpCode(LabelName(s.lCounter))), LabelCode(LabelName(s.lCounter + 2))))
  {
    var k := s.lCounter;
    var startL := FreshLabel(s);
    var bodyL := FreshLabel(startL.st);
    var endL := FreshLabel(bodyL.st);
    assert startL.name == LabelName(k) && endL.name == LabelName(k + 2);
    assert endL.st == s.(lCounter := k + 3);
    var s1 := Emit(endL.st, LabelCode(startL.name));
    assert s1 == CondStart(s);
    var cond := LowerCondition(n.condition, s1);
    assert Emit(Emit(cond.st, JumpCode(endL.name)), LabelCode(cond.name)) == BodyStart(n, s);
  }

  // ---------------------------------------------------------------------
  // Emitted code: the labels it defines and the labels it transfers to

  lemma EmittedSplit(s: LowerState, t: LowerState, u: LowerState)
    requires s.code <= t.code <= u.code
    ensures Emitted(s, u) == Emitted(s, t) + Emitted(t, u)
  {
  }

  /** The label an instruction defines, if any. */
  function DefinedBy(i: Instr): set<Text> {
    if i.LabelCode? then {i.name} else {}
  }

  /** The label an instruction may transfer control to, if any. */
  function TargetOf(i: Instr): set<Text> {
    match i
    case JumpCode(l) => {l}
    case CompareCode(_, _, _, l) => {l}
    case _ => {}
  }

  /** All labels defined in `d`. */
  function Defined(d: seq<Instr>): set<Text>
    decreases |d|
  {
    if d == [] then {} else Defined(d[..|d| - 1]) + DefinedBy(d[|d| - 1])
  }

  /** All jump and compare targets in `d`. */
  function Targets(d: seq<Instr>): set<Text>
    decreases |d|
  {
    if d == [] then {} else Targets(d[..|d| - 1]) + TargetOf(d[|d| - 1])
  }

  /** No label is defined twice in `d`. */
  predicate DistinctLabels(d: seq<Instr>)
    decreases |d|
  {
    d == [] || (DistinctLabels(d[..|d| - 1]) && DefinedBy(d[|d| - 1]) !! Defined(d[..|d| - 1]))
  }

  /** Appending code: both label sets are unions, and the result defines no
      label twice exactly when neither part does and they share no label. */
  lemma {:induction false} CodeAppend(a: seq<Instr>, b: seq<Instr>)
    ensures Defined(a + b) == Defined(a) + Defined(b)
    ensures Targets(a + b) == Targets(a) + Targets(b)
    ensures DistinctLabels(a + b) <==> DistinctLabels(a) && DistinctLabels(b) && Defined(a) !! Defined(b)
    decreases |b|
  {
    if b == [] {
      assert a + b == a;
    } else {
      var b' := b[..|b| - 1];
      assert (a + b)[..|a + b| - 1] == a + b';
      CodeAppend(a, b');
    }
  }

  lemma CodeSplit(s: LowerState, t: LowerState, u: LowerState)
    requires s.code <= t.code <= u.code
    ensures Defined(Emitted(s, u)) == Defined(Emitted(s, t)) + Defined(Emitted(t, u))
    ensures Targets(Emitted(s, u)) == Targets(Emitted(s, t)) + Targets(Emitted(t, u))
    ensures DistinctLabels(Emitted(s, u)) <==>
              DistinctLabels(Emitted(s, t)) && DistinctLabels(Emitted(t, u)) && Defined(Emitted(s, t)) !! Defined(Emitted(t, u))
  {
    EmittedSplit(s, t, u);
    CodeAppend(Emitted(s, t), Emitted(t, u));
  }

  lemma CodeEmit(s: LowerState, x: LowerState, i: Instr)
    requires s.code <= x.code
    ensures Defined(Emitted(s, Emit(x, i))) == Defined(Emitted(s, x)) + DefinedBy(i)
    ensures Targets(Emitted(s, Emit(x, i))) == Targets(Emitted(s, x)) + TargetOf(i)
    ensures DistinctLabels(Emitted(s, Emit(x, i))) <==> DistinctLabels(Emitted(s, x)) && DefinedBy(i) !! Defined(Emitted(s, x))
  {
    var d := Emitted(s, x);
    assert Emitted(s, Emit(x, i)) == d + [i];
    assert (d + [i])[..|d|] == d;
  }

  lemma {:induction false} AssignsOnly(d: seq<Instr>)
    requires forall i :: 0 <= i < |d| ==> d[i].AssignCode?
    ensures Defined(d) == {} && Targets(d) == {} && DistinctLabels(d)
    decreases |d|
  {
    if d != [] {
      AssignsOnly(d[..|d| - 1]);
    }
  }

  /** What `Defined` and `Targets` mean position by position. */
  lemma {:induction false} CodeMeaning(d: seq<Instr>, x: Text)
    ensures x in Defined(d) <==> exists i :: 0 <= i < |d| && d[i] == LabelCode(x)
    ensures x in Targets(d) <==> exists i :: 0 <= i < |d| && (d[i] == JumpCode(x) || (d[i].CompareCode? && d[i].jump == x))
    decreases |d|
  {
    if d != [] {
      var p := d[..|d| - 1];
      CodeMeaning(p, x);
      assert forall i :: 0 <= i < |p| ==> p[i] == d[i];
      if x in Defined(p) {
        var i :| 0 <= i < |p| && p[i] == LabelCode(x);
        assert d[i] == LabelCode(x);
      }
      if x in Targets(p) {
        var i :| 0 <= i < |p| && (p[i] == JumpCode(x) || (p[i].CompareCode? && p[i].jump == x));
        assert d[i] == p[i];
      }
    }
  }

  /** What `DistinctLabels` means position by position. */
  lemma {:induction false} DistinctMeaning(d: seq<Instr>)
    ensures DistinctLabels(d) <==>
              forall i, j :: 0 <= i < j < |d| && d[i].LabelCode? && d[j].LabelCode? ==> d[i].name != d[j].name
    decreases |d|
  {
    if d != [] {
      var p := d[..|d| - 1];
      var l := d[|d| - 1];
      DistinctMeaning(p);
      assert forall i :: 0 <= i < |p| ==> p[i] == d[i];
      if l.LabelCode? {
        CodeMeaning(p, l.name);
        if DistinctLabels(d) {
          forall i, j | 0 <= i < j < |d| && d[i].LabelCode? && d[j].LabelCode?
            ensures d[i].name != d[j].name
          {
            if j == |d| - 1 {
              assert p[i] == LabelCode(d[i].name);
            }
          }
        }
        if !DistinctLabels(d) && DistinctLabels(p) {
          var i :| 0 <= i < |p| && p[i] == LabelCode(l.name);
          assert d[i].name == d[|d| - 1].name;
        }
      }
    }
  }

  // ---------------------------------------------------------------------
  // Ranges of label names

  /** The label names `L<lo>` to `L<hi - 1>`. */
  ghost function Labels(lo: nat, hi: nat): set<Text>
    decreases hi - lo
  {
    if lo >= hi then {} else {LabelName(lo)} + Labels(lo + 1, hi)
  }

  lemma {:induction false} LabelsMember(j: nat, lo: nat, hi: nat)
    ensures LabelName(j) in Labels(lo, hi) <==> lo <= j < hi
    decreases hi - lo
  {
    if lo < hi {
      LabelsMember(j, lo + 1, hi);
      FreshNamesDistinct(j, lo);
    }
  }

  /** `Labels(lo, hi)` holds label names only, each drawn from `lo` to `hi - 1`. */
  lemma {:induction false} LabelsAreLabelNames(x: Text, lo: nat, hi: nat)
    requires x in Labels(lo, hi)
    ensures IsLabelName(x) && lo <= NameNum(x) < hi
    decreases hi - lo
  {
    if x == LabelName(lo) {
      NameNumOfName(lo);
    } else {
      LabelsAreLabelNames(x, lo + 1, hi);
    }
  }

  lemma {:induction false} LabelsSplit(lo: nat, mid: nat, hi: nat)
    requires lo <= mid <= hi
    ensures Labels(lo, hi) == Labels(lo, mid) + Labels(mid, hi)
    decreases mid - lo
  {
    if lo < mid {
      LabelsSplit(lo + 1, mid, hi);
    }
  }

  lemma LabelsOne(k: nat)
    ensures Labels(k, k + 1) == {LabelName(k)}
  {
  }

  lemma LabelsSub(lo: nat, hi: nat, lo2: nat, hi2: nat)
    requires lo <= lo2 <= hi2 <= hi
    ensures Labels(lo2, hi2) <= Labels(lo, hi)
  {
    LabelsSplit(lo, lo2, hi);
    LabelsSplit(lo2, hi2, hi);
  }

  /** Two consecutive pieces of code whose labels come from disjoint sets
      define no label twice. */
  lemma Join(s: LowerState, t: LowerState, u: LowerState, a: set<Text>, b: set<Text>)
    requires s.code <= t.code <= u.code && a !! b
    requires Defined(Emitted(s, t)) <= a && DistinctLabels(Emitted(s, t))
    requires Defined(Emitted(t, u)) <= b && DistinctLabels(Emitted(t, u))
    ensures Defined(Emitted(s, u)) <= a + b && DistinctLabels(Emitted(s, u))
  {
    CodeSplit(s, t, u);
  }

  lemma {:induction false} LabelsDisjoint(a: nat, b: nat, c: nat, d: nat)
    requires b <= c
    ensures Labels(a, b) !! Labels(c, d)
    decreases b - a
  {
    if a < b {
      LabelsMember(a, c, d);
      LabelsDisjoint(a + 1, b, c, d);
    }
  }
}
