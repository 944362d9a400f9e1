/** The two lookup tables of the code generator: arithmetic operator to
    x86-64 mnemonic, and comparison to conditional jump.  Each table is
    sorted by key and searched with a lower bound, as `std::lower_bound`
    does; a key that is not in the table yields the empty string. */
module AsmTables {
  import opened Strings

  /** `std::string_view`'s `<`: lexicographic order, bytes compared as
      unsigned values, a proper prefix before the longer string. */
  predicate Less(a: Text, b: Text)
    decreases |a|
  {
    if a == [] then b != []
    else if b == [] then false
    else if a[0] != b[0] then a[0] < b[0]
    else Less(a[1..], b[1..])
  }

  lemma {:induction false} LessIrreflexive(a: Text)
    ensures !Less(a, a)
    decreases |a|
  {
    if a != [] {
      LessIrreflexive(a[1..]);
    }
  }

  /** One `{key, val}` row of a table. */
  datatype Entry = Entry(key: Text, val: Text)

  /** Keys strictly increasing: the tables are sorted and have no duplicate key. */
  predicate Sorted(t: seq<Entry>) {
    forall i, j :: 0 <= i < j < |t| ==> Less(t[i].key, t[j].key)
  }

  /** The first position whose key is not below `k` (`|t|` if there is
      none): what `std::lower_bound` returns on a sorted table. */
  function LowerBound(t: seq<Entry>, k: Text): (r: nat)
    ensures r <= |t|
    ensures forall i :: 0 <= i < r ==> Less(t[i].key, k)
    ensures r < |t| ==> !Less(t[r].key, k)
    decreases |t|
  {
    if t == [] || !Less(t[0].key, k) then 0 else 1 + LowerBound(t[1..], k)
  }

  /** The value at the lower bound when its key is `k`, else the empty string. */
  function Lookup(t: seq<Entry>, k: Text): (r: Text)
    ensures r == [] || exists j :: 0 <= j < |t| && t[j].key == k && t[j].val == r
  {
    var i := LowerBound(t, k);
    if i < |t| && t[i].key == k then t[i].val else []
  }

  /** On a sorted table the lower-bound search finds a key wherever it is. */
  lemma LookupAt(t: seq<Entry>, k: Text, j: nat)
    requires Sorted(t) && j < |t| && t[j].key == k
    ensures Lookup(t, k) == t[j].val
  {
    var i := LowerBound(t, k);
    LessIrreflexive(k);
    if i < j {
      assert false;
    }
  }

  /** A key that is not in the table is found nowhere. */
  lemma LookupMissing(t: seq<Entry>, k: Text)
    requires forall j :: 0 <= j < |t| ==> t[j].key != k
    ensures Lookup(t, k) == []
  {
  }

  const OpTable: seq<Entry> := [Entry("*", "imul"), Entry("+", "add"), Entry("-", "sub"), Entry("/", "idiv")]

  const CmpTable: seq<Entry> :=
    [Entry("!=", "jne"), Entry("<", "jl"), Entry("<=", "jle"), Entry("==", "je"), Entry(">", "jg"), Entry(">=", "jge")]

  lemma OpTableSorted()
    ensures Sorted(OpTable)
  {
    assert Less("*", "+") && Less("*", "-") && Less("*", "/");
    assert Less("+", "-") && Less("+", "/") && Less("-", "/");
  }

  lemma CmpTableSorted()
    ensures Sorted(CmpTable)
  {
    assert Less("!=", "<") && Less("!=", "<=") && Less("!=", "==") && Less("!=", ">") && Less("!=", ">=");
    assert Less("<", "<=") && Less("<", "==") && Less("<", ">") && Less("<", ">=");
    assert Less("<=", "==") && Less("<=", ">") && Less("<=", ">=");
    assert Less("==", ">") && Less("==", ">=") && Less(">", ">=");
  }

  /** `op_to_asm`: the operator's entry in the operator table, if any. */
  function OpToAsm(op: Text): (r: Text)
    ensures r == [] || exists j :: 0 <= j < |OpTable| && OpTable[j].key == op && OpTable[j].val == r
  {
    Lookup(OpTable, op)
  }

  /** `cmp_to_jmp`: the comparison's entry in the jump table, if any. */
  function CmpToJmp(c: Text): (r: Text)
    ensures r == [] || exists j :: 0 <= j < |CmpTable| && CmpTable[j].key == c && CmpTable[j].val == r
  {
    Lookup(CmpTable, c)
  }

  /** `op_to_asm` maps the four arithmetic operators to their mnemonics
      and every other string to the empty string. */
  lemma OpToAsmMap(op: Text)
    ensures OpToAsm(op) == if op == "*" then "imul" else if op == "+" then "add" else if op == "-" then "sub"
                           else if op == "/" then "idiv" else ""
  {
    OpTableSorted();
    if op == "*" { LookupAt(OpTable, op, 0); }
    else if op == "+" { LookupAt(OpTable, op, 1); }
    else if op == "-" { LookupAt(OpTable, op, 2); }
    else if op == "/" { LookupAt(OpTable, op, 3); }
    else { LookupMissing(OpTable, op); }
  }

  /** `cmp_to_jmp` maps the six comparisons to their conditional jumps and
      every other string to the empty string, without an error. */
  lemma CmpToJmpMap(c: Text)
    ensures CmpToJmp(c) == if c == "!=" then "jne" else if c == "<" then "jl" else if c == "<=" then "jle"
                           else if c == "==" then "je" else if c == ">" then "jg" else if c == ">=" then "jge" else ""
  {
    CmpTableSorted();
    if c == "!=" { LookupAt(CmpTable, c, 0); }
    else if c == "<" { LookupAt(CmpTable, c, 1); }
    else if c == "<=" { LookupAt(CmpTable, c, 2); }
    else if c == "==" { LookupAt(CmpTable, c, 3); }
    else if c == ">" { LookupAt(CmpTable, c, 4); }
    else if c == ">=" { LookupAt(CmpTable, c, 5); }
    else { LookupMissing(CmpTable, c); }
  }
}
