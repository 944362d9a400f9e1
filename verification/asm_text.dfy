/** The assembly text the code generator writes, as functions of the IR,
    the two tables and the iteration orders of the tables.  The methods of
    `Codegen.CodeGenerator` are proved to append exactly these texts. */
module AsmText {
  import opened Strings
  import opened Ir
  import opened AsmTables

  // ---------------------------------------------------------------------
  // Fixed pieces of text

  const Newline: Text := "\n"
  const Tab: Text := "\t"
  const Space: Text := " "
  const Colon: Text := ":"
  const Open: Text := "["
  const Close: Text := "]"
  const MovRax: Text := "\tmov rax, "
  const MovRbx: Text := "\tmov rbx, "
  const MovRdi: Text := "\tmov rdi, "
  const MovRdiLoad: Text := "\tmov rdi, ["
  const LeaRel: Text := "\tlea rax, [rel "
  const Mov: Text := "\tmov "
  const FromRax: Text := ", rax"
  const Cqo: Text := "\tcqo"
  const IdivRbx: Text := "\tidiv rbx"
  const RaxRbx: Text := " rax, rbx"
  const Jmp: Text := "\tjmp "
  const CmpRax: Text := "\tcmp rax, "
  const CallPrintNum: Text := "\tcall print_num"
  const CallPrintString: Text := "\tcall print_string"
  const SectionBss: Text := "section .bss"
  const Resb8: Text := " resb 8"
  const SectionData: Text := "section .data"
  const Db: Text := " db "
  const CommaSpace: Text := ", "
  const NewlineNul: Text := "10, 0"

  /** The print buffer, declared only when `print_num` is emitted. */
  const DigitSpaceDecl: Text :=
    AsText("\tdigitSpace resb 100\n") +
    AsText("\tdigitSpacePos resb 8\n") +
    AsText("\n")

  /** The start of the code section and the program entry point. */
  const TextHeader: Text :=
    AsText("section .text\n") +
    AsText("\tglobal _start\n") +
    AsText("\n") +
    AsText("_start:\n")

  /** `exit(0)` through the Linux system call. */
  const ExitSequence: Text :=
    AsText("\tmov rax, 60      ; __NR_exit\n") +
    AsText("\tmov rdi, 0       ; status\n") +
    AsText("\tsyscall\n") +
    AsText("\n")

  /** The routine that prints `rdi` as a signed decimal and a newline. */
  const PrintNumRoutine: Text :=
    AsText("\n") +
    AsText("print_num:\n") +
    AsText("    mov rcx, digitSpace       ; buffer start\n") +
    AsText("    mov rbx, 10\n") +
    AsText("    mov rax, rdi              ; number\n") +
    AsText("\n") +
    AsText("    ; handle negative\n") +
    AsText("    cmp rax, 0\n") +
    AsText("    jge .loop\n") +
    AsText("    neg rax\n") +
    AsText("    mov byte [rcx], \'-\'\n") +
    AsText("    inc rcx\n") +
    AsText("\n") +
    AsText(".loop:\n") +
    AsText("    xor rdx, rdx\n") +
    AsText("    div rbx                   ; rax = rax/10, rdx = rax%10\n") +
    AsText("    add dl, \'0\'\n") +
    AsText("    mov [rcx], dl\n") +
    AsText("    inc rcx\n") +
    AsText("    test rax, rax\n") +
    AsText("    jnz .loop\n") +
    AsText("\n") +
    AsText("    ; rcx now points one past last char\n") +
    AsText("    ; reverse-print\n") +
    AsText("    mov rsi, rcx              ; rsi = end\n") +
    AsText("    dec rsi                   ; last digit\n") +
    AsText("    mov rdx, 1                ; write 1 byte at a time\n") +
    AsText("\n") +
    AsText(".rev_loop:\n") +
    AsText("    mov rax, 1                ; write\n") +
    AsText("    mov rdi, 1                ; stdout\n") +
    AsText("    syscall\n") +
    AsText("    dec rsi\n") +
    AsText("    cmp rsi, digitSpace\n") +
    AsText("    jl .newline\n") +
    AsText("    jmp .rev_loop\n") +
    AsText("\n") +
    AsText(".newline:\n") +
    AsText("    mov byte [digitSpacePos], 10\n") +
    AsText("    mov rax, 1\n") +
    AsText("    mov rdi, 1\n") +
    AsText("    mov rsi, digitSpacePos\n") +
    AsText("    mov rdx, 1\n") +
    AsText("    syscall\n") +
    AsText("    ret")

  /** The routine that prints the NUL-terminated string at `rdi`. */
  const PrintStringRoutine: Text :=
    AsText("\n") +
    AsText("print_string:\n") +
    AsText("    ; rdi = char*\n") +
    AsText("    mov rsi, rdi\n") +
    AsText("    xor rdx, rdx\n") +
    AsText("\n") +
    AsText(".len_loop:\n") +
    AsText("    cmp byte [rsi + rdx], 0\n") +
    AsText("    je .write\n") +
    AsText("    inc rdx\n") +
    AsText("    jmp .len_loop\n") +
    AsText("\n") +
    AsText(".write:\n") +
    AsText("    mov rax, 1      ; sys_write\n") +
    AsText("    mov rdi, 1      ; stdout\n") +
    AsText("    syscall\n") +
    AsText("    ret")

  /** What `pr` appends: the text and one line break. */
  function Line(s: Text): Text {
    s + Newline
  }

  // ---------------------------------------------------------------------
  // Operands

  /** `s[i]` of a `std::string`, where index `|s|` reads the terminating '\0'. */
  function CharAt(s: Text, i: nat): Char8
    requires i <= |s|
  {
    if i < |s| then s[i] else '\0'
  }

  /** Text that starts like an integer literal: a digit, or '-' and a digit. */
  predicate IsImmediate(a: Text) {
    (|a| >= 1 && IsDigit(a[0])) || (|a| >= 2 && a[0] == '-' && IsDigit(a[1]))
  }

  /** `handleVar`: an integer literal is an immediate operand and is used as
      it is; any other name is a variable, addressed as `[name]`. */
  function HandleVar(a: Text): (r: Text)
    ensures IsImmediate(a) ==> r == a
    ensures !IsImmediate(a) ==> r == Open + a + Close
  {
    if IsDigit(CharAt(a, 0)) || (CharAt(a, 0) == '-' && IsDigit(CharAt(a, 1))) then a else Open + a + Close
  }

  /** The literals the lowering passes through stay immediates; a name
      starting with a letter or '_', as identifiers and the generated
      `T`, `L` and `S` names do, becomes a memory operand. */
  lemma HandleVarOperands(n: nat, x: Text)
    requires |x| >= 1 && ('A' <= x[0] <= 'Z' || 'a' <= x[0] <= 'z' || x[0] == '_')
    ensures HandleVar(Decimal(n)) == Decimal(n)
    ensures HandleVar("-" + Decimal(n)) == "-" + Decimal(n)
    ensures HandleVar(x) == "[" + x + "]"
  {
    assert ("-" + Decimal(n))[1] == Decimal(n)[0];
  }

  /** Only the first two characters decide the operand kind. */
  lemma HandleVarPrefix(a: Text, b: Text)
    requires |a| >= 2 && |b| >= 2 && a[..2] == b[..2]
    ensures (HandleVar(a) == a) <==> (HandleVar(b) == b)
  {
    assert a[0] == a[..2][0] && a[1] == a[..2][1];
    assert b[0] == b[..2][0] && b[1] == b[..2][1];
    assert |Open + a + Close| != |a| && |Open + b + Close| != |b|;
  }

  /** Different names never share an operand. */
  lemma HandleVarInjective(a: Text, b: Text)
    requires HandleVar(a) == HandleVar(b)
    ensures a == b
  {
    var ra := HandleVar(a);
    if IsImmediate(a) != IsImmediate(b) {
      assert false;
    } else if !IsImmediate(a) {
      assert a == ra[1..|ra| - 1];
      assert b == HandleVar(b)[1..|ra| - 1];
    }
  }

  // ---------------------------------------------------------------------
  // One IR instruction

  // Each function below is the output stream `o` after one generator
  // step has written to it; `pr(s)` appends `Line(s)`.

  /** `gen_assignment`: a plain copy loads the source (the address of a
      string literal's symbol, otherwise the operand) and stores it; an
      operation loads the left operand, combines the right one into it
      (division through `cqo` and `idiv`) and stores the result. */
  function AssignOut(o: Text, dest: Text, left: Text, op: Text, right: Text, consts: map<Text, Text>): Text {
    var loaded := o + Line(if op == [] && left in consts then LeaRel + left + Close else MovRax + HandleVar(left));
    var combined :=
      if op == [] then loaded
      else if op == "/" then loaded + Line(Cqo) + Line(MovRbx + HandleVar(right)) + Line(IdivRbx)
      else loaded + Line(MovRbx + HandleVar(right)) + Line(Tab + OpToAsm(op) + RaxRbx);
    combined + Line(Mov + HandleVar(dest) + FromRax)
  }

  /** `gen_compare`: load, compare, then the conditional jump. */
  function CompareOut(o: Text, left: Text, operation: Text, right: Text, jump: Text): Text {
    o + Line(MovRax + HandleVar(left)) + Line(CmpRax + HandleVar(right)) + Line(Tab + CmpToJmp(operation) + Space + jump)
  }

  /** `gen_print`: an "int" goes to `print_num` as an operand; a string
      goes to `print_string` as the symbol's address when it is a
      literal, and as the pointer stored in the variable otherwise. */
  function PrintOut(o: Text, kind: Text, value: Text, consts: map<Text, Text>): Text {
    if kind == "int" then o + Line(MovRdi + HandleVar(value)) + Line(CallPrintNum)
    else o + Line(if value in consts then MovRdi + value else MovRdiLoad + value + Close) + Line(CallPrintString)
  }

  /** One instruction, dispatched on its kind. */
  function InstrOut(o: Text, i: Instr, consts: map<Text, Text>): Text {
    match i
    case AssignCode(dest, left, op, right) => AssignOut(o, dest, left, op, right, consts)
    case JumpCode(dist) => o + Line(Jmp + dist)
    case LabelCode(name) => o + Line(name + Colon)
    case CompareCode(left, operation, right, jump) => CompareOut(o, left, operation, right, jump)
    case PrintCode(kind, value) => PrintOut(o, kind, value, consts)
  }

  // ---------------------------------------------------------------------
  // Constant lines of the data section

  /** Each byte of a literal in decimal, followed by ", ". */
  function DbOperands(s: Text): Text
    decreases |s|
  {
    if s == [] then [] else Decimal(s[0] as nat) + CommaSpace + DbOperands(s[1..])
  }

  /** The line of one string constant, without its line break: the
      symbol, `db`, the bytes of the literal, then a newline byte and the
      terminating NUL. */
  function ConstLine(sym: Text, lit: Text): Text {
    Tab + sym + Db + DbOperands(lit) + NewlineNul
  }

  /** The length of the run of digits `t` starts with. */
  function DigitRun(t: Text): (n: nat)
    ensures n <= |t|
    decreases |t|
  {
    if t != [] && IsDigit(t[0]) then 1 + DigitRun(t[1..]) else 0
  }

  /** Reads a list of decimal numbers separated by ", ", as an assembler
      reads the operands of `db`. */
  function ParseOperands(t: Text): seq<nat>
    decreases |t|
  {
    var d := DigitRun(t);
    if d + 2 <= |t| && t[d..d + 2] == CommaSpace then [ParseDecimal(t[..d])] + ParseOperands(t[d + 2..])
    else [ParseDecimal(t[..d])]
  }

  /** The byte values of a text. */
  function ByteValues(s: Text): seq<nat> {
    seq(|s|, i requires 0 <= i < |s| => s[i] as nat)
  }

  lemma {:induction false} DigitRunOf(a: Text, b: Text)
    requires AllDigits(a) && (b == [] || !IsDigit(b[0]))
    ensures DigitRun(a + b) == |a|
    decreases |a|
  {
    if a != [] {
      assert (a + b)[1..] == a[1..] + b;
      DigitRunOf(a[1..], b);
    }
  }

  /** The terminator reads as the two numbers 10 and 0. */
  lemma TerminatorOperands()
    ensures ParseOperands(NewlineNul) == [10, 0]
  {
    assert DigitRun(NewlineNul) == 2;
    assert NewlineNul[..2] == "10" && NewlineNul[2..4] == CommaSpace && NewlineNul[4..] == "0";
    assert DigitRun("0") == 1;
    assert ParseDecimal("10") == 10;
  }

  /** A run of digits and ", " read off the front. */
  lemma ParseOperandsStep(d: Text, rest: Text)
    requires AllDigits(d)
    ensures ParseOperands(d + CommaSpace + rest) == [ParseDecimal(d)] + ParseOperands(rest)
  {
    var t := d + CommaSpace + rest;
    assert t == d + (CommaSpace + rest);
    DigitRunOf(d, CommaSpace + rest);
    assert t[|d|..|d| + 2] == CommaSpace && t[..|d|] == d && t[|d| + 2..] == rest;
  }

  /** The inductive step of `ConstOperandsRoundTrip`, on the pieces alone. */
  lemma RoundTripStep(s: Text, d: Text, rest: Text)
    requires s != [] && AllDigits(d) && ParseDecimal(d) == s[0] as nat
    requires ParseOperands(rest) == ByteValues(s[1..]) + [10, 0]
    ensures ParseOperands(d + CommaSpace + rest) == ByteValues(s) + [10, 0]
  {
    ParseOperandsStep(d, rest);
    assert ByteValues(s) == [s[0] as nat] + ByteValues(s[1..]);
  }

  /** The operands of a constant line are exactly the bytes of the
      literal, then 10 and 0: the data section stores each literal
      unchanged, newline-terminated and NUL-terminated. */
  lemma {:induction false} ConstOperandsRoundTrip(s: Text)
    ensures ParseOperands(DbOperands(s) + NewlineNul) == ByteValues(s) + [10, 0]
    decreases |s|
  {
    if s == [] {
      TerminatorOperands();
      assert DbOperands(s) + NewlineNul == NewlineNul;
      assert ByteValues(s) + [10, 0] == [10, 0];
    } else {
      var d := Decimal(s[0] as nat);
      var rest := DbOperands(s[1..]) + NewlineNul;
      assert DbOperands(s) + NewlineNul == d + CommaSpace + rest;
      ParseDecimalOfDecimal(s[0] as nat);
      ConstOperandsRoundTrip(s[1..]);
      RoundTripStep(s, d, rest);
    }
  }

  /** `DbOperands` grows at the end as the byte loop of `gen_start` does. */
  lemma {:induction false} DbOperandsAppend(s: Text, c: Char8)
    ensures DbOperands(s + [c]) == DbOperands(s) + Decimal(c as nat) + CommaSpace
    decreases |s|
  {
    if s != [] {
      assert (s + [c])[1..] == s[1..] + [c];
      DbOperandsAppend(s[1..], c);
    }
  }
  /** One more byte on a partly built constant line. */
  lemma DbOperandsStep(p: Text, s: Text, c: Char8)
    ensures p + DbOperands(s) + Decimal(c as nat) + CommaSpace == p + DbOperands(s + [c])
  {
    DbOperandsAppend(s, c);
  }


  // ---------------------------------------------------------------------
  // Sections

  /** `order` lists every key of `keys` exactly once: the iteration order
      of an `unordered_map`, which the C++ code leaves unspecified. */
  predicate Enumerates(order: seq<Text>, keys: set<Text>) {
    (forall i, j :: 0 <= i < j < |order| ==> order[i] != order[j]) &&
    (forall x :: x in order ==> x in keys) && (forall x :: x in keys ==> x in order)
  }

  /** Every finite set of keys has an iteration order. */
  lemma EnumerationExists(keys: set<Text>)
    ensures exists order :: Enumerates(order, keys)
    decreases |keys|
  {
    if keys == {} {
      assert Enumerates([], keys);
    } else {
      var x :| x in keys;
      EnumerationExists(keys - {x});
      var order :| Enumerates(order, keys - {x});
      assert Enumerates([x] + order, keys);
    }
  }

  /** One `resb 8` line per identifier, in iteration order. */
  function SlotsOut(o: Text, order: seq<Text>): Text
    decreases |order|
  {
    if order == [] then o else SlotsOut(o, order[..|order| - 1]) + Line(Tab + order[|order| - 1] + Resb8)
  }

  /** `gen_variables`: the header, the print buffer when `print_num` is
      needed, and one 8-byte slot per identifier. */
  function BssOut(o: Text, needPrintNum: bool, idOrder: seq<Text>): Text {
    var head := o + Line(SectionBss);
    SlotsOut(if needPrintNum then head + Line(DigitSpaceDecl) else head, idOrder)
  }

  /** One constant line per symbol, in iteration order. */
  function DataOut(o: Text, order: seq<Text>, consts: map<Text, Text>): Text
    requires forall i :: 0 <= i < |order| ==> order[i] in consts
    decreases |order|
  {
    if order == [] then o
    else DataOut(o, order[..|order| - 1], consts) + Line(ConstLine(order[|order| - 1], consts[order[|order| - 1]]))
  }

  /** `gen_start`: the data section, then the code section's header. */
  function StartOut(o: Text, constOrder: seq<Text>, consts: map<Text, Text>): Text
    requires forall i :: 0 <= i < |constOrder| ==> constOrder[i] in consts
  {
    DataOut(o + Line(SectionData), constOrder, consts) + Line(TextHeader)
  }

  /** `gen_code`: the instructions in IR order. */
  function CodeOut(o: Text, code: seq<Instr>, consts: map<Text, Text>): Text
    decreases |code|
  {
    if code == [] then o else InstrOut(CodeOut(o, code[..|code| - 1], consts), code[|code| - 1], consts)
  }

  /** An instruction's text does not depend on what the stream already
      holds: the step only appends. */
  lemma InstrOutAppends(o: Text, i: Instr, consts: map<Text, Text>)
    ensures InstrOut(o, i, consts) == o + InstrOut([], i, consts)
  {
    match i
    case AssignCode(dest, left, op, right) =>
      var load := Line(if op == [] && left in consts then LeaRel + left + Close else MovRax + HandleVar(left));
      var store := Line(Mov + HandleVar(dest) + FromRax);
      assert [] + load == load;
      if op == [] {
        AppendAssoc(o, load, store);
      } else if op == "/" {
        var c1, c2, c3 := Line(Cqo), Line(MovRbx + HandleVar(right)), Line(IdivRbx);
        AppendAssoc(o, load, c1);
        AppendAssoc(o, load + c1, c2);
        AppendAssoc(o, load + c1 + c2, c3);
        AppendAssoc(o, load + c1 + c2 + c3, store);
      } else {
        var c1, c2 := Line(MovRbx + HandleVar(right)), Line(Tab + OpToAsm(op) + RaxRbx);
        AppendAssoc(o, load, c1);
        AppendAssoc(o, load + c1, c2);
        AppendAssoc(o, load + c1 + c2, store);
      }
    case JumpCode(dist) =>
    case LabelCode(name) =>
    case CompareCode(left, operation, right, jump) =>
      var l1, l2, l3 := Line(MovRax + HandleVar(left)), Line(CmpRax + HandleVar(right)), Line(Tab + CmpToJmp(operation) + Space + jump);
      assert [] + l1 == l1;
      AppendAssoc(o, l1, l2);
      AppendAssoc(o, l1 + l2, l3);
    case PrintCode(kind, value) =>
      var l1 := if kind == "int" then Line(MovRdi + HandleVar(value))
                else Line(if value in consts then MovRdi + value else MovRdiLoad + value + Close);
      var l2 := if kind == "int" then Line(CallPrintNum) else Line(CallPrintString);
      assert [] + l1 == l1;
      AppendAssoc(o, l1, l2);
  }

  /** `gen_code` only appends, and what it appends is the same whatever
      the stream held before. */
  lemma {:induction false} CodeOutAppends(o: Text, code: seq<Instr>, consts: map<Text, Text>)
    ensures CodeOut(o, code, consts) == o + CodeOut([], code, consts)
    decreases |code|
  {
    if code != [] {
      var init, last := code[..|code| - 1], code[|code| - 1];
      CodeOutAppends(o, init, consts);
      var before := CodeOut([], init, consts);
      InstrOutAppends(o + before, last, consts);
      InstrOutAppends(before, last, consts);
      AppendAssoc(o, before, InstrOut([], last, consts));
    }
  }

  /** Some instruction prints an integer (any kind other than "string"). */
  predicate NeedsPrintNum(code: seq<Instr>) {
    exists i :: 0 <= i < |code| && code[i].PrintCode? && code[i].kind != "string"
  }

  /** Some instruction prints a string. */
  predicate NeedsPrintString(code: seq<Instr>) {
    exists i :: 0 <= i < |code| && code[i].PrintCode? && code[i].kind == "string"
  }

  /** How the two predicates grow by one instruction, as the pre-scan of
      `writeAsm` reads the IR. */
  lemma NeedsStep(code: seq<Instr>, i: nat)
    requires i < |code|
    ensures NeedsPrintNum(code[..i + 1]) <==>
            NeedsPrintNum(code[..i]) || (code[i].PrintCode? && code[i].kind != "string")
    ensures NeedsPrintString(code[..i + 1]) <==>
            NeedsPrintString(code[..i]) || (code[i].PrintCode? && code[i].kind == "string")
  {
    var p, q := code[..i], code[..i + 1];
    assert forall j :: 0 <= j < i ==> q[j] == p[j];
    assert q[i] == code[i];
  }

  /** `gen_variables` only appends. */
  lemma {:induction false} SlotsOutAppends(o: Text, order: seq<Text>)
    ensures SlotsOut(o, order) == o + SlotsOut([], order)
    decreases |order|
  {
    if order != [] {
      var init := order[..|order| - 1];
      SlotsOutAppends(o, init);
      AppendAssoc(o, SlotsOut([], init), Line(Tab + order[|order| - 1] + Resb8));
    }
  }

  /** The constant lines only append. */
  lemma {:induction false} DataOutAppends(o: Text, order: seq<Text>, consts: map<Text, Text>)
    requires forall i :: 0 <= i < |order| ==> order[i] in consts
    ensures DataOut(o, order, consts) == o + DataOut([], order, consts)
    decreases |order|
  {
    if order != [] {
      var init, last := order[..|order| - 1], order[|order| - 1];
      DataOutAppends(o, init, consts);
      AppendAssoc(o, DataOut([], init, consts), Line(ConstLine(last, consts[last])));
    }
  }

  /** The texts of the two helper routines. */
  datatype Routines = Routines(printNum: Text, printString: Text)

  /** The routines the generator appends: `print_num` and `print_string`. */
  const HelperRoutines: Routines := Routines(PrintNumRoutine, PrintStringRoutine)

  /** The helper routines that follow the exit sequence, each once. */
  function HelpersOut(o: Text, needPrintNum: bool, needPrintString: bool, routines: Routines): Text {
    var withNum := if needPrintNum then o + Line(routines.printNum) else o;
    if needPrintString then withNum + Line(routines.printString) else withNum
  }

  /** The whole file `writeAsm` writes: .bss, .data, the code section with
      the instructions, the exit sequence, then each helper routine that
      some print needs (`routines` being `HelperRoutines`). */
  function AsmOutput(code: seq<Instr>, idOrder: seq<Text>, constOrder: seq<Text>, consts: map<Text, Text>,
                     routines: Routines): Text
    requires forall i :: 0 <= i < |constOrder| ==> constOrder[i] in consts
  {
    var beforeCode := StartOut(BssOut([], NeedsPrintNum(code), idOrder), constOrder, consts);
    var ended := CodeOut(beforeCode, code, consts) + Line(ExitSequence);
    HelpersOut(ended, NeedsPrintNum(code), NeedsPrintString(code), routines)
  }

  /** The file is its sections laid end to end, in the fixed order .bss,
      .data with the code header, the instructions, the exit sequence and
      the helper routines; each section's text depends only on its own
      inputs and not on what precedes it. */
  lemma AsmOutputSections(code: seq<Instr>, idOrder: seq<Text>, constOrder: seq<Text>, consts: map<Text, Text>,
                          routines: Routines)
    requires forall i :: 0 <= i < |constOrder| ==> constOrder[i] in consts
    ensures AsmOutput(code, idOrder, constOrder, consts, routines) ==
            BssOut([], NeedsPrintNum(code), idOrder) + StartOut([], constOrder, consts) + CodeOut([], code, consts) +
            Line(ExitSequence) + HelpersOut([], NeedsPrintNum(code), NeedsPrintString(code), routines)
  {
    var bss := BssOut([], NeedsPrintNum(code), idOrder);
    var data := DataOut([], constOrder, consts);
    DataOutAppends(bss + Line(SectionData), constOrder, consts);
    DataOutAppends(Line(SectionData), constOrder, consts);
    assert [] + Line(SectionData) == Line(SectionData);
    AppendAssoc(bss, Line(SectionData), data);
    AppendAssoc(bss, Line(SectionData) + data, Line(TextHeader));
    var start := StartOut([], constOrder, consts);
    assert StartOut(bss, constOrder, consts) == bss + start;
    var body := CodeOut([], code, consts);
    CodeOutAppends(bss + start, code, consts);
    var ended := bss + start + body + Line(ExitSequence);
    var helpers := HelpersOut([], NeedsPrintNum(code), NeedsPrintString(code), routines);
    if NeedsPrintNum(code) {
      assert [] + Line(routines.printNum) == Line(routines.printNum);
      if NeedsPrintString(code) {
        AppendAssoc(ended, Line(routines.printNum), Line(routines.printString));
      }
    } else if NeedsPrintString(code) {
      assert [] + Line(routines.printString) == Line(routines.printString);
    }
    assert HelpersOut(ended, NeedsPrintNum(code), NeedsPrintString(code), routines) == ended + helpers;
  }

  // ---------------------------------------------------------------------
  // Line counts

  /** The number of lines a text holds: its line breaks. */
  function LineCount(t: Text): nat {
    multiset(t)['\n']
  }

  /** Text without a line break, as every name and token of the IR is. */
  predicate OneLine(t: Text) {
    '\n' !in t
  }

  /** `pr` of a text without a line break adds exactly one line. */
  lemma AddLine(t: Text, s: Text)
    requires OneLine(s)
    ensures LineCount(t + Line(s)) == LineCount(t) + 1
  {
    assert multiset(t + Line(s)) == multiset(t) + multiset(s) + multiset(Newline);
  }

  /** The fixed pieces the instruction lines are built from. */
  lemma FixedOneLine()
    ensures OneLine(MovRax) && OneLine(MovRbx) && OneLine(MovRdi) && OneLine(MovRdiLoad) && OneLine(LeaRel)
    ensures OneLine(Mov) && OneLine(FromRax) && OneLine(Cqo) && OneLine(IdivRbx) && OneLine(RaxRbx)
    ensures OneLine(Jmp) && OneLine(CmpRax) && OneLine(CallPrintNum) && OneLine(CallPrintString)
    ensures OneLine(Tab) && OneLine(Space) && OneLine(Colon) && OneLine(Open) && OneLine(Close)
    ensures OneLine(Db) && OneLine(NewlineNul)
  {
  }

  /** An operand stays on one line. */
  lemma HandleVarOneLine(a: Text)
    requires OneLine(a)
    ensures OneLine(HandleVar(a))
  {
    FixedOneLine();
  }

  /** The operands of `db` stay on one line. */
  lemma {:induction false} DbOperandsOneLine(s: Text)
    ensures OneLine(DbOperands(s))
    decreases |s|
  {
    if s != [] {
      DbOperandsOneLine(s[1..]);
      var d := Decimal(s[0] as nat);
      assert forall k :: 0 <= k < |d| ==> IsDigit(d[k]);
      assert '\n' !in d;
    }
  }

  /** Each string constant takes exactly one line of the data section. */
  lemma ConstLineCount(o: Text, sym: Text, lit: Text)
    requires OneLine(sym)
    ensures LineCount(o + Line(ConstLine(sym, lit))) == LineCount(o) + 1
  {
    FixedOneLine();
    DbOperandsOneLine(lit);
    AddLine(o, ConstLine(sym, lit));
  }

  /** The texts of an instruction have no line break. */
  predicate InstrOneLine(i: Instr) {
    match i
    case AssignCode(dest, left, op, right) => OneLine(dest) && OneLine(left) && OneLine(op) && OneLine(right)
    case JumpCode(dist) => OneLine(dist)
    case LabelCode(name) => OneLine(name)
    case CompareCode(left, operation, right, jump) => OneLine(left) && OneLine(operation) && OneLine(right) && OneLine(jump)
    case PrintCode(kind, value) => OneLine(kind) && OneLine(value)
  }

  /** What an operation writes between the load and the store: the
      right operand and the combining instruction, after `cqo` for a
      division. */
  lemma CombineLines(loaded: Text, op: Text, right: Text)
    requires op != [] && OneLine(right)
    ensures LineCount(if op == "/" then loaded + Line(Cqo) + Line(MovRbx + HandleVar(right)) + Line(IdivRbx)
                      else loaded + Line(MovRbx + HandleVar(right)) + Line(Tab + OpToAsm(op) + RaxRbx)) ==
            LineCount(loaded) + if op == "/" then 3 else 2
  {
    FixedOneLine();
    HandleVarOneLine(right);
    var r := MovRbx + HandleVar(right);
    if op == "/" {
      AddLine(loaded, Cqo);
      AddLine(loaded + Line(Cqo), r);
      AddLine(loaded + Line(Cqo) + Line(r), IdivRbx);
    } else {
      OpToAsmMap(op);
      assert OneLine(OpToAsm(op));
      AddLine(loaded, r);
      AddLine(loaded + Line(r), Tab + OpToAsm(op) + RaxRbx);
    }
  }

  /** A plain copy is two lines (load, store), an operation four (load,
      load the right operand, combine, store) and a division five (the
      sign extension `cqo` comes first). */
  lemma AssignLines(o: Text, dest: Text, left: Text, op: Text, right: Text, consts: map<Text, Text>)
    requires OneLine(dest) && OneLine(left) && OneLine(right)
    ensures LineCount(AssignOut(o, dest, left, op, right, consts)) ==
            LineCount(o) + if op == [] then 2 else if op == "/" then 5 else 4
  {
    FixedOneLine();
    HandleVarOneLine(left);
    HandleVarOneLine(dest);
    var load := if op == [] && left in consts then LeaRel + left + Close else MovRax + HandleVar(left);
    var loaded := o + Line(load);
    AddLine(o, load);
    var combined :=
      if op == [] then loaded
      else if op == "/" then loaded + Line(Cqo) + Line(MovRbx + HandleVar(right)) + Line(IdivRbx)
      else loaded + Line(MovRbx + HandleVar(right)) + Line(Tab + OpToAsm(op) + RaxRbx);
    if op != [] {
      CombineLines(loaded, op, right);
    }
    AddLine(combined, Mov + HandleVar(dest) + FromRax);
  }

  /** `gen_compare` writes exactly three lines, whatever the comparison. */
  lemma CompareLines(o: Text, left: Text, operation: Text, right: Text, jump: Text)
    requires OneLine(left) && OneLine(right) && OneLine(jump)
    ensures LineCount(CompareOut(o, left, operation, right, jump)) == LineCount(o) + 3
  {
    FixedOneLine();
    HandleVarOneLine(left);
    HandleVarOneLine(right);
    CmpToJmpMap(operation);
    assert OneLine(CmpToJmp(operation));
    var l1, l2 := MovRax + HandleVar(left), CmpRax + HandleVar(right);
    AddLine(o, l1);
    AddLine(o + Line(l1), l2);
    AddLine(o + Line(l1) + Line(l2), Tab + CmpToJmp(operation) + Space + jump);
  }

  /** A print is two lines: the argument, then the call. */
  lemma PrintLines(o: Text, kind: Text, value: Text, consts: map<Text, Text>)
    requires OneLine(value)
    ensures LineCount(PrintOut(o, kind, value, consts)) == LineCount(o) + 2
  {
    FixedOneLine();
    HandleVarOneLine(value);
    var l1 := if kind == "int" then MovRdi + HandleVar(value)
              else if value in consts then MovRdi + value else MovRdiLoad + value + Close;
    AddLine(o, l1);
    AddLine(o + Line(l1), if kind == "int" then CallPrintNum else CallPrintString);
  }

  /** How many lines each instruction adds: a jump or a label one, a
      print two, a comparison three, an assignment two, four or five. */
  lemma InstrLines(o: Text, i: Instr, consts: map<Text, Text>)
    requires InstrOneLine(i)
    ensures LineCount(InstrOut(o, i, consts)) == LineCount(o) +
            match i
            case AssignCode(_, _, op, _) => if op == [] then 2 else if op == "/" then 5 else 4
            case JumpCode(_) => 1
            case LabelCode(_) => 1
            case CompareCode(_, _, _, _) => 3
            case PrintCode(_, _) => 2
  {
    FixedOneLine();
    match i
    case AssignCode(dest, left, op, right) => AssignLines(o, dest, left, op, right, consts);
    case JumpCode(dist) => AddLine(o, Jmp + dist);
    case LabelCode(name) => AddLine(o, name + Colon);
    case CompareCode(left, operation, right, jump) => CompareLines(o, left, operation, right, jump);
    case PrintCode(kind, value) => PrintLines(o, kind, value, consts);
  }
}
