# PseudoCompiler backend, modelled in Dafny

PseudoCompiler compiles a small imperative language to x86-64 NASM assembly. This project models
its two backend passes and proves properties of them.

- **IR lowering** (`IntermediateCodeGen`, src/ir.cpp). The pass walks the program tree and appends
  three-address instructions (assignment, jump, label, compare, print) to an instruction list.
  It fills two tables:
  - `identifiers`: name to "int" or "string";
  - `constants`: string symbol to literal text.

  It draws fresh names `T<n>`, `L<n>` and `S<n>` from three counters that start at 1. `if` and
  `while` become compare, jump and label sequences of a fixed shape. A declaration with an
  initialiser and more than one name throws.
- **Code generator** (`CodeGenerator`, src/codegen.cpp). It turns the instruction list and the two
  tables into one text buffer, in this order:
  - a `.bss` section with one slot per identifier;
  - a `.data` section with one `db` line per string constant, bytes written in decimal;
  - the code section with one group of lines per instruction;
  - the exit system call;
  - the `print_num` and `print_string` routines, each present only when some print needs it.

Modules:

- `Strings`: bytes as text, decimal numerals and their parser.
- `Ast`: the program tree as one datatype.
- `Ir`: the instruction datatype and the instruction list class `InterCodeArray`.
- `IrLowering`: the lowering, in two forms.
  - Pure functions over a `LowerState` (instruction list, two tables, three counters) state what
    each construct does.
  - The class `IntermediateCodeGen` has the C++ fields and one method per C++ method. Each method
    is proved to leave exactly the state the matching function describes.
- `LoweringProperties`, `LoweringTables`, `LoweringShapes`, `LoweringLabels`, `LoweringFlow`:
  lemmas about the lowering functions.
  - Names are fresh.
  - Each construct emits a fixed shape.
  - The tables evolve in a known way.
  - Labels are defined once.
  - Every jump target is defined.
- `AsmTables`: the two sorted lookup tables, `op_to_asm` and `cmp_to_jmp`.
- `AsmText`: the emitted text.
  - Each generator step is a function from the output stream before the step to the stream after it.
  - Lemmas cover operand resolution, the `db` round trip, line counts and the section layout.
- `Codegen`: the class `CodeGenerator` with the C++ fields (`out`, the two flags, the tables).
  - Each of its methods is proved to produce the text `AsmText` describes.
  - `AppendU8` is the byte-to-decimal routine.

The C++ code and its comments disagree in a few places. The model follows the code:

- `cmp_to_jmp` yields the empty string for an unknown comparison, with no error.
- `while` draws four label numbers, one of which is never emitted.
- A declaration registers its types before it throws.
- A user variable spelled like a temporary (`T1`) shares storage with that temporary. Nothing
  separates the two name spaces, and the model keeps that.

## Model

| member | source | states |
|---|---|---|
| Strings.Decimal | src/codegen.cpp:100-112 | the decimal numeral of a number: at least one digit, digits only |
| Strings.DecimalShape | src/codegen.cpp:100-112 | no leading zero; one digit exactly below 10; at most three digits below 1000 |
| Strings.ParseDecimalOfDecimal | src/codegen.cpp:100-112 | reading the numeral back as decimal gives the number |
| Strings.DecimalOfParseDecimal | src/codegen.cpp:100-112 | a digit string without a leading zero is the numeral of its value |
| Strings.DecimalInjective | src/ir.cpp:69-75 | different numbers have different numerals |
| Ir.InterCodeArray.constructor | include/ir.hpp:53-57 | a new instruction list is empty |
| Ir.InterCodeArray.Append | include/ir.hpp:56 | the element goes at the end; every earlier entry and their order are unchanged |
| IrLowering.LowerExpr | src/ir.cpp:77-113 | lowering an expression only appends, and only assignments; it never draws a label |
| IrLowering.LowerCondition | src/ir.cpp:123-133 | returns the next label, draws exactly one label, and its last instruction is the compare |
| IrLowering.Register | src/ir.cpp:203-212 | after the declaration loop, the keys are the old keys plus the names; every name has the declared type, overwriting; other entries are kept |
| IrLowering.LowerStmtOpt | src/ir.cpp:251-262 | a null statement completes and changes nothing; otherwise lowering only appends code, and no counter goes back |
| IrLowering.LowerStmt | src/ir.cpp:226-249 | statement dispatch only appends code, and no counter goes back |
| IrLowering.LowerIf | src/ir.cpp:135-156 | an `if` only appends code, and no counter goes back |
| IrLowering.LowerWhile | src/ir.cpp:158-181 | a `while` only appends code, and no counter goes back |
| IrLowering.LowerPrint | src/ir.cpp:184-201 | a print only appends code, and draws no label |
| IrLowering.LowerAssignment | src/ir.cpp:115-121 | an assignment only appends code, and draws no label |
| IrLowering.LowerDeclaration | src/ir.cpp:203-219 | a declaration only appends code, and draws no label |
| IrLowering.IntermediateCodeGen.constructor | include/ir.hpp:122-129 | a new lowering has no code, empty tables and all three counters at 1 |
| IrLowering.IntermediateCodeGen.Get | src/ir.cpp:67 | the result carries the instruction list and both tables |
| IrLowering.IntermediateCodeGen.NextTemp | src/ir.cpp:69 | returns "T" and the counter's numeral, and advances only that counter |
| IrLowering.IntermediateCodeGen.NextLabel | src/ir.cpp:71 | returns "L" and the counter's numeral, and advances only that counter |
| IrLowering.IntermediateCodeGen.NextStringSym | src/ir.cpp:75 | returns "S" and the counter's numeral, and advances only that counter |
| IrLowering.IntermediateCodeGen.ExecExpr | src/ir.cpp:106-113 | leaves the state, and returns the name, that `LowerExpr` gives |
| IrLowering.IntermediateCodeGen.ExecBinOp | src/ir.cpp:96-104 | leaves the state, and returns the temporary, that `LowerExpr` gives for a binary operation |
| IrLowering.IntermediateCodeGen.ExecAssignment | src/ir.cpp:115-121 | leaves the state `LowerAssignment` gives |
| IrLowering.IntermediateCodeGen.ExecCondition | src/ir.cpp:123-133 | leaves the state, and returns the label, that `LowerCondition` gives |
| IrLowering.IntermediateCodeGen.ExecIf | src/ir.cpp:135-156 | leaves the state `LowerIf` gives, and reports whether it completed |
| IrLowering.IntermediateCodeGen.ExecWhile | src/ir.cpp:158-181 | leaves the state `LowerWhile` gives, and reports whether it completed |
| IrLowering.IntermediateCodeGen.ExecPrint | src/ir.cpp:184-201 | leaves the state `LowerPrint` gives |
| IrLowering.IntermediateCodeGen.ExecDeclaration | src/ir.cpp:203-219 | leaves the state `LowerDeclaration` gives; false exactly where the C++ throws |
| IrLowering.IntermediateCodeGen.ExecStatementNode | src/ir.cpp:221-249 | leaves the state `LowerStmt` gives, per node kind |
| IrLowering.IntermediateCodeGen.ExecStatement | src/ir.cpp:251-262 | leaves the state `LowerStmtOpt` gives; a null node changes nothing |
| IrLowering.IntermediateCodeGen.Run | src/ir.cpp:63-65 | lowering the root from the current state (the initial one after construction) leaves the state `LowerStmtOpt` gives, and reports whether it completed |
| IrLowering.Lower | src/ir.cpp:63-67 | the lowered program is `LowerProgram(root)`, and none if lowering throws |
| LoweringProperties.NameNumOfName | src/ir.cpp:69-75 | each generated name reads back as the counter value that produced it |
| LoweringProperties.FreshNamesDistinct | src/ir.cpp:69-75 | two names of one kind are equal exactly when their counters are; names of different kinds never meet |
| LoweringProperties.CodeAppend | src/ir.cpp:135-181 | defined labels and jump targets of joined code are unions; labels stay distinct exactly when both halves do and share none |
| LoweringProperties.CodeMeaning | include/ir.hpp:18-46 | a label is defined exactly when a label instruction names it; a target is used exactly when a jump or compare names it |
| LoweringProperties.DistinctMeaning | include/ir.hpp:37-39 | `DistinctLabels` holds exactly when no two label instructions share a name |
| LoweringProperties.AssignsOnly | src/ir.cpp:96-121 | code made only of assignments defines and targets no label |
| LoweringProperties.LabelsMember | src/ir.cpp:71 | `L<j>` lies in the range of label numbers from lo to hi exactly when j does |
| LoweringProperties.LabelsDisjoint | src/ir.cpp:71 | labels drawn from non-overlapping counter ranges are different |
| LoweringTables.TempsMember | src/ir.cpp:96-104 | the temporaries' entries are exactly `T<j>` for the drawn j, all typed "int" |
| LoweringTables.ExprIdentifiers | src/ir.cpp:77-113 | an expression adds exactly its temporaries to `identifiers`, each as "int", and changes nothing else there |
| LoweringTables.AssignmentIdentifiers | src/ir.cpp:115-121 | an unknown target becomes "string"; a known one keeps its type; then the right-hand side's temporaries are added |
| LoweringTables.DeclarationIdentifiers | src/ir.cpp:203-219 | every listed name gets the declared type, overwriting, whether or not the declaration throws; then the initialiser's temporaries are added |
| LoweringTables.SymsMember | src/ir.cpp:75 | `S<j>` lies in the symbols drawn from lo to hi exactly when j does |
| LoweringTables.BindFresh | src/ir.cpp:90-94 | binding the next symbol keeps every existing constant and keeps all keys among drawn symbols |
| LoweringTables.ExprConstants | src/ir.cpp:77-113 | an expression keeps every existing constant; every key stays a drawn symbol |
| LoweringTables.PrintConstants | src/ir.cpp:184-201 | a print keeps every existing constant; every key stays a drawn symbol |
| LoweringTables.ConditionConstants | src/ir.cpp:123-133 | a condition keeps every existing constant; every key stays a drawn symbol |
| LoweringTables.IfConstants | src/ir.cpp:135-156 | an `if` keeps every existing constant; every key stays a drawn symbol |
| LoweringTables.WhileConstants | src/ir.cpp:158-181 | a `while` keeps every existing constant; every key stays a drawn symbol |
| LoweringTables.StmtConstants | src/ir.cpp:221-249 | any statement keeps every existing constant; every key stays a drawn symbol |
| LoweringTables.StmtOptConstants | src/ir.cpp:251-262 | the same for a possibly null statement: no string constant is ever overwritten |
| LoweringShapes.LeafExpr | src/ir.cpp:82-88 | an identifier or a number returns its own text; nothing is emitted and nothing changes |
| LoweringShapes.StringLiteralExpr | src/ir.cpp:90-94 | a string literal emits nothing, returns a fresh `S` symbol bound to the literal text, and overwrites no literal |
| LoweringShapes.ExprTemps | src/ir.cpp:96-104 | an expression's code is one assignment per temporary it draws, in drawing order |
| LoweringShapes.BinOpExpr | src/ir.cpp:96-104 | left is lowered fully, then right; then exactly one `Assign{T, left, op, right}` comes last; T is new, typed "int" and returned |
| LoweringShapes.AssignmentShape | src/ir.cpp:115-121 | the right-hand side's code is followed by the plain copy `Assign{name, rhs, "", ""}`; an unknown target becomes "string" and a known one keeps its type |
| LoweringShapes.DeclarationShape | src/ir.cpp:203-219 | throws exactly when there is an initialiser and the name count is not 1; all names get the type; a single initialised name ends with the plain copy |
| LoweringShapes.PrintShape | src/ir.cpp:184-201 | "string" with text binds a fresh symbol and prints it as "string"; otherwise the expression's name is printed, as "string" or "int" by the node's kind |
| LoweringShapes.ProgramConstants | src/ir.cpp:63-65 | every key of the final constants table is an `S` symbol the counter handed out |
| LoweringLabels.ExprCode | src/ir.cpp:77-113 | expression code defines and targets no label |
| LoweringLabels.ConditionLabels | src/ir.cpp:123-133 | condition code defines no label |
| LoweringLabels.PrintNoFlow | src/ir.cpp:184-201 | print code defines and targets no label |
| LoweringLabels.AssignmentNoFlow | src/ir.cpp:115-121 | assignment code defines and targets no label |
| LoweringLabels.DeclarationNoFlow | src/ir.cpp:203-219 | declaration code defines and targets no label |
| LoweringLabels.IfLabelsFresh | src/ir.cpp:135-156 | an `if` defines only labels numbered in its own counter range, each once |
| LoweringLabels.WhileLabelsFresh | src/ir.cpp:158-181 | a `while` defines only labels in its counter range, never its unused body label, each once |
| LoweringLabels.StmtLabelsFresh | src/ir.cpp:221-249 | any statement defines only labels drawn during it, each once |
| LoweringLabels.SeqLabelsFresh | src/ir.cpp:226-229 | a sequence defines only labels drawn during it, each once |
| LoweringLabels.StmtOptLabelsFresh | src/ir.cpp:251-262 | the same for a possibly null statement |
| LoweringLabels.ProgramLabelsDistinct | src/ir.cpp:63-65 | in the whole program no two label instructions share a name; every label is an `L` name drawn from the counter |
| LoweringFlow.ConditionTargets | src/ir.cpp:123-133 | a condition defines no label and targets exactly the label it returns |
| LoweringFlow.CondCode | src/ir.cpp:123-133 | condition code is the left operand's code, the right operand's code, then one compare of the two operand names with the comparison token verbatim, jumping to the next label |
| LoweringFlow.IfLayout | src/ir.cpp:135-156 | an `if` emits the condition's code, `Jump else`, `Label then`, the then-branch's own lowering, `Jump end`, `Label else`, the else-branch's own lowering, `Label end`, with the labels k, k+1, k+2 |
| LoweringFlow.WhileLayout | src/ir.cpp:158-181 | a `while` emits `Label start`, the condition's code, `Jump end`, `Label true`, the body's own lowering, `Jump start`, `Label end` |
| LoweringFlow.IfClosed | src/ir.cpp:135-156 | every label an `if` jumps to is defined within it |
| LoweringFlow.WhileClosed | src/ir.cpp:158-181 | every label a `while` jumps to is defined within it |
| LoweringFlow.SeqClosed | src/ir.cpp:226-229 | every label a sequence jumps to is defined within it |
| LoweringFlow.StmtClosed | src/ir.cpp:221-249 | every label a statement jumps to is defined within it |
| LoweringFlow.StmtOptClosed | src/ir.cpp:251-262 | the same for a possibly null statement |
| LoweringFlow.WhileUnusedLabel | src/ir.cpp:158-181 | the label numbered k+1 is neither defined nor targeted by the `while` |
| LoweringFlow.ProgramClosed | src/ir.cpp:63-65 | in a completed lowering, every jump and compare target is defined by some label instruction |
| AsmTables.Lookup | src/codegen.cpp:17-58 | the result is empty or the value of an entry whose key is the searched key |
| AsmTables.OpToAsm | src/codegen.cpp:17-35 | `op_to_asm` gives the empty string or the mnemonic of the operator's own table row (exactly which one: OpToAsmMap) |
| AsmTables.CmpToJmp | src/codegen.cpp:38-58 | `cmp_to_jmp` gives the empty string or the jump of the comparison's own table row (exactly which one: CmpToJmpMap) |
| AsmTables.LowerBound | src/codegen.cpp:17-58 | the first position whose key is not below the searched key, as `std::lower_bound` finds it |
| AsmTables.LookupAt | src/codegen.cpp:17-58 | on a sorted table the lower-bound search finds every key that is present |
| AsmTables.LookupMissing | src/codegen.cpp:17-58 | an absent key gives the empty string |
| AsmTables.OpTableSorted | src/codegen.cpp:17-35 | the operator table is sorted by key with no duplicates |
| AsmTables.CmpTableSorted | src/codegen.cpp:38-58 | the comparison table is sorted by key with no duplicates |
| AsmTables.OpToAsmMap | src/codegen.cpp:17-35 | "*", "+", "-", "/" map to "imul", "add", "sub", "idiv"; every other string maps to "" |
| AsmTables.CmpToJmpMap | src/codegen.cpp:38-58 | "!=", "<", "<=", "==", ">", ">=" map to "jne", "jl", "jle", "je", "jg", "jge"; every other string maps to "" |
| AsmText.HandleVar | src/codegen.cpp:73-82 | the operation itself: its contract only names the two cases (`IsImmediate` text used as it is, anything else bracketed); what the operands mean is stated by HandleVarOperands, HandleVarPrefix and HandleVarInjective |
| AsmText.HandleVarOperands | src/codegen.cpp:73-82 | numerals and negative numerals stay immediates; names starting with a letter or '_' become memory operands |
| AsmText.HandleVarPrefix | src/codegen.cpp:73-82 | only the first two characters decide the operand kind |
| AsmText.HandleVarInjective | include/codegen.hpp:45 | operand resolution depends on the name alone, and different names give different operands |
| AsmText.ConstOperandsRoundTrip | src/codegen.cpp:125-148 | reading a constant line's `db` operands back gives the literal's bytes, then 10 and 0 |
| AsmText.DbOperandsAppend | src/codegen.cpp:136-141 | the byte loop grows the operand list at its end, one numeral and ", " per byte |
| AsmText.InstrOutAppends | src/codegen.cpp:229-248 | an instruction's lines are the same whatever the buffer held before; the step only appends |
| AsmText.CodeOutAppends | src/codegen.cpp:229-248 | generating the code section only appends, independently of the buffer's earlier content |
| AsmText.SlotsOutAppends | src/codegen.cpp:95-97 | the identifier slots only append |
| AsmText.DataOutAppends | src/codegen.cpp:125-149 | the constant lines only append |
| AsmText.NeedsStep | src/codegen.cpp:258-271 | the pre-scan's two conditions grow by one instruction exactly as the loop sets the flags |
| AsmText.AsmOutputSections | src/codegen.cpp:273-281 | the file is .bss, .data and code header, instructions, exit sequence and needed routines, end to end, each section independent of the others |
| AsmText.DbOperandsOneLine | src/codegen.cpp:136-141 | the decimal byte list contains no line break |
| AsmText.ConstLineCount | src/codegen.cpp:125-149 | each string constant takes exactly one line |
| AsmText.AssignLines | src/codegen.cpp:170-197 | a plain copy writes two lines, an operation four and a division five |
| AsmText.CombineLines | src/codegen.cpp:184-194 | an operation writes two lines between load and store, a division three (`cqo` first) |
| AsmText.CompareLines | src/codegen.cpp:207-211 | a comparison writes exactly three lines, whatever the comparison token |
| AsmText.PrintLines | src/codegen.cpp:213-227 | a print writes exactly two lines, the argument then the call |
| AsmText.InstrLines | src/codegen.cpp:229-248 | lines per instruction: jump 1, label 1, print 2, compare 3, assignment 2, 4 or 5 |
| Codegen.ByteDigits | src/codegen.cpp:100-112 | a byte's numeral is its hundreds, tens and units digits, without leading zeros |
| Codegen.ByteNumeral | src/codegen.cpp:100-112 | a byte's numeral has one to three digits, no leading zero, and parses back as the byte |
| Codegen.AppendU8 | src/codegen.cpp:100-112 | appends 1 to 3 characters, the byte's decimal numeral; parsing them back gives the byte |
| Codegen.CodeGenerator.constructor | src/codegen.cpp:61-66 | copies the IR reference and the tables by value; `out` is empty and both flags are false |
| Codegen.CodeGenerator.Pr | src/codegen.cpp:68-71 | appends the text and one '\n' to `out`, and changes nothing else |
| Codegen.CodeGenerator.GenVariables | src/codegen.cpp:84-98 | appends `section .bss`, the print buffer iff `print_num` is needed, then one `resb 8` slot per identifier |
| Codegen.CodeGenerator.GenStart | src/codegen.cpp:119-158 | appends `section .data`, one `db` line per constant built byte by byte, then the code header |
| Codegen.CodeGenerator.GenEnd | src/codegen.cpp:160-168 | appends the exit system call |
| Codegen.CodeGenerator.GenAssignment | src/codegen.cpp:170-197 | appends the assignment's lines: load (`lea` for a literal symbol), combine (`cqo`/`idiv` for "/"), store |
| Codegen.CodeGenerator.GenJump | src/codegen.cpp:199-201 | appends `jmp` to the target |
| Codegen.CodeGenerator.GenLabel | src/codegen.cpp:203-205 | appends the label definition |
| Codegen.CodeGenerator.GenCompare | src/codegen.cpp:207-211 | appends load, compare, then the `cmp_to_jmp` jump to the target |
| Codegen.CodeGenerator.GenPrint | src/codegen.cpp:213-227 | "int" prints the operand through `print_num`; otherwise a literal symbol or a variable's pointer goes to `print_string` |
| Codegen.CodeGenerator.GenCode | src/codegen.cpp:229-248 | appends each instruction's lines in IR order, leaving the IR unchanged |
| Codegen.CodeGenerator.GenPrintNumFunction | src/codegen.cpp:288-336 | appends the `print_num` routine |
| Codegen.CodeGenerator.GenPrintStringFunction | src/codegen.cpp:338-358 | appends the `print_string` routine |
| Codegen.CodeGenerator.WriteAsm | src/codegen.cpp:251-286 | resets `out` and the flags; the string flag holds iff some print is "string", the number flag iff some print is not; `out` is the whole file in section order; the IR is unchanged |
| Codegen.CodeGenerator.WriteAsmTwice | src/codegen.cpp:251-286 | calling `writeAsm` twice produces the same buffer |

## Left out

- src/main.cpp: argument parsing, file reading, the interactive loop, the parser calls and the
  console dumps. All of it is I/O.
- The file write at the end of `writeAsm`. The result is the `out` buffer.
- The value pool behind instruction handles: `acquire`, `guard` and handle sharing. It is defined
  outside the shown sources and exists for concurrency. Instructions are plain values.
- What the emitted assembly does when run, including the bodies of the two helper routines. They
  are fixed texts.
- Iteration order of `unordered_map`, which C++ leaves unspecified.
  - The generator fixes, at construction, an arbitrary order that lists each key exactly once.
  - Properties hold for every such order.
- A condition slot that does not hold a `Condition` is a null dereference in C++. The lowering
  requires `WellFormed` trees instead.
- A "string" print with an empty `strValue` and no `intExpr` (the shape an empty literal
  `print ""` takes, include/ast.hpp:116-121) makes `exec_print` lower a null `intExpr`
  (src/ir.cpp:193, via src/ir.cpp:106-112), a null dereference. `WellFormed` excludes it, so the
  model does not say what happens to such a tree.
- Children the lowering dereferences without a null check (operands, conditions, assignment
  right-hand sides) are typed as plain `Node`, so a null child there is not modelled either.
- Tokens are folded into their text, since the backend never reads their line or kind.
- The raw string literals in src/codegen.cpp are stored with CRLF line ends. Each line break is
  modelled as one '\n', as the C++ compiler reads it.
- `std::lower_bound` is modelled by its result, a linear definition of the first key not below
  the searched key. The binary search itself is not modelled.
- `currentLabel` is never called and is not modelled.
- `tempmap` is accepted and stored but never read. It is kept as a field with no effect.
- The three counters are C++ `int`. The model counts with unbounded naturals, so a wrap-around
  after 2^31 names is not modelled.
- `std::isdigit` of a negative `char` is undefined. The model reads every char as an unsigned byte.
- `unsigned char` conversion of each literal byte in `gen_start` is modelled by text being a
  sequence of byte-valued characters.
- Codegen.CodeGenerator.GenPrintNumFunction: appends the routine text held in the `routines` field.
  The constructor sets that field to the exact `print_num` text, but the method's own contract
  names the field, not the text.
- Codegen.CodeGenerator.GenPrintStringFunction: the same, for the `print_string` text.
- Codegen.CodeGenerator.WriteAsm: the output is stated with the `routines` field, which the
  constructor fixes to the two exact routine texts.
- AsmText.InstrLines: line counts assume the instruction's names contain no line break, which
  holds for the names the lowering produces from tokens.
