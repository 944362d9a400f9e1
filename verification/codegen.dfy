/** The code generator: turns the IR and the two tables into NASM
    x86-64 assembly text for Linux. */
module Codegen {
  import opened Strings
  import opened Ir
  import opened AsmTables
  import opened AsmText

  /** An `unsigned char`. */
  type Byte = x: int | 0 <= x < 256

  /** The decimal digits of a byte, most significant first. */
  lemma ByteDigits(v: Byte)
    ensures v >= 100 ==> Decimal(v) == [Digit(v / 100), Digit(v % 100 / 10), Digit(v % 10)]
    ensures 10 <= v < 100 ==> Decimal(v) == [Digit(v / 10), Digit(v % 10)]
    ensures v < 10 ==> Decimal(v) == [Digit(v)]
  {
    if v >= 100 {
      assert v / 10 / 10 == v / 100 && v / 10 % 10 == v % 100 / 10;
      assert Decimal(v / 10) == [Digit(v / 100), Digit(v % 100 / 10)];
    }
  }

  /** A byte's numeral, once appended, reads back as the byte. */
  lemma ByteNumeral(buf: Text, v: Byte)
    ensures (buf + Decimal(v))[|buf|..] == Decimal(v)
    ensures 1 <= |Decimal(v)| <= 3 && IsDecimal(Decimal(v)) && ParseDecimal(Decimal(v)) == v
  {
    DecimalShape(v);
    ParseDecimalOfDecimal(v);
    assert (buf + Decimal(v))[|buf|..] == Decimal(v);
  }

  /** `append_u8`: appends the decimal digits of a byte, without leading
      zeros, one to three of them; read back as a decimal number they give
      the byte. */
  method AppendU8(buf: Text, v: Byte) returns (r: Text)
    ensures r == buf + Decimal(v)
    ensures 1 <= |r| - |buf| <= 3 && IsDecimal(r[|buf|..]) && ParseDecimal(r[|buf|..]) == v
  {
    ByteDigits(v);
    if v >= 100 {
      r := buf + [Digit(v / 100)];
      var w := v % 100;
      r := r + [Digit(w / 10)];
      r := r + [Digit(w % 10)];
      assert w % 10 == v % 10;
      assert r == buf + Decimal(v);
    } else if v >= 10 {
      r := buf + [Digit(v / 10)];
      r := r + [Digit(v % 10)];
      assert r == buf + Decimal(v);
    } else {
      r := buf + [Digit(v)];
    }
    ByteNumeral(buf, v);
  }

  /** The generator object.  The IR is held by const reference and the
      tables are copied at construction, so every field but `out` and the
      two flags is fixed for the object's life. */
  class CodeGenerator {
    const arr: InterCodeArray
    const ids: map<Text, Text>
    const consts: map<Text, Text>
    /** Accepted and kept; operand resolution does not consult it. */
    const tempmap: map<Text, Text>
    /** The iteration orders of `ids` and `consts`. */
    const idOrder: seq<Text>
    const constOrder: seq<Text>
    /** The two helper routine texts, which are fixed. */
    const routines: Routines
    var out: Text
    var needPrintNum: bool
    var needPrintString: bool

    /** Each order lists its table's keys, each once. */
    predicate Valid() {
      Enumerates(idOrder, ids.Keys) && Enumerates(constOrder, consts.Keys)
    }

    /** Copies the tables; the buffer starts empty and both flags false.
        The iteration orders are whatever orders the maps have. */
    constructor (arr: InterCodeArray, identifiers: map<Text, Text>, constants: map<Text, Text>, tempmap: map<Text, Text>)
      ensures this.arr == arr && ids == identifiers && consts == constants && this.tempmap == tempmap
      ensures routines == HelperRoutines
      ensures Valid() && out == [] && !needPrintNum && !needPrintString
    {
      EnumerationExists(identifiers.Keys);
      EnumerationExists(constants.Keys);
      var io :| Enumerates(io, identifiers.Keys);
      var co :| Enumerates(co, constants.Keys);
      this.arr := arr;
      ids, consts, this.tempmap := identifiers, constants, tempmap;
      idOrder, constOrder := io, co;
      routines := HelperRoutines;
      out := [];
      needPrintNum, needPrintString := false, false;
    }

    /** `pr`: appends the text and a line break. */
    method Pr(s: Text)
      modifies this`out
      ensures out == old(out) + Line(s)
    {
      out := out + Line(s);
    }

    method GenVariables()
      modifies this`out
      ensures out == BssOut(old(out), needPrintNum, idOrder)
    {
      Pr(SectionBss);
      if needPrintNum {
        Pr(DigitSpaceDecl);
      }
      ghost var head := out;
      var i := 0;
      while i < |idOrder|
        invariant 0 <= i <= |idOrder|
        invariant out == SlotsOut(head, idOrder[..i])
      {
        Pr(Tab + idOrder[i] + Resb8);
        assert idOrder[..i + 1][..i] == idOrder[..i];
        i := i + 1;
      }
      assert idOrder[..i] == idOrder;
    }

    method GenStart()
      requires Valid()
      modifies this`out
      ensures out == StartOut(old(out), constOrder, consts)
    {
      Pr(SectionData);
      ghost var head := out;
      var i := 0;
      while i < |constOrder|
        invariant 0 <= i <= |constOrder|
        invariant out == DataOut(head, constOrder[..i], consts)
      {
        var sym := constOrder[i];
        var lit := consts[sym];
        var buf := Tab + sym + Db;
        var j := 0;
        while j < |lit|
          invariant 0 <= j <= |lit|
          invariant buf == Tab + sym + Db + DbOperands(lit[..j])
          modifies {}
        {
          buf := AppendU8(buf, lit[j] as int);
          buf := buf + CommaSpace;
          DbOperandsStep(Tab + sym + Db, lit[..j], lit[j]);
          assert lit[..j + 1] == lit[..j] + [lit[j]];
          j := j + 1;
        }
        assert lit[..j] == lit;
        buf := buf + NewlineNul;
        Pr(buf);
        assert constOrder[..i + 1][..i] == constOrder[..i];
        i := i + 1;
      }
      assert constOrder[..i] == constOrder;
      Pr(TextHeader);
    }

    method GenEnd()
      modifies this`out
      ensures out == old(out) + Line(ExitSequence)
    {
      Pr(ExitSequence);
    }

    method GenAssignment(a: Instr)
      requires a.AssignCode?
      modifies this`out
      ensures out == AssignOut(old(out), a.dest, a.left, a.op, a.right, consts)
    {
      if a.op == [] {
        if a.left in consts {
          Pr(LeaRel + a.left + Close);
        } else {
          Pr(MovRax + HandleVar(a.left));
        }
        Pr(Mov + HandleVar(a.dest) + FromRax);
        return;
      }
      Pr(MovRax + HandleVar(a.left));
      if a.op == "/" {
        Pr(Cqo);
        Pr(MovRbx + HandleVar(a.right));
        Pr(IdivRbx);
      } else {
        Pr(MovRbx + HandleVar(a.right));
        Pr(Tab + OpToAsm(a.op) + RaxRbx);
      }
      Pr(Mov + HandleVar(a.dest) + FromRax);
    }

    method GenJump(j: Instr)
      requires j.JumpCode?
      modifies this`out
      ensures out == InstrOut(old(out), j, consts)
    {
      Pr(Jmp + j.dist);
    }

    method GenLabel(l: Instr)
      requires l.LabelCode?
      modifies this`out
      ensures out == InstrOut(old(out), l, consts)
    {
      Pr(l.name + Colon);
    }

    method GenCompare(c: Instr)
      requires c.CompareCode?
      modifies this`out
      ensures out == CompareOut(old(out), c.left, c.operation, c.right, c.jump)
    {
      Pr(MovRax + HandleVar(c.left));
      Pr(CmpRax + HandleVar(c.right));
      Pr(Tab + CmpToJmp(c.operation) + Space + c.jump);
    }

    method GenPrint(p: Instr)
      requires p.PrintCode?
      modifies this`out
      ensures out == PrintOut(old(out), p.kind, p.value, consts)
    {
      if p.kind == "int" {
        Pr(MovRdi + HandleVar(p.value));
        Pr(CallPrintNum);
      } else {
        if p.value in consts {
          Pr(MovRdi + p.value);
        } else {
          Pr(MovRdiLoad + p.value + Close);
        }
        Pr(CallPrintString);
      }
    }

    /** `gen_code`: every instruction in IR order, dispatched on its kind. */
    method GenCode()
      modifies this`out
      ensures out == CodeOut(old(out), arr.code, consts)
    {
      var i := 0;
      while i < |arr.code|
        invariant 0 <= i <= |arr.code|
        invariant out == CodeOut(old(out), arr.code[..i], consts)
      {
        var ins := arr.code[i];
        match ins {
          case AssignCode(_, _, _, _) => GenAssignment(ins);
          case JumpCode(_) => GenJump(ins);
          case LabelCode(_) => GenLabel(ins);
          case CompareCode(_, _, _, _) => GenCompare(ins);
          case PrintCode(_, _) => GenPrint(ins);
        }
        assert arr.code[..i + 1][..i] == arr.code[..i];
        i := i + 1;
      }
      assert arr.code[..i] == arr.code;
    }

    method GenPrintNumFunction()
      modifies this`out
      ensures out == old(out) + Line(routines.printNum)
    {
      Pr(routines.printNum);
    }

    method GenPrintStringFunction()
      modifies this`out
      ensures out == old(out) + Line(routines.printString)
    {
      Pr(routines.printString);
    }

    /** `writeAsm` up to the file write: resets the buffer and both flags,
        sets each flag exactly when some print needs its helper, then
        writes the sections in order.  The result depends on the IR and
        the tables only. */
    method WriteAsm()
      requires Valid()
      modifies this`out, this`needPrintNum, this`needPrintString
      ensures needPrintNum == NeedsPrintNum(arr.code) && needPrintString == NeedsPrintString(arr.code)
      ensures out == AsmOutput(arr.code, idOrder, constOrder, consts, routines)
      ensures arr.code == old(arr.code)
    {
      out := [];
      needPrintNum := false;
      needPrintString := false;
      var i := 0;
      while i < |arr.code|
        invariant 0 <= i <= |arr.code| && out == []
        invariant needPrintNum == NeedsPrintNum(arr.code[..i])
        invariant needPrintString == NeedsPrintString(arr.code[..i])
      {
        var ins := arr.code[i];
        if ins.PrintCode? {
          if ins.kind == "string" {
            needPrintString := true;
          } else {
            needPrintNum := true;
          }
        }
        NeedsStep(arr.code, i);
        i := i + 1;
      }
      assert arr.code[..i] == arr.code;
      GenVariables();
      GenStart();
      GenCode();
      GenEnd();
      if needPrintNum {
        GenPrintNumFunction();
      }
      if needPrintString {
        GenPrintStringFunction();
      }
    }

    /** A second `writeAsm` writes the same text as the first: nothing
        from an earlier call carries over. */
    method WriteAsmTwice() returns (first: Text, second: Text)
      requires Valid()
      modifies this`out, this`needPrintNum, this`needPrintString
      ensures first == second
    {
      WriteAsm();
      first := out;
      WriteAsm();
      second := out;
    }
  }
}
