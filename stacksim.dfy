/**
 * The abstract stack of bytecode_translator_v3.py: what one instruction does
 * to the stack of Lua expressions and which Lua line, if any, it produces
 * (`_translate_instruction`, `_translate_callis`, `_translate_calli`,
 * `_process_stack_op_to_list`, `_convert_var_name`). The top of
 * the stack is the last element of the sequence.
 */
module StackSim {
  import opened Text
  import opened Usecode
  import opened Intrinsics

  // ---------------------------------------------------------------------------
  // Mnemonic classes
  // ---------------------------------------------------------------------------

  predicate IsPush(m: string) { m == "push" || m == "pushi" || m == "pushs" }

  predicate IsArith(m: string) { m == "add" || m == "sub" || m == "mul" || m == "div" || m == "mod" }

  predicate IsLogical(m: string) { m == "and" || m == "or" }

  predicate IsCompare(m: string)
  {
    m == "cmpeq" || m == "cmpne" || m == "cmplt" || m == "cmple" || m == "cmpgt" || m == "cmpge"
  }

  predicate IsCondJump(m: string) { m == "jne" || m == "je" }

  predicate IsJump(m: string) { m == "jmp" || IsCondJump(m) }

  /** The mnemonics `_translate_instruction` passes over: comparisons, jumps and `ret`. */
  predicate IsSilent(m: string) { IsCompare(m) || IsJump(m) || m == "ret" }

  // ---------------------------------------------------------------------------
  // Names and values
  // ---------------------------------------------------------------------------

  /**
   * `_convert_var_name`: a slot reference `[idx]`, starting with `[` and
   * ending with `]`, becomes `var_idx`; anything else is kept.
   */
  function ConvertVarName(ref: string): (r: string)
    ensures |ref| > 0 && ref[0] != '[' ==> r == ref
  {
    if |ref| > 0 && ref[0] == '[' && ref[|ref| - 1] == ']' then "var_" + Slice(ref, 1, |ref| - 1)
    else ref
  }

  /** The disassembler's slot reference `[idx]` names the Lua local `var_idx`. */
  lemma SlotNamesLocal(idx: string)
    ensures ConvertVarName("[" + idx + "]") == "var_" + idx
  {
    var ref := "[" + idx + "]";
    assert ref[0] == '[' && ref[|ref| - 1] == ']';
    SliceIs(ref, 1, |ref| - 1);
    assert ref[1..|ref| - 1] == idx;
  }

  /** The operand of a `pushi` is rewritten only when it contains `H`, and that rewrite must parse. */
  predicate PushiOperandOk(token: string)
  {
    'H' in token ==> ParseHex(RemoveAll(token, "H")).Some?
  }

  /** The literal `pushi` pushes: a token with `H` is read as hexadecimal and printed in decimal. */
  function PushiLiteral(token: string): (r: string)
    requires PushiOperandOk(token)
    ensures 'H' !in token ==> r == token
  {
    if 'H' in token then DecimalString(ParseHex(RemoveAll(token, "H")).value) else token
  }

  /** `pushi XXXXH`, as the disassembler prints a number, pushes that number in decimal. */
  lemma PushiHexIsDecimal(n: nat)
    ensures PushiOperandOk(Hex4(n) + "H") && PushiLiteral(Hex4(n) + "H") == DecimalString(n)
  {
    var digits := Hex4(n);
    assert 'H' !in digits by {
      assert forall i :: 0 <= i < |digits| ==> IsUpperHexDigit(digits[i]);
    }
    assert (digits + "H")[|digits|] == 'H';
    RemoveTrailingChar(digits, 'H');
    Hex4RoundTrip(n);
  }

  lemma RemoveTrailingChar(s: string, c: char)
    requires c !in s
    ensures RemoveAll(s + [c], [c]) == s
  {
    RemoveTrailingCharFrom(s, c, 0);
  }

  lemma {:induction false} RemoveTrailingCharFrom(s: string, c: char, i: nat)
    requires c !in s && i <= |s|
    ensures RemoveFrom(s + [c], [c], i) == s[i..]
    decreases |s| - i
  {
    var t := s + [c];
    if i == |s| {
      assert ContainsAt(t, [c], i);
    } else {
      assert t[i] == s[i];
      RemoveTrailingCharFrom(s, c, i + 1);
      assert s[i..] == [s[i]] + s[i + 1..];
    }
  }

  /** The operands of every instruction the translator would read with `int()`, readable. */
  predicate InstructionOk(inst: Instruction)
  {
    var m := inst.mnemonic;
    var ops := inst.operands;
    && (m == "pushi" && |ops| > 0 ==> PushiOperandOk(ops[0]))
    && (m == "callis" && |ops| > 0 ==> CallisOk(ops))
    && (m == "calli" && |ops| > 0 ==> CalliOk(ops))
    && (IsJump(m) && |ops| > 0 ==> ParseHex(ops[0]).Some?)
    && (IsCondJump(m) ==> |ops| > 0)
  }

  predicate WellFormed(insts: seq<Instruction>)
  {
    forall i {:trigger InstructionOk(insts[i])} :: 0 <= i < |insts| ==> InstructionOk(insts[i])
  }

  /** The value `push`, `pushi` or `pushs` puts on the stack, with the defaults for a missing operand. */
  function PushedValue(inst: Instruction): string
    requires IsPush(inst.mnemonic) && InstructionOk(inst)
  {
    var ops := inst.operands;
    if inst.mnemonic == "push" then ConvertVarName(if |ops| > 0 then ops[0] else "unknown")
    else if inst.mnemonic == "pushi" then (if |ops| > 0 then PushiLiteral(ops[0]) else "0")
    else "str_" + (if |ops| > 0 then ops[0] else "L0000")
  }

  /**
   * `_process_stack_op_to_list`: the push instructions push onto the given
   * list, every other instruction leaves it alone.
   */
  function ProcessStackOp(stack: seq<string>, inst: Instruction): (r: seq<string>)
    requires InstructionOk(inst)
    ensures IsPush(inst.mnemonic) ==> r == stack + [PushedValue(inst)]
    ensures !IsPush(inst.mnemonic) ==> r == stack
  {
    if IsPush(inst.mnemonic) then stack + [PushedValue(inst)] else stack
  }

  // ---------------------------------------------------------------------------
  // Calls
  // ---------------------------------------------------------------------------

  datatype Callee = Callee(name: string, arity: nat)

  /** `s.split('@')` when it gives exactly two parts: the name and the argument count. */
  function AtForm(op: string): Option<(string, string)>
  {
    var parts := Split(op, '@');
    if |parts| == 2 then Some((parts[0], parts[1])) else None
  }

  /** The argument count given as the second operand, 0 without one; None where `int()` fails. */
  function SecondArity(ops: seq<string>): (r: Option<nat>)
    ensures |ops| <= 1 ==> r == Some(0)
  {
    if |ops| > 1 then ParseDec(ops[1]) else Some(0)
  }

  /** The opcode `callis` reads from its first operand, with or without the `H` suffix. */
  function CallisOpcode(op: string): Option<nat>
  {
    if 'H' in op then ParseHex(RemoveAll(op, "H")) else ParseHex(op)
  }

  /** The `int()` calls `_translate_callis` makes outside its handler, or makes again inside it, succeed. */
  predicate CallisOk(ops: seq<string>)
    requires |ops| > 0
  {
    match AtForm(ops[0])
    case Some(p) => ParseDec(p.1).Some?
    case None =>
      match CallisOpcode(ops[0])
      case Some(opcode) => IntrinsicEntry(opcode).Some? || SecondArity(ops).Some?
      case None => SecondArity(ops).Some?
  }

  predicate CalliOk(ops: seq<string>)
    requires |ops| > 0
  {
    match AtForm(ops[0])
    case Some(p) => ParseDec(p.1).Some?
    case None => SecondArity(ops).Some?
  }

  /**
   * The callee of `callis`: the `name@n` form first; otherwise the opcode's
   * row of INTRINSIC_MAP, or the `unknown_XXXXH` placeholder with the second
   * operand as argument count; an operand that is not hexadecimal is the name.
   */
  function ResolveCallis(ops: seq<string>): (c: Callee)
    requires |ops| > 0 && CallisOk(ops)
    ensures AtForm(ops[0]).Some? ==>
      ParseDec(AtForm(ops[0]).value.1).Some? && c == Callee(AtForm(ops[0]).value.0, ParseDec(AtForm(ops[0]).value.1).value)
    ensures AtForm(ops[0]).None? && CallisOpcode(ops[0]).Some? ==>
      c.name == GetLuaFunction(CallisOpcode(ops[0]).value)
    ensures AtForm(ops[0]).None? && CallisOpcode(ops[0]).Some? && GetParamCount(CallisOpcode(ops[0]).value).Some? ==>
      c.arity == GetParamCount(CallisOpcode(ops[0]).value).value
    ensures AtForm(ops[0]).None? && CallisOpcode(ops[0]).Some? && GetParamCount(CallisOpcode(ops[0]).value).None? ==>
      SecondArity(ops).Some? && c == Callee(Placeholder(CallisOpcode(ops[0]).value), SecondArity(ops).value)
    ensures AtForm(ops[0]).None? && CallisOpcode(ops[0]).None? ==>
      SecondArity(ops).Some? && c == Callee(ops[0], SecondArity(ops).value)
  {
    match AtForm(ops[0])
    case Some(p) => Callee(p.0, ParseDec(p.1).value)
    case None =>
      match CallisOpcode(ops[0])
      case Some(opcode) =>
        (match IntrinsicEntry(opcode)
         case Some(e) => Callee(e.name, e.arity)
         case None => Callee(Placeholder(opcode), SecondArity(ops).value))
      case None => Callee(ops[0], SecondArity(ops).value)
  }

  /** The callee of `calli`: the `name@n` form, or `func_XXXX` for a hexadecimal operand, or the operand itself. */
  function ResolveCalli(ops: seq<string>): (c: Callee)
    requires |ops| > 0 && CalliOk(ops)
    ensures AtForm(ops[0]).Some? ==>
      ParseDec(AtForm(ops[0]).value.1).Some? && c == Callee(AtForm(ops[0]).value.0, ParseDec(AtForm(ops[0]).value.1).value)
    ensures AtForm(ops[0]).None? ==> SecondArity(ops).Some? && c.arity == SecondArity(ops).value
    ensures AtForm(ops[0]).None? && ParseHex(RemoveAll(ops[0], "H")).Some? ==>
      c.name == "func_" + Hex4(ParseHex(RemoveAll(ops[0], "H")).value)
    ensures AtForm(ops[0]).None? && ParseHex(RemoveAll(ops[0], "H")).None? ==> c.name == ops[0]
  {
    match AtForm(ops[0])
    case Some(p) => Callee(p.0, ParseDec(p.1).value)
    case None =>
      var name := match ParseHex(RemoveAll(ops[0], "H"))
        case Some(opcode) => "func_" + Hex4(opcode)
        case None => ops[0];
      Callee(name, SecondArity(ops).value)
  }

  /**
   * The argument loop of both call translators: up to n values come off the
   * stack, and the arguments keep the order in which they were pushed.
   */
  function PopArgs(stack: seq<string>, n: nat): (r: (seq<string>, seq<string>))
    ensures r.0 + r.1 == stack
    ensures |r.1| == Min(n, |stack|)
  {
    var k := Min(n, |stack|);
    SliceIs(stack, |stack| - k, |stack|);
    assert stack == stack[..|stack| - k] + stack[|stack| - k..];
    (stack[..|stack| - k], Slice(stack, |stack| - k, |stack|))
  }

  function CallExpr(name: string, args: seq<string>): string
  {
    name + "(" + Join(args, ", ") + ")"
  }

  /** The result of translating one instruction: the new stack and the line it returns. */
  datatype Step = Step(stack: seq<string>, line: Option<string>)

  /**
   * A call pushes `name(args)`; it is returned as a statement unless the next
   * instruction is a `pop`, which will assign it instead.
   */
  function Call(stack: seq<string>, callee: Callee, nextIsPop: bool): (r: Step)
    ensures |r.stack| == |stack| - Min(callee.arity, |stack|) + 1
  {
    var (rest, args) := PopArgs(stack, callee.arity);
    var e := CallExpr(callee.name, args);
    Step(rest + [e], if nextIsPop then None else Some(e))
  }

  /** Whether the instruction after position pc is a `pop`. */
  predicate NextIsPop(insts: seq<Instruction>, pc: nat)
  {
    pc + 1 < |insts| && insts[pc + 1].mnemonic == "pop"
  }

  function ArithSymbol(m: string): string
  {
    if m == "add" then "+" else if m == "sub" then "-" else if m == "mul" then "*" else if m == "div" then "//" else "%"
  }

  /** The two top values combined as `(left op right)`, the deeper value on the left. */
  function Combined(stack: seq<string>, op: string): string
    requires |stack| >= 2
  {
    "(" + stack[|stack| - 2] + " " + op + " " + stack[|stack| - 1] + ")"
  }

  /** The top two values replaced by `(left op right)`, the deeper value on the left. */
  function Binary(stack: seq<string>, op: string): (r: seq<string>)
    requires |stack| >= 2
    ensures |r| == |stack| - 1 && r[..|stack| - 2] == stack[..|stack| - 2]
  {
    stack[..|stack| - 2] + [Combined(stack, op)]
  }

  /**
   * `_translate_instruction`. The look-ahead of the call translators reads
   * the instruction after position pc, the translator's program counter,
   * which need not be the position of inst.
   */
  function Exec(insts: seq<Instruction>, pc: nat, stack: seq<string>, inst: Instruction): (r: Step)
    requires InstructionOk(inst)
  {
    var m := inst.mnemonic;
    var ops := inst.operands;
    if IsPush(m) then Step(stack + [PushedValue(inst)], None)
    else if m == "pop" then
      if |stack| > 0 && |ops| > 0 then Step(stack[..|stack| - 1], Some(ConvertVarName(ops[0]) + " = " + stack[|stack| - 1]))
      else Step(stack, None)
    else if m == "callis" then
      if |ops| == 0 then Step(stack, None) else Call(stack, ResolveCallis(ops), NextIsPop(insts, pc))
    else if m == "calli" then
      if |ops| == 0 then Step(stack, None) else Call(stack, ResolveCalli(ops), NextIsPop(insts, pc))
    else if IsArith(m) then
      Step(if |stack| >= 2 then Binary(stack, ArithSymbol(m)) else stack, None)
    else if m == "not" then
      Step(if |stack| > 0 then stack[..|stack| - 1] + ["not " + stack[|stack| - 1]] else stack, None)
    else if IsLogical(m) then
      Step(if |stack| >= 2 then Binary(stack, m) else stack, None)
    else if IsSilent(m) then Step(stack, None)
    else if m == "abrt" then Step(stack, Some("return"))
    else Step(stack, Some("-- " + m + " " + Join(ops, ", ")))
  }

  // ---------------------------------------------------------------------------
  // The stack effect of each mnemonic, stated independently
  // ---------------------------------------------------------------------------

  /** The callee of a call instruction that has operands. */
  function CalleeOf(inst: Instruction): Callee
    requires InstructionOk(inst) && (inst.mnemonic == "callis" || inst.mnemonic == "calli") && |inst.operands| > 0
  {
    if inst.mnemonic == "callis" then ResolveCallis(inst.operands) else ResolveCalli(inst.operands)
  }

  /** How many values an instruction takes off a stack of the given depth. */
  function Consumed(inst: Instruction, depth: nat): (k: nat)
    requires InstructionOk(inst)
    ensures k <= depth
  {
    var m := inst.mnemonic;
    if m == "pop" then (if depth > 0 && |inst.operands| > 0 then 1 else 0)
    else if (m == "callis" || m == "calli") && |inst.operands| > 0 then Min(CalleeOf(inst).arity, depth)
    else if IsArith(m) || IsLogical(m) then (if depth >= 2 then 2 else 0)
    else if m == "not" then (if depth > 0 then 1 else 0)
    else 0
  }

  /** How many values it puts back. */
  function Produced(inst: Instruction, depth: nat): nat
    requires InstructionOk(inst)
  {
    var m := inst.mnemonic;
    if IsPush(m) then 1
    else if (m == "callis" || m == "calli") && |inst.operands| > 0 then 1
    else if IsArith(m) || IsLogical(m) then (if depth >= 2 then 1 else 0)
    else if m == "not" then (if depth > 0 then 1 else 0)
    else 0
  }

  /** Whether `_translate_instruction` returns a line. */
  predicate EmitsLine(inst: Instruction, depth: nat, nextIsPop: bool)
  {
    var m := inst.mnemonic;
    || (m == "pop" && depth > 0 && |inst.operands| > 0)
    || ((m == "callis" || m == "calli") && |inst.operands| > 0 && !nextIsPop)
    || m == "abrt"
    || !(IsPush(m) || m == "pop" || m == "callis" || m == "calli" || IsArith(m) || m == "not" || IsLogical(m) || IsSilent(m))
  }

  /**
   * Every instruction takes Consumed values off the top, leaves the values
   * below them as they were, puts Produced values on top, and returns a line
   * exactly when EmitsLine says so.
   */
  lemma ExecStackEffect(insts: seq<Instruction>, pc: nat, stack: seq<string>, inst: Instruction)
    requires InstructionOk(inst)
    ensures var r := Exec(insts, pc, stack, inst);
      var k := Consumed(inst, |stack|);
      && |r.stack| == |stack| - k + Produced(inst, |stack|)
      && r.stack[..|stack| - k] == stack[..|stack| - k]
      && (r.line.Some? <==> EmitsLine(inst, |stack|, NextIsPop(insts, pc)))
  {
    var m := inst.mnemonic;
    if (m == "callis" || m == "calli") && |inst.operands| > 0 {
      CallStackEffect(insts, pc, stack, inst);
    } else if m == "pop" || m == "not" {
      PopNotStackEffect(insts, pc, stack, inst);
    } else {
      OtherStackEffect(insts, pc, stack, inst);
    }
  }

  lemma PopNotStackEffect(insts: seq<Instruction>, pc: nat, stack: seq<string>, inst: Instruction)
    requires InstructionOk(inst) && (inst.mnemonic == "pop" || inst.mnemonic == "not")
    ensures var r := Exec(insts, pc, stack, inst);
      var k := Consumed(inst, |stack|);
      && |r.stack| == |stack| - k + Produced(inst, |stack|)
      && r.stack[..|stack| - k] == stack[..|stack| - k]
      && (r.line.Some? <==> EmitsLine(inst, |stack|, NextIsPop(insts, pc)))
  {
    var r := Exec(insts, pc, stack, inst);
    if Consumed(inst, |stack|) == 1 {
      assert r.stack[..|stack| - 1] == stack[..|stack| - 1];
    }
  }

  lemma OtherStackEffect(insts: seq<Instruction>, pc: nat, stack: seq<string>, inst: Instruction)
    requires InstructionOk(inst) && inst.mnemonic != "pop" && inst.mnemonic != "not"
    requires !((inst.mnemonic == "callis" || inst.mnemonic == "calli") && |inst.operands| > 0)
    ensures var r := Exec(insts, pc, stack, inst);
      var k := Consumed(inst, |stack|);
      && |r.stack| == |stack| - k + Produced(inst, |stack|)
      && r.stack[..|stack| - k] == stack[..|stack| - k]
      && (r.line.Some? <==> EmitsLine(inst, |stack|, NextIsPop(insts, pc)))
  {
  }

  /** A call instruction with operands is a call of its callee. */
  lemma ExecCall(insts: seq<Instruction>, pc: nat, stack: seq<string>, inst: Instruction)
    requires InstructionOk(inst) && (inst.mnemonic == "callis" || inst.mnemonic == "calli") && |inst.operands| > 0
    ensures Exec(insts, pc, stack, inst) == Call(stack, CalleeOf(inst), NextIsPop(insts, pc))
  {
  }

  lemma CallStackEffect(insts: seq<Instruction>, pc: nat, stack: seq<string>, inst: Instruction)
    requires InstructionOk(inst) && (inst.mnemonic == "callis" || inst.mnemonic == "calli") && |inst.operands| > 0
    ensures var r := Exec(insts, pc, stack, inst);
      var k := Min(CalleeOf(inst).arity, |stack|);
      && |r.stack| == |stack| - k + 1
      && r.stack[..|stack| - k] == stack[..|stack| - k]
      && (r.line.Some? <==> !NextIsPop(insts, pc))
  {
    var callee := CalleeOf(inst);
    var (rest, args) := PopArgs(stack, callee.arity);
    var r := Call(stack, callee, NextIsPop(insts, pc));
    ExecCall(insts, pc, stack, inst);
    assert r.stack == rest + [CallExpr(callee.name, args)];
    assert r.stack[..|rest|] == rest;
  }

  /** A push followed by a `pop` into a slot assigns the pushed value to that slot's local. */
  lemma PushThenPopAssigns(insts: seq<Instruction>, pc: nat, stack: seq<string>, push: Instruction, idx: string)
    requires IsPush(push.mnemonic) && InstructionOk(push)
    ensures var pushed := Exec(insts, pc, stack, push);
      var popped := Exec(insts, pc + 1, pushed.stack, Instruction(0, 0, [], "pop", ["[" + idx + "]"], None));
      && pushed.line.None?
      && popped.stack == stack
      && popped.line == Some("var_" + idx + " = " + PushedValue(push))
  {
    SlotNamesLocal(idx);
    var s := stack + [PushedValue(push)];
    assert s[..|s| - 1] == stack;
  }

  /**
   * A call with n arguments after n pushed values replaces exactly those
   * values by one call expression whose arguments are in push order.
   */
  lemma CallTakesPushedArguments(stack: seq<string>, values: seq<string>, callee: Callee, nextIsPop: bool)
    requires callee.arity == |values|
    ensures Call(stack + values, callee, nextIsPop).stack == stack + [CallExpr(callee.name, values)]
  {
    var s := stack + values;
    assert s[..|s| - |values|] == stack;
    assert s[|s| - |values|..] == values;
  }

  /** Popping arguments from a stack shorter than the argument count empties it. */
  lemma CallOnShortStack(stack: seq<string>, callee: Callee, nextIsPop: bool)
    requires callee.arity >= |stack|
    ensures Call(stack, callee, nextIsPop).stack == [CallExpr(callee.name, stack)]
  {
    assert stack[|stack| - |stack|..] == stack;
  }

  /** A `callis` on a mapped opcode takes its name and argument count from INTRINSIC_MAP. */
  lemma CallisUsesIntrinsicMap(ops: seq<string>, opcode: nat)
    requires |ops| > 0 && AtForm(ops[0]).None? && CallisOpcode(ops[0]) == Some(opcode)
    requires IntrinsicEntry(opcode).Some?
    ensures CallisOk(ops)
    ensures ResolveCallis(ops) == Callee(IntrinsicEntry(opcode).value.name, IntrinsicEntry(opcode).value.arity)
  {
  }

  /** Comparisons, jumps and `ret` leave the stack alone and produce no line. */
  lemma SilentInstruction(insts: seq<Instruction>, pc: nat, stack: seq<string>, inst: Instruction)
    requires InstructionOk(inst) && IsSilent(inst.mnemonic)
    ensures Exec(insts, pc, stack, inst) == Step(stack, None)
  {
  }

  /** `abrt` becomes `return` and leaves the stack alone. */
  lemma AbortReturns(insts: seq<Instruction>, pc: nat, stack: seq<string>, inst: Instruction)
    requires inst.mnemonic == "abrt"
    ensures Exec(insts, pc, stack, inst) == Step(stack, Some("return"))
  {
  }

  /** The mnemonics `_translate_instruction` has no case for. */
  predicate IsUnknown(m: string)
  {
    !(IsPush(m) || m == "pop" || m == "callis" || m == "calli" || IsArith(m) || m == "not" || IsLogical(m) || IsSilent(m) || m == "abrt")
  }

  /**
   * `add`, `sub`, `mul`, `div` and `mod` replace the top two values by
   * `(left op right)` with the operator of ArithSymbol; with fewer than two
   * values they do nothing. Neither returns a line.
   */
  lemma ExecArith(insts: seq<Instruction>, pc: nat, stack: seq<string>, inst: Instruction)
    requires InstructionOk(inst) && IsArith(inst.mnemonic)
    ensures |stack| >= 2 ==>
      Exec(insts, pc, stack, inst) == Step(stack[..|stack| - 2] + [Combined(stack, ArithSymbol(inst.mnemonic))], None)
    ensures |stack| < 2 ==> Exec(insts, pc, stack, inst) == Step(stack, None)
  {
    var m := inst.mnemonic;
    assert !IsPush(m) && m != "pop" && m != "callis" && m != "calli";
  }

  /** Integer division is Lua's floor division `//`, and the other operators keep their symbols. */
  lemma ArithSymbols()
    ensures ArithSymbol("add") == "+" && ArithSymbol("sub") == "-" && ArithSymbol("mul") == "*"
    ensures ArithSymbol("div") == "//" && ArithSymbol("mod") == "%"
  {
  }

  /** `div` on `a, b` leaves `(a // b)`. */
  lemma ExecDiv(insts: seq<Instruction>, pc: nat, below: seq<string>, a: string, b: string, inst: Instruction)
    requires InstructionOk(inst) && inst.mnemonic == "div"
    ensures Exec(insts, pc, below + [a, b], inst) == Step(below + ["(" + a + " // " + b + ")"], None)
  {
    var stack := below + [a, b];
    ExecArith(insts, pc, stack, inst);
    assert stack[..|stack| - 2] == below;
    assert stack[|stack| - 2] == a && stack[|stack| - 1] == b;
    assert ArithSymbol("div") == "//";
    assert Combined(stack, "//") == "(" + a + " // " + b + ")";
  }

  /** `and` and `or` replace the top two values by `(left and right)` or `(left or right)`. */
  lemma ExecLogical(insts: seq<Instruction>, pc: nat, stack: seq<string>, inst: Instruction)
    requires InstructionOk(inst) && IsLogical(inst.mnemonic)
    ensures |stack| >= 2 ==>
      Exec(insts, pc, stack, inst) == Step(stack[..|stack| - 2] + [Combined(stack, inst.mnemonic)], None)
    ensures |stack| < 2 ==> Exec(insts, pc, stack, inst) == Step(stack, None)
  {
    var m := inst.mnemonic;
    assert !IsPush(m) && m != "pop" && m != "callis" && m != "calli" && !IsArith(m) && m != "not";
  }

  /** `not` replaces the top value e by `not e`, and does nothing on an empty stack. */
  lemma ExecNot(insts: seq<Instruction>, pc: nat, stack: seq<string>, inst: Instruction)
    requires InstructionOk(inst) && inst.mnemonic == "not"
    ensures |stack| > 0 ==> Exec(insts, pc, stack, inst) == Step(stack[..|stack| - 1] + ["not " + stack[|stack| - 1]], None)
    ensures |stack| == 0 ==> Exec(insts, pc, stack, inst) == Step(stack, None)
  {
    var m := inst.mnemonic;
    assert !IsPush(m) && m != "pop" && m != "callis" && m != "calli" && !IsArith(m);
  }

  /** An instruction without a translation becomes the comment `-- <mnemonic> <operands>`, the stack untouched. */
  lemma ExecUnknown(insts: seq<Instruction>, pc: nat, stack: seq<string>, inst: Instruction)
    requires InstructionOk(inst) && IsUnknown(inst.mnemonic)
    ensures Exec(insts, pc, stack, inst) == Step(stack, Some("-- " + inst.mnemonic + " " + Join(inst.operands, ", ")))
  {
  }

  /** A `pop` into a slot assigns the top value to that slot's name and removes it. */
  lemma ExecPop(insts: seq<Instruction>, pc: nat, stack: seq<string>, inst: Instruction)
    requires InstructionOk(inst) && inst.mnemonic == "pop"
    ensures |stack| > 0 && |inst.operands| > 0 ==>
      Exec(insts, pc, stack, inst) == Step(stack[..|stack| - 1], Some(ConvertVarName(inst.operands[0]) + " = " + stack[|stack| - 1]))
    ensures !(|stack| > 0 && |inst.operands| > 0) ==> Exec(insts, pc, stack, inst) == Step(stack, None)
  {
    assert !IsPush(inst.mnemonic);
  }

  /** A push is neither a `pop`, a comparison nor a jump. */
  lemma PushIsNotControl(m: string)
    requires IsPush(m)
    ensures m != "pop" && !IsCompare(m) && !IsJump(m)
  {
  }
}
