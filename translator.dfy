/**
 * `BytecodeTranslator` of bytecode_translator_v3.py: one object per usecode
 * function, whose fields `stack`, `lines`, `pc` and `indentLevel` the
 * methods update in place while `translate` walks the instruction list. Every
 * method is proved to leave the fields exactly as the functions of
 * translation.dfy and stacksim.dfy say, so the properties proved there hold
 * of the object.
 */
module Translator {
  import opened Text
  import opened Usecode
  import opened StackSim
  import opened Translation

  class BytecodeTranslator {
    /** `func.instructions`, read-only during translation. */
    const insts: seq<Instruction>
    /** The simulated stack of Lua expressions (`StackValue.expr`), top last. */
    var stack: seq<string>
    /** The Lua lines emitted so far, indentation included. */
    var lines: seq<string>
    /** The program counter: the index of the instruction being translated. */
    var pc: nat
    var indentLevel: int

    /** The fields as the state the specification functions work on. */
    function State(): TState
      reads this
    {
      TState(stack, lines, pc, indentLevel)
    }

    /** Every operand the translator reads with `int()` is readable, and pc is in range. */
    ghost predicate Valid()
      reads this
    {
      WellFormed(insts) && pc <= |insts|
    }

    /** `BytecodeTranslator(func)`: empty stack and output, pc 0, indentation level 1. */
    constructor(func: UsecodeFunction)
      requires WellFormed(func.instructions)
      ensures insts == func.instructions
      ensures State() == TState([], [], 0, 1) && Valid()
    {
      insts := func.instructions;
      stack := [];
      lines := [];
      indentLevel := 1;
      pc := 0;
    }

    /**
     * `translate`: the output, pc and stack start afresh (the indentation
     * level is kept), and the loop translates up to the end of the
     * instructions, offering each position to the if-matcher first.
     */
    method Translate() returns (result: seq<string>)
      requires Valid()
      modifies this
      ensures Valid()
      ensures State() == Run(insts, TState([], [], 0, old(indentLevel)))
      ensures result == lines
    {
      lines := [];
      pc := 0;
      stack := [];
      ghost var start := State();
      while pc < |insts|
        invariant Valid()
        invariant Run(insts, State()) == Run(insts, start)
        decreases |insts| - pc
      {
        RunContinues(insts, State());
        TranslateNext();
      }
      result := lines;
    }

    /**
     * One round of the loops of `translate` and `_try_translate_if`: the
     * position is offered to the if-matcher first and, when no if is made,
     * the instruction fetched before the offer is translated and pc moves
     * one past wherever the attempt left it.
     */
    method TranslateNext()
      requires Valid() && pc < |insts|
      modifies this
      ensures Valid()
      ensures State() == NextState(insts, old(State()))
      decreases |insts| - pc, 2
    {
      var inst := insts[pc];
      ghost var before := State();
      var matched := TryTranslateIf();
      if matched {
        NextStateMatched(insts, before);
        return;
      }
      NextStateUnmatched(insts, before);
      EmitInstruction(inst);
      pc := pc + 1;
    }

    /**
     * `_try_translate_if`: looks for `push..., cmpXX, jne|je` in the next
     * four instructions and, when it finds two pushes right before the
     * comparison, emits the if, its body up to the jump target, and `end`.
     * The statements before the pushes are translated before the number of
     * pushes is checked, so an attempt that gives up may have advanced pc.
     */
    method TryTranslateIf() returns (matched: bool)
      requires Valid()
      modifies this
      ensures Valid()
      ensures IfResult(matched, State()) == TryIf(insts, old(State()))
      decreases |insts| - pc, 1
    {
      if pc + 3 >= |insts| {
        return false;
      }
      ghost var entry := State();
      var cmpIdx, jumpIdx := FindPattern();
      if cmpIdx == -1 || jumpIdx == -1 {
        return false;
      }
      TryIfFound(insts, entry, cmpIdx);
      matched := TranslateIfAt(cmpIdx);
    }

    /**
     * The comparison found at cmpIdx: the statements before its pushes are
     * translated, the pushes are simulated on a list of their own, and with
     * two values the if is made.
     */
    method TranslateIfAt(cmpIdx: nat) returns (matched: bool)
      requires Valid() && pc <= cmpIdx && cmpIdx + 1 < |insts|
      requires IsCompare(insts[cmpIdx].mnemonic) && IsCondJump(insts[cmpIdx + 1].mnemonic)
      modifies this
      ensures Valid()
      ensures IfResult(matched, State()) == TryAt(insts, old(State()), cmpIdx)
      decreases |insts| - cmpIdx - 1, 2
    {
      ghost var entry := State();
      var builderStart := FindBuilderStart(cmpIdx);
      TranslatePrefix(builderStart);
      ghost var prefix := State();
      assert prefix == TranslateUpTo(insts, entry, builderStart);
      matched := TranslateGuardedIf(builderStart, cmpIdx);
      assert IfResult(matched, State()) == GuardedIf(insts, prefix, builderStart, cmpIdx);
    }

    /**
     * The guard's pushes from lo simulated on `temp_stack`; with two values
     * the if is made, with fewer nothing more happens.
     */
    method TranslateGuardedIf(lo: nat, cmpIdx: nat) returns (matched: bool)
      requires Valid() && lo <= cmpIdx && cmpIdx + 1 < |insts| && IsCondJump(insts[cmpIdx + 1].mnemonic)
      modifies this
      ensures Valid()
      ensures IfResult(matched, State()) == GuardedIf(insts, old(State()), lo, cmpIdx)
      decreases |insts| - cmpIdx - 1, 1
    {
      var tempStack := BuildGuardValues(lo, cmpIdx);
      if |tempStack| < 2 {
        return false;
      }
      var condition := MakeCondition(lo, cmpIdx, tempStack);
      TranslateIfStatement(cmpIdx, condition);
      return true;
    }

    /** The condition from the last two values of `temp_stack`, the comparison and the jump. */
    method MakeCondition(lo: nat, cmpIdx: nat, tempStack: seq<string>) returns (condition: string)
      requires WellFormed(insts) && lo <= cmpIdx && cmpIdx + 1 < |insts|
      requires tempStack == TempStack(insts, lo, cmpIdx) && |tempStack| >= 2
      ensures condition == GuardCondition(insts, lo, cmpIdx)
    {
      var right := tempStack[|tempStack| - 1];
      var left := tempStack[|tempStack| - 2];
      var cmpInst := insts[cmpIdx];
      var jumpInst := insts[cmpIdx + 1];
      condition := Condition(left, right, cmpInst.mnemonic, jumpInst.mnemonic);
    }

    /** The if itself: header, body one level deeper up to the jump target, and `end`. */
    method TranslateIfStatement(cmpIdx: nat, condition: string)
      requires Valid() && cmpIdx + 1 < |insts| && IsCondJump(insts[cmpIdx + 1].mnemonic)
      modifies this
      ensures Valid()
      ensures State() == IfStatement(insts, old(State()), cmpIdx, condition)
      decreases |insts| - cmpIdx - 1, 0
    {
      OpenIfStatement(cmpIdx, condition);
      TranslateBody(JumpTarget(insts[cmpIdx + 1]));
      CloseIfStatement();
    }

    /** The header line, one level deeper, and pc past the jump. */
    method OpenIfStatement(cmpIdx: nat, condition: string)
      requires Valid() && cmpIdx + 1 < |insts|
      modifies this
      ensures Valid()
      ensures State() == OpenIf(old(State()), cmpIdx, condition)
    {
      lines := lines + [Indent(indentLevel, "if " + condition + " then")];
      indentLevel := indentLevel + 1;
      pc := cmpIdx + 2;
    }

    /** One level back, and `end`. */
    method CloseIfStatement()
      modifies this`indentLevel, this`lines
      ensures State() == CloseIf(old(State()))
    {
      indentLevel := indentLevel - 1;
      lines := lines + [Indent(indentLevel, "end")];
    }

    /**
     * The look-ahead of `_try_translate_if`: the index of the first
     * comparison among the next four instructions that is directly followed
     * by `jne` or `je`, and that jump's index; -1 for the jump when a `pop`
     * comes first or there is no such comparison.
     */
    method FindPattern() returns (cmpIdx: int, jumpIdx: int)
      requires pc + 3 < |insts|
      ensures jumpIdx != -1 <==> FindCompare(insts, pc, 0).Some?
      ensures jumpIdx != -1 ==> cmpIdx == FindCompare(insts, pc, 0).value && jumpIdx == cmpIdx + 1
    {
      cmpIdx := -1;
      jumpIdx := -1;
      var offset := 0;
      var limit := Min(4, |insts| - pc);
      while offset < limit
        invariant limit == 4 && 0 <= offset <= 4
        invariant jumpIdx == -1
        invariant FindCompare(insts, pc, offset) == FindCompare(insts, pc, 0)
        decreases limit - offset
      {
        var inst := insts[pc + offset];
        if inst.mnemonic == "pop" {
          return -1, -1;
        }
        if IsCompare(inst.mnemonic) {
          cmpIdx := pc + offset;
          if offset + 1 < |insts| - pc {
            var nextInst := insts[pc + offset + 1];
            if IsCondJump(nextInst.mnemonic) {
              jumpIdx := pc + offset + 1;
              return;
            }
          }
        }
        offset := offset + 1;
      }
    }

    /**
     * Walking back from the comparison over at most two pushes, not before
     * pc: the index of the first instruction that builds the guard.
     */
    method FindBuilderStart(cmpIdx: nat) returns (builderStart: nat)
      requires pc <= cmpIdx < |insts|
      ensures builderStart == cmpIdx - BuilderCount(insts, pc, cmpIdx)
    {
      var stackOpsNeeded := 2;
      var start: int := cmpIdx - 1;
      var valuesFound := 0;
      while start >= pc && valuesFound < stackOpsNeeded
        invariant pc - 1 <= start <= cmpIdx - 1
        invariant valuesFound == cmpIdx - 1 - start && valuesFound <= 2
        invariant forall j :: start < j < cmpIdx ==> IsPush(insts[j].mnemonic)
        decreases start - pc + 1
      {
        if IsPush(insts[start].mnemonic) {
          valuesFound := valuesFound + 1;
          start := start - 1;
        } else {
          break;
        }
      }
      builderStart := start + 1;
    }

    /** The instructions from pc up to stop, translated as ordinary statements. */
    method TranslatePrefix(stop: nat)
      requires Valid() && pc <= stop <= |insts|
      modifies this
      ensures Valid()
      ensures State() == Translation.TranslateUpTo(insts, old(State()), stop)
    {
      ghost var entry := State();
      while pc < stop
        invariant Valid() && pc <= stop && indentLevel == entry.indent
        invariant Translation.TranslateUpTo(insts, State(), stop) == Translation.TranslateUpTo(insts, entry, stop)
        decreases stop - pc
      {
        TranslateUpToContinues(insts, State(), stop);
        TranslatePlain();
      }
      TranslateUpToStops(insts, State());
    }

    /** The instruction at pc translated as a statement, and pc moved past it. */
    method TranslatePlain()
      requires Valid() && pc < |insts|
      modifies this
      ensures Valid()
      ensures State() == Advance(insts, old(State()))
    {
      EmitInstruction(insts[pc]);
      pc := pc + 1;
    }

    /**
     * The statement part of each loop: the instruction is translated and a
     * non-empty line is appended at the current indentation.
     */
    method EmitInstruction(inst: Instruction)
      requires InstructionOk(inst)
      modifies this`stack, this`lines
      ensures State() == Emit(insts, old(State()), inst)
    {
      var line := TranslateInstruction(inst);
      if line.Some? && |line.value| > 0 {
        lines := lines + [Indent(indentLevel, line.value)];
      }
    }

    /** `temp_stack`: the guard's pushes simulated on a list of their own. */
    method BuildGuardValues(lo: nat, hi: nat) returns (tempStack: seq<string>)
      requires WellFormed(insts) && lo <= hi <= |insts|
      ensures tempStack == TempStack(insts, lo, hi)
    {
      tempStack := [];
      var idx := lo;
      while idx < hi
        invariant lo <= idx <= hi
        invariant TempStackOnto(insts, idx, hi, tempStack) == TempStack(insts, lo, hi)
        decreases hi - idx
      {
        tempStack := ProcessStackOp(tempStack, insts[idx]);
        idx := idx + 1;
      }
    }

    /**
     * The body loop of `_try_translate_if`: up to the end of the
     * instructions or the first instruction at or beyond the target, each
     * position is offered to a nested if first, and otherwise the
     * instruction fetched before the offer is translated.
     */
    method TranslateBody(targetAddr: nat)
      requires Valid()
      modifies this
      ensures Valid()
      ensures State() == Body(insts, old(State()), targetAddr)
      decreases |insts| - pc, 3
    {
      ghost var head := State();
      while pc < |insts|
        invariant Valid() && head.pc <= pc && indentLevel == head.indent
        invariant Body(insts, State(), targetAddr) == Body(insts, head, targetAddr)
        decreases |insts| - pc
      {
        var inst := insts[pc];
        if inst.address >= targetAddr {
          BodyStops(insts, State(), targetAddr);
          break;
        }
        BodyContinues(insts, State(), targetAddr);
        TranslateNext();
      }
      if pc >= |insts| {
        BodyStops(insts, State(), targetAddr);
      }
    }

    /**
     * `_translate_instruction`: the stack and the returned line are those of
     * Exec, with the call translators looking ahead from the current pc.
     */
    method TranslateInstruction(inst: Instruction) returns (line: Option<string>)
      requires InstructionOk(inst)
      modifies this`stack
      ensures Step(stack, line) == Exec(insts, pc, old(stack), inst)
    {
      var m := inst.mnemonic;
      var ops := inst.operands;
      if m == "push" {
        var varName := ConvertVarName(if |ops| > 0 then ops[0] else "unknown");
        stack := stack + [varName];
        line := None;
      } else if m == "pushi" {
        var value := if |ops| > 0 then ops[0] else "0";
        if 'H' in value {
          value := DecimalString(ParseHex(RemoveAll(value, "H")).value);
        }
        stack := stack + [value];
        line := None;
      } else if m == "pushs" {
        var labelName := if |ops| > 0 then ops[0] else "L0000";
        stack := stack + ["str_" + labelName];
        line := None;
      } else if m == "pop" {
        line := None;
        if |stack| > 0 && |ops| > 0 {
          var value := stack[|stack| - 1];
          stack := stack[..|stack| - 1];
          line := Some(ConvertVarName(ops[0]) + " = " + value);
        }
      } else if m == "callis" {
        line := TranslateCallis(inst);
      } else if m == "calli" {
        line := TranslateCalli(inst);
      } else if IsArith(m) {
        if |stack| >= 2 {
          var right := stack[|stack| - 1];
          var left := stack[|stack| - 2];
          stack := stack[..|stack| - 2] + ["(" + left + " " + ArithSymbol(m) + " " + right + ")"];
        }
        line := None;
      } else if m == "not" {
        if |stack| > 0 {
          var value := stack[|stack| - 1];
          stack := stack[..|stack| - 1] + ["not " + value];
        }
        line := None;
      } else if IsLogical(m) {
        if |stack| >= 2 {
          var right := stack[|stack| - 1];
          var left := stack[|stack| - 2];
          stack := stack[..|stack| - 2] + ["(" + left + " " + m + " " + right + ")"];
        }
        line := None;
      } else if IsCompare(m) || IsJump(m) {
        line := None;
      } else if m == "ret" {
        line := None;
      } else if m == "abrt" {
        line := Some("return");
      } else {
        line := Some("-- " + m + " " + Join(ops, ", "));
      }
    }

    /**
     * `_translate_callis`: the callee from the `name@n` form or INTRINSIC_MAP,
     * its arguments off the stack, the call pushed, and the call returned as
     * a statement unless the next instruction is a `pop`.
     */
    method TranslateCallis(inst: Instruction) returns (line: Option<string>)
      requires inst.mnemonic == "callis" && InstructionOk(inst)
      modifies this`stack
      ensures Step(stack, line) == Exec(insts, pc, old(stack), inst)
    {
      if |inst.operands| == 0 {
        return None;
      }
      ExecCall(insts, pc, stack, inst);
      var callee := ResolveCallis(inst.operands);
      line := EmitCall(callee);
    }

    /** `_translate_calli`: as `callis`, with `func_XXXX` names for internal functions. */
    method TranslateCalli(inst: Instruction) returns (line: Option<string>)
      requires inst.mnemonic == "calli" && InstructionOk(inst)
      modifies this`stack
      ensures Step(stack, line) == Exec(insts, pc, old(stack), inst)
    {
      if |inst.operands| == 0 {
        return None;
      }
      ExecCall(insts, pc, stack, inst);
      var callee := ResolveCalli(inst.operands);
      line := EmitCall(callee);
    }

    /** The part both call translators share once the callee is known. */
    method EmitCall(callee: Callee) returns (line: Option<string>)
      modifies this`stack
      ensures Step(stack, line) == Call(old(stack), callee, NextIsPop(insts, pc))
    {
      var args := PopArguments(callee.arity);
      var callExpr := CallExpr(callee.name, args);
      stack := stack + [callExpr];
      if pc + 1 < |insts| {
        var nextInst := insts[pc + 1];
        if nextInst.mnemonic == "pop" {
          return None;
        }
      }
      return Some(callExpr);
    }

    /**
     * The argument loop: n times, a value comes off the stack if there is
     * one and is put in front of the arguments taken so far.
     */
    method PopArguments(n: nat) returns (args: seq<string>)
      modifies this`stack
      ensures (stack, args) == PopArgs(old(stack), n)
    {
      args := [];
      var i := 0;
      while i < n
        invariant 0 <= i <= n
        invariant stack + args == old(stack)
        invariant |args| == Min(i, |old(stack)|)
        decreases n - i
      {
        if |stack| > 0 {
          args := [stack[|stack| - 1]] + args;
          stack := stack[..|stack| - 1];
        }
        i := i + 1;
      }
    }
  }

  /** `translate_function`: a fresh translator's output. */
  method TranslateFunction(func: UsecodeFunction) returns (lines: seq<string>)
    requires WellFormed(func.instructions)
    ensures lines == Translation.Translate(func.instructions)
  {
    var translator := new BytecodeTranslator(func);
    lines := translator.Translate();
  }
}
