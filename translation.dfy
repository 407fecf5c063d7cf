/**
 * The translation loop of bytecode_translator_v3.py as functions over a
 * translator state: `translate` (Run), `_try_translate_if` (TryIf) and the
 * loop over an if's body (Body). The class in translator.dfy is proved to
 * compute exactly these functions.
 */
module Translation {
  import opened Text
  import opened Usecode
  import opened StackSim

  /** The fields of the translator that change while it runs. */
  datatype TState = TState(stack: seq<string>, lines: seq<string>, pc: nat, indent: int)

  /** The answer of `_try_translate_if` and the state it leaves behind. */
  datatype IfResult = IfResult(matched: bool, st: TState)

  /** `b` is `a` with lines appended at the end: the output only grows. */
  predicate Extends(a: seq<string>, b: seq<string>)
  {
    |a| <= |b| && b[..|a|] == a
  }

  /**
   * Translating inst with the translator's program counter at st.pc: the
   * stack changes as `_translate_instruction` says, and a non-empty line is
   * appended at the current indentation.
   */
  function Emit(insts: seq<Instruction>, st: TState, inst: Instruction): (r: TState)
    requires InstructionOk(inst)
    ensures r.pc == st.pc && r.indent == st.indent
  {
    var s := Exec(insts, st.pc, st.stack, inst);
    var lines := if s.line.Some? && |s.line.value| > 0 then st.lines + [Indent(st.indent, s.line.value)] else st.lines;
    TState(s.stack, lines, st.pc, st.indent)
  }

  /** One plain step: the instruction at pc is translated and pc moves past it. */
  function Advance(insts: seq<Instruction>, st: TState): (r: TState)
    requires WellFormed(insts) && st.pc < |insts|
    ensures r.pc == st.pc + 1 && r.indent == st.indent
  {
    Emit(insts, st, insts[st.pc]).(pc := st.pc + 1)
  }

  /** The plain steps from pc up to stop (the statements before an if's stack builders). */
  function TranslateUpTo(insts: seq<Instruction>, st: TState, stop: nat): (r: TState)
    requires WellFormed(insts) && st.pc <= stop <= |insts|
    ensures r.pc == stop && r.indent == st.indent
    decreases stop - st.pc
  {
    if st.pc < stop then TranslateUpTo(insts, Advance(insts, st), stop) else st
  }

  // ---------------------------------------------------------------------------
  // Recognising `push, push, cmpXX, jne/je`
  // ---------------------------------------------------------------------------

  /**
   * The look-ahead of `_try_translate_if`: the first of the four positions
   * pc..pc+3 holding a comparison directly followed by a conditional jump,
   * unless a `pop` comes first.
   */
  function FindCompare(insts: seq<Instruction>, pc: nat, offset: nat): (r: Option<nat>)
    requires pc + 3 < |insts|
    ensures r.Some? ==> pc + offset <= r.value <= pc + 3 && r.value + 1 < |insts|
    ensures r.Some? ==> IsCompare(insts[r.value].mnemonic) && IsCondJump(insts[r.value + 1].mnemonic)
    ensures r.Some? ==> forall j :: pc + offset <= j <= r.value ==> insts[j].mnemonic != "pop"
    decreases 4 - offset
  {
    if offset >= 4 then None
    else
      var inst := insts[pc + offset];
      if inst.mnemonic == "pop" then None
      else if IsCompare(inst.mnemonic) && offset + 1 < |insts| - pc && IsCondJump(insts[pc + offset + 1].mnemonic) then
        Some(pc + offset)
      else FindCompare(insts, pc, offset + 1)
  }

  /** A comparison at j directly followed by a conditional jump. */
  predicate CompareAt(insts: seq<Instruction>, j: nat)
  {
    j + 1 < |insts| && IsCompare(insts[j].mnemonic) && IsCondJump(insts[j + 1].mnemonic)
  }

  /** No `pop` at the positions lo..hi-1. */
  predicate NoPopIn(insts: seq<Instruction>, lo: nat, hi: nat)
    requires hi <= |insts|
  {
    forall p :: lo <= p < hi ==> insts[p].mnemonic != "pop"
  }

  /** The look-ahead finds the first comparison-and-jump of its window. */
  lemma {:induction false} FindCompareFirst(insts: seq<Instruction>, pc: nat, offset: nat)
    requires pc + 3 < |insts|
    ensures FindCompare(insts, pc, offset).Some? ==>
      forall j :: pc + offset <= j < FindCompare(insts, pc, offset).value ==> !CompareAt(insts, j)
    decreases 4 - offset
  {
    if offset < 4 {
      FindCompareFirst(insts, pc, offset + 1);
    }
  }

  /** It finds one whenever the window holds one with no `pop` before it. */
  lemma {:induction false} FindCompareComplete(insts: seq<Instruction>, pc: nat, offset: nat)
    requires pc + 3 < |insts|
    ensures forall j :: pc + offset <= j <= pc + 3 && CompareAt(insts, j) && NoPopIn(insts, pc + offset, j) ==>
      FindCompare(insts, pc, offset).Some?
    decreases 4 - offset
  {
    if offset < 4 {
      FindCompareComplete(insts, pc, offset + 1);
      var i := pc + offset;
      if insts[i].mnemonic == "pop" {
        assert forall j :: i < j <= pc + 3 ==> !NoPopIn(insts, i, j);
      }
    }
  }

  /** How many of the (at most two) instructions right before the comparison, not before pc, are pushes. */
  function BuilderCount(insts: seq<Instruction>, pc: nat, cmp: nat): (k: nat)
    requires pc <= cmp < |insts|
    ensures k <= 2 && pc <= cmp - k
    ensures forall j :: cmp - k <= j < cmp ==> IsPush(insts[j].mnemonic)
  {
    if cmp >= pc + 1 && IsPush(insts[cmp - 1].mnemonic) then
      if cmp >= pc + 2 && IsPush(insts[cmp - 2].mnemonic) then 2 else 1
    else 0
  }

  /** `temp_stack`: the values the instructions lo..hi-1 push onto an empty list. */
  function TempStack(insts: seq<Instruction>, lo: nat, hi: nat): (r: seq<string>)
    requires WellFormed(insts) && lo <= hi <= |insts|
  {
    TempStackOnto(insts, lo, hi, [])
  }

  function TempStackOnto(insts: seq<Instruction>, lo: nat, hi: nat, acc: seq<string>): (r: seq<string>)
    requires WellFormed(insts) && lo <= hi <= |insts|
    decreases hi - lo
  {
    if lo < hi then TempStackOnto(insts, lo + 1, hi, ProcessStackOp(acc, insts[lo])) else acc
  }

  /** The Lua operator for a comparison mnemonic. */
  function CompareOp(m: string): string
  {
    if m == "cmpeq" then "==" else if m == "cmpne" then "~=" else if m == "cmplt" then "<"
    else if m == "cmple" then "<=" else if m == "cmpgt" then ">" else if m == "cmpge" then ">="
    else "=="
  }

  /** The operator of the negated comparison; anything else is left as it is. */
  function InvertOp(op: string): string
  {
    if op == "==" then "~=" else if op == "~=" then "==" else if op == "<" then ">="
    else if op == ">=" then "<" else if op == ">" then "<=" else if op == "<=" then ">"
    else op
  }

  /**
   * The condition of the if: the comparison as written before `jne` (which
   * jumps past the body when it fails), negated before `je`.
   */
  function Condition(left: string, right: string, cmp: string, jump: string): string
  {
    left + " " + ConditionOp(cmp, jump) + " " + right
  }

  function ConditionOp(cmp: string, jump: string): string
  {
    if jump == "jne" then CompareOp(cmp) else InvertOp(CompareOp(cmp))
  }

  /** The jump target: where control goes when the condition is false. */
  function JumpTarget(inst: Instruction): nat
    requires InstructionOk(inst) && IsCondJump(inst.mnemonic)
  {
    ParseHex(inst.operands[0]).value
  }

  /**
   * `_try_translate_if`. When no pattern is found the state is unchanged,
   * except in one case the source has: the pattern is found but fewer than
   * two pushes precede the comparison, and then the statements before the
   * pushes have already been translated when it gives up.
   */
  function TryIf(insts: seq<Instruction>, st: TState): (r: IfResult)
    requires WellFormed(insts) && st.pc <= |insts|
    ensures st.pc <= r.st.pc <= |insts|
    ensures r.matched ==> st.pc < r.st.pc
    ensures !r.matched && st.pc < |insts| ==> r.st.pc < |insts|
    ensures r.st.indent == st.indent
    decreases |insts| - st.pc, 1
  {
    if st.pc + 3 >= |insts| then IfResult(false, st)
    else match FindCompare(insts, st.pc, 0)
      case None => IfResult(false, st)
      case Some(cmp) => TryAt(insts, st, cmp)
  }

  /**
   * The comparison found at cmp: the statements before its pushes are
   * translated, then the attempt goes on from there.
   */
  function TryAt(insts: seq<Instruction>, st: TState, cmp: nat): (r: IfResult)
    requires WellFormed(insts) && st.pc <= cmp && cmp + 1 < |insts|
    requires IsCompare(insts[cmp].mnemonic) && IsCondJump(insts[cmp + 1].mnemonic)
    ensures st.pc <= r.st.pc <= |insts|
    ensures r.matched ==> st.pc < r.st.pc
    ensures !r.matched ==> r.st.pc <= cmp
    ensures r.st.indent == st.indent
    decreases |insts| - cmp - 1, 2
  {
    GuardedIf(insts, TranslateUpTo(insts, st, cmp - BuilderCount(insts, st.pc, cmp)), cmp - BuilderCount(insts, st.pc, cmp), cmp)
  }

  /**
   * After the statements before the pushes: the pushes from start are
   * simulated on `temp_stack`, and with at least two values the if is made;
   * with fewer the attempt gives up where it stands.
   */
  function GuardedIf(insts: seq<Instruction>, pre: TState, start: nat, cmp: nat): (r: IfResult)
    requires WellFormed(insts) && start <= cmp && cmp + 1 < |insts| && IsCondJump(insts[cmp + 1].mnemonic)
    ensures r.matched ==> cmp + 2 <= r.st.pc <= |insts|
    ensures !r.matched ==> r.st == pre
    ensures r.st.indent == pre.indent
    decreases |insts| - cmp - 1, 1
  {
    if |TempStack(insts, start, cmp)| < 2 then IfResult(false, pre)
    else IfResult(true, IfStatement(insts, pre, cmp, GuardCondition(insts, start, cmp)))
  }

  /** The condition made of the last two values of `temp_stack` and the comparison and jump at cmp. */
  function GuardCondition(insts: seq<Instruction>, start: nat, cmp: nat): string
    requires WellFormed(insts) && start <= cmp && cmp + 1 < |insts| && |TempStack(insts, start, cmp)| >= 2
  {
    var temp := TempStack(insts, start, cmp);
    Condition(temp[|temp| - 2], temp[|temp| - 1], insts[cmp].mnemonic, insts[cmp + 1].mnemonic)
  }

  /**
   * The matched if: its header at the current indentation, the body one
   * level deeper from the instruction after the jump, then `end`.
   */
  function IfStatement(insts: seq<Instruction>, pre: TState, cmp: nat, cond: string): (r: TState)
    requires WellFormed(insts) && cmp + 1 < |insts| && IsCondJump(insts[cmp + 1].mnemonic)
    ensures cmp + 2 <= r.pc <= |insts| && r.indent == pre.indent
    ensures r.pc == |insts| || insts[r.pc].address >= JumpTarget(insts[cmp + 1])
    decreases |insts| - cmp - 1, 0
  {
    CloseIf(Body(insts, OpenIf(pre, cmp, cond), JumpTarget(insts[cmp + 1])))
  }

  /** The header line `if <cond> then`; the body starts after the jump, one level deeper. */
  function OpenIf(pre: TState, cmp: nat, cond: string): TState
  {
    TState(pre.stack, pre.lines + [Indent(pre.indent, "if " + cond + " then")], cmp + 2, pre.indent + 1)
  }

  /** Back one level, and the line `end` there. */
  function CloseIf(st: TState): TState
  {
    TState(st.stack, st.lines + [Indent(st.indent - 1, "end")], st.pc, st.indent - 1)
  }

  /**
   * One turn of the translation loop: a nested if is tried at pc, and when
   * none is made, the instruction fetched at pc before the attempt is
   * translated and pc moves past the position the attempt left it at.
   */
  function NextState(insts: seq<Instruction>, st: TState): (r: TState)
    requires WellFormed(insts) && st.pc < |insts|
    ensures st.pc < r.pc <= |insts| && r.indent == st.indent
    decreases |insts| - st.pc, 2
  {
    if TryIf(insts, st).matched then TryIf(insts, st).st
    else Emit(insts, TryIf(insts, st).st, insts[st.pc]).(pc := TryIf(insts, st).st.pc + 1)
  }

  /**
   * The loop over an if's body: it stops at the end of the instructions or
   * at the first instruction whose address is at least the jump target.
   */
  function Body(insts: seq<Instruction>, st: TState, target: nat): (r: TState)
    requires WellFormed(insts) && st.pc <= |insts|
    ensures st.pc <= r.pc <= |insts| && r.indent == st.indent
    ensures r.pc == |insts| || insts[r.pc].address >= target
    decreases |insts| - st.pc, 3
  {
    if st.pc >= |insts| || insts[st.pc].address >= target then st
    else Body(insts, NextState(insts, st), target)
  }

  /** The loop of `translate`: Body without a target. */
  function Run(insts: seq<Instruction>, st: TState): (r: TState)
    requires WellFormed(insts) && st.pc <= |insts|
    ensures r.pc == |insts| && r.indent == st.indent
    decreases |insts| - st.pc
  {
    if st.pc >= |insts| then st else Run(insts, NextState(insts, st))
  }

  /** `translate_function`: the lines of a fresh translator, at indentation level 1. */
  function Translate(insts: seq<Instruction>): (lines: seq<string>)
    requires WellFormed(insts)
  {
    Run(insts, TState([], [], 0, 1)).lines
  }

  // ---------------------------------------------------------------------------
  // The output only grows
  // ---------------------------------------------------------------------------

  lemma ExtendsTransitive(a: seq<string>, b: seq<string>, c: seq<string>)
    requires Extends(a, b) && Extends(b, c)
    ensures Extends(a, c)
  {
    assert c[..|a|] == c[..|b|][..|a|];
  }

  /** The plain steps before an if's pushes only append lines. */
  lemma {:induction false} TranslateUpToGrows(insts: seq<Instruction>, st: TState, stop: nat)
    requires WellFormed(insts) && st.pc <= stop <= |insts|
    ensures Extends(st.lines, TranslateUpTo(insts, st, stop).lines)
    decreases stop - st.pc
  {
    if st.pc < stop {
      var next := Advance(insts, st);
      assert Extends(st.lines, next.lines);
      TranslateUpToGrows(insts, next, stop);
      ExtendsTransitive(st.lines, next.lines, TranslateUpTo(insts, next, stop).lines);
    }
  }

  /** An attempt at an if, successful or not, only appends lines. */
  lemma {:induction false} TryIfGrows(insts: seq<Instruction>, st: TState)
    requires WellFormed(insts) && st.pc <= |insts|
    ensures Extends(st.lines, TryIf(insts, st).st.lines)
    decreases |insts| - st.pc, 1
  {
    if st.pc + 3 < |insts| && FindCompare(insts, st.pc, 0).Some? {
      TryAtGrows(insts, st, FindCompare(insts, st.pc, 0).value);
    }
  }

  lemma {:induction false} TryAtGrows(insts: seq<Instruction>, st: TState, cmp: nat)
    requires WellFormed(insts) && st.pc <= cmp && cmp + 1 < |insts|
    requires IsCompare(insts[cmp].mnemonic) && IsCondJump(insts[cmp + 1].mnemonic)
    ensures Extends(st.lines, TryAt(insts, st, cmp).st.lines)
    decreases |insts| - cmp - 1, 2
  {
    var start := cmp - BuilderCount(insts, st.pc, cmp);
    var pre := TranslateUpTo(insts, st, start);
    TranslateUpToGrows(insts, st, start);
    if |TempStack(insts, start, cmp)| >= 2 {
      var cond := GuardCondition(insts, start, cmp);
      IfStatementShape(insts, pre, cmp, cond);
      ExtendsTransitive(st.lines, pre.lines, IfStatement(insts, pre, cmp, cond).lines);
    }
  }

  /**
   * A matched if appends its header `if <cond> then` at the current
   * indentation, then the body's lines, then `end` at the same indentation.
   */
  lemma {:induction false} IfStatementShape(insts: seq<Instruction>, pre: TState, cmp: nat, cond: string)
    requires WellFormed(insts) && cmp + 1 < |insts| && IsCondJump(insts[cmp + 1].mnemonic)
    ensures var r := IfStatement(insts, pre, cmp, cond);
      && Extends(pre.lines, r.lines) && |r.lines| >= |pre.lines| + 2
      && r.lines[|pre.lines|] == Indent(pre.indent, "if " + cond + " then")
      && r.lines[|r.lines| - 1] == Indent(pre.indent, "end")
    decreases |insts| - cmp - 1, 0
  {
    var head := OpenIf(pre, cmp, cond);
    var body := Body(insts, head, JumpTarget(insts[cmp + 1]));
    BodyGrows(insts, head, JumpTarget(insts[cmp + 1]));
    var r := IfStatement(insts, pre, cmp, cond);
    assert r.lines == body.lines + [Indent(pre.indent, "end")];
    assert r.lines[..|head.lines|] == head.lines;
    assert r.lines[|pre.lines|] == head.lines[|pre.lines|];
  }

  /** One turn of the loop only appends lines. */
  lemma {:induction false} NextStateGrows(insts: seq<Instruction>, st: TState)
    requires WellFormed(insts) && st.pc < |insts|
    ensures Extends(st.lines, NextState(insts, st).lines)
    decreases |insts| - st.pc, 2
  {
    var r := TryIf(insts, st);
    TryIfGrows(insts, st);
    if !r.matched {
      ExtendsTransitive(st.lines, r.st.lines, Emit(insts, r.st, insts[st.pc]).lines);
    }
  }

  /** The loop over an if's body only appends lines. */
  lemma {:induction false} BodyGrows(insts: seq<Instruction>, st: TState, target: nat)
    requires WellFormed(insts) && st.pc <= |insts|
    ensures Extends(st.lines, Body(insts, st, target).lines)
    decreases |insts| - st.pc, 3
  {
    if st.pc < |insts| && insts[st.pc].address < target {
      var next := NextState(insts, st);
      NextStateGrows(insts, st);
      BodyGrows(insts, next, target);
      ExtendsTransitive(st.lines, next.lines, Body(insts, next, target).lines);
    }
  }

  /** `translate` only appends lines to what the translator already had. */
  lemma {:induction false} RunGrows(insts: seq<Instruction>, st: TState)
    requires WellFormed(insts) && st.pc <= |insts|
    ensures Extends(st.lines, Run(insts, st).lines)
    decreases |insts| - st.pc
  {
    if st.pc < |insts| {
      var next := NextState(insts, st);
      NextStateGrows(insts, st);
      RunGrows(insts, next);
      ExtendsTransitive(st.lines, next.lines, Run(insts, next).lines);
    }
  }

  // ---------------------------------------------------------------------------
  // One unfolding of each loop, as the class takes its steps
  // ---------------------------------------------------------------------------

  lemma TryIfFound(insts: seq<Instruction>, st: TState, cmp: nat)
    requires WellFormed(insts) && st.pc + 3 < |insts| && FindCompare(insts, st.pc, 0) == Some(cmp)
    ensures TryIf(insts, st) == TryAt(insts, st, cmp)
  {
  }

  lemma TranslateUpToContinues(insts: seq<Instruction>, st: TState, stop: nat)
    requires WellFormed(insts) && st.pc < stop <= |insts|
    ensures TranslateUpTo(insts, st, stop) == TranslateUpTo(insts, Advance(insts, st), stop)
  {
  }

  lemma TranslateUpToStops(insts: seq<Instruction>, st: TState)
    requires WellFormed(insts) && st.pc <= |insts|
    ensures TranslateUpTo(insts, st, st.pc) == st
  {
  }

  lemma BodyStops(insts: seq<Instruction>, st: TState, target: nat)
    requires WellFormed(insts) && st.pc <= |insts|
    requires st.pc == |insts| || insts[st.pc].address >= target
    ensures Body(insts, st, target) == st
  {
  }

  lemma BodyContinues(insts: seq<Instruction>, st: TState, target: nat)
    requires WellFormed(insts) && st.pc < |insts| && insts[st.pc].address < target
    ensures Body(insts, st, target) == Body(insts, NextState(insts, st), target)
  {
  }

  lemma RunContinues(insts: seq<Instruction>, st: TState)
    requires WellFormed(insts) && st.pc < |insts|
    ensures Run(insts, st) == Run(insts, NextState(insts, st))
  {
  }

  lemma NextStateMatched(insts: seq<Instruction>, st: TState)
    requires WellFormed(insts) && st.pc < |insts| && TryIf(insts, st).matched
    ensures NextState(insts, st) == TryIf(insts, st).st
  {
  }

  lemma NextStateUnmatched(insts: seq<Instruction>, st: TState)
    requires WellFormed(insts) && st.pc < |insts| && !TryIf(insts, st).matched
    ensures NextState(insts, st) == Emit(insts, TryIf(insts, st).st, insts[st.pc]).(pc := TryIf(insts, st).st.pc + 1)
  {
  }

  // ---------------------------------------------------------------------------
  // Properties
  // ---------------------------------------------------------------------------

  /** Whether a Lua comparison operator holds between two integers. */
  predicate Holds(op: string, a: int, b: int)
  {
    if op == "==" then a == b else if op == "~=" then a != b
    else if op == "<" then a < b else if op == "<=" then a <= b
    else if op == ">" then a > b else if op == ">=" then a >= b
    else false
  }

  /** Whether the bytecode jumps: `jne` when the comparison failed, `je` when it held. */
  predicate JumpTaken(jump: string, compared: bool)
  {
    if jump == "jne" then !compared else compared
  }

  /**
   * The Lua condition holds exactly when the conditional jump falls through
   * into the body, for every comparison and both jumps.
   */
  lemma ConditionHoldsIffFallThrough(cmp: string, jump: string, a: int, b: int)
    requires IsCompare(cmp) && IsCondJump(jump)
    ensures Holds(ConditionOp(cmp, jump), a, b) <==> !JumpTaken(jump, Holds(CompareOp(cmp), a, b))
  {
  }

  /** Negating an operator twice gives it back. */
  lemma InvertOpInvolution(cmp: string)
    requires IsCompare(cmp)
    ensures InvertOp(InvertOp(CompareOp(cmp))) == CompareOp(cmp)
  {
  }

  /** The list `temp_stack` holds exactly the values of the pushes, in order. */
  lemma {:induction false} TempStackIsPushedValues(insts: seq<Instruction>, lo: nat, hi: nat, acc: seq<string>)
    requires WellFormed(insts) && lo <= hi <= |insts|
    requires forall j :: lo <= j < hi ==> IsPush(insts[j].mnemonic)
    ensures TempStackOnto(insts, lo, hi, acc) == acc + seq(hi - lo, k requires 0 <= k < hi - lo => PushedValue(insts[lo + k]))
    decreases hi - lo
  {
    if lo < hi {
      var next := acc + [PushedValue(insts[lo])];
      TempStackIsPushedValues(insts, lo + 1, hi, next);
      var tail := seq(hi - lo - 1, k requires 0 <= k < hi - lo - 1 => PushedValue(insts[lo + 1 + k]));
      var all := seq(hi - lo, k requires 0 <= k < hi - lo => PushedValue(insts[lo + k]));
      assert all == [PushedValue(insts[lo])] + tail;
    }
  }

  /**
   * Two pushes, a comparison and a conditional jump at pc become
   * `if <first> <op> <second> then`, the body, and `end`, at the current
   * indentation; translation resumes at the end of the instructions or at
   * the first instruction at or beyond the jump target.
   */
  lemma TwoPushesMakeIf(insts: seq<Instruction>, st: TState)
    requires WellFormed(insts) && st.pc + 3 < |insts|
    requires IsPush(insts[st.pc].mnemonic) && IsPush(insts[st.pc + 1].mnemonic)
    requires IsCompare(insts[st.pc + 2].mnemonic) && IsCondJump(insts[st.pc + 3].mnemonic)
    ensures TryIf(insts, st) == IfResult(true, IfStatement(insts, st, st.pc + 2,
      Condition(PushedValue(insts[st.pc]), PushedValue(insts[st.pc + 1]), insts[st.pc + 2].mnemonic, insts[st.pc + 3].mnemonic)))
  {
    TwoPushesFound(insts, st);
    TwoBuildersAt(insts, st);
  }

  /** The look-ahead settles on the comparison after the two pushes. */
  lemma TwoPushesFound(insts: seq<Instruction>, st: TState)
    requires WellFormed(insts) && st.pc + 3 < |insts|
    requires IsPush(insts[st.pc].mnemonic) && IsPush(insts[st.pc + 1].mnemonic)
    requires IsCompare(insts[st.pc + 2].mnemonic) && IsCondJump(insts[st.pc + 3].mnemonic)
    ensures TryIf(insts, st) == TryAt(insts, st, st.pc + 2)
  {
    FoundAfterTwoPushes(insts, st.pc);
    TryIfFound(insts, st, st.pc + 2);
  }

  /** TwoBuilders with the positions counted from pc. */
  lemma TwoBuildersAt(insts: seq<Instruction>, st: TState)
    requires WellFormed(insts) && st.pc + 3 < |insts|
    requires IsPush(insts[st.pc].mnemonic) && IsPush(insts[st.pc + 1].mnemonic)
    requires IsCompare(insts[st.pc + 2].mnemonic) && IsCondJump(insts[st.pc + 3].mnemonic)
    ensures TryAt(insts, st, st.pc + 2) == IfResult(true, IfStatement(insts, st, st.pc + 2,
      Condition(PushedValue(insts[st.pc]), PushedValue(insts[st.pc + 1]), insts[st.pc + 2].mnemonic, insts[st.pc + 3].mnemonic)))
  {
    TwoBuilders(insts, st, st.pc + 2);
  }

  lemma FoundAfterTwoPushes(insts: seq<Instruction>, pc: nat)
    requires pc + 3 < |insts|
    requires IsPush(insts[pc].mnemonic) && IsPush(insts[pc + 1].mnemonic)
    requires IsCompare(insts[pc + 2].mnemonic) && IsCondJump(insts[pc + 3].mnemonic)
    ensures FindCompare(insts, pc, 0) == Some(pc + 2)
  {
    PushIsNotControl(insts[pc].mnemonic);
    PushIsNotControl(insts[pc + 1].mnemonic);
    assert FindCompare(insts, pc, 2) == Some(pc + 2);
    assert FindCompare(insts, pc, 1) == Some(pc + 2);
  }

  /** With two pushes right before the comparison the attempt succeeds and translates nothing before them. */
  lemma TwoBuilders(insts: seq<Instruction>, st: TState, cmp: nat)
    requires WellFormed(insts) && st.pc + 2 == cmp && cmp + 1 < |insts|
    requires IsPush(insts[cmp - 2].mnemonic) && IsPush(insts[cmp - 1].mnemonic)
    requires IsCompare(insts[cmp].mnemonic) && IsCondJump(insts[cmp + 1].mnemonic)
    ensures TryAt(insts, st, cmp) == IfResult(true, IfStatement(insts, st, cmp,
      Condition(PushedValue(insts[cmp - 2]), PushedValue(insts[cmp - 1]), insts[cmp].mnemonic, insts[cmp + 1].mnemonic)))
  {
    assert BuilderCount(insts, st.pc, cmp) == 2;
    TranslateUpToStops(insts, st);
    TwoPushTempStack(insts, st.pc);
    var cond := Condition(PushedValue(insts[cmp - 2]), PushedValue(insts[cmp - 1]), insts[cmp].mnemonic, insts[cmp + 1].mnemonic);
    assert GuardCondition(insts, st.pc, cmp) == cond;
    assert GuardedIf(insts, st, st.pc, cmp) == IfResult(true, IfStatement(insts, st, cmp, cond));
  }

  /** Two pushes onto the empty `temp_stack`, in push order. */
  lemma TwoPushTempStack(insts: seq<Instruction>, lo: nat)
    requires WellFormed(insts) && lo + 1 < |insts|
    requires IsPush(insts[lo].mnemonic) && IsPush(insts[lo + 1].mnemonic)
    ensures TempStack(insts, lo, lo + 2) == [PushedValue(insts[lo]), PushedValue(insts[lo + 1])]
  {
    assert InstructionOk(insts[lo]) && InstructionOk(insts[lo + 1]);
    var v0, v1 := PushedValue(insts[lo]), PushedValue(insts[lo + 1]);
    assert ProcessStackOp([], insts[lo]) == [v0];
    assert ProcessStackOp([v0], insts[lo + 1]) == [v0, v1];
    assert TempStackOnto(insts, lo, lo + 2, []) == TempStackOnto(insts, lo + 1, lo + 2, [v0]);
    assert TempStackOnto(insts, lo + 1, lo + 2, [v0]) == TempStackOnto(insts, lo + 2, lo + 2, [v0, v1]);
  }

  /** A single push onto the empty `temp_stack`. */
  lemma OnePushTempStack(insts: seq<Instruction>, lo: nat)
    requires WellFormed(insts) && lo < |insts| && IsPush(insts[lo].mnemonic)
    ensures TempStack(insts, lo, lo + 1) == [PushedValue(insts[lo])]
  {
    assert InstructionOk(insts[lo]);
    assert ProcessStackOp([], insts[lo]) == [PushedValue(insts[lo])];
    assert TempStackOnto(insts, lo, lo + 1, []) == TempStackOnto(insts, lo + 1, lo + 1, [PushedValue(insts[lo])]);
  }

  /** The look-ahead finds nothing where there is no conditional jump. */
  lemma {:induction false} NoJumpNoCompare(insts: seq<Instruction>, pc: nat, offset: nat)
    requires pc + 3 < |insts|
    requires forall j :: pc <= j < |insts| ==> !IsCondJump(insts[j].mnemonic)
    ensures FindCompare(insts, pc, offset) == None
    decreases 4 - offset
  {
    if offset < 4 {
      NoJumpNoCompare(insts, pc, offset + 1);
    }
  }

  /**
   * Code without conditional jumps is translated one instruction at a
   * time: `translate` is then the plain step repeated to the end.
   */
  lemma {:induction false} StraightLineCode(insts: seq<Instruction>, st: TState)
    requires WellFormed(insts) && st.pc <= |insts|
    requires forall j :: st.pc <= j < |insts| ==> !IsCondJump(insts[j].mnemonic)
    ensures Run(insts, st) == TranslateUpTo(insts, st, |insts|)
    decreases |insts| - st.pc
  {
    if st.pc < |insts| {
      assert NextState(insts, st) == Advance(insts, st) by {
        if st.pc + 3 < |insts| {
          NoJumpNoCompare(insts, st.pc, 0);
        }
        assert TryIf(insts, st) == IfResult(false, st);
        NextStateUnmatched(insts, st);
      }
      RunContinues(insts, st);
      StraightLineCode(insts, Advance(insts, st));
      TranslateUpToContinues(insts, st, |insts|);
    }
  }

  /**
   * When the pattern is found but only one push precedes the comparison,
   * the instruction before that push has already been translated (and pc
   * moved past it) when the attempt is abandoned for want of a second guard
   * value. `translate` then translates the instruction it fetched before the
   * attempt a second time and continues after the push, which therefore
   * never reaches the stack.
   */
  lemma OnePushRepeatsInstruction(insts: seq<Instruction>, st: TState)
    requires WellFormed(insts) && st.pc + 3 < |insts|
    requires insts[st.pc].mnemonic != "pop" && !IsPush(insts[st.pc].mnemonic)
    requires IsPush(insts[st.pc + 1].mnemonic)
    requires IsCompare(insts[st.pc + 2].mnemonic) && IsCondJump(insts[st.pc + 3].mnemonic)
    ensures TryIf(insts, st) == IfResult(false, Advance(insts, st))
    ensures Run(insts, st) == Run(insts, Emit(insts, Advance(insts, st), insts[st.pc]).(pc := st.pc + 2))
  {
    OnePushGivesUp(insts, st);
    RunContinues(insts, st);
    NextStateUnmatched(insts, st);
  }

  /** The attempt of OnePushRepeatsInstruction: found, then abandoned after one plain step. */
  lemma OnePushGivesUp(insts: seq<Instruction>, st: TState)
    requires WellFormed(insts) && st.pc + 3 < |insts|
    requires insts[st.pc].mnemonic != "pop" && !IsPush(insts[st.pc].mnemonic)
    requires IsPush(insts[st.pc + 1].mnemonic)
    requires IsCompare(insts[st.pc + 2].mnemonic) && IsCondJump(insts[st.pc + 3].mnemonic)
    ensures TryIf(insts, st) == IfResult(false, Advance(insts, st))
  {
    OnePushFindsCompare(insts, st.pc);
    TryIfFound(insts, st, st.pc + 2);
    OnePushAt(insts, st);
  }

  lemma OnePushFindsCompare(insts: seq<Instruction>, pc: nat)
    requires WellFormed(insts) && pc + 3 < |insts|
    requires insts[pc].mnemonic != "pop" && !IsPush(insts[pc].mnemonic)
    requires IsPush(insts[pc + 1].mnemonic)
    requires IsCompare(insts[pc + 2].mnemonic) && IsCondJump(insts[pc + 3].mnemonic)
    ensures FindCompare(insts, pc, 0) == Some(pc + 2)
  {
    PushIsNotControl(insts[pc + 1].mnemonic);
    assert FindCompare(insts, pc, 2) == Some(pc + 2);
    assert FindCompare(insts, pc, 1) == Some(pc + 2);
  }

  lemma OnePushAt(insts: seq<Instruction>, st: TState)
    requires WellFormed(insts) && st.pc + 3 < |insts|
    requires !IsPush(insts[st.pc].mnemonic) && IsPush(insts[st.pc + 1].mnemonic)
    requires IsCompare(insts[st.pc + 2].mnemonic) && IsCondJump(insts[st.pc + 3].mnemonic)
    ensures TryAt(insts, st, st.pc + 2) == IfResult(false, Advance(insts, st))
  {
    var pc := st.pc;
    var pre := Advance(insts, st);
    assert BuilderCount(insts, pc, pc + 2) == 1;
    assert TranslateUpTo(insts, st, pc + 1) == pre by {
      TranslateUpToContinues(insts, st, pc + 1);
      TranslateUpToStops(insts, pre);
    }
    assert GuardedIf(insts, pre, pc + 1, pc + 2) == IfResult(false, pre) by {
      OnePushTempStack(insts, pc + 1);
    }
  }

  /** `abrt; pushi 1; cmpeq; jne 0010; ret` at addresses 0, 1, 4, 5, 8. */
  function AbandonedExample(): (insts: seq<Instruction>)
    ensures |insts| == 5
  {
    [ Instruction(0, 0x27, [], "abrt", [], None),
      Instruction(1, 0x1f, [], "pushi", ["1"], None),
      Instruction(4, 0x22, [], "cmpeq", [], None),
      Instruction(5, 0x05, [], "jne", ["0010"], None),
      Instruction(8, 0x25, [], "ret", [], None)]
  }

  /** An instruction whose operands the translator reads no number from is well formed. */
  lemma PlainOk(address: nat, opcode: nat, m: string, ops: seq<string>)
    requires m in {"push", "pop", "add", "cmpeq", "abrt", "ret"}
    ensures InstructionOk(Instruction(address, opcode, [], m, ops, None))
  { }

  /** A `pushi` is well formed when its operand is. */
  lemma PushiOk(address: nat, t: string)
    requires PushiOperandOk(t)
    ensures InstructionOk(Instruction(address, 0x1f, [], "pushi", [t], None))
  { }

  /** The jump operand `0010` is the address 0x10. */
  lemma TargetSixteen()
    ensures ParseHex("0010") == Some(16)
  {
    var t := "0010";
    assert AllHex(t);
    assert HexValue("0") == 0 by { assert "0"[..0] == ""; }
    assert HexValue("00") == 0 by { assert "00"[..1] == "0"; }
    assert HexValue("001") == 1 by { assert "001"[..2] == "00"; }
    assert HexValue(t) == 16 by { assert t[..3] == "001"; }
  }

  /** `jne 0010` is a conditional jump with a target the source can read. */
  lemma JneOk(address: nat)
    ensures InstructionOk(Instruction(address, 0x05, [], "jne", ["0010"], None))
  {
    TargetSixteen();
  }

  lemma ExampleWellFormed()
    ensures WellFormed(AbandonedExample())
  {
    var insts := AbandonedExample();
    PlainOk(0, 0x27, "abrt", []);
    PushiOk(1, "1");
    PlainOk(4, 0x22, "cmpeq", []);
    JneOk(5);
    PlainOk(8, 0x25, "ret", []);
    forall i | 0 <= i < |insts| ensures InstructionOk(insts[i]) {
      if i == 0 { } else if i == 1 { } else if i == 2 { } else if i == 3 { } else { assert i == 4; }
    }
  }

  lemma ExampleReturnLine()
    ensures Indent(1, "return") == "    return"
  {
    assert Repeat("    ", 1) == "    " + Repeat("    ", 0);
  }

  lemma ExampleFirstAbort()
    ensures WellFormed(AbandonedExample())
    ensures Advance(AbandonedExample(), TState([], [], 0, 1)) == TState([], ["    return"], 1, 1)
  {
    var insts := AbandonedExample();
    ExampleWellFormed();
    ExampleReturnLine();
    AbortReturns(insts, 0, [], insts[0]);
  }

  lemma ExampleSecondAbort()
    ensures WellFormed(AbandonedExample())
    ensures Emit(AbandonedExample(), TState([], ["    return"], 1, 1), AbandonedExample()[0]) == TState([], ["    return", "    return"], 1, 1)
  {
    var insts := AbandonedExample();
    ExampleWellFormed();
    ExampleReturnLine();
    AbortReturns(insts, 1, [], insts[0]);
  }

  lemma ExampleStep1()
    ensures WellFormed(AbandonedExample())
    ensures Run(AbandonedExample(), TState([], [], 0, 1)) == Run(AbandonedExample(), TState([], ["    return", "    return"], 2, 1))
  {
    var insts := AbandonedExample();
    ExampleWellFormed();
    OnePushRepeatsInstruction(insts, TState([], [], 0, 1));
    ExampleFirstAbort();
    ExampleSecondAbort();
  }

  lemma ExampleStep2()
    ensures WellFormed(AbandonedExample())
    ensures Run(AbandonedExample(), TState([], ["    return", "    return"], 2, 1)) == TState([], ["    return", "    return"], 5, 1)
  {
    var insts := AbandonedExample();
    ExampleWellFormed();
    var st2 := TState([], ["    return", "    return"], 2, 1);
    SilentInstruction(insts, 2, [], insts[2]);
    SilentInstruction(insts, 3, [], insts[3]);
    SilentInstruction(insts, 4, [], insts[4]);
    assert Run(insts, st2) == Run(insts, st2.(pc := 3));
    assert Run(insts, st2.(pc := 3)) == Run(insts, st2.(pc := 4));
    assert Run(insts, st2.(pc := 4)) == st2.(pc := 5);
  }

  /**
   * An instance of OnePushRepeatsInstruction: `abrt` before
   * `pushi 1; cmpeq; jne` is emitted twice, and the comparison and the jump
   * are then passed over as plain instructions.
   */
  lemma AbandonedIfRepeatsPrefix()
    ensures WellFormed(AbandonedExample())
    ensures Translate(AbandonedExample()) == ["    return", "    return"]
  {
    ExampleStep1();
    ExampleStep2();
  }

  /** `push [0000]; pushi 0005H; add; pop [0001]` at addresses 0, 3, 6, 7. */
  function ArithExample(): (insts: seq<Instruction>)
    ensures |insts| == 4
  {
    [ Instruction(0, 0x21, [], "push", ["[0000]"], None),
      Instruction(3, 0x1f, [], "pushi", ["0005H"], None),
      Instruction(6, 0x04, [], "add", [], None),
      Instruction(7, 0x12, [], "pop", ["[0001]"], None)]
  }

  /** A one-digit number prints as three zeros and the digit. */
  lemma Hex4Digit(n: nat)
    requires n < 10
    ensures Hex4(n) == "000" + DecimalString(n)
  {
    assert HexDigits(n) == DecimalString(n);
    assert Fill('0', 3) == "000" by {
      assert Fill('0', 3) == ['0'] + Fill('0', 2);
      assert Fill('0', 2) == ['0'] + Fill('0', 1);
      assert Fill('0', 1) == ['0'] + Fill('0', 0);
    }
  }

  /** `pushi 000dH` pushes the literal `d`. */
  lemma PushiDigit(n: nat)
    requires n < 10
    ensures PushiOperandOk("000" + DecimalString(n) + "H") && PushiLiteral("000" + DecimalString(n) + "H") == DecimalString(n)
  {
    Hex4Digit(n);
    PushiHexIsDecimal(n);
  }

  /** `pushi 0005H` pushes the literal `5`. */
  lemma PushiFive()
    ensures PushiOperandOk("0005H") && PushiLiteral("0005H") == "5"
  {
    PushiDigit(5);
    assert DecimalString(5) == "5";
    assert "000" + "5" + "H" == "0005H";
  }

  lemma ArithExampleWellFormed()
    ensures WellFormed(ArithExample())
  {
    var insts := ArithExample();
    PushiFive();
    PlainOk(0, 0x21, "push", ["[0000]"]);
    PushiOk(3, "0005H");
    PlainOk(6, 0x04, "add", []);
    PlainOk(7, 0x12, "pop", ["[0001]"]);
    forall i | 0 <= i < |insts| ensures InstructionOk(insts[i]) {
      if i == 0 { } else if i == 1 { } else if i == 2 { } else { assert i == 3; }
    }
  }

  lemma ArithStep1()
    ensures WellFormed(ArithExample())
    ensures Advance(ArithExample(), TState([], [], 0, 1)) == TState(["var_0000"], [], 1, 1)
  {
    var insts := ArithExample();
    ArithExampleWellFormed();
    SlotNamesLocal("0000");
    assert "[" + "0000" + "]" == insts[0].operands[0];
    assert PushedValue(insts[0]) == "var_0000";
  }

  lemma ArithStep2()
    ensures WellFormed(ArithExample())
    ensures Advance(ArithExample(), TState(["var_0000"], [], 1, 1)) == TState(["var_0000", "5"], [], 2, 1)
  {
    var insts := ArithExample();
    ArithExampleWellFormed();
    PushiFive();
    assert PushedValue(insts[1]) == "5";
  }

  lemma ArithStep3()
    ensures WellFormed(ArithExample())
    ensures Advance(ArithExample(), TState(["var_0000", "5"], [], 2, 1)) == TState(["(var_0000 + 5)"], [], 3, 1)
  {
    var insts := ArithExample();
    ArithExampleWellFormed();
    var stack := ["var_0000", "5"];
    ExecArith(insts, 2, stack, insts[2]);
    assert stack[..0] == [];
    assert Combined(stack, "+") == "(var_0000 + 5)";
  }

  /** A step whose translation is a non-empty line appends it at the current indentation. */
  lemma EmitLine(insts: seq<Instruction>, st: TState, inst: Instruction, stack: seq<string>, line: string)
    requires InstructionOk(inst)
    requires Exec(insts, st.pc, st.stack, inst) == Step(stack, Some(line)) && |line| > 0
    ensures Emit(insts, st, inst) == TState(stack, st.lines + [Indent(st.indent, line)], st.pc, st.indent)
  { }

  lemma IndentLevels(text: string)
    ensures Indent(1, text) == "    " + text
    ensures Indent(2, text) == "        " + text
  {
    assert Repeat("    ", 1) == "    " + Repeat("    ", 0);
    assert Repeat("    ", 2) == "    " + Repeat("    ", 1);
  }

  /** A plain step whose translation is a non-empty line appends it at the current indentation. */
  lemma AdvanceLine(insts: seq<Instruction>, st: TState, stack: seq<string>, line: string, text: string)
    requires WellFormed(insts) && st.pc < |insts|
    requires Exec(insts, st.pc, st.stack, insts[st.pc]) == Step(stack, Some(line)) && |line| > 0
    requires text == Indent(st.indent, line)
    ensures Advance(insts, st) == TState(stack, st.lines + [text], st.pc + 1, st.indent)
  {
    EmitLine(insts, st, insts[st.pc], stack, line);
  }

  lemma ArithStep4()
    ensures WellFormed(ArithExample())
    ensures Advance(ArithExample(), TState(["(var_0000 + 5)"], [], 3, 1)) == TState([], ["    var_0001 = (var_0000 + 5)"], 4, 1)
  {
    var insts := ArithExample();
    var line := "var_0001 = (var_0000 + 5)";
    assert "    " + line == "    var_0001 = (var_0000 + 5)";
    ArithExampleWellFormed();
    ArithPopLine();
    IndentLevels(line);
    AdvanceLine(insts, TState(["(var_0000 + 5)"], [], 3, 1), [], line, "    var_0001 = (var_0000 + 5)");
  }

  lemma ArithPopLine()
    ensures WellFormed(ArithExample())
    ensures Exec(ArithExample(), 3, ["(var_0000 + 5)"], ArithExample()[3]) == Step([], Some("var_0001 = (var_0000 + 5)"))
  {
    assert "var_0001" + " = " + "(var_0000 + 5)" == "var_0001 = (var_0000 + 5)";
    assert "[" + "0001" + "]" == "[0001]";
    var insts := ArithExample();
    ArithExampleWellFormed();
    var stack := ["(var_0000 + 5)"];
    ExecPop(insts, 3, stack, insts[3]);
    SlotNamesLocal("0001");
    assert ConvertVarName(insts[3].operands[0]) == "var_0001";
    assert stack[..0] == [];
  }

  /**
   * Straight-line code end to end: the two pushes meet in the addition and
   * the `pop` assigns the sum, so the four instructions give the one line
   * `var_0001 = (var_0000 + 5)`, with the hexadecimal literal in decimal.
   */
  lemma ArithAssignment()
    ensures WellFormed(ArithExample())
    ensures Translate(ArithExample()) == ["    var_0001 = (var_0000 + 5)"]
  {
    var insts := ArithExample();
    ArithExampleWellFormed();
    var st0 := TState([], [], 0, 1);
    StraightLineCode(insts, st0);
    ArithStep1();
    ArithStep2();
    ArithStep3();
    ArithStep4();
    TranslateUpToContinues(insts, st0, 4);
    TranslateUpToContinues(insts, TState(["var_0000"], [], 1, 1), 4);
    TranslateUpToContinues(insts, TState(["var_0000", "5"], [], 2, 1), 4);
    TranslateUpToContinues(insts, TState(["(var_0000 + 5)"], [], 3, 1), 4);
    TranslateUpToStops(insts, TState([], ["    var_0001 = (var_0000 + 5)"], 4, 1));
  }

  /**
   * `push [0000]; pushi 0001H; cmpeq; jne 0010; pushi 0002H; pop [0001]` at
   * addresses 0, 3, 6, 7, 10, 13: a guarded assignment whose jump target
   * 0x10 lies past the last instruction.
   */
  function IfExample(): (insts: seq<Instruction>)
    ensures |insts| == 6
  {
    [ Instruction(0, 0x21, [], "push", ["[0000]"], None),
      Instruction(3, 0x1f, [], "pushi", ["0001H"], None),
      Instruction(6, 0x22, [], "cmpeq", [], None),
      Instruction(7, 0x05, [], "jne", ["0010"], None),
      Instruction(10, 0x1f, [], "pushi", ["0002H"], None),
      Instruction(13, 0x12, [], "pop", ["[0001]"], None)]
  }

  lemma PushiOneTwo()
    ensures PushiOperandOk("0001H") && PushiLiteral("0001H") == "1"
    ensures PushiOperandOk("0002H") && PushiLiteral("0002H") == "2"
  {
    PushiDigit(1);
    PushiDigit(2);
    assert DecimalString(1) == "1" && DecimalString(2) == "2";
    assert "000" + "1" + "H" == "0001H" && "000" + "2" + "H" == "0002H";
  }

  lemma IfExampleWellFormed()
    ensures WellFormed(IfExample())
  {
    var insts := IfExample();
    PushiOneTwo();
    JneOk(7);
    PlainOk(0, 0x21, "push", ["[0000]"]);
    PushiOk(3, "0001H");
    PlainOk(6, 0x22, "cmpeq", []);
    PushiOk(10, "0002H");
    PlainOk(13, 0x12, "pop", ["[0001]"]);
    forall i | 0 <= i < |insts| ensures InstructionOk(insts[i]) {
      if i == 0 { } else if i == 1 { } else if i == 2 { }
      else if i == 3 { } else if i == 4 { } else { assert i == 5; }
    }
  }

  /** The two pushes give the operands of the condition. */
  lemma IfExampleOperands()
    ensures WellFormed(IfExample())
    ensures PushedValue(IfExample()[0]) == "var_0000" && PushedValue(IfExample()[1]) == "1"
  {
    IfExampleWellFormed();
    IfFirstPush(IfExample()[0]);
    IfSecondPush(IfExample()[1]);
  }

  lemma IfFirstPush(inst: Instruction)
    requires inst == IfExample()[0] && InstructionOk(inst)
    ensures PushedValue(inst) == "var_0000"
  {
    assert "[" + "0000" + "]" == "[0000]";
    assert inst.mnemonic == "push" && inst.operands == ["[0000]"];
    SlotNamesLocal("0000");
  }

  lemma IfSecondPush(inst: Instruction)
    requires inst == IfExample()[1] && InstructionOk(inst)
    ensures PushedValue(inst) == "1"
  {
    assert inst.mnemonic == "pushi" && inst.operands == ["0001H"];
    PushiOneTwo();
  }

  /** `cmpeq` with `jne` gives `==`, and the jump goes to 0x10. */
  lemma IfExampleHeader()
    ensures WellFormed(IfExample())
    ensures PushedValue(IfExample()[0]) == "var_0000" && PushedValue(IfExample()[1]) == "1"
    ensures Condition("var_0000", "1", IfExample()[2].mnemonic, IfExample()[3].mnemonic) == "var_0000 == 1"
    ensures JumpTarget(IfExample()[3]) == 16
  {
    IfExampleOperands();
    assert ConditionOp("cmpeq", "jne") == "==";
    TargetSixteen();
  }

  lemma IfHeaderLine()
    ensures OpenIf(TState([], [], 0, 1), 2, "var_0000 == 1") == TState([], ["    if var_0000 == 1 then"], 4, 2)
  {
    assert "    " + ("if " + "var_0000 == 1" + " then") == "    if var_0000 == 1 then";
    IndentLevels("if " + "var_0000 == 1" + " then");
  }

  /** The if's header line, and where its body starts. */
  lemma IfExampleMatch()
    ensures WellFormed(IfExample())
    ensures TryIf(IfExample(), TState([], [], 0, 1)).matched
    ensures TryIf(IfExample(), TState([], [], 0, 1)).st
      == CloseIf(Body(IfExample(), TState([], ["    if var_0000 == 1 then"], 4, 2), 16))
  {
    var insts := IfExample();
    var st0 := TState([], [], 0, 1);
    IfExampleHeader();
    TwoPushesMakeIf(insts, st0);
    IfHeaderLine();
  }

  /** In the body, `pushi 0002H` is too close to the end for another if and is pushed. */
  lemma IfExampleBody1()
    ensures WellFormed(IfExample())
    ensures NextState(IfExample(), TState([], ["    if var_0000 == 1 then"], 4, 2))
      == TState(["2"], ["    if var_0000 == 1 then"], 5, 2)
  {
    var insts := IfExample();
    IfExampleWellFormed();
    var st := TState([], ["    if var_0000 == 1 then"], 4, 2);
    assert TryIf(insts, st) == IfResult(false, st);
    NextStateUnmatched(insts, st);
    PushiOneTwo();
    assert PushedValue(insts[4]) == "2";
  }

  /** Then `pop [0001]` assigns it, one level deeper. */
  lemma IfExampleBody2()
    ensures WellFormed(IfExample())
    ensures NextState(IfExample(), TState(["2"], ["    if var_0000 == 1 then"], 5, 2))
      == TState([], ["    if var_0000 == 1 then", "        var_0001 = 2"], 6, 2)
  {
    assert "        " + "var_0001 = 2" == "        var_0001 = 2";
    var insts := IfExample();
    var st := TState(["2"], ["    if var_0000 == 1 then"], 5, 2);
    IfExampleWellFormed();
    assert TryIf(insts, st) == IfResult(false, st);
    NextStateUnmatched(insts, st);
    IfExamplePopLine();
    EmitLine(insts, st, insts[5], [], "var_0001 = 2");
    IndentLevels("var_0001 = 2");
  }

  lemma IfExamplePopLine()
    ensures WellFormed(IfExample())
    ensures Exec(IfExample(), 5, ["2"], IfExample()[5]) == Step([], Some("var_0001 = 2"))
  {
    assert "var_0001" + " = " + "2" == "var_0001 = 2";
    assert "[" + "0001" + "]" == "[0001]";
    var insts := IfExample();
    IfExampleWellFormed();
    var stack := ["2"];
    ExecPop(insts, 5, stack, insts[5]);
    SlotNamesLocal("0001");
    assert ConvertVarName(insts[5].operands[0]) == "var_0001";
    assert stack[..0] == [];
  }

  lemma IfExampleBody()
    ensures WellFormed(IfExample())
    ensures Body(IfExample(), TState([], ["    if var_0000 == 1 then"], 4, 2), 16)
      == TState([], ["    if var_0000 == 1 then", "        var_0001 = 2"], 6, 2)
  {
    var insts := IfExample();
    IfExampleWellFormed();
    var st4 := TState([], ["    if var_0000 == 1 then"], 4, 2);
    var st5 := TState(["2"], ["    if var_0000 == 1 then"], 5, 2);
    var st6 := TState([], ["    if var_0000 == 1 then", "        var_0001 = 2"], 6, 2);
    IfExampleBody1();
    IfExampleBody2();
    BodyContinues(insts, st4, 16);
    BodyContinues(insts, st5, 16);
    BodyStops(insts, st6, 16);
  }

  /** Closing the body adds `end` at the function's level. */
  lemma IfExampleClose()
    ensures CloseIf(TState([], ["    if var_0000 == 1 then", "        var_0001 = 2"], 6, 2))
      == TState([], ["    if var_0000 == 1 then", "        var_0001 = 2", "    end"], 6, 1)
  {
    assert "    " + "end" == "    end";
    IndentLevels("end");
  }

  /**
   * The guarded assignment end to end, as TwoPushesMakeIf describes it: the
   * two pushes make the condition `var_0000 == 1`, the body is indented one
   * level deeper, and `end` closes it at the function's level.
   */
  lemma GuardedAssignment()
    ensures WellFormed(IfExample())
    ensures Translate(IfExample()) == ["    if var_0000 == 1 then", "        var_0001 = 2", "    end"]
  {
    var insts := IfExample();
    var st0 := TState([], [], 0, 1);
    var done := TState([], ["    if var_0000 == 1 then", "        var_0001 = 2", "    end"], 6, 1);
    IfExampleMatch();
    IfExampleBody();
    IfExampleClose();
    RunContinues(insts, st0);
    NextStateMatched(insts, st0);
    assert Run(insts, done) == done;
  }
}
