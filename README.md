# u7-usecode-converter in Dafny

A model of the core of u7-usecode-converter, which turns the usecode
disassembly of Ultima 7 (`usecode.dis`) into Lua scripts. There are four parts.

- **The line parser** (`usecode_parser.py`). `UsecodeParser` reads the
  disassembly one line at a time. It tracks the current function and whether
  it is in the `.data` or `.code` section. It builds one function record per
  `.funcnumber` header, with its data segments (continuation lines included)
  and its instructions. The regular expressions of the parser are rewritten
  as hand-made recognisers in `patterns.dfy`. These reproduce the
  backtracking of each fixed pattern.
- **The intrinsic tables** (`intrinsic_mapping.py`). These are
  `INTRINSIC_MAP`, `UI_FUNCTION_MAP`, `UNKNOWN_FUNCTIONS` and `EVENT_TYPES`,
  with their lookups. Every lookup has a placeholder fallback.
- **The bytecode translator** (`bytecode_translator_v3.py`).
  `BytecodeTranslator` is a class whose fields `stack`, `lines`, `pc` and
  `indentLevel` its methods update in place. It simulates the stack machine
  on Lua expression strings (`stacksim.dfy`). It recognises
  `push, push, cmpXX, jne/je` as an `if` block with nested bodies. Each
  method is proved equal to a pure function of `translation.dfy`. The
  properties are stated about those functions: termination, output that only
  grows, the shape of an `if`, the condition's polarity, and the stack
  effect of every mnemonic.
- **The Lua generator** (`lua_generator.py`). `LuaGenerator` assembles the
  header comment, event constants, string data, signature, locals and a
  listing of the first ten instructions. Its methods are proved equal to
  functions whose layout is proved line by line.

Two behaviours of the translator are reproduced as written.

- When the matcher finds a comparison followed by a conditional jump, it
  first translates the instructions before the pushes that feed the
  comparison, advancing `pc` past them (bytecode_translator_v3.py:121-126).
  It gives up afterwards if fewer than two values were pushed. The comment
  on that early return (bytecode_translator_v3.py:196) says a failed match
  consumes nothing, but by then `pc` has already moved, so a failed match
  can consume a prefix. The model follows the code.
  `Translation.OnePushRepeatsInstruction` states the consequence.
- Both driver loops fetch `inst` before trying the matcher. After a failed
  attempt they translate that stale instruction, even when the attempt has
  already moved `pc` (bytecode_translator_v3.py:49-56, 169-182). In that
  case the instruction is translated twice. `Translation.NextState` models
  this. `Translation.AbandonedIfRepeatsPrefix` shows it on a five-instruction
  function whose `abrt` yields two `return` lines.

Modules: `Text` (strings, hexadecimal and decimal numbers, `str.strip`,
`split`, `replace`, `%04X`, indentation), `Intrinsics`, `Usecode` (the
records), `Patterns` and `Parser`, `StackSim`, `Translation` and
`Translator`, and `LuaGen`.

## Model

| member | source | states |
|---|---|---|
| Text.ParseHex | bytecode_translator_v3.py:39 | `int(s, 16)`: it succeeds only on a non-empty string. A non-empty string of hex digits reads as its value. |
| Text.ParseHexCases | bytecode_translator_v3.py:39 | `int(s, 16)` succeeds exactly when the digits after an optional `0x` are non-empty and all hexadecimal, and then gives their value. It fails exactly when they are empty or one of them is not a hex digit. |
| Text.ParseHexPrefixed | bytecode_translator_v3.py:160 | A `0x` prefix before hex digits is accepted, as `int(s, 16)` accepts it. |
| Text.Hex4RoundTrip | bytecode_translator_v3.py:356 | `%04X` reads back with `int(s, 16)` as the number it formats, for any number. |
| Text.Hex4 | lua_generator.py:64 | `%04X`: upper-case hex digits, four of them or as many as the number needs. |
| Text.DecimalRoundTrip | bytecode_translator_v3.py:209 | `str(n)` reads back with `int()` as n. |
| Text.ParseDec | bytecode_translator_v3.py:299 | `int(s)` on an argument count succeeds exactly on a non-empty string of ASCII digits. |
| Text.Strip | usecode_parser.py:75 | `str.strip()`: the input's contiguous middle `s[i..j]` with only white space before i and after j, no white space at either end, and empty exactly when the input is all white space. |
| Text.Split | bytecode_translator_v3.py:296 | `split(c)`: at least one piece, no piece contains c, and joining the pieces with c gives back the input. |
| Text.SplitWs | usecode_parser.py:202 | `split()` with no argument: every piece is a non-empty token with no white space. |
| Text.SplitWsJoin | usecode_parser.py:202 | `split()` of tokens joined by single spaces gives back exactly those tokens. |
| Text.SplitWsCharsIn | usecode_parser.py:202 | Every token of `split()` is made of characters of the input. |
| Text.RemoveAll | intrinsic_mapping.py:211 | `replace(pat, '')` never lengthens the string. With a one-character pattern, the character is gone and nothing new appears. |
| Text.RemoveAllAbsent | intrinsic_mapping.py:211 | Removing a pattern that does not occur leaves the string unchanged. |
| Text.ToLower | intrinsic_mapping.py:211 | `lower()` maps each character and leaves no upper-case letter. |
| Text.ToUpper | lua_generator.py:80 | `upper()` maps each character and leaves no lower-case letter. |
| Text.Fill | lua_generator.py:64 | `c * n`: n characters, every one of them c. It is the zero padding of `%04X` and the space padding of `{s:Ns}`. |
| Text.ContainsIff | usecode_parser.py:79 | The substring test `kw in line` holds exactly when kw occurs at some position. |
| Text.Indent | bytecode_translator_v3.py:378-380 | `_indent`: four spaces per level, none for a level of zero or less, then the text. `LuaGenerator._indent` (lua_generator.py:174-176) is the same. |
| Text.PadRight | lua_generator.py:158 | `{s:Ns}`: the text, then spaces up to width N. A longer text is kept whole. |
| Text.AscendingUnique | lua_generator.py:79 | Two strictly ascending lists with the same elements are equal, so `sorted` has one answer. |
| Intrinsics.UiFunctionEntry | intrinsic_mapping.py:134-147 | Every key of UI_FUNCTION_MAP starts with `U`. |
| Intrinsics.Placeholder | intrinsic_mapping.py:191 | `unknown_%04XH`: the prefix `unknown_`, at least four hex digits, then `H`. |
| Intrinsics.GetLuaFunction | intrinsic_mapping.py:187-191 | The mapped name for an opcode of INTRINSIC_MAP, the placeholder for any other opcode. |
| Intrinsics.GetParamCount | intrinsic_mapping.py:201-205 | None exactly for an opcode outside INTRINSIC_MAP. Otherwise it is the mapped argument count, which is at most 5. |
| Intrinsics.ParamCountMatchesLuaFunction | intrinsic_mapping.py:187-205 | There is no count exactly when get_lua_function falls back to its placeholder. Otherwise name, description and count are the same table row. |
| Intrinsics.GetFunctionDescription | intrinsic_mapping.py:193-199 | INTRINSIC_MAP's description first, then the UNKNOWN_FUNCTIONS name, then `Unknown function`. |
| Intrinsics.DescriptionPrefersIntrinsicMap | intrinsic_mapping.py:193-199 | 0x0018 is in both tables, and INTRINSIC_MAP's description wins. |
| Intrinsics.TranslateUiFunction | intrinsic_mapping.py:207-212 | The mapped name for a key of UI_FUNCTION_MAP. Otherwise every `UI_` is removed and the rest lower-cased, which is no longer than the input and has no upper-case letter. |
| Intrinsics.TranslateUiFallbackIdempotent | intrinsic_mapping.py:207-212 | Translating a fallback result again changes nothing. |
| Intrinsics.EventIdsAscending | intrinsic_mapping.py:172-179 | The listed event ids are keys of EVENT_TYPES. |
| Intrinsics.EventIdsSorted | lua_generator.py:79 | Any strictly ascending list of exactly the EVENT_TYPES ids is this list, which is the order `sorted(EVENT_TYPES.items())` visits. |
| Usecode.NewFunction | usecode_parser.py:42-52 | `UsecodeFunction(func_number=n)`: the number n, zero counts, and empty lists and label table. |
| Usecode.LastWithLabel | usecode_parser.py:186 | The segment `data_labels` holds for a label carries that label. There is none exactly when no segment has the label. |
| Patterns.RunFacts | usecode_parser.py:191 | A greedy `[class]*` run covers only characters of the class and stops at the end or at a character outside it. |
| Patterns.DirectiveRoundTrip | usecode_parser.py:80 | The pattern `kw\s+([0-9A-F]+)H` reads back the number of the line `kw XXXXH`. |
| Patterns.MatchDataLine | usecode_parser.py:141 | A matched label is `L` followed by upper-case hex digits. |
| Patterns.DataLineRoundTrip | usecode_parser.py:141 | The line `L<digits>: db <content>` matches, with the label and the content as its two groups. |
| Patterns.MatchContinuation | usecode_parser.py:146 | The text after `db` of a continuation line is non-empty. |
| Patterns.ContinuationRoundTrip | usecode_parser.py:144-146 | An indented line `db <content>` is a continuation line whose group is the content. |
| Patterns.UnquoteQuote | usecode_parser.py:167-170 | Content in single quotes is recognised as quoted, and unquoting gives back the text. |
| Patterns.SegmentOf | usecode_parser.py:157-183 | A labelled data line gives a segment under its label. Its address is the label's hex digits read as a number. Quoted content is a string without its quotes. Other content is a hex number when it reads as one, and raw text otherwise. |
| Patterns.ApplyDataLine | usecode_parser.py:138-186 | A labelled line appends its segment and files it under its label. A continuation line after a string segment appends its text, unquoted when quoted, to that last segment, both in the list and under its label. Any other line changes nothing. Nothing else in the function changes, and the label index stays consistent. |
| Patterns.QuotedDataLineAppendsString | usecode_parser.py:157-186 | `L<digits>: db '<text>'` appends the string segment `<text>` at the label's address and files it under the label. |
| Patterns.ContinuationExtendsString | usecode_parser.py:143-154 | An indented `db '<text>'` after a string segment appends `<text>` to that segment's data, in the list and under its label. |
| Patterns.MatchCodeLine | usecode_parser.py:191 | The groups of a matched code line have the shapes of their sub-patterns: hex address, byte text, word mnemonic. |
| Patterns.CodeLineRoundTrip | usecode_parser.py:191 | A line in the disassembler's layout `AAAA: BB CC    mnemonic ops ; comment` matches with exactly its fields as groups. |
| Patterns.ByteValues | usecode_parser.py:202 | One value per byte token, each the token's hex value. |
| Patterns.ByteTokensHex | usecode_parser.py:202 | Every token of the byte group is hexadecimal, so `int(b, 16)` cannot fail there. |
| Patterns.SplitOperands | usecode_parser.py:206-209 | No operand text gives no operands. Otherwise there is one operand per comma-separated piece, each stripped. |
| Patterns.DecodeCodeLine | usecode_parser.py:188-218 | An instruction exactly for a matching line. Its opcode is the first byte, or 0 with no bytes, and mnemonic, operands, comment and address come from the groups. |
| Parser.InitialState | usecode_parser.py:58-62 | A new parser is in a valid state. |
| Parser.ParseLineSpec | usecode_parser.py:72-136 | `parse_line` keeps the invariant. The current function is in the table, each function is stored under its own number with a consistent label index, and the two section flags are never both set. |
| Parser.ApplyToCurrent | usecode_parser.py:103-136 | A line handled by the current function keeps its number. Segments change only in the data section. Instructions change only in the code section, by appending the decoded instruction. |
| Parser.ApplyCodeLine | usecode_parser.py:188-220 | A matching code line appends its instruction. Any other line changes nothing. |
| Parser.BlankLineIgnored | usecode_parser.py:75-76 | A line of white space only changes no state. |
| Parser.FuncnumberLineStartsFunction | usecode_parser.py:79-87 | `.funcnumber XXXXH` puts a fresh function under that number, replacing any earlier one. It makes that function current and clears both section flags. |
| Parser.NothingBeforeFirstFunction | usecode_parser.py:79-90 | Before the first function header, every line that does not start a function changes nothing. That includes a `.funcnumber` line whose number does not match the pattern. |
| Parser.SectionLineSwitches | usecode_parser.py:93-101 | `.data` sets data and clears code. `.code` does the reverse. Nothing else changes. |
| Parser.ArgcLineSetsArgc | usecode_parser.py:104-108 | `.argc XXXXH` sets the argument count and changes nothing else. |
| Parser.LocalcLineSetsLocalc | usecode_parser.py:110-114 | `.localc XXXXH` sets the local count and changes nothing else. |
| Parser.ExternsizeLineSetsExternsize | usecode_parser.py:116-120 | `.externsize XXXXH` sets the extern size and is not read as `.extern`. |
| Parser.ExternLineAppendsExtern | usecode_parser.py:122-126 | `.extern XXXXH` appends the number to the external functions and changes nothing else. |
| Parser.CodeLineAppendsInstruction | usecode_parser.py:134-136 | In the code section, a code line without a `.` appends its decoded instruction and changes nothing else. |
| Parser.DecodeFormattedCodeLine | usecode_parser.py:195-209 | The instruction decoded from a formatted line carries the line's address and one byte per token of the byte column, each the token's hex value. The opcode is the first byte. It also carries the mnemonic, the split operands and the comment. |
| Parser.UsecodeParser.constructor | usecode_parser.py:58-62 | No functions, no current function, in neither section. |
| Parser.UsecodeParser.ParseLine | usecode_parser.py:72-136 | The fields become exactly ParseLineSpec of the old fields, and the invariant is kept. |
| Parser.UsecodeParser.UpdateCurrent | usecode_parser.py:103-136 | Only the current function's entry changes, to ApplyToCurrent of it. |
| Parser.UsecodeParser.ParseDataLine | usecode_parser.py:138-186 | Only the current function's entry changes, to ApplyDataLine of it: a labelled segment appended, or a continuation appended to the last string segment. |
| Parser.UsecodeParser.ParseCodeLine | usecode_parser.py:188-220 | Only the current function's entry changes, to ApplyCodeLine of it. |
| StackSim.ConvertVarName | bytecode_translator_v3.py:382-387 | A reference that does not start with `[` is returned unchanged. |
| StackSim.SlotNamesLocal | bytecode_translator_v3.py:382-387 | `[idx]` becomes `var_idx`. |
| StackSim.PushiLiteral | bytecode_translator_v3.py:226-229 | A `pushi` operand without `H` is pushed as it is. |
| StackSim.PushiHexIsDecimal | bytecode_translator_v3.py:228-229 | A `pushi XXXXH` operand is pushed as the decimal of its value. |
| StackSim.ProcessStackOp | bytecode_translator_v3.py:199-214 | A push appends exactly its value to the private list. Any other instruction leaves the list unchanged. |
| StackSim.SecondArity | bytecode_translator_v3.py:314 | With no second operand the argument count is 0. |
| StackSim.ResolveCallis | bytecode_translator_v3.py:296-317 | The `name@n` form gives name and count n. Otherwise a hex opcode is called by get_lua_function's name, with INTRINSIC_MAP's count when mapped. An unmapped opcode gives the `unknown_XXXXH` placeholder with the second operand as count. A non-hex operand is itself the name, with the second operand as count. |
| StackSim.ResolveCalli | bytecode_translator_v3.py:347-359 | The `name@n` form gives name and count n. Otherwise the count is the second operand, or 0. A hexadecimal operand names `func_XXXX`, and any other operand is itself the name. |
| StackSim.CallisUsesIntrinsicMap | bytecode_translator_v3.py:308-311 | A mapped hex opcode calls INTRINSIC_MAP's name with its argument count. |
| StackSim.PopArgs | bytecode_translator_v3.py:320-323 | The arguments are the top min(n, depth) values, in push order. The rest of the stack is what lies below them. |
| StackSim.Call | bytecode_translator_v3.py:319-339 | A call takes min(arity, depth) values and pushes exactly one. |
| StackSim.CallTakesPushedArguments | bytecode_translator_v3.py:319-329 | After pushing exactly arity values, the call replaces them by `name(v1, …, vn)` in push order. |
| StackSim.CallOnShortStack | bytecode_translator_v3.py:321-323 | With fewer values than the arity, the call takes all of them. |
| StackSim.Binary | bytecode_translator_v3.py:253-258 | A binary operator replaces the top two values by one and leaves the values below unchanged. |
| StackSim.ExecArith | bytecode_translator_v3.py:252-259 | `add`, `sub`, `mul`, `div`, `mod` replace the top two values by `(left op right)`. With fewer than two values they do nothing. No line. |
| StackSim.ArithSymbols | bytecode_translator_v3.py:257 | The operators are `+`, `-`, `*`, `//` and `%`. |
| StackSim.ExecDiv | bytecode_translator_v3.py:252-259 | `div` on `a, b` leaves `(a // b)` on the values below. |
| StackSim.ExecNot | bytecode_translator_v3.py:262-266 | `not` replaces the top value e by `not e`, and does nothing on an empty stack. |
| StackSim.ExecLogical | bytecode_translator_v3.py:268-273 | `and` and `or` replace the top two values by `(left and right)` or `(left or right)`. With fewer than two values they do nothing. |
| StackSim.ExecPop | bytecode_translator_v3.py:238-243 | `pop` with a value and an operand removes the top value and emits `<slot name> = <value>`. Otherwise it changes nothing and emits nothing. |
| StackSim.ExecUnknown | bytecode_translator_v3.py:285-288 | A mnemonic with no case emits `-- <mnemonic> <operands joined by , >` and leaves the stack as it was. |
| StackSim.ExecStackEffect | bytecode_translator_v3.py:216-288 | Every mnemonic takes a stated number of values off the top, leaves the rest, and pushes a stated number. It returns a line exactly when the source does: `pop` with value and operand, a call not followed by `pop`, `abrt`, or an unknown mnemonic. |
| StackSim.CallStackEffect | bytecode_translator_v3.py:319-339 | A call with operands pops min(arity, depth) values and pushes one. It emits a line exactly when the next instruction is not `pop`. |
| StackSim.PushThenPopAssigns | bytecode_translator_v3.py:220-243 | A push followed by `pop [idx]` leaves the stack as it was and emits `var_idx = <pushed value>`. |
| StackSim.SilentInstruction | bytecode_translator_v3.py:276-280 | Comparisons, jumps and `ret` change nothing and emit nothing. |
| StackSim.AbortReturns | bytecode_translator_v3.py:282-283 | `abrt` emits `return` and leaves the stack as it was. |
| Translation.Advance | bytecode_translator_v3.py:56-60 | One plain step moves pc by exactly one and keeps the indentation. |
| Translation.TranslateUpTo | bytecode_translator_v3.py:121-126 | The statements before the pushes are translated until pc reaches the first push. |
| Translation.FindCompare | bytecode_translator_v3.py:74-96 | The look-ahead finds a comparison within pc..pc+3 directly followed by `jne`/`je`, with no `pop` from pc up to it. |
| Translation.FindCompareFirst | bytecode_translator_v3.py:84-96 | What the look-ahead finds is the first comparison-and-jump of its window. |
| Translation.FindCompareComplete | bytecode_translator_v3.py:84-96 | Whenever the window holds a comparison-and-jump with no `pop` before it, the look-ahead finds one. |
| Translation.NoJumpNoCompare | bytecode_translator_v3.py:86-96 | Without a conditional jump ahead, the look-ahead finds nothing. |
| Translation.BuilderCount | bytecode_translator_v3.py:107-118 | At most two pushes directly before the comparison, none before pc, all of them push-type. |
| Translation.TempStackIsPushedValues | bytecode_translator_v3.py:129-132 | The private list holds exactly the pushed values, in order. `self.stack` is not involved. |
| Translation.TryIf | bytecode_translator_v3.py:64-197 | A match moves pc forward. A failed attempt leaves pc before the end. The indentation is restored on return. |
| Translation.TryAt | bytecode_translator_v3.py:98-197 | A failed attempt leaves pc at or before the comparison. |
| Translation.GuardedIf | bytecode_translator_v3.py:135-197 | With fewer than two values the state after the prefix is returned unchanged. Otherwise pc ends past the jump. |
| Translation.IfStatement | bytecode_translator_v3.py:155-194 | The if ends with pc at the end of the list or at the first instruction whose address reaches the jump target. The indentation is restored. |
| Translation.IfStatementShape | bytecode_translator_v3.py:155-189 | An if only appends lines: `if <cond> then` at the current level first, `end` at the same level last. |
| Translation.ConditionHoldsIffFallThrough | bytecode_translator_v3.py:146-153 | The condition written holds exactly when the jump is not taken, for `jne` and `je` and every comparison. |
| Translation.InvertOpInvolution | bytecode_translator_v3.py:151 | Inverting a comparison operator twice gives it back. |
| Translation.TwoPushesMakeIf | bytecode_translator_v3.py:107-163 | `push, push, cmpXX, jne/je` at pc is always matched, with the condition made of the two pushed values. |
| Translation.NextState | bytecode_translator_v3.py:48-60 | Every turn of either loop strictly increases pc and keeps the indentation. |
| Translation.Body | bytecode_translator_v3.py:168-186 | The body loop stops at the end or at the first instruction whose address reaches the target. |
| Translation.Run | bytecode_translator_v3.py:48-62 | The main loop terminates with pc at the end of the list. |
| Translation.RunGrows | bytecode_translator_v3.py:42-62 | Lines are only ever appended: the output of translation extends the lines before it. |
| Translation.TryIfGrows | bytecode_translator_v3.py:64-197 | The matcher only appends lines, matched or not. |
| Translation.StraightLineCode | bytecode_translator_v3.py:48-60 | Without conditional jumps, translation is the plain instruction-by-instruction loop. |
| Translation.OnePushGivesUp | bytecode_translator_v3.py:121-135 | With one push before the comparison, the attempt fails after translating the instruction before it and advancing pc. |
| Translation.OnePushRepeatsInstruction | bytecode_translator_v3.py:49-60 | After that failed attempt the loop translates the stale instruction again and skips the push. |
| Translation.AbandonedIfRepeatsPrefix | bytecode_translator_v3.py:42-62 | `abrt, push, cmpeq, jne, ret` translates to two `return` lines. |
| Translation.ArithAssignment | bytecode_translator_v3.py:42-62 | `push [0000]; pushi 0005H; add; pop [0001]` translates to the single line `    var_0001 = (var_0000 + 5)`. |
| Translation.GuardedAssignment | bytecode_translator_v3.py:42-197 | `push [0000]; pushi 0001H; cmpeq; jne 0010; pushi 0002H; pop [0001]` translates to `if var_0000 == 1 then`, the assignment `var_0001 = 2` one level deeper, and `end`. |
| Translator.BytecodeTranslator.constructor | bytecode_translator_v3.py:22-28 | Empty stack and output, pc 0, indentation level 1. |
| Translator.BytecodeTranslator.Translate | bytecode_translator_v3.py:42-62 | The fields end as Run from an empty stack and output at pc 0, and the result is the lines. |
| Translator.BytecodeTranslator.TranslateNext | bytecode_translator_v3.py:48-60 | One loop turn changes the fields as NextState says. |
| Translator.BytecodeTranslator.TryTranslateIf | bytecode_translator_v3.py:64-197 | The answer and the new fields are TryIf of the old fields. |
| Translator.BytecodeTranslator.TranslateIfAt | bytecode_translator_v3.py:98-197 | The answer and the new fields are TryAt of the old fields. |
| Translator.BytecodeTranslator.TranslateGuardedIf | bytecode_translator_v3.py:128-197 | The answer and the new fields are GuardedIf of the old fields. |
| Translator.BytecodeTranslator.MakeCondition | bytecode_translator_v3.py:135-153 | The condition is built from the last two values of the private list. |
| Translator.BytecodeTranslator.TranslateIfStatement | bytecode_translator_v3.py:155-194 | The fields change as IfStatement says. |
| Translator.BytecodeTranslator.OpenIfStatement | bytecode_translator_v3.py:156-163 | The line `if <cond> then` is appended, the level goes up one, and pc moves past the jump. |
| Translator.BytecodeTranslator.CloseIfStatement | bytecode_translator_v3.py:188-189 | The level goes down one and `end` is appended there. |
| Translator.BytecodeTranslator.FindPattern | bytecode_translator_v3.py:74-96 | The jump index is found exactly when FindCompare finds a comparison. It then sits right after the comparison. |
| Translator.BytecodeTranslator.FindBuilderStart | bytecode_translator_v3.py:107-118 | The pushes feeding the comparison start BuilderCount positions before it. |
| Translator.BytecodeTranslator.TranslatePrefix | bytecode_translator_v3.py:121-126 | The fields change as TranslateUpTo says. |
| Translator.BytecodeTranslator.TranslatePlain | bytecode_translator_v3.py:56-60 | The fields change as Advance says. |
| Translator.BytecodeTranslator.EmitInstruction | bytecode_translator_v3.py:56-58 | The fields change as Emit says. |
| Translator.BytecodeTranslator.BuildGuardValues | bytecode_translator_v3.py:129-132 | The private list equals TempStack. |
| Translator.BytecodeTranslator.TranslateBody | bytecode_translator_v3.py:168-186 | The fields change as Body says. |
| Translator.BytecodeTranslator.TranslateInstruction | bytecode_translator_v3.py:216-288 | The new stack and the returned line are Exec of the old stack. |
| Translator.BytecodeTranslator.TranslateCallis | bytecode_translator_v3.py:290-339 | The new stack and the returned line are Exec of the old stack, for `callis`. |
| Translator.BytecodeTranslator.TranslateCalli | bytecode_translator_v3.py:341-376 | The new stack and the returned line are Exec of the old stack, for `calli`. |
| Translator.BytecodeTranslator.EmitCall | bytecode_translator_v3.py:319-339 | The new stack and the returned line are Call of the old stack. |
| Translator.BytecodeTranslator.PopArguments | bytecode_translator_v3.py:320-323 | The remaining stack and the arguments are PopArgs of the old stack. |
| Translator.TranslateFunction | bytecode_translator_v3.py:390-393 | The lines of a fresh translator are Translate of the instructions. |
| LuaGen.DefaultNameRoundTrip | lua_generator.py:38 | The default name `func_%04X` reads back as the function number. |
| LuaGen.ParamNames | lua_generator.py:98-108 | max(2, argc) names: `eventid`, `objectref`, then `arg2` … `arg{argc-1}`. |
| LuaGen.ParamNamesDistinct | lua_generator.py:98-108 | The parameter names are pairwise distinct. |
| LuaGen.LocalNames | lua_generator.py:116 | One name per local. |
| LuaGen.LocalNamesDecode | lua_generator.py:116 | Name i is `var_` followed by hex that reads back as i. The names are pairwise distinct. |
| LuaGen.LocalsLines | lua_generator.py:110-117 | No line exactly when there are no locals. Otherwise one line ending in `local var_0000, …`, unindented at level 0. |
| LuaGen.HeaderShape | lua_generator.py:58-74 | The header opens with `--[[` and closes with `]]`. It has 8 lines with external functions and 7 without. |
| LuaGen.HeaderNumberRoundTrip | lua_generator.py:64 | The `Original Usecode: 0x%04X` line reads back as the function number. |
| LuaGen.EventLines | lua_generator.py:79-81 | One constant line per event id, in the order given. |
| LuaGen.EventConstantsAre | lua_generator.py:76-82 | The event block is its header, then `local EVENT_<NAME> = id` for ids 0, 1, 2, 3, 4 and 7 in that order. |
| LuaGen.EscapeQuotes | lua_generator.py:93 | Every double quote in the result follows a backslash. |
| LuaGen.EscapeQuotesRoundTrip | lua_generator.py:93 | Escaping is undone by unescaping, so no data is lost. |
| LuaGen.StringSegments | lua_generator.py:88-89 | Exactly the string segments with non-empty data are kept. |
| LuaGen.DataLines | lua_generator.py:88-94 | One `local str_<label> = "<data>"` line per kept segment, in order. |
| LuaGen.DataSectionSnoc | lua_generator.py:88-94 | One more segment adds its line exactly when it is a string with data. |
| LuaGen.CallisCommentShape | lua_generator.py:145-152 | A `callis` of a hex opcode reads `callis <ops> -> <lua name>() # <description>`. |
| LuaGen.ColumnLayout | lua_generator.py:157-160 | Any other instruction shows the mnemonic padded to column 10, then the operands. A present comment ends the line after ` ; `. |
| LuaGen.ListingLines | lua_generator.py:131-133 | One listing line per instruction. |
| LuaGen.BodyShape | lua_generator.py:119-138 | The body has four fixed lines, then one line per instruction for the first min(10, n), in order. The count line comes last exactly when n > 10. |
| LuaGen.PreambleLayout | lua_generator.py:21-35 | Header, blank line, then the event block and the data block, each with its blank line. Each block is present exactly when its condition holds. |
| LuaGen.AssembleLayout | lua_generator.py:37-55 | The signature follows the preamble. Then come the locals and a blank line when there are locals, then the body, `end`, and a blank line. |
| LuaGen.FreshLocalsUnindented | lua_generator.py:43-48 | With a fresh generator the locals line, right after the signature, has no indentation. |
| LuaGen.FunctionTextEnds | lua_generator.py:52-56 | The text ends with `end` on a line of its own, then a newline. |
| LuaGen.LuaGenerator.constructor | lua_generator.py:15-17 | The indentation level starts at 0. |
| LuaGen.LuaGenerator.GenerateFunction | lua_generator.py:19-56 | The text is FunctionLines joined with newlines, at the level on entry. The level is left at 1. |
| LuaGen.LuaGenerator.GenerateLines | lua_generator.py:21-55 | The lines appended are FunctionLines at the level on entry. The level is left at 1. |
| LuaGen.LuaGenerator.GeneratePreamble | lua_generator.py:21-35 | The lines are PreambleLines. |
| LuaGen.LuaGenerator.GenerateHeader | lua_generator.py:58-74 | The lines are HeaderLines. |
| LuaGen.LuaGenerator.GenerateEventConstants | lua_generator.py:76-82 | The lines are EventConstantLines. |
| LuaGen.LuaGenerator.GenerateDataSection | lua_generator.py:84-96 | The lines are DataSectionLines of the segments. |
| LuaGen.LuaGenerator.GenerateParameters | lua_generator.py:98-108 | The text is the parameter names joined with `, `. |
| LuaGen.LuaGenerator.GenerateBody | lua_generator.py:119-138 | The lines are BodyLines at the current level. |
| LuaGen.LuaGenerator.ListInstructions | lua_generator.py:131-133 | The listing is ListingLines of the shown instructions. |
| LuaGen.LuaGenerator.UsesEventChecks | lua_generator.py:162-172 | True exactly when some index i holds `push` with an `eventid` operand, with i + 2 inside the list and a `pushi` at i + 1. |
| LuaGen.GenerateLuaScript | lua_generator.py:179-182 | The text of a fresh generator: FunctionLines at level 0, joined with newlines. |

## Left out

- Reading files and printing are left out. This covers `UsecodeParser.parse_file`, `parse_usecode_file`, the `__main__` blocks and converter.py. The model works on one line, or on one function record, at a time.
- The general regular-expression engine is left out. Only the fixed patterns of usecode_parser.py are written as recognisers.
- Python's `int()` also accepts a sign, underscores and surrounding white space. The model reads hexadecimal as an optional `0x`/`0X` prefix and digits in either case. It reads decimal as ASCII digits only. Other tokens count as unreadable.
- `\s` is Python's white-space set. `\w`, `lower()` and `upper()` are limited to ASCII. Non-ASCII letters are not modelled.
- `StackValue` is a plain string, its `expr`.
- WellFormed: every `int()` the translator calls outside an exception handler (bytecode_translator_v3.py:39, 160, 209, 229, 299, 314, 350, 359) is a precondition on the instructions. The `except` branches are modelled as fallbacks. `jne`/`je` are also required to carry an operand, which line 160 reads.
- Jump operands with an `H` suffix: one such as `jne 0010H` makes `int(..., 16)` raise (bytecode_translator_v3.py:39), so WellFormed excludes such instruction lists and no translation of them is modelled. `Translation.GuardedAssignment` therefore writes `jne 0010`, which gives the same target 0x10.
- `inst_map` and `jump_targets` (bytecode_translator_v3.py:29-40) are built but never read. They are not fields of the model. Their `int()` on jump operands is part of WellFormed.
- StackSim.ConvertVarName: the contract covers references that do not start with `[`. `StackSim.SlotNamesLocal` covers `[idx]`. A reference starting with `[` but not ending with `]` is left to the function's body.
- Text.RemoveAll: the contract bounds the length for any pattern. It states absence only for one-character patterns. `Text.RemoveAllAbsent` covers the case where the pattern does not occur.
- LuaGen.EscapeQuotes: only `"` is escaped, as in the source. A backslash already in the data is not escaped, so the Lua text can differ from the data. `LuaGen.EscapeQuotesRoundTrip` is stated for the model's own unescaping.
- Intrinsics.EventIdsAscending: the sorted order of EVENT_TYPES is a constant list. `Intrinsics.EventIdsSorted` proves it is the only strictly ascending list of those ids.
- `OBJECT_FLAGS` (intrinsic_mapping.py:182-185) is never read and is not modelled.
- The line constructors of the Lua generator (`ListingLine`, `DataLine`, `MoreLine`) are written inside the methods that use them. Their results are stated through the functions they specify.
- Floating point, concurrency and exceptions escaping to the caller do not occur in the model.
