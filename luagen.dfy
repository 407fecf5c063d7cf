/**
 * `LuaGenerator` of lua_generator.py: the Lua text written for one usecode
 * function. The header comment, the event constants, the string data, the
 * signature, the local declarations and a listing of the first instructions
 * are built as lists of lines and joined with newlines. The functions below
 * say what each part is; the class methods build the parts with the
 * source's loops and are proved to produce exactly those lines.
 */
module LuaGen {
  import opened Text
  import opened Intrinsics
  import opened Usecode

  // ---------------------------------------------------------------------------
  // Names and the signature
  // ---------------------------------------------------------------------------

  /** `func_name or f"func_{func.func_number:04X}"`: an empty name counts as none. */
  function FunctionName(f: UsecodeFunction, funcName: Option<string>): (r: string)
  {
    if funcName.Some? && funcName.value != [] then funcName.value else "func_" + Hex4(f.funcNumber)
  }

  /** Without a given name, the function is named after its number, which reads back from the name. */
  lemma DefaultNameRoundTrip(f: UsecodeFunction, funcName: Option<string>)
    requires funcName.None? || funcName.value == []
    ensures HasPrefix(FunctionName(f, funcName), "func_")
    ensures ParseHex(FunctionName(f, funcName)[5..]) == Some(f.funcNumber)
  {
    var r := FunctionName(f, funcName);
    assert r[5..] == Hex4(f.funcNumber);
    Hex4RoundTrip(f.funcNumber);
  }

  /**
   * The parameter names of `_generate_parameters`: `eventid` and
   * `objectref`, then `arg2` up to `arg{argc-1}` when argc is above two.
   */
  function ParamNames(argc: nat): (r: seq<string>)
    ensures |r| == Max(2, argc)
    ensures r[0] == "eventid" && r[1] == "objectref"
    ensures forall i :: 2 <= i < |r| ==> r[i] == "arg" + DecimalString(i)
    decreases argc
  {
    if argc <= 2 then ["eventid", "objectref"] else ParamNames(argc - 1) + ["arg" + DecimalString(argc - 1)]
  }

  /** No two parameters share a name. */
  lemma ParamNamesDistinct(argc: nat)
    ensures forall i, j :: 0 <= i < j < |ParamNames(argc)| ==> ParamNames(argc)[i] != ParamNames(argc)[j]
  {
    var r := ParamNames(argc);
    forall i, j | 0 <= i < j < |r| ensures r[i] != r[j] {
      if i >= 2 {
        DecimalRoundTrip(i);
        DecimalRoundTrip(j);
        assert r[i][3..] == DecimalString(i) && r[j][3..] == DecimalString(j);
      } else if j >= 2 {
        assert r[j][0] == 'a' && r[i][0] != 'a';
      }
    }
  }

  /** The local variable names `var_0000`, `var_0001`, ... of `_generate_locals`. */
  function LocalNames(localc: nat): (r: seq<string>)
    ensures |r| == localc
  {
    seq(localc, i requires 0 <= i < localc => "var_" + Hex4(i))
  }

  /** Each local's name gives back its index, so the names are distinct. */
  lemma LocalNamesDecode(localc: nat)
    ensures forall i :: 0 <= i < localc ==> HasPrefix(LocalNames(localc)[i], "var_")
    ensures forall i :: 0 <= i < localc ==> ParseHex(LocalNames(localc)[i][4..]) == Some(i)
    ensures forall i, j :: 0 <= i < j < localc ==> LocalNames(localc)[i] != LocalNames(localc)[j]
  {
    var r := LocalNames(localc);
    forall i | 0 <= i < localc ensures ParseHex(r[i][4..]) == Some(i) {
      assert r[i][4..] == Hex4(i);
      Hex4RoundTrip(i);
    }
  }

  /**
   * `_generate_locals` at indentation level `level`: no line for no locals,
   * otherwise one `local` line declaring every local in order.
   */
  function LocalsLines(localc: nat, level: int): (r: seq<string>)
    ensures localc == 0 <==> r == []
    ensures localc > 0 ==> |r| == 1 && HasSuffix(r[0], "local " + Join(LocalNames(localc), ", "))
    ensures localc > 0 && level <= 0 ==> r[0] == "local " + Join(LocalNames(localc), ", ")
  {
    if localc == 0 then [] else [Indent(level, "local " + Join(LocalNames(localc), ", "))]
  }

  // ---------------------------------------------------------------------------
  // The header comment
  // ---------------------------------------------------------------------------

  const UsecodeLinePrefix := "    Original Usecode: "

  /** The lines of `_generate_header`. */
  function HeaderLines(f: UsecodeFunction, funcName: Option<string>): seq<string>
  {
    [ "--[[",
      "    Function: " + FunctionName(f, funcName),
      UsecodeLinePrefix + "0x" + Hex4(f.funcNumber),
      "    ",
      "    Args: " + DecimalString(f.argc),
      "    Locals: " + DecimalString(f.localc)]
    + (if |f.externalFuncs| > 0 then ["    External functions: " + DecimalString(|f.externalFuncs|)] else [])
    + ["]]"]
  }

  /**
   * The header opens and closes the Lua block comment and has a line for
   * the external functions exactly when there are any.
   */
  lemma HeaderShape(f: UsecodeFunction, funcName: Option<string>)
    ensures var h := HeaderLines(f, funcName);
      && h[0] == "--[[" && h[|h| - 1] == "]]"
      && |h| == (if |f.externalFuncs| > 0 then 8 else 7)
  {
  }

  /** The usecode line of the header reads back, `0x` prefix and all, as the function's number. */
  lemma HeaderNumberRoundTrip(f: UsecodeFunction, funcName: Option<string>)
    ensures HasPrefix(HeaderLines(f, funcName)[2], UsecodeLinePrefix)
    ensures ParseHex(HeaderLines(f, funcName)[2][|UsecodeLinePrefix|..]) == Some(f.funcNumber)
  {
    var d := Hex4(f.funcNumber);
    assert HeaderLines(f, funcName)[2][|UsecodeLinePrefix|..] == "0x" + d;
    Hex4RoundTrip(f.funcNumber);
    assert AllHex(d) by {
      forall i | 0 <= i < |d| ensures IsHexDigit(d[i]) {
        assert IsUpperHexDigit(d[i]);
      }
    }
    ParseHexPrefixed(d);
  }

  // ---------------------------------------------------------------------------
  // The event constants
  // ---------------------------------------------------------------------------

  /** `local EVENT_<NAME> = <id>` for one entry of EVENT_TYPES. */
  function EventLine(id: nat): string
    requires id in EventTypes
  {
    "local EVENT_" + ToUpper(EventTypes[id]) + " = " + DecimalString(id)
  }

  /** One line per id, in the order given. */
  function EventLines(ids: seq<nat>): (r: seq<string>)
    requires forall k :: 0 <= k < |ids| ==> ids[k] in EventTypes
    ensures |r| == |ids| && forall k :: 0 <= k < |ids| ==> r[k] == EventLine(ids[k])
  {
    if ids == [] then [] else EventLines(ids[..|ids| - 1]) + [EventLine(ids[|ids| - 1])]
  }

  /** The lines of `_generate_event_constants`: a title, then the entries by ascending id. */
  function EventConstantLines(): seq<string>
  {
    ["-- Event types"] + EventLines(EventIdsAscending())
  }

  /** The lines of the first two event types. */
  lemma FirstEventLines()
    ensures EventLine(0) == "local EVENT_BARK = 0"
    ensures EventLine(1) == "local EVENT_DOUBLECLICK = 1"
  {
    assert ToUpper("bark") == "BARK";
    assert ToUpper("doubleclick") == "DOUBLECLICK";
  }

  /** The lines of the middle two event types. */
  lemma MiddleEventLines()
    ensures EventLine(2) == "local EVENT_USE = 2"
    ensures EventLine(3) == "local EVENT_EGG = 3"
  {
    assert ToUpper("use") == "USE";
    assert ToUpper("egg") == "EGG";
  }

  /** The lines of the last two event types. */
  lemma LastEventLines()
    ensures EventLine(4) == "local EVENT_SPELL = 4"
    ensures EventLine(7) == "local EVENT_SPECIAL = 7"
  {
    assert ToUpper("spell") == "SPELL";
    assert ToUpper("special") == "SPECIAL";
  }

  /** The whole event block, line by line. */
  lemma EventConstantsAre()
    ensures EventConstantLines() == [
      "-- Event types",
      "local EVENT_BARK = 0",
      "local EVENT_DOUBLECLICK = 1",
      "local EVENT_USE = 2",
      "local EVENT_EGG = 3",
      "local EVENT_SPELL = 4",
      "local EVENT_SPECIAL = 7"]
  {
    FirstEventLines();
    MiddleEventLines();
    LastEventLines();
    var ids := EventIdsAscending();
    var lines := EventLines(ids);
    assert |lines| == 6;
    assert lines == [EventLine(0), EventLine(1), EventLine(2), EventLine(3), EventLine(4), EventLine(7)];
  }

  // ---------------------------------------------------------------------------
  // The string data
  // ---------------------------------------------------------------------------

  /** Python truth of a segment's data: a non-empty string, or a non-zero number. */
  predicate HasData(d: SegmentData)
  {
    match d
    case Chars(t) => t != []
    case Number(v) => v != 0
  }

  /** `str(segment.data)`. */
  function DataText(d: SegmentData): string
  {
    match d
    case Chars(t) => t
    case Number(v) => DecimalString(v)
  }

  /** `segment.is_string and segment.data`: the segments that get a line. */
  predicate ShowsString(s: DataSegment)
  {
    s.isString && HasData(s.data)
  }

  /** `s.replace('"', '\\"')`: a backslash before every double quote. */
  function EscapeQuotes(s: string): (r: string)
    ensures |r| >= |s|
    ensures forall i :: 0 <= i < |r| && r[i] == '"' ==> i > 0 && r[i - 1] == '\\'
  {
    if s == [] then ""
    else
      var rest := EscapeQuotes(s[1..]);
      if s[0] == '"' then
        var r := "\\\"" + rest;
        assert forall i :: 2 <= i < |r| ==> r[i] == rest[i - 2];
        r
      else
        var r := [s[0]] + rest;
        assert forall i :: 1 <= i < |r| ==> r[i] == rest[i - 1];
        r
  }

  /** How a reader of the Lua string takes `\"` back to `"`, reading from the left. */
  function UnescapeQuotes(s: string): string
  {
    if |s| >= 2 && s[0] == '\\' && s[1] == '"' then "\"" + UnescapeQuotes(s[2..])
    else if s == [] then ""
    else [s[0]] + UnescapeQuotes(s[1..])
  }

  /** Escaping the quotes loses nothing: reading `\"` as `"` gives the data back. */
  lemma {:induction false} EscapeQuotesRoundTrip(s: string)
    ensures UnescapeQuotes(EscapeQuotes(s)) == s
  {
    if s != [] {
      var rest := EscapeQuotes(s[1..]);
      EscapeQuotesRoundTrip(s[1..]);
      if s[0] == '"' {
        assert ("\\\"" + rest)[2..] == rest;
      } else {
        var r := [s[0]] + rest;
        assert r[1..] == rest;
        if s[0] == '\\' && |rest| > 0 {
          assert rest[0] != '"';
        }
      }
      assert s == [s[0]] + s[1..];
    }
  }

  /** `local str_<label> = "<data>"` for one segment. */
  function DataLine(s: DataSegment): string
  {
    "local str_" + s.labelName + " = \"" + EscapeQuotes(DataText(s.data)) + "\""
  }

  /** The segments that get a line, in order. */
  function StringSegments(segs: seq<DataSegment>): (r: seq<DataSegment>)
    ensures |r| <= |segs|
    ensures forall k :: 0 <= k < |r| ==> ShowsString(r[k]) && r[k] in segs
    ensures forall s :: s in segs && ShowsString(s) ==> s in r
  {
    if segs == [] then []
    else
      var init := StringSegments(segs[..|segs| - 1]);
      var last := segs[|segs| - 1];
      assert forall s :: s in segs ==> s in segs[..|segs| - 1] || s == last;
      if ShowsString(last) then init + [last] else init
  }

  /** One data line per segment, in the order given. */
  function DataLines(segs: seq<DataSegment>): (r: seq<string>)
    ensures |r| == |segs| && forall k :: 0 <= k < |segs| ==> r[k] == DataLine(segs[k])
  {
    if segs == [] then [] else DataLines(segs[..|segs| - 1]) + [DataLine(segs[|segs| - 1])]
  }

  /** The lines of `_generate_data_section`: a title, then one line per string segment with data. */
  function DataSectionLines(segs: seq<DataSegment>): seq<string>
  {
    ["-- String data"] + DataLines(StringSegments(segs))
  }

  /** One more segment adds its line exactly when it is a string segment with data. */
  lemma DataSectionSnoc(segs: seq<DataSegment>, i: nat)
    requires i < |segs|
    ensures DataSectionLines(segs[..i + 1])
      == if ShowsString(segs[i]) then DataSectionLines(segs[..i]) + [DataLine(segs[i])] else DataSectionLines(segs[..i])
  {
    assert segs[..i + 1][..i] == segs[..i];
    var shown := StringSegments(segs[..i]);
    if ShowsString(segs[i]) {
      assert StringSegments(segs[..i + 1]) == shown + [segs[i]];
      assert DataLines(shown + [segs[i]]) == DataLines(shown) + [DataLine(segs[i])] by {
        assert (shown + [segs[i]])[..|shown|] == shown;
      }
    }
  }

  // ---------------------------------------------------------------------------
  // The instruction listing
  // ---------------------------------------------------------------------------

  /** Python truth of an instruction's comment: present and not empty. */
  predicate HasComment(inst: Instruction)
  {
    inst.comment.Some? && inst.comment.value != []
  }

  /** The opcode of a `callis` operand with every `H` removed, when it reads as hexadecimal. */
  function CommentOpcode(inst: Instruction): Option<nat>
  {
    if inst.mnemonic == "callis" && |inst.operands| > 0 then ParseHex(RemoveAll(inst.operands[0], "H")) else None
  }

  /** ` -> <lua name>() # <description>`: what a `callis` comment adds after its operands. */
  function CallisNote(opcode: nat): string
  {
    " -> " + GetLuaFunction(opcode) + "() # " + GetFunctionDescription(opcode)
  }

  /**
   * `_format_instruction_comment`: a `callis` of a hexadecimal opcode names
   * the Lua function and its description; otherwise the mnemonic in a column
   * ten wide, then the operands, in a column twenty wide when a comment
   * follows after ` ; `.
   */
  function FormatInstructionComment(inst: Instruction): string
  {
    var ops := Join(inst.operands, ", ");
    match CommentOpcode(inst)
    case Some(opcode) => inst.mnemonic + " " + ops + CallisNote(opcode)
    case None => ColumnComment(inst)
  }

  /** The comment of any other instruction: mnemonic and operands in columns, then the comment if present. */
  function ColumnComment(inst: Instruction): string
  {
    var ops := Join(inst.operands, ", ");
    var head := PadRight(inst.mnemonic, 10) + " ";
    if HasComment(inst) then head + PadRight(ops, 20) + " ; " + inst.comment.value
    else head + ops
  }

  /** A `callis` of a hexadecimal opcode: the mnemonic and operands, then the opcode's Lua name and description. */
  lemma CallisCommentShape(inst: Instruction)
    requires CommentOpcode(inst).Some?
    ensures var r := FormatInstructionComment(inst);
      && HasPrefix(r, inst.mnemonic + " " + Join(inst.operands, ", "))
      && HasSuffix(r, CallisNote(CommentOpcode(inst).value))
  {
    var head := inst.mnemonic + " " + Join(inst.operands, ", ");
    var r := FormatInstructionComment(inst);
    assert r == head + CallisNote(CommentOpcode(inst).value);
    assert r[..|head|] == head;
  }

  /** The mnemonic in a column ten wide and one space, then the rest. */
  lemma MnemonicColumn(m: string, rest: string)
    ensures var r := PadRight(m, 10) + " " + rest;
      var w := Max(10, |m|);
      && HasPrefix(r, m)
      && |r| > w && (forall i :: |m| <= i <= w ==> r[i] == ' ')
      && r[w + 1..] == rest
  {
    var pad := PadRight(m, 10);
    var r := pad + " " + rest;
    assert r[..|m|] == pad[..|m|];
    assert r == (pad + " ") + rest;
  }

  /**
   * The column layout: the mnemonic, spaces up to column ten (or just one
   * after a longer mnemonic), then the operands; a present comment ends
   * the line after ` ; `.
   */
  lemma ColumnLayout(inst: Instruction)
    ensures var r := ColumnComment(inst);
      var w := Max(10, |inst.mnemonic|);
      && HasPrefix(r, inst.mnemonic)
      && |r| > w && (forall i :: |inst.mnemonic| <= i <= w ==> r[i] == ' ')
      && HasPrefix(r[w + 1..], Join(inst.operands, ", "))
      && (HasComment(inst) ==> HasSuffix(r, " ; " + inst.comment.value))
  {
    var ops := Join(inst.operands, ", ");
    if HasComment(inst) {
      var padded := PadRight(ops, 20);
      var rest := padded + " ; " + inst.comment.value;
      MnemonicColumn(inst.mnemonic, rest);
      assert rest[..|ops|] == padded[..|ops|];
    } else {
      MnemonicColumn(inst.mnemonic, ops);
    }
  }

  /** `-- <address>: <comment>` for one listed instruction. */
  function ListingLine(address: nat, comment: string, level: int): string
  {
    Indent(level, "-- " + Hex4(address) + ": " + comment)
  }

  /** One listing line per instruction, with its comment, in order. */
  function ListingLines(insts: seq<Instruction>, level: int): (r: seq<string>)
    ensures |r| == |insts|
  {
    seq(|insts|, k requires 0 <= k < |insts| => ListingLine(insts[k].address, FormatInstructionComment(insts[k]), level))
  }

  /** The four lines the body starts with. */
  function BodyHead(level: int): seq<string>
  {
    [ Indent(level, "-- TODO: Convert bytecode to Lua"),
      Indent(level, "-- This requires a full instruction-to-Lua translator"),
      "",
      Indent(level, "-- Original instructions:")]
  }

  /** The line that counts the instructions not listed. */
  function MoreLine(n: nat, level: int): string
    requires n > 10
  {
    Indent(level, "-- ... and " + DecimalString(n - 10) + " more instructions")
  }

  /** The lines of `_generate_body`: the head, the first ten instructions, and a count of the rest. */
  function BodyLines(insts: seq<Instruction>, level: int): seq<string>
  {
    var shown := insts[..Min(10, |insts|)];
    BodyHead(level) + ListingLines(shown, level) + (if |insts| > 10 then [MoreLine(|insts|, level)] else [])
  }

  /**
   * The body has four fixed lines, then one line for each of the first
   * min(10, n) instructions in order, then the count line exactly when more
   * than ten instructions were left unlisted; the count reads back as n - 10.
   */
  lemma BodyShape(insts: seq<Instruction>, level: int)
    ensures var b := BodyLines(insts, level);
      && |b| == 4 + Min(10, |insts|) + (if |insts| > 10 then 1 else 0)
      && (forall k :: 0 <= k < Min(10, |insts|) ==>
        b[4 + k] == ListingLine(insts[k].address, FormatInstructionComment(insts[k]), level))
      && (|insts| > 10 <==> |b| == 15)
      && (|insts| > 10 ==> b[14] == MoreLine(|insts|, level))
  {
    var shown := insts[..Min(10, |insts|)];
    var listing := ListingLines(shown, level);
    var more := if |insts| > 10 then [MoreLine(|insts|, level)] else [];
    var b := BodyLines(insts, level);
    assert b == BodyHead(level) + listing + more;
    forall k | 0 <= k < |shown|
      ensures b[4 + k] == ListingLine(insts[k].address, FormatInstructionComment(insts[k]), level)
    {
      assert b[4 + k] == listing[k];
    }
  }

  // ---------------------------------------------------------------------------
  // The event-check scan
  // ---------------------------------------------------------------------------

  /** Instruction i is `push` with an `eventid` operand, i + 2 is inside the list, and a `pushi` follows. */
  predicate EventCheckAt(insts: seq<Instruction>, i: nat)
  {
    && i + 2 < |insts|
    && insts[i].mnemonic == "push" && "eventid" in insts[i].operands
    && insts[i + 1].mnemonic == "pushi"
  }

  /** `_uses_event_checks`: some position starts an event check. */
  predicate HasEventCheck(insts: seq<Instruction>)
  {
    exists i: nat | i < |insts| :: EventCheckAt(insts, i)
  }

  // ---------------------------------------------------------------------------
  // The whole function
  // ---------------------------------------------------------------------------

  /** The signature line. */
  function SignatureLine(f: UsecodeFunction, funcName: Option<string>): string
  {
    "function " + FunctionName(f, funcName) + "(" + Join(ParamNames(f.argc), ", ") + ")"
  }

  /** `if present: lines.extend(block); lines.append("")`. */
  function WithBlock(lines: seq<string>, present: bool, block: seq<string>): seq<string>
  {
    if present then lines + block + [""] else lines
  }

  /** A block is added after the lines, followed by an empty line, or nothing is added. */
  lemma WithBlockLayout(lines: seq<string>, present: bool, block: seq<string>)
    ensures var r := WithBlock(lines, present, block);
      && |r| == |lines| + (if present then |block| + 1 else 0)
      && (forall k :: 0 <= k < |lines| ==> r[k] == lines[k])
      && (present ==> (forall k :: 0 <= k < |block| ==> r[|lines| + k] == block[k]) && r[|r| - 1] == "")
  {
  }

  /**
   * The header and an empty line, then the event constants when `withEvents`
   * and the string data when `withData`, each followed by an empty line.
   */
  function Preamble(header: seq<string>, withEvents: bool, events: seq<string>, withData: bool, data: seq<string>): seq<string>
  {
    WithBlock(WithBlock(header + [""], withEvents, events), withData, data)
  }

  /** Where each block of the preamble sits, and that a block is there exactly when its condition holds. */
  lemma PreambleLayout(header: seq<string>, withEvents: bool, events: seq<string>, withData: bool, data: seq<string>)
    ensures var pre := Preamble(header, withEvents, events, withData, data);
      var h := |header|;
      && |pre| == h + 1 + (if withEvents then |events| + 1 else 0) + (if withData then |data| + 1 else 0)
      && (forall k :: 0 <= k < h ==> pre[k] == header[k])
      && pre[h] == ""
      && (withEvents ==> (forall k :: 0 <= k < |events| ==> pre[h + 1 + k] == events[k]) && pre[h + 1 + |events|] == "")
      && (withData ==> (forall k :: 0 <= k < |data| ==> pre[|pre| - 1 - |data| + k] == data[k]) && pre[|pre| - 1] == "")
  {
    var first := header + [""];
    WithBlockLayout(first, withEvents, events);
    WithBlockLayout(WithBlock(first, withEvents, events), withData, data);
  }

  /**
   * The preamble, the signature, the locals and an empty line when
   * `withLocals`, the body, then `end` and an empty line.
   */
  function Assemble(pre: seq<string>, signature: string, withLocals: bool, locals: seq<string>, body: seq<string>): seq<string>
  {
    WithBlock(pre + [signature], withLocals, locals) + body + ["end"] + [""]
  }

  /** Where each part of the function sits: signature after the preamble, locals next, `end` last. */
  lemma AssembleLayout(pre: seq<string>, signature: string, withLocals: bool, locals: seq<string>, body: seq<string>)
    ensures var lines := Assemble(pre, signature, withLocals, locals, body);
      var p := |pre|;
      && |lines| == p + 1 + (if withLocals then |locals| + 1 else 0) + |body| + 2
      && (forall k :: 0 <= k < p ==> lines[k] == pre[k])
      && lines[p] == signature
      && (withLocals ==> (forall k :: 0 <= k < |locals| ==> lines[p + 1 + k] == locals[k]) && lines[p + 1 + |locals|] == "")
      && (forall k :: 0 <= k < |body| ==> lines[|lines| - 2 - |body| + k] == body[k])
      && lines[|lines| - 2] == "end" && lines[|lines| - 1] == ""
  {
    var signed := pre + [signature];
    var declared := WithBlock(signed, withLocals, locals);
    WithBlockLayout(signed, withLocals, locals);
    var lines := declared + body + ["end"] + [""];
    assert forall k :: 0 <= k < |declared| ==> lines[k] == declared[k];
  }

  /** The lines before the signature of `generate_function`. */
  function PreambleLines(f: UsecodeFunction, funcName: Option<string>): seq<string>
  {
    Preamble(HeaderLines(f, funcName), HasEventCheck(f.instructions), EventConstantLines(),
      |f.dataSegments| > 0, DataSectionLines(f.dataSegments))
  }

  /**
   * The lines of `generate_function` for a generator whose `indent_level`
   * is `level` on entry: the locals are indented at that level, since the
   * level is set to 1 only afterwards, for the body.
   */
  function FunctionLines(f: UsecodeFunction, funcName: Option<string>, level: int): seq<string>
  {
    Assemble(PreambleLines(f, funcName), SignatureLine(f, funcName), f.localc > 0, LocalsLines(f.localc, level),
      BodyLines(f.instructions, 1))
  }

  /** A fresh generator declares the locals without indentation, right after the signature. */
  lemma FreshLocalsUnindented(f: UsecodeFunction, funcName: Option<string>)
    requires f.localc > 0
    ensures FunctionLines(f, funcName, 0)[|PreambleLines(f, funcName)| + 1] == "local " + Join(LocalNames(f.localc), ", ")
  {
    AssembleLayout(PreambleLines(f, funcName), SignatureLine(f, funcName), true, LocalsLines(f.localc, 0),
      BodyLines(f.instructions, 1));
  }

  /** Lines ending in `end` and an empty line join into text ending in a newline, `end`, a newline. */
  lemma JoinEndsWithEnd(parts: seq<string>)
    requires |parts| >= 3 && parts[|parts| - 2] == "end" && parts[|parts| - 1] == ""
    ensures HasSuffix(Join(parts, "\n"), "\nend\n")
  {
    var n := |parts|;
    var init := parts[..n - 1];
    assert init[..n - 2] == parts[..n - 2];
    assert Join(init, "\n") == Join(parts[..n - 2], "\n") + "\n" + "end";
    assert Join(parts, "\n") == Join(parts[..n - 2], "\n") + "\nend\n";
  }

  /** The text of a function ends with `end` on a line of its own, then a newline. */
  lemma FunctionTextEnds(f: UsecodeFunction, funcName: Option<string>, level: int)
    ensures HasSuffix(Join(FunctionLines(f, funcName, level), "\n"), "\nend\n")
  {
    AssembleLayout(PreambleLines(f, funcName), SignatureLine(f, funcName), f.localc > 0, LocalsLines(f.localc, level),
      BodyLines(f.instructions, 1));
    JoinEndsWithEnd(FunctionLines(f, funcName, level));
  }

  class LuaGenerator {
    /** `indent_level`: the number of four-space steps `_indent` puts before a line. */
    var indentLevel: int

    constructor()
      ensures indentLevel == 0
    {
      indentLevel := 0;
    }

    /** `generate_function`: the parts in order, joined with newlines; leaves the level at 1. */
    method GenerateFunction(f: UsecodeFunction, funcName: Option<string>) returns (text: string)
      modifies this`indentLevel
      ensures indentLevel == 1
      ensures text == Join(FunctionLines(f, funcName, old(indentLevel)), "\n")
    {
      var lines := GenerateLines(f, funcName);
      text := Join(lines, "\n");
    }

    /** The list of lines `generate_function` builds before joining them. */
    method GenerateLines(f: UsecodeFunction, funcName: Option<string>) returns (lines: seq<string>)
      modifies this`indentLevel
      ensures indentLevel == 1
      ensures lines == FunctionLines(f, funcName, old(indentLevel))
    {
      lines := GeneratePreamble(f, funcName);
      var params := GenerateParameters(f);
      lines := lines + ["function " + FunctionName(f, funcName) + "(" + params + ")"];
      if f.localc > 0 {
        lines := lines + LocalsLines(f.localc, indentLevel) + [""];
      }
      indentLevel := 1;
      var body := GenerateBody(f);
      lines := lines + body;
      lines := lines + ["end"];
      lines := lines + [""];
    }

    /** The first steps of `generate_function`: header, event constants, string data. */
    method GeneratePreamble(f: UsecodeFunction, funcName: Option<string>) returns (lines: seq<string>)
      ensures lines == PreambleLines(f, funcName)
    {
      lines := GenerateHeader(f, funcName);
      lines := lines + [""];
      var usesEvents := UsesEventChecks(f);
      if usesEvents {
        var constants := GenerateEventConstants();
        lines := lines + constants + [""];
      }
      if |f.dataSegments| > 0 {
        var data := GenerateDataSection(f);
        lines := lines + data + [""];
      }
    }

    /** `_generate_header`. */
    method GenerateHeader(f: UsecodeFunction, funcName: Option<string>) returns (lines: seq<string>)
      ensures lines == HeaderLines(f, funcName)
    {
      var name := FunctionName(f, funcName);
      lines := [
        "--[[",
        "    Function: " + name,
        UsecodeLinePrefix + "0x" + Hex4(f.funcNumber),
        "    ",
        "    Args: " + DecimalString(f.argc),
        "    Locals: " + DecimalString(f.localc)];
      if |f.externalFuncs| > 0 {
        lines := lines + ["    External functions: " + DecimalString(|f.externalFuncs|)];
      }
      lines := lines + ["]]"];
    }

    /** `_generate_event_constants`: one line per entry of EVENT_TYPES, by ascending id. */
    method GenerateEventConstants() returns (lines: seq<string>)
      ensures lines == EventConstantLines()
    {
      var ids := EventIdsAscending();
      lines := ["-- Event types"];
      for i := 0 to |ids|
        invariant lines == ["-- Event types"] + EventLines(ids[..i])
      {
        lines := lines + [EventLine(ids[i])];
        assert ids[..i + 1][..i] == ids[..i];
      }
      assert ids[..|ids|] == ids;
    }

    /** `_generate_data_section`: a line for each string segment with data, in order. */
    method GenerateDataSection(f: UsecodeFunction) returns (lines: seq<string>)
      ensures lines == DataSectionLines(f.dataSegments)
    {
      var segs := f.dataSegments;
      lines := ["-- String data"];
      for i := 0 to |segs|
        invariant lines == DataSectionLines(segs[..i])
      {
        var segment := segs[i];
        DataSectionSnoc(segs, i);
        if segment.isString && HasData(segment.data) {
          lines := lines + [DataLine(segment)];
        }
      }
      assert segs[..|segs|] == segs;
    }

    /** `_generate_parameters`: the names joined with `, `. */
    method GenerateParameters(f: UsecodeFunction) returns (params: string)
      ensures params == Join(ParamNames(f.argc), ", ")
    {
      var names := ["eventid", "objectref"];
      if f.argc > 2 {
        var i := 2;
        while i < f.argc
          invariant 2 <= i <= f.argc
          invariant names == ParamNames(i)
        {
          names := names + ["arg" + DecimalString(i)];
          i := i + 1;
        }
      }
      params := Join(names, ", ");
    }

    /** `_generate_body` at the current level. */
    method GenerateBody(f: UsecodeFunction) returns (lines: seq<string>)
      ensures lines == BodyLines(f.instructions, indentLevel)
    {
      var level := indentLevel;
      var insts := f.instructions;
      lines := BodyHead(level);
      var listing := ListInstructions(insts[..Min(10, |insts|)], level);
      lines := lines + listing;
      if |insts| > 10 {
        lines := lines + [MoreLine(|insts|, level)];
      }
    }

    /** The loop of `_generate_body`: one comment line per instruction, in order. */
    method ListInstructions(shown: seq<Instruction>, level: int) returns (listing: seq<string>)
      ensures listing == ListingLines(shown, level)
    {
      ghost var target := ListingLines(shown, level);
      listing := [];
      for i := 0 to |shown|
        invariant listing == target[..i]
      {
        var inst := shown[i];
        var comment := FormatInstructionComment(inst);
        PrefixGrows(target, i);
        listing := listing + [ListingLine(inst.address, comment, level)];
      }
    }

    /** `_uses_event_checks`: the scan stops at the first event check. */
    method UsesEventChecks(f: UsecodeFunction) returns (r: bool)
      ensures r <==> HasEventCheck(f.instructions)
    {
      var insts := f.instructions;
      for i := 0 to |insts|
        invariant forall j: nat :: j < i ==> !EventCheckAt(insts, j)
      {
        var inst := insts[i];
        if inst.mnemonic == "push" && "eventid" in inst.operands {
          if i + 2 < |insts| {
            var next := insts[i + 1];
            if next.mnemonic == "pushi" {
              assert EventCheckAt(insts, i);
              return true;
            }
          }
        }
      }
      return false;
    }
  }

  /** `generate_lua_script`: a fresh generator, so the locals come out unindented. */
  method GenerateLuaScript(f: UsecodeFunction, funcName: Option<string>) returns (text: string)
    ensures text == Join(FunctionLines(f, funcName, 0), "\n")
  {
    var generator := new LuaGenerator();
    text := generator.GenerateFunction(f, funcName);
  }
}
