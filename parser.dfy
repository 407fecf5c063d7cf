/**
 * UsecodeParser of usecode_parser.py: a state machine that reads a
 * disassembly one line at a time. Its state is the table of functions read
 * so far, the function being read (the one the last `.funcnumber` line
 * created) and whether the lines belong to that function's data section or
 * its code section.
 */
module Parser {
  import opened Text
  import opened Usecode
  import opened Patterns

  /**
   * The parser's fields. `current_function` always refers to the object
   * stored under its own number in `functions` (only a `.funcnumber` line
   * changes it, and that line stores it at the same time), so the model
   * keeps the number and reads the function from the table.
   */
  datatype ParserState = ParserState(
    functions: map<nat, UsecodeFunction>,
    current: Option<nat>,
    inData: bool,
    inCode: bool)

  /** `UsecodeParser()`: no functions, no current function, in no section. */
  function InitialState(): (st: ParserState)
    ensures ValidState(st)
  {
    ParserState(map[], None, false, false)
  }

  /**
   * What every parse keeps: the current function is in the table, every
   * function is stored under its own number with a consistent label index,
   * and the parser is never in both sections at once.
   */
  ghost predicate ValidState(st: ParserState)
  {
    && (st.current.Some? ==> st.current.value in st.functions)
    && !(st.inData && st.inCode)
    && forall n :: n in st.functions ==> st.functions[n].funcNumber == n && SegmentsValid(st.functions[n])
  }

  /** The line the disassembler writes for a directive: `<kw> XXXXH`. */
  function DirectiveLine(kw: string, n: nat): (line: string)
    ensures |line| > |kw| + 1 && HasPrefix(line, kw) && line[|line| - 1] == 'H'
  {
    kw + " " + Hex4(n) + "H"
  }

  /**
   * `parse_line`: blank lines are skipped; a `.funcnumber` line with a
   * number starts a new function; nothing else matters before the first
   * function; `.data` and `.code` switch sections; every other line is
   * handled by the current function.
   */
  function ParseLineSpec(st: ParserState, line: string): (r: ParserState)
    requires ValidState(st)
    ensures ValidState(r)
  {
    if Strip(line) == [] then st
    else if Contains(line, ".funcnumber") && SearchDirective(line, ".funcnumber").Some? then
      var n := SearchDirective(line, ".funcnumber").value;
      ParserState(st.functions[n := NewFunction(n)], Some(n), false, false)
    else if st.current.None? then st
    else if Contains(line, ".data") then st.(inData := true, inCode := false)
    else if Contains(line, ".code") then st.(inData := false, inCode := true)
    else
      var n := st.current.value;
      st.(functions := st.functions[n := ApplyToCurrent(st.functions[n], line, st.inData, st.inCode)])
  }

  /**
   * The part of `parse_line` that only touches the current function: the
   * four metadata directives (a directive whose number does not match is
   * dropped), then a data line or a code line according to the section.
   */
  function ApplyToCurrent(f: UsecodeFunction, line: string, inData: bool, inCode: bool): (g: UsecodeFunction)
    requires SegmentsValid(f)
    ensures SegmentsValid(g) && g.funcNumber == f.funcNumber
    ensures g.dataSegments != f.dataSegments ==> inData
    ensures g.instructions != f.instructions ==>
      inCode && DecodeCodeLine(line).Some? && g.instructions == f.instructions + [DecodeCodeLine(line).value]
  {
    if Contains(line, ".argc") then
      match SearchDirective(line, ".argc")
      case Some(v) => f.(argc := v)
      case None => f
    else if Contains(line, ".localc") then
      match SearchDirective(line, ".localc")
      case Some(v) => f.(localc := v)
      case None => f
    else if Contains(line, ".externsize") then
      match SearchDirective(line, ".externsize")
      case Some(v) => f.(externsize := v)
      case None => f
    else if Contains(line, ".extern") then
      match SearchDirective(line, ".extern")
      case Some(v) => f.(externalFuncs := f.externalFuncs + [v])
      case None => f
    else if inData then ApplyDataLine(f, line)
    else if inCode then ApplyCodeLine(f, line)
    else f
  }

  /** `_parse_code_line`: a matching line appends its instruction; any other line changes nothing. */
  function ApplyCodeLine(f: UsecodeFunction, line: string): (g: UsecodeFunction)
    ensures g.(instructions := f.instructions) == f
    ensures DecodeCodeLine(line).None? ==> g == f
    ensures DecodeCodeLine(line).Some? ==> g.instructions == f.instructions + [DecodeCodeLine(line).value]
  {
    match DecodeCodeLine(line)
    case None => f
    case Some(inst) => f.(instructions := f.instructions + [inst])
  }

  /** A line that reaches the current function is handled by ApplyToCurrent. */
  lemma OnCurrentFunction(st: ParserState, line: string)
    requires ValidState(st) && st.current.Some? && Strip(line) != []
    requires !(Contains(line, ".funcnumber") && SearchDirective(line, ".funcnumber").Some?)
    requires !Contains(line, ".data") && !Contains(line, ".code")
    ensures ParseLineSpec(st, line)
      == st.(functions := st.functions[st.current.value := ApplyToCurrent(st.functions[st.current.value], line, st.inData, st.inCode)])
  {
  }

  /** Replacing the current function by one with the same number and valid segments keeps the state valid. */
  lemma ReplaceCurrentKeepsValid(st: ParserState, g: UsecodeFunction)
    requires ValidState(st) && st.current.Some?
    requires g.funcNumber == st.current.value && SegmentsValid(g)
    ensures ValidState(st.(functions := st.functions[st.current.value := g]))
  {
  }

  /** Segment validity depends on the segments and the label index alone. */
  lemma SegmentsValidFrame(f: UsecodeFunction, g: UsecodeFunction)
    requires SegmentsValid(f) && g.dataSegments == f.dataSegments && g.dataLabels == f.dataLabels
    ensures SegmentsValid(g)
  {
  }

  // ---------------------------------------------------------------------------
  // What a line in the disassembler's layout does
  // ---------------------------------------------------------------------------

  /**
   * A line whose only `.` is its first character does not contain a dotted
   * keyword that differs from the line at position j.
   */
  lemma KeywordAbsent(line: string, kw: string, j: nat)
    requires OnlyLeadingDot(line)
    requires |kw| > 0 && kw[0] == '.' && 0 < j < |kw|
    requires j < |line| ==> line[j] != kw[j]
    ensures !Contains(line, kw)
  {
    forall i | 0 <= i <= |line| ensures !ContainsAt(line, kw, i) {
      if i + |kw| <= |line| {
        var w := line[i..i + |kw|];
        if i == 0 {
          assert w[j] == line[j];
        } else {
          assert w[0] == line[i];
        }
      }
    }
    ContainsIff(line, kw);
  }

  /** The first character of line is its only `.`. */
  predicate OnlyLeadingDot(line: string)
  {
    |line| > 0 && line[0] == '.' && forall i :: 1 <= i < |line| ==> line[i] != '.'
  }

  /** A line without `.` contains no dotted keyword. */
  lemma DotlessLine(line: string, kw: string)
    requires '.' !in line && |kw| > 0 && kw[0] == '.'
    ensures !Contains(line, kw)
  {
    forall i | 0 <= i <= |line| ensures !ContainsAt(line, kw, i) {
      if i + |kw| <= |line| {
        assert line[i..i + |kw|][0] == line[i];
      }
    }
    ContainsIff(line, kw);
  }

  /** In a directive line, the keyword's `.` is the only one. */
  lemma DirectiveLineDots(kw: string, n: nat)
    requires |kw| >= 2 && kw[0] == '.' && forall i :: 1 <= i < |kw| ==> kw[i] != '.'
    ensures var line := DirectiveLine(kw, n);
      && OnlyLeadingDot(line) && (forall i :: 0 <= i < |kw| ==> line[i] == kw[i]) && line[|kw|] == ' '
  {
    var line := DirectiveLine(kw, n);
    var digits := Hex4(n);
    assert line == kw + ([' '] + digits + ['H']);
    forall i | 1 <= i < |line| ensures line[i] != '.' {
      if i < |kw| {
        assert line[i] == kw[i];
      } else if |kw| < i < |line| - 1 {
        assert line[i] == digits[i - |kw| - 1];
      }
    }
  }

  /** A directive line is not blank, contains its keyword and reads back as its number. */
  lemma DirectiveLineReads(kw: string, n: nat)
    requires |kw| > 0 && !IsSpace(kw[0])
    ensures var line := DirectiveLine(kw, n);
      Strip(line) != [] && Contains(line, kw) && SearchDirective(line, kw) == Some(n)
  {
    var line := DirectiveLine(kw, n);
    assert line[0] == kw[0];
    assert ContainsAt(line, kw, 0);
    ContainsIff(line, kw);
    DirectiveRoundTrip(kw, n);
  }

  /**
   * `.funcnumber XXXXH` starts a fresh function under that number, whatever
   * the state: an earlier function with the same number is replaced, and
   * the parser is in neither section.
   */
  lemma FuncnumberLineStartsFunction(st: ParserState, n: nat)
    requires ValidState(st)
    ensures ParseLineSpec(st, DirectiveLine(".funcnumber", n)) == ParserState(st.functions[n := NewFunction(n)], Some(n), false, false)
  {
    DirectiveLineReads(".funcnumber", n);
  }

  /** `.argc XXXXH` sets the current function's argument count and changes nothing else. */
  lemma ArgcLineSetsArgc(st: ParserState, n: nat)
    requires ValidState(st) && st.current.Some?
    ensures var f := st.functions[st.current.value];
      ParseLineSpec(st, DirectiveLine(".argc", n)) == st.(functions := st.functions[st.current.value := f.(argc := n)])
  {
    var line := DirectiveLine(".argc", n);
    DirectiveLineDots(".argc", n);
    KeywordAbsent(line, ".funcnumber", 1);
    KeywordAbsent(line, ".data", 1);
    KeywordAbsent(line, ".code", 1);
    DirectiveLineReads(".argc", n);
    OnCurrentFunction(st, line);
  }

  /** `.localc XXXXH` sets the current function's local count and changes nothing else. */
  lemma LocalcLineSetsLocalc(st: ParserState, n: nat)
    requires ValidState(st) && st.current.Some?
    ensures var f := st.functions[st.current.value];
      ParseLineSpec(st, DirectiveLine(".localc", n)) == st.(functions := st.functions[st.current.value := f.(localc := n)])
  {
    var line := DirectiveLine(".localc", n);
    DirectiveLineDots(".localc", n);
    KeywordAbsent(line, ".funcnumber", 1);
    KeywordAbsent(line, ".data", 1);
    KeywordAbsent(line, ".code", 1);
    KeywordAbsent(line, ".argc", 1);
    DirectiveLineReads(".localc", n);
    OnCurrentFunction(st, line);
  }

  /** `.externsize XXXXH` sets the current function's extern table size and changes nothing else. */
  lemma ExternsizeLineSetsExternsize(st: ParserState, n: nat)
    requires ValidState(st) && st.current.Some?
    ensures var f := st.functions[st.current.value];
      ParseLineSpec(st, DirectiveLine(".externsize", n)) == st.(functions := st.functions[st.current.value := f.(externsize := n)])
  {
    var line := DirectiveLine(".externsize", n);
    DirectiveLineDots(".externsize", n);
    KeywordAbsent(line, ".funcnumber", 1);
    KeywordAbsent(line, ".data", 1);
    KeywordAbsent(line, ".code", 1);
    KeywordAbsent(line, ".argc", 1);
    KeywordAbsent(line, ".localc", 1);
    DirectiveLineReads(".externsize", n);
    OnCurrentFunction(st, line);
    ExternsizeOnCurrent(st.functions[st.current.value], line, n, st.inData, st.inCode);
  }

  /** A line past `.argc` and `.localc` that reads as `.externsize` n sets the extern table size. */
  lemma ExternsizeOnCurrent(f: UsecodeFunction, line: string, n: nat, inData: bool, inCode: bool)
    requires SegmentsValid(f)
    requires !Contains(line, ".argc") && !Contains(line, ".localc")
    requires Contains(line, ".externsize") && SearchDirective(line, ".externsize") == Some(n)
    ensures ApplyToCurrent(f, line, inData, inCode) == f.(externsize := n)
  {
  }

  /** `.extern XXXXH` appends to the current function's external functions and changes nothing else. */
  lemma ExternLineAppendsExtern(st: ParserState, n: nat)
    requires ValidState(st) && st.current.Some?
    ensures var f := st.functions[st.current.value];
      ParseLineSpec(st, DirectiveLine(".extern", n)) == st.(functions := st.functions[st.current.value := f.(externalFuncs := f.externalFuncs + [n])])
  {
    var line := DirectiveLine(".extern", n);
    DirectiveLineDots(".extern", n);
    KeywordAbsent(line, ".funcnumber", 1);
    KeywordAbsent(line, ".data", 1);
    KeywordAbsent(line, ".code", 1);
    KeywordAbsent(line, ".argc", 1);
    KeywordAbsent(line, ".localc", 1);
    KeywordAbsent(line, ".externsize", 7);
    DirectiveLineReads(".extern", n);
    OnCurrentFunction(st, line);
  }

  /** `.data` and `.code` switch the section of the current function and change nothing else. */
  lemma SectionLineSwitches(st: ParserState, kw: string)
    requires ValidState(st) && st.current.Some?
    requires kw == ".data" || kw == ".code"
    ensures ParseLineSpec(st, kw) == st.(inData := kw == ".data", inCode := kw == ".code")
  {
    if kw == ".data" {
      DataKeywordSwitches(st);
    } else {
      CodeKeywordSwitches(st);
    }
  }

  lemma DataKeywordSwitches(st: ParserState)
    requires ValidState(st) && st.current.Some?
    ensures ParseLineSpec(st, ".data") == st.(inData := true, inCode := false)
  {
    var kw := ".data";
    assert ContainsAt(kw, kw, 0) && !IsSpace(kw[0]);
    ContainsIff(kw, kw);
    KeywordAbsent(kw, ".funcnumber", 1);
  }

  lemma CodeKeywordSwitches(st: ParserState)
    requires ValidState(st) && st.current.Some?
    ensures ParseLineSpec(st, ".code") == st.(inData := false, inCode := true)
  {
    var kw := ".code";
    assert ContainsAt(kw, kw, 0) && !IsSpace(kw[0]);
    ContainsIff(kw, kw);
    KeywordAbsent(kw, ".funcnumber", 1);
    KeywordAbsent(kw, ".data", 1);
  }

  /** A line of white space only (or an empty line) changes nothing. */
  lemma BlankLineIgnored(st: ParserState, line: string)
    requires ValidState(st) && forall i :: 0 <= i < |line| ==> IsSpace(line[i])
    ensures ParseLineSpec(st, line) == st
  {
  }

  /**
   * Before the first `.funcnumber` line, every line that does not start a
   * function changes nothing, including a `.funcnumber` line whose number
   * does not match the pattern.
   */
  lemma NothingBeforeFirstFunction(st: ParserState, line: string)
    requires ValidState(st) && st.current.None?
    requires !(Contains(line, ".funcnumber") && SearchDirective(line, ".funcnumber").Some?)
    ensures ParseLineSpec(st, line) == st
  {
  }

  /**
   * In the code section, a code line in the disassembler's layout with no
   * `.` in it appends the instruction it decodes to, and changes nothing else.
   */
  lemma CodeLineAppendsInstruction(
    st: ParserState, address: string, byteText: string, mnemonic: string, operands: string, comment: Option<string>)
    requires ValidState(st) && st.current.Some? && st.inCode
    requires PrintableFields(address, byteText, mnemonic, operands, comment)
    requires '.' !in operands && (comment.Some? ==> '.' !in comment.value)
    ensures var line := FormatCodeLine(address, byteText, mnemonic, operands, comment);
      var f := st.functions[st.current.value];
      && DecodeCodeLine(line).Some?
      && ParseLineSpec(st, line) == st.(functions := st.functions[st.current.value :=
           f.(instructions := f.instructions + [DecodeCodeLine(line).value])])
  {
    var line := FormatCodeLine(address, byteText, mnemonic, operands, comment);
    CodeLineDotless(address, byteText, mnemonic, operands, comment);
    assert line[0] == address[0] && !IsSpace(line[0]);
    DotlessLine(line, ".funcnumber");
    DotlessLine(line, ".data");
    DotlessLine(line, ".code");
    DotlessLine(line, ".argc");
    DotlessLine(line, ".localc");
    DotlessLine(line, ".externsize");
    DotlessLine(line, ".extern");
    OnCurrentFunction(st, line);
    CodeLineRoundTrip(address, byteText, mnemonic, operands, comment);
  }

  /** The byte column as the disassembler prints it: upper-case hexadecimal numbers. */
  predicate ByteTokens(toks: seq<string>)
  {
    |toks| > 0 && forall k :: 0 <= k < |toks| ==> |toks[k]| > 0 && AllUpperHex(toks[k])
  }

  /**
   * The instruction a code line in the disassembler's layout decodes to
   * carries the line's fields: the address, the bytes of the byte column in
   * order with the first of them as the opcode, the mnemonic, the operands
   * and the comment.
   */
  lemma DecodeFormattedCodeLine(address: string, byteTokens: seq<string>, mnemonic: string, operands: string, comment: Option<string>)
    requires ByteTokens(byteTokens)
    requires PrintableFields(address, Join(byteTokens, " "), mnemonic, operands, comment)
    ensures var r := DecodeCodeLine(FormatCodeLine(address, Join(byteTokens, " "), mnemonic, operands, comment));
      && r.Some?
      && ParseHex(address) == Some(r.value.address)
      && AllHex(byteTokens[0]) && r.value.opcode == HexValue(byteTokens[0])
      && |r.value.bytes| == |byteTokens|
      && (forall k :: 0 <= k < |byteTokens| ==> AllHex(byteTokens[k]) && r.value.bytes[k] == HexValue(byteTokens[k]))
      && r.value.mnemonic == mnemonic
      && r.value.operands == SplitOperands(if operands == [] then None else Some(operands))
      && r.value.comment == comment
  {
    var byteText := Join(byteTokens, " ");
    CodeLineRoundTrip(address, byteText, mnemonic, operands, comment);
    ByteColumnSplits(byteTokens);
  }

  /** The byte column strips to itself and splits into its numbers. */
  lemma ByteColumnSplits(toks: seq<string>)
    requires ByteTokens(toks)
    ensures SplitWs(Strip(Join(toks, " "))) == toks
  {
    forall k | 0 <= k < |toks| ensures IsToken(toks[k]) {
      assert forall j :: 0 <= j < |toks[k]| ==> IsUpperHexDigit(toks[k][j]);
    }
    JoinStartsWithToken(toks);
    JoinEndsWithToken(toks);
    StripTrimmed(Join(toks, " "));
    SplitWsJoin(toks);
  }

  lemma CodeLineDotless(address: string, byteText: string, mnemonic: string, operands: string, comment: Option<string>)
    requires PrintableFields(address, byteText, mnemonic, operands, comment)
    requires '.' !in operands && (comment.Some? ==> '.' !in comment.value)
    ensures '.' !in FormatCodeLine(address, byteText, mnemonic, operands, comment)
  {
    assert !IsUpperHexDigit('.') && !IsWordChar('.');
    assert '.' !in address by {
      assert forall i :: 0 <= i < |address| ==> IsUpperHexDigit(address[i]);
    }
  }

  // ---------------------------------------------------------------------------
  // The parser object
  // ---------------------------------------------------------------------------

  class UsecodeParser {
    var functions: map<nat, UsecodeFunction>
    var currentFunction: Option<nat>
    var inDataSection: bool
    var inCodeSection: bool

    function State(): ParserState
      reads this
    {
      ParserState(functions, currentFunction, inDataSection, inCodeSection)
    }

    ghost predicate Valid()
      reads this
    {
      ValidState(State())
    }

    constructor()
      ensures State() == InitialState() && Valid()
    {
      functions := map[];
      currentFunction := None;
      inDataSection := false;
      inCodeSection := false;
    }

    /** `parse_line`, updating the fields as the spec function says. */
    method ParseLine(line: string)
      requires Valid()
      modifies this
      ensures Valid()
      ensures State() == ParseLineSpec(old(State()), line)
    {
      if Strip(line) == [] {
        return;
      }
      if Contains(line, ".funcnumber") {
        var found := SearchDirective(line, ".funcnumber");
        if found.Some? {
          var n := found.value;
          functions := functions[n := NewFunction(n)];
          currentFunction := Some(n);
          inDataSection := false;
          inCodeSection := false;
          return;
        }
      }
      if currentFunction.None? {
        return;
      }
      if Contains(line, ".data") {
        inDataSection := true;
        inCodeSection := false;
        return;
      }
      if Contains(line, ".code") {
        inDataSection := false;
        inCodeSection := true;
        return;
      }
      OnCurrentFunction(State(), line);
      UpdateCurrent(line);
    }

    /**
     * The rest of `parse_line`, once the line has reached the current
     * function: the metadata directives, then the section's own line parser.
     */
    method UpdateCurrent(line: string)
      requires Valid() && currentFunction.Some?
      modifies this
      ensures Valid()
      ensures State() == old(State()).(functions := old(functions)[old(currentFunction.value) :=
        ApplyToCurrent(old(functions[currentFunction.value]), line, old(inDataSection), old(inCodeSection))])
    {
      var n := currentFunction.value;
      var f := functions[n];
      if Contains(line, ".argc") {
        var found := SearchDirective(line, ".argc");
        if found.Some? {
          var g := f.(argc := found.value);
          SegmentsValidFrame(f, g);
          ReplaceCurrentKeepsValid(State(), g);
          functions := functions[n := g];
        }
        return;
      }
      if Contains(line, ".localc") {
        var found := SearchDirective(line, ".localc");
        if found.Some? {
          var g := f.(localc := found.value);
          SegmentsValidFrame(f, g);
          ReplaceCurrentKeepsValid(State(), g);
          functions := functions[n := g];
        }
        return;
      }
      if Contains(line, ".externsize") {
        var found := SearchDirective(line, ".externsize");
        if found.Some? {
          var g := f.(externsize := found.value);
          SegmentsValidFrame(f, g);
          ReplaceCurrentKeepsValid(State(), g);
          functions := functions[n := g];
        }
        return;
      }
      if Contains(line, ".extern") {
        var found := SearchDirective(line, ".extern");
        if found.Some? {
          var g := f.(externalFuncs := f.externalFuncs + [found.value]);
          SegmentsValidFrame(f, g);
          ReplaceCurrentKeepsValid(State(), g);
          functions := functions[n := g];
        }
        return;
      }
      if inDataSection {
        ParseDataLine(line);
        return;
      }
      if inCodeSection {
        ParseCodeLine(line);
        return;
      }
    }

    /** `_parse_data_line` on the current function. */
    method ParseDataLine(line: string)
      requires Valid() && currentFunction.Some?
      modifies this
      ensures Valid()
      ensures currentFunction == old(currentFunction) && inDataSection == old(inDataSection) && inCodeSection == old(inCodeSection)
      ensures functions == old(functions)[currentFunction.value := ApplyDataLine(old(functions)[currentFunction.value], line)]
    {
      var n := currentFunction.value;
      var g := ApplyDataLine(functions[n], line);
      ReplaceCurrentKeepsValid(State(), g);
      functions := functions[n := g];
    }

    /** `_parse_code_line` on the current function. */
    method ParseCodeLine(line: string)
      requires Valid() && currentFunction.Some?
      modifies this
      ensures Valid()
      ensures currentFunction == old(currentFunction) && inDataSection == old(inDataSection) && inCodeSection == old(inCodeSection)
      ensures functions == old(functions)[currentFunction.value := ApplyCodeLine(old(functions)[currentFunction.value], line)]
    {
      var n := currentFunction.value;
      var f := functions[n];
      var g := ApplyCodeLine(f, line);
      SegmentsValidFrame(f, g);
      ReplaceCurrentKeepsValid(State(), g);
      functions := functions[n := g];
    }
  }
}
