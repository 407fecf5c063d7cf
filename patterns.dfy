/**
 * The regular expressions of usecode_parser.py. Each one is written out as a
 * recogniser that returns the groups of the match Python's backtracking
 * engine finds first, together with what the parser builds from those groups.
 */
module Patterns {
  import opened Text
  import opened Usecode

  // ---------------------------------------------------------------------------
  // Character runs
  // ---------------------------------------------------------------------------

  /** The character classes the patterns use: `\s`, `[0-9A-F]`, `[0-9A-F ]`, `\w`, `.`. */
  datatype CharClass = Space | UpperHex | ByteChar | Word | NotNewline

  predicate InClass(c: char, k: CharClass)
  {
    match k
    case Space => IsSpace(c)
    case UpperHex => IsUpperHexDigit(c)
    case ByteChar => IsUpperHexDigit(c) || c == ' '
    case Word => IsWordChar(c)
    case NotNewline => c != '\n'
  }

  /** The length of the longest run of class-k characters of s starting at i. */
  function Run(s: string, i: nat, k: CharClass): (n: nat)
    requires i <= |s|
    ensures i + n <= |s|
    decreases |s| - i
  {
    if i < |s| && InClass(s[i], k) then 1 + Run(s, i + 1, k) else 0
  }

  /** Every character of a run is in the class, and the one after it is not. */
  lemma {:induction false} RunFacts(s: string, i: nat, k: CharClass)
    requires i <= |s|
    ensures forall j :: i <= j < i + Run(s, i, k) ==> InClass(s[j], k)
    ensures i + Run(s, i, k) == |s| || !InClass(s[i + Run(s, i, k)], k)
    decreases |s| - i
  {
    if i < |s| && InClass(s[i], k) {
      RunFacts(s, i + 1, k);
    }
  }

  /** A run is determined by where it stops. */
  lemma {:induction false} RunIs(s: string, i: nat, n: nat, k: CharClass)
    requires i + n <= |s|
    requires forall j :: i <= j < i + n ==> InClass(s[j], k)
    requires i + n == |s| || !InClass(s[i + n], k)
    ensures Run(s, i, k) == n
    decreases n
  {
    if n > 0 {
      RunIs(s, i + 1, n - 1, k);
    }
  }

  /** `$` without MULTILINE: the end of the string, or just before a final newline. */
  predicate AtEnd(s: string, pos: nat)
  {
    pos == |s| || (pos + 1 == |s| && s[pos] == '\n')
  }

  // ---------------------------------------------------------------------------
  // Directives: re.search(r'\.<keyword>\s+([0-9A-F]+)H', line)
  // ---------------------------------------------------------------------------

  /**
   * The value of the leftmost match of `kw\s+([0-9A-F]+)H`. Neither `\s+`
   * nor `[0-9A-F]+` can give characters back usefully (a whitespace
   * character is not a digit and a digit is not `H`), so at each position
   * the match, if any, uses the whole whitespace run and the whole digit run.
   */
  function SearchDirective(line: string, kw: string): (r: Option<nat>)
  {
    SearchDirectiveFrom(line, kw, 0)
  }

  function SearchDirectiveFrom(line: string, kw: string, i: nat): Option<nat>
    requires i <= |line|
    decreases |line| - i
  {
    match DirectiveAt(line, kw, i)
    case Some(v) => Some(v)
    case None => if i < |line| then SearchDirectiveFrom(line, kw, i + 1) else None
  }

  function DirectiveAt(line: string, kw: string, i: nat): Option<nat>
    requires i <= |line|
  {
    if !ContainsAt(line, kw, i) then None
    else
      var j := i + |kw|;
      var w := Run(line, j, Space);
      var h := Run(line, j + w, UpperHex);
      if w == 0 || h == 0 || j + w + h >= |line| || line[j + w + h] != 'H' then None
      else
        var digits := line[j + w..j + w + h];
        RunFacts(line, j + w, UpperHex);
        assert AllHex(digits) by {
          forall m | 0 <= m < |digits| ensures IsHexDigit(digits[m]) {
            assert digits[m] == line[j + w + m];
          }
        }
        Some(HexValue(digits))
  }

  /** A directive as the disassembler writes it, `<kw> XXXXH`, reads back as its number. */
  lemma DirectiveRoundTrip(kw: string, n: nat)
    requires |kw| > 0 && !IsSpace(kw[0])
    ensures SearchDirective(kw + " " + Hex4(n) + "H", kw) == Some(n)
  {
    var line := kw + " " + Hex4(n) + "H";
    var j := |kw|;
    DirectiveLayout(kw, Hex4(n));
    Hex4RoundTrip(n);
    assert DirectiveAt(line, kw, 0) == Some(n);
  }

  lemma DirectiveLayout(kw: string, digits: string)
    requires |digits| > 0 && AllUpperHex(digits)
    ensures var line := kw + " " + digits + "H";
      && ContainsAt(line, kw, 0)
      && Run(line, |kw|, Space) == 1
      && Run(line, |kw| + 1, UpperHex) == |digits|
      && |line| == |kw| + 2 + |digits| && line[|kw| + 1 + |digits|] == 'H'
      && line[|kw| + 1..|kw| + 1 + |digits|] == digits
  {
    var line := kw + " " + digits + "H";
    var j := |kw|;
    assert line == kw + ([' '] + digits + ['H']);
    assert line[..j] == kw;
    assert line[j..] == [' '] + digits + ['H'];
    assert line[j + 1..j + 1 + |digits|] == digits;
    assert line[j + 1] == digits[0];
    RunIs(line, j, 1, Space);
    forall m | j + 1 <= m < j + 1 + |digits| ensures InClass(line[m], UpperHex) {
      assert line[m] == digits[m - j - 1];
    }
    RunIs(line, j + 1, |digits|, UpperHex);
  }

  // ---------------------------------------------------------------------------
  // Data lines
  // ---------------------------------------------------------------------------

  /** The two groups of `(L[0-9A-F]+):\s+db\s+(.+)`. */
  datatype DataMatch = DataMatch(labelName: string, content: string)

  /** `re.match(r'(L[0-9A-F]+):\s+db\s+(.+)', line)`. */
  function MatchDataLine(line: string): (r: Option<DataMatch>)
    ensures r.Some? ==> |r.value.labelName| >= 2 && r.value.labelName[0] == 'L' && AllUpperHex(r.value.labelName[1..])
  {
    if |line| == 0 || line[0] != 'L' then None
    else
      var h := Run(line, 1, UpperHex);
      if h == 0 || 1 + h >= |line| || line[1 + h] != ':' then None
      else
        var w := Run(line, 2 + h, Space);
        var p := 2 + h + w;
        if w == 0 || !ContainsAt(line, "db", p) then None
        else
          match SpaceThenRest(line, p + 2)
          case None => None
          case Some(g) =>
            RunFacts(line, 1, UpperHex);
            assert line[..1 + h][1..] == line[1..1 + h];
            Some(DataMatch(line[..1 + h], g))
  }

  /**
   * `\s+(.+)` at j: the greedy `\s+` takes the whole whitespace run and
   * gives it back one character at a time until `.+` (anything but a
   * newline) can take at least one character, which it then takes greedily.
   */
  function SpaceThenRest(line: string, j: nat): (r: Option<string>)
    requires j <= |line|
    ensures r.Some? ==> |r.value| > 0
  {
    var w := Run(line, j, Space);
    if w == 0 then None else RestAfter(line, j, w)
  }

  function RestAfter(line: string, j: nat, l: nat): (r: Option<string>)
    requires 1 <= l && j + l <= |line|
    ensures r.Some? ==> |r.value| > 0
    decreases l
  {
    var d := Run(line, j + l, NotNewline);
    if d >= 1 then Some(line[j + l..j + l + d])
    else if l == 1 then None
    else RestAfter(line, j, l - 1)
  }

  /** `re.match(r'\s+db\s+(.+)', line)`: the text of a continuation line. */
  function MatchContinuation(line: string): (r: Option<string>)
    ensures r.Some? ==> |r.value| > 0
  {
    var w := Run(line, 0, Space);
    if w == 0 || !ContainsAt(line, "db", w) then None else SpaceThenRest(line, w + 2)
  }

  /** `s.startswith("'") and s.endswith("'")` (a lone quote qualifies). */
  predicate IsQuoted(s: string)
  {
    |s| > 0 && s[0] == '\'' && s[|s| - 1] == '\''
  }

  /** `s[1:-1]`. */
  function Unquote(s: string): (r: string)
    ensures |r| == if |s| >= 2 then |s| - 2 else 0
  {
    if |s| >= 2 then s[1..|s| - 1] else ""
  }

  /** A quoted value reads back as its text. */
  lemma UnquoteQuote(t: string)
    ensures IsQuoted("'" + t + "'") && Unquote("'" + t + "'") == t
  {
  }

  /** The segment a labelled data line describes. */
  function SegmentOf(m: DataMatch): (seg: DataSegment)
    requires |m.labelName| >= 2 && AllUpperHex(m.labelName[1..])
    ensures seg.labelName == m.labelName
    ensures AllHex(m.labelName[1..]) && seg.address == HexValue(m.labelName[1..])
    ensures seg.isString <==> IsQuoted(Strip(m.content))
    ensures seg.isString ==> seg.data == Chars(Unquote(Strip(m.content)))
    ensures !seg.isString && ParseHex(Strip(m.content)).Some? ==> seg.data == Number(ParseHex(Strip(m.content)).value)
    ensures !seg.isString && ParseHex(Strip(m.content)).None? ==> seg.data == Chars(Strip(m.content))
  {
    var content := Strip(m.content);
    assert AllHex(m.labelName[1..]);
    var address := HexValue(m.labelName[1..]);
    if IsQuoted(content) then DataSegment(m.labelName, address, Chars(Unquote(content)), true)
    else
      match ParseHex(content)
      case Some(v) => DataSegment(m.labelName, address, Number(v), false)
      case None => DataSegment(m.labelName, address, Chars(content), false)
  }

  /** The segments of a function: the label index is kept, and string segments hold text. */
  ghost predicate SegmentsValid(f: UsecodeFunction)
  {
    LabelsIndexLast(f) && forall i :: 0 <= i < |f.dataSegments| && f.dataSegments[i].isString ==> f.dataSegments[i].data.Chars?
  }

  /**
   * The text of a `db` continuation line: the stripped line starts with
   * `db` and `\s+db\s+(.+)` matches it.
   */
  function ContinuationOf(line: string): Option<string>
  {
    if HasPrefix(Strip(line), "db") then MatchContinuation(line) else None
  }

  /** What a continuation adds to the string: the group stripped, and unquoted if quoted. */
  function ContinuationText(t: string): string
  {
    var content := Strip(t);
    if IsQuoted(content) then Unquote(content) else content
  }

  /** The last segment exists and holds a string, so a continuation line can extend it. */
  predicate LastIsString(f: UsecodeFunction)
  {
    |f.dataSegments| > 0 && f.dataSegments[|f.dataSegments| - 1].isString
  }

  /**
   * `_parse_data_line`: a labelled line appends a segment and indexes it
   * under its label; a `db` continuation line extends the text of the last
   * segment, if that is a string, in the list and under its label alike;
   * any other line changes nothing.
   */
  function ApplyDataLine(f: UsecodeFunction, line: string): (g: UsecodeFunction)
    requires SegmentsValid(f)
    ensures SegmentsValid(g)
    ensures g.(dataSegments := f.dataSegments, dataLabels := f.dataLabels) == f
    ensures MatchDataLine(line).Some? ==>
      var seg := SegmentOf(MatchDataLine(line).value);
      g.dataSegments == f.dataSegments + [seg] && g.dataLabels == f.dataLabels[seg.labelName := seg]
    ensures MatchDataLine(line).None? && ContinuationOf(line).Some? && LastIsString(f) ==>
      var k := |f.dataSegments| - 1;
      var last := f.dataSegments[k];
      var extended := last.(data := Chars(last.data.text + ContinuationText(ContinuationOf(line).value)));
      g.dataSegments == f.dataSegments[..k] + [extended] && g.dataLabels == f.dataLabels[last.labelName := extended]
    ensures MatchDataLine(line).None? && !(ContinuationOf(line).Some? && LastIsString(f)) ==> g == f
  {
    match MatchDataLine(line)
    case Some(m) =>
      var seg := SegmentOf(m);
      AppendKeepsSegmentsValid(f, seg);
      f.(dataSegments := f.dataSegments + [seg], dataLabels := f.dataLabels[seg.labelName := seg])
    case None =>
      match ContinuationOf(line)
      case None => f
      case Some(text) =>
        if !LastIsString(f) then f
        else
          var k := |f.dataSegments| - 1;
          var last := f.dataSegments[k];
          var updated := last.(data := Chars(last.data.text + ContinuationText(text)));
          ReplaceLastKeepsSegmentsValid(f, updated);
          f.(dataSegments := f.dataSegments[..k] + [updated], dataLabels := f.dataLabels[last.labelName := updated])
  }

  /** A data line as the disassembler writes it, `L<digits>: db <text>`, is recognised with its label and text. */
  lemma DataLineRoundTrip(digits: string, c: string)
    requires |digits| > 0 && AllUpperHex(digits)
    requires |c| > 0 && '\n' !in c && !IsSpace(c[0])
    ensures MatchDataLine("L" + digits + ": db " + c) == Some(DataMatch("L" + digits, c))
  {
    var line := "L" + digits + ": db " + c;
    DataLineLayout(digits, c);
    MatchDataLineAt(line, |digits|, c);
  }

  /** Where the fields of a printed data line sit, and the runs the recogniser measures there. */
  lemma DataLineLayout(digits: string, c: string)
    requires |digits| > 0 && AllUpperHex(digits)
    requires |c| > 0 && '\n' !in c && !IsSpace(c[0])
    ensures var line := "L" + digits + ": db " + c;
      var h := |digits|;
      && |line| == 6 + h + |c| && line[0] == 'L' && line[..1 + h] == "L" + digits
      && Run(line, 1, UpperHex) == h && line[1 + h] == ':'
      && Run(line, 2 + h, Space) == 1 && ContainsAt(line, "db", 3 + h) && Run(line, 5 + h, Space) == 1
      && Run(line, 6 + h, NotNewline) == |c| && line[6 + h..6 + h + |c|] == c
  {
    var line := "L" + digits + ": db " + c;
    var h := |digits|;
    DataLineSlices(digits, c);
    forall j | 1 <= j < 1 + h ensures InClass(line[j], UpperHex) {
      assert line[j] == digits[j - 1];
    }
    RunIs(line, 1, h, UpperHex);
    RunIs(line, 2 + h, 1, Space);
    RunIs(line, 5 + h, 1, Space);
    RestIsText(line, 6 + h, c);
  }

  lemma DataLineSlices(digits: string, c: string)
    ensures var line := "L" + digits + ": db " + c;
      var h := |digits|;
      && |line| == 6 + h + |c| && line[0] == 'L' && line[..1 + h] == "L" + digits
      && (forall j :: 1 <= j < 1 + h ==> line[j] == digits[j - 1])
      && line[1 + h] == ':' && line[2 + h] == ' ' && line[3 + h] == 'd' && line[4 + h] == 'b' && line[5 + h] == ' '
      && line[6 + h..] == c
  {
    var line := "L" + digits + ": db " + c;
    var h := |digits|;
    assert line == ("L" + digits) + (": db " + c);
    assert line[1 + h..] == ": db " + c;
    assert line[6 + h..] == c;
  }

  /** The recogniser's answer on a line whose runs are those of a printed data line. */
  lemma MatchDataLineAt(line: string, h: nat, c: string)
    requires |line| == 6 + h + |c| && |c| > 0 && h > 0 && line[0] == 'L'
    requires Run(line, 1, UpperHex) == h && line[1 + h] == ':'
    requires Run(line, 2 + h, Space) == 1 && ContainsAt(line, "db", 3 + h) && Run(line, 5 + h, Space) == 1
    requires Run(line, 6 + h, NotNewline) == |c| && line[6 + h..6 + h + |c|] == c
    ensures MatchDataLine(line) == Some(DataMatch(line[..1 + h], c))
  {
    assert RestAfter(line, 5 + h, 1) == Some(c);
    assert SpaceThenRest(line, 5 + h) == Some(c);
  }

  /** `.+` from i takes the rest of the line when the rest has no newline. */
  lemma RestIsText(line: string, i: nat, c: string)
    requires i <= |line| && line[i..] == c && '\n' !in c
    ensures Run(line, i, NotNewline) == |c| && line[i..i + |c|] == c
  {
    forall j | i <= j < |line| ensures InClass(line[j], NotNewline) {
      assert line[j] == c[j - i];
    }
    RunIs(line, i, |c|, NotNewline);
  }

  /** A continuation line as the disassembler writes it, indentation then `db <text>`, is recognised with its text. */
  lemma ContinuationRoundTrip(n: nat, c: string)
    requires n > 0 && |c| > 0 && '\n' !in c && !IsSpace(c[0]) && !IsSpace(c[|c| - 1])
    ensures ContinuationOf(Fill(' ', n) + "db " + c) == Some(c)
  {
    var line := Fill(' ', n) + "db " + c;
    ContinuationLayout(n, c);
    MatchContinuationAt(line, n, c);
    StripIndented(n, "db " + c);
  }

  /** The recogniser's answer on a line whose runs are those of a printed continuation line. */
  lemma MatchContinuationAt(line: string, n: nat, c: string)
    requires n > 0 && |line| == n + 3 + |c| && |c| > 0
    requires Run(line, 0, Space) == n && ContainsAt(line, "db", n) && Run(line, n + 2, Space) == 1
    requires Run(line, n + 3, NotNewline) == |c| && line[n + 3..n + 3 + |c|] == c
    ensures MatchContinuation(line) == Some(c)
  {
    assert RestAfter(line, n + 2, 1) == Some(c);
  }

  /** Indented text that ends in a non-space character strips to the text. */
  lemma StripIndented(n: nat, body: string)
    requires |body| > 0 && !IsSpace(body[0]) && !IsSpace(body[|body| - 1])
    ensures Strip(Fill(' ', n) + body) == body
  {
    LStripFill(n, body);
    StripTrimmed(body);
  }

  lemma ContinuationLayout(n: nat, c: string)
    requires n > 0 && |c| > 0 && '\n' !in c && !IsSpace(c[0])
    ensures var line := Fill(' ', n) + "db " + c;
      && line == Fill(' ', n) + ("db " + c) && |line| == n + 3 + |c|
      && Run(line, 0, Space) == n && ContainsAt(line, "db", n) && Run(line, n + 2, Space) == 1
      && Run(line, n + 3, NotNewline) == |c| && line[n + 3..n + 3 + |c|] == c
  {
    var line := Fill(' ', n) + "db " + c;
    assert line == Fill(' ', n) + ("db " + c);
    assert line[n] == 'd' && line[n + 1] == 'b' && line[n + 2] == ' ';
    assert line[n + 3..] == c;
    RunIs(line, 0, n, Space);
    RunIs(line, n + 2, 1, Space);
    RestIsText(line, n + 3, c);
  }

  /**
   * A labelled quoted data line appends a string segment holding the text
   * between the quotes, at the address the label spells, indexed under the label.
   */
  lemma QuotedDataLineAppendsString(f: UsecodeFunction, digits: string, t: string)
    requires SegmentsValid(f) && |digits| > 0 && AllUpperHex(digits) && '\n' !in t
    ensures var name := "L" + digits;
      var seg := DataSegment(name, HexValue(digits), Chars(t), true);
      ApplyDataLine(f, name + ": db '" + t + "'") == f.(dataSegments := f.dataSegments + [seg], dataLabels := f.dataLabels[name := seg])
  {
    var name := "L" + digits;
    QuotedLineMatches(digits, t);
    QuotedSegment(digits, t);
    LabelledLineAppends(f, name + ": db '" + t + "'", DataMatch(name, "'" + t + "'"));
  }

  /** A labelled quoted line matches with the label and the quoted text as its groups. */
  lemma QuotedLineMatches(digits: string, t: string)
    requires |digits| > 0 && AllUpperHex(digits) && '\n' !in t
    ensures MatchDataLine("L" + digits + ": db '" + t + "'") == Some(DataMatch("L" + digits, "'" + t + "'"))
  {
    var c := "'" + t + "'";
    assert "L" + digits + ": db '" + t + "'" == "L" + digits + ": db " + c;
    QuotedText(t);
    DataLineRoundTrip(digits, c);
  }

  /** A labelled data line appends the segment of its match and files it under its label. */
  lemma LabelledLineAppends(f: UsecodeFunction, line: string, m: DataMatch)
    requires SegmentsValid(f) && MatchDataLine(line) == Some(m)
    ensures var seg := SegmentOf(m);
      ApplyDataLine(f, line) == f.(dataSegments := f.dataSegments + [seg], dataLabels := f.dataLabels[seg.labelName := seg])
  {
  }

  /** A quoted text is a `.+` group with nothing to strip, and it unquotes to the text. */
  lemma QuotedText(t: string)
    requires '\n' !in t
    ensures var c := "'" + t + "'";
      |c| > 0 && '\n' !in c && !IsSpace(c[0]) && Strip(c) == c && IsQuoted(c) && Unquote(c) == t
  {
    var c := "'" + t + "'";
    StripTrimmed(c);
    UnquoteQuote(t);
  }

  /** The segment of a quoted data line: the label, the address it spells, and the text as a string. */
  lemma QuotedSegment(digits: string, t: string)
    requires |digits| > 0 && AllUpperHex(digits) && '\n' !in t
    ensures SegmentOf(DataMatch("L" + digits, "'" + t + "'")) == DataSegment("L" + digits, HexValue(digits), Chars(t), true)
  {
    QuotedText(t);
    assert ("L" + digits)[1..] == digits;
  }

  /**
   * An indented `db '<text>'` line after a string segment appends the text
   * between the quotes to that segment, in the list and under its label.
   */
  lemma ContinuationExtendsString(f: UsecodeFunction, n: nat, t: string)
    requires SegmentsValid(f) && LastIsString(f) && n > 0 && '\n' !in t
    ensures var k := |f.dataSegments| - 1;
      var last := f.dataSegments[k];
      var extended := last.(data := Chars(last.data.text + t));
      ApplyDataLine(f, Fill(' ', n) + "db '" + t + "'")
        == f.(dataSegments := f.dataSegments[..k] + [extended], dataLabels := f.dataLabels[last.labelName := extended])
  {
    var c := "'" + t + "'";
    var line := Fill(' ', n) + "db '" + t + "'";
    QuotedContinuation(n, t);
    assert ContinuationText(c) == t by {
      QuotedText(t);
    }
    ContinuedLineExtends(f, line, c);
  }

  /** An indented quoted `db` line is no labelled data line, and its continuation group is the quoted text. */
  lemma QuotedContinuation(n: nat, t: string)
    requires n > 0 && '\n' !in t
    ensures var line := Fill(' ', n) + "db '" + t + "'";
      MatchDataLine(line) == None && ContinuationOf(line) == Some("'" + t + "'")
  {
    var c := "'" + t + "'";
    var line := Fill(' ', n) + "db " + c;
    assert Fill(' ', n) + "db '" + t + "'" == line;
    ContinuationRoundTrip(n, c);
    IndentedNotLabelled(line);
  }

  /** A line that starts with a space has no `L` label at its start. */
  lemma IndentedNotLabelled(line: string)
    requires |line| > 0 && line[0] == ' '
    ensures MatchDataLine(line) == None
  {
  }

  /** A continuation line after a string segment extends that segment, in the list and under its label. */
  lemma ContinuedLineExtends(f: UsecodeFunction, line: string, text: string)
    requires SegmentsValid(f) && LastIsString(f)
    requires MatchDataLine(line) == None && ContinuationOf(line) == Some(text)
    ensures var k := |f.dataSegments| - 1;
      var last := f.dataSegments[k];
      var extended := last.(data := Chars(last.data.text + ContinuationText(text)));
      ApplyDataLine(f, line) == f.(dataSegments := f.dataSegments[..k] + [extended], dataLabels := f.dataLabels[last.labelName := extended])
  {
  }

  lemma AppendKeepsSegmentsValid(f: UsecodeFunction, seg: DataSegment)
    requires SegmentsValid(f)
    requires seg.isString ==> seg.data.Chars?
    ensures SegmentsValid(f.(dataSegments := f.dataSegments + [seg], dataLabels := f.dataLabels[seg.labelName := seg]))
  {
    var segs := f.dataSegments + [seg];
    assert segs[..|segs| - 1] == f.dataSegments;
  }

  lemma ReplaceLastKeepsSegmentsValid(f: UsecodeFunction, updated: DataSegment)
    requires SegmentsValid(f) && |f.dataSegments| > 0
    requires updated.labelName == f.dataSegments[|f.dataSegments| - 1].labelName
    requires updated.isString ==> updated.data.Chars?
    ensures SegmentsValid(f.(dataSegments := f.dataSegments[..|f.dataSegments| - 1] + [updated],
                             dataLabels := f.dataLabels[updated.labelName := updated]))
  {
    var k := |f.dataSegments| - 1;
    var segs := f.dataSegments[..k] + [updated];
    assert segs[..k] == f.dataSegments[..k];
    forall l ensures LastWithLabel(segs, l) == LastWithLabel(f.dataSegments, l) || l == updated.labelName {
    }
  }

  // ---------------------------------------------------------------------------
  // Code lines:
  // ([0-9A-F]+):\s+([0-9A-F ]+)\s+(\w+)(?:\s+(.+?))?(?:\s*;\s*(.+))?$
  // ---------------------------------------------------------------------------

  /** The five groups of a code line; the last two are optional. */
  datatype CodeMatch = CodeMatch(
    address: string, byteText: string, mnemonic: string, operands: Option<string>, comment: Option<string>)

  /** What the pattern guarantees about the groups of any match. */
  predicate GroupsShaped(m: CodeMatch)
  {
    && |m.address| > 0 && AllUpperHex(m.address)
    && |m.byteText| > 0 && (forall c :: c in m.byteText ==> IsUpperHexDigit(c) || c == ' ')
    && |m.mnemonic| > 0 && (forall c :: c in m.mnemonic ==> IsWordChar(c))
  }

  /**
   * `re.match` of the code-line pattern. The address group must be the whole
   * digit run (`:` is not a digit). The first `\s+` and the byte group are
   * greedy and give characters back, longest first; everything after the
   * byte group is tried for each of their lengths in that order.
   */
  function MatchCodeLine(line: string): (r: Option<CodeMatch>)
    ensures r.Some? ==> GroupsShaped(r.value)
  {
    var a := Run(line, 0, UpperHex);
    if a == 0 || a >= |line| || line[a] != ':' then None
    else
      var w := Run(line, a + 1, Space);
      if w == 0 then None
      else
        RunFacts(line, 0, UpperHex);
        FirstSpaceShaped(line, a, w);
        TryFirstSpace(line, a, w)
  }

  function TryFirstSpace(line: string, a: nat, l1: nat): Option<CodeMatch>
    requires 1 <= l1 && a + 1 + l1 <= |line|
    decreases l1
  {
    var p1 := a + 1 + l1;
    var b := Run(line, p1, ByteChar);
    var r := if b == 0 then None else TryBytes(line, a, p1, b);
    if r.Some? then r
    else if l1 == 1 then None
    else TryFirstSpace(line, a, l1 - 1)
  }

  function TryBytes(line: string, a: nat, p1: nat, l2: nat): Option<CodeMatch>
    requires a <= p1 && 1 <= l2 && p1 + l2 <= |line|
    decreases l2
  {
    match AfterBytes(line, p1 + l2)
    case Some(rest) => Some(CodeMatch(line[..a], line[p1..p1 + l2], rest.mnemonic, rest.operands, rest.comment))
    case None => if l2 == 1 then None else TryBytes(line, a, p1, l2 - 1)
  }

  /** The groups after the byte group: mnemonic, operands, comment. */
  datatype Rest = Rest(mnemonic: string, operands: Option<string>, comment: Option<string>)

  /**
   * `\s+(\w+)` and the two optional groups, from p. Both runs are taken
   * whole: a shorter `\s+` would leave whitespace where `\w+` must start,
   * and a shorter `\w+` would leave a word character where only whitespace,
   * `;` or the end may follow.
   */
  function AfterBytes(line: string, p: nat): Option<Rest>
    requires p <= |line|
  {
    var s := Run(line, p, Space);
    var m := Run(line, p + s, Word);
    if s == 0 || m == 0 then None else RestFrom(line, p + s + m, line[p + s..p + s + m])
  }

  lemma {:induction false} FirstSpaceShaped(line: string, a: nat, l1: nat)
    requires 0 < a && 1 <= l1 && a + 1 + l1 <= |line|
    requires forall j :: 0 <= j < a ==> IsUpperHexDigit(line[j])
    ensures TryFirstSpace(line, a, l1).Some? ==> GroupsShaped(TryFirstSpace(line, a, l1).value)
    decreases l1
  {
    var p1 := a + 1 + l1;
    var b := Run(line, p1, ByteChar);
    if b > 0 {
      RunFacts(line, p1, ByteChar);
      BytesShaped(line, a, p1, b);
    }
    if l1 > 1 {
      FirstSpaceShaped(line, a, l1 - 1);
    }
  }

  lemma {:induction false} BytesShaped(line: string, a: nat, p1: nat, l2: nat)
    requires 0 < a <= p1 && 1 <= l2 && p1 + l2 <= |line|
    requires forall j :: 0 <= j < a ==> IsUpperHexDigit(line[j])
    requires forall j :: p1 <= j < p1 + l2 ==> InClass(line[j], ByteChar)
    ensures TryBytes(line, a, p1, l2).Some? ==> GroupsShaped(TryBytes(line, a, p1, l2).value)
    decreases l2
  {
    match AfterBytes(line, p1 + l2)
    case Some(rest) =>
      MnemonicShaped(line, p1 + l2);
      var m := TryBytes(line, a, p1, l2).value;
      assert m.address == line[..a] && m.byteText == line[p1..p1 + l2] && m.mnemonic == rest.mnemonic;
      forall c | c in m.byteText ensures IsUpperHexDigit(c) || c == ' ' {
        var k :| 0 <= k < l2 && m.byteText[k] == c;
        assert line[p1 + k] == c && InClass(line[p1 + k], ByteChar);
      }
      forall i | 0 <= i < a ensures IsUpperHexDigit(m.address[i]) {
        assert m.address[i] == line[i];
      }
    case None =>
      if l2 > 1 {
        BytesShaped(line, a, p1, l2 - 1);
      }
  }

  lemma MnemonicShaped(line: string, p: nat)
    requires p <= |line|
    ensures AfterBytes(line, p).Some? ==>
      |AfterBytes(line, p).value.mnemonic| > 0 && forall c :: c in AfterBytes(line, p).value.mnemonic ==> IsWordChar(c)
  {
    var s := Run(line, p, Space);
    var m := Run(line, p + s, Word);
    if s > 0 && m > 0 {
      RunFacts(line, p + s, Word);
      var mnemonic := line[p + s..p + s + m];
      forall c | c in mnemonic ensures IsWordChar(c) {
        var k :| 0 <= k < m && mnemonic[k] == c;
        assert line[p + s + k] == c;
      }
      assert AfterBytes(line, p) == RestFrom(line, p + s + m, mnemonic);
    } else {
      assert AfterBytes(line, p) == None;
    }
  }

  /** The mnemonic, with the optional groups matched from q. */
  function RestFrom(line: string, q: nat, mnemonic: string): (r: Option<Rest>)
    requires q <= |line|
    ensures r.Some? ==> r.value.mnemonic == mnemonic
  {
    match OperandsAndComment(line, q)
    case None => None
    case Some(oc) => Some(Rest(mnemonic, oc.0, oc.1))
  }

  /**
   * `(?:\s+(.+?))?(?:\s*;\s*(.+))?$` at q: the operand group is tried first
   * (the `?` is greedy); its `\s+` from longest to shortest and, for each,
   * its lazy `.+?` from shortest to longest, until the rest of the line
   * matches; failing all of those the operand group is skipped.
   */
  function OperandsAndComment(line: string, q: nat): (r: Option<(Option<string>, Option<string>)>)
    requires q <= |line|
  {
    var w := Run(line, q, Space);
    var withOperands := if w == 0 then None else TryOperandSpace(line, q, w);
    if withOperands.Some? then withOperands
    else
      match Tail(line, q)
      case Some(c) => Some((None, c))
      case None => None
  }

  function TryOperandSpace(line: string, q: nat, l: nat): (r: Option<(Option<string>, Option<string>)>)
    requires 1 <= l && q + l <= |line|
    decreases l
  {
    var d := Run(line, q + l, NotNewline);
    var r := TryLazy(line, q + l, 1, d);
    if r.Some? then r
    else if l == 1 then None
    else TryOperandSpace(line, q, l - 1)
  }

  /** `(.+?)` at start, trying lengths t, t+1, ..., d (d the non-newline run). */
  function TryLazy(line: string, start: nat, t: nat, d: nat): (r: Option<(Option<string>, Option<string>)>)
    requires 1 <= t && start + d <= |line|
    decreases d + 1 - t
  {
    if t > d then None
    else
      match Tail(line, start + t)
      case Some(c) =>
        Some((Some(line[start..start + t]), c))
      case None => TryLazy(line, start, t + 1, d)
  }

  /** `(?:\s*;\s*(.+))?$` at pos: the comment, if the group matches, else the bare end. */
  function Tail(line: string, pos: nat): (r: Option<Option<string>>)
    requires pos <= |line|
  {
    match Comment(line, pos)
    case Some(c) => Some(Some(c))
    case None => if AtEnd(line, pos) then Some(None) else None
  }

  /**
   * `\s*;\s*(.+)$` at pos. The first `\s*` must take the whole run (`;` is not
   * whitespace); the second gives characters back, longest first, since `.`
   * also matches whitespace; `(.+)$` holds only when the non-newline run
   * reaches the end.
   */
  function Comment(line: string, pos: nat): (r: Option<string>)
    requires pos <= |line|
  {
    var w := Run(line, pos, Space);
    if pos + w >= |line| || line[pos + w] != ';' then None
    else
      var k := pos + w + 1;
      TryCommentSpace(line, k, Run(line, k, Space))
  }

  function TryCommentSpace(line: string, k: nat, l: nat): (r: Option<string>)
    requires k + l <= |line|
    decreases l
  {
    var d := Run(line, k + l, NotNewline);
    if d >= 1 && AtEnd(line, k + l + d) then
      Some(line[k + l..k + l + d])
    else if l == 0 then None
    else TryCommentSpace(line, k, l - 1)
  }

  /** `[int(b, 16) for b in byte_str.split()]`. */
  function ByteValues(tokens: seq<string>): (r: seq<nat>)
    requires forall k :: 0 <= k < |tokens| ==> AllHex(tokens[k])
    ensures |r| == |tokens|
    ensures forall k :: 0 <= k < |r| ==> ParseHex(tokens[k]) == Some(r[k]) || tokens[k] == []
  {
    seq(|tokens|, k requires 0 <= k < |tokens| => HexValue(tokens[k]))
  }

  /** The byte tokens of a byte group: whitespace-separated hexadecimal numbers. */
  lemma ByteTokensHex(byteText: string)
    requires forall c :: c in byteText ==> IsUpperHexDigit(c) || c == ' '
    ensures forall k :: 0 <= k < |SplitWs(Strip(byteText))| ==>
      |SplitWs(Strip(byteText))[k]| > 0 && AllHex(SplitWs(Strip(byteText))[k])
  {
    var toks := SplitWs(Strip(byteText));
    SplitWsCharsIn(Strip(byteText));
    forall k | 0 <= k < |toks| ensures |toks[k]| > 0 && AllHex(toks[k]) {
      assert IsToken(toks[k]) && CharsIn(toks[k], Strip(byteText));
      forall j | 0 <= j < |toks[k]| ensures IsHexDigit(toks[k][j]) {
        assert toks[k][j] in byteText;
      }
    }
  }

  /**
   * `[op.strip() for op in operands_str.split(',')]` for a non-empty operand
   * group, no operands otherwise: one operand per comma-separated piece,
   * without surrounding whitespace and without commas.
   */
  function SplitOperands(text: Option<string>): (r: seq<string>)
    ensures text.None? || text.value == [] <==> r == []
    ensures text.Some? && text.value != [] ==> |r| == |Split(text.value, ',')|
    ensures text.Some? && text.value != [] ==> forall k :: 0 <= k < |r| ==> r[k] == Strip(Split(text.value, ',')[k])
    ensures forall k :: 0 <= k < |r| ==> ',' !in r[k] && (r[k] == [] || (!IsSpace(r[k][0]) && !IsSpace(r[k][|r[k]| - 1])))
  {
    if text.None? || text.value == [] then []
    else
      var pieces := Split(text.value, ',');
      seq(|pieces|, k requires 0 <= k < |pieces| => StripPiece(pieces[k]))
  }

  /** One comma-free piece without its surrounding whitespace. */
  function StripPiece(piece: string): (r: string)
    requires ',' !in piece
    ensures r == Strip(piece) && ',' !in r
  {
    var r := Strip(piece);
    assert CharsIn(r, piece);
    r
  }

  /** The instruction `_parse_code_line` builds from a line, if the line matches. */
  function DecodeCodeLine(line: string): (r: Option<Instruction>)
    ensures r.Some? <==> MatchCodeLine(line).Some?
    ensures r.Some? && |r.value.bytes| > 0 ==> r.value.opcode == r.value.bytes[0]
    ensures r.Some? ==> (r.value.bytes == [] ==> r.value.opcode == 0)
    ensures r.Some? ==> r.value.comment == MatchCodeLine(line).value.comment
    ensures r.Some? ==> r.value.mnemonic == MatchCodeLine(line).value.mnemonic
    ensures r.Some? ==> r.value.operands == SplitOperands(MatchCodeLine(line).value.operands)
    ensures r.Some? ==> ParseHex(MatchCodeLine(line).value.address) == Some(r.value.address)
  {
    match MatchCodeLine(line)
    case None => None
    case Some(m) =>
      var tokens := SplitWs(Strip(m.byteText));
      ByteTokensHex(m.byteText);
      var bytes := ByteValues(tokens);
      assert AllHex(m.address);
      Some(Instruction(
        HexValue(m.address), if |bytes| > 0 then bytes[0] else 0, bytes, m.mnemonic, SplitOperands(m.operands), m.comment))
  }

  // ---------------------------------------------------------------------------
  // Reading back the disassembler's own layout
  // ---------------------------------------------------------------------------

  /** A code line laid out as the disassembler prints it, one space between fields. */
  function FormatCodeLine(address: string, byteText: string, mnemonic: string, operands: string, comment: Option<string>): (line: string)
    ensures |line| >= |address| + 3 + |byteText| + |mnemonic|
  {
    address + ": " + byteText + " " + mnemonic + OperandsText(operands, comment)
  }

  /** The part of a printed code line after the mnemonic. */
  function OperandsText(operands: string, comment: Option<string>): string
  {
    (if operands == [] then "" else " " + operands) + (if comment.None? then "" else " ; " + comment.value)
  }

  /** The fields of a code line the recogniser reads back unchanged. */
  predicate PrintableFields(address: string, byteText: string, mnemonic: string, operands: string, comment: Option<string>)
  {
    && |address| > 0 && AllUpperHex(address)
    && |byteText| > 0 && IsUpperHexDigit(byteText[0]) && (forall c :: c in byteText ==> IsUpperHexDigit(c) || c == ' ')
    && |mnemonic| > 0 && !IsUpperHexDigit(mnemonic[0]) && (forall c :: c in mnemonic ==> IsWordChar(c))
    && PrintableOperands(operands, comment)
  }

  predicate PrintableOperands(operands: string, comment: Option<string>)
  {
    && '\n' !in operands && ';' !in operands
    && (operands != [] ==> !IsSpace(operands[0]) && !IsSpace(operands[|operands| - 1]))
    && (comment.Some? ==> operands != [] && |comment.value| > 0 && '\n' !in comment.value && !IsSpace(comment.value[0]))
  }

  /**
   * A line in the disassembler's layout matches with exactly its fields as
   * the groups: the operand text (when there is any) as the fourth group and
   * the text after ` ; ` as the fifth.
   */
  lemma CodeLineRoundTrip(address: string, byteText: string, mnemonic: string, operands: string, comment: Option<string>)
    requires PrintableFields(address, byteText, mnemonic, operands, comment)
    ensures MatchCodeLine(FormatCodeLine(address, byteText, mnemonic, operands, comment))
      == Some(CodeMatch(address, byteText, mnemonic, if operands == [] then None else Some(operands), comment))
  {
    var line := FormatCodeLine(address, byteText, mnemonic, operands, comment);
    var rest := OperandsText(operands, comment);
    var a := |address|;
    var p1 := a + 2;
    var p2 := p1 + |byteText|;
    var q := p2 + 1 + |mnemonic|;
    var ops := if operands == [] then None else Some(operands);
    FormatSlices(line, address, byteText, mnemonic, rest, a, p1, p2, q);
    assert rest == [] || rest[0] == ' ';
    assert byteText[0] == line[p1] && line[p2 + 1] == mnemonic[0] && mnemonic[0] in mnemonic by {
      assert line[p1..p2][0] == line[p1] && line[p2 + 1..q][0] == line[p2 + 1];
    }
    AddressRun(line, address);
    BytesRun(line, p1, p2, byteText, mnemonic[0]);
    MnemonicRun(line, p2, mnemonic);
    OperandsRoundTrip(line, q, operands, comment);
    AssembleCodeMatch(line, a, p1, p2, q, ops, comment);
  }

  /** Where each field sits in a printed code line. */
  lemma FormatSlices(line: string, address: string, byteText: string, mnemonic: string, rest: string, a: nat, p1: nat, p2: nat, q: nat)
    requires line == address + ": " + byteText + " " + mnemonic + rest
    requires a == |address| && p1 == a + 2 && p2 == p1 + |byteText| && q == p2 + 1 + |mnemonic|
    ensures |line| == q + |rest|
    ensures line[..a] == address && line[a] == ':' && line[a + 1] == ' '
    ensures line[p1..p2] == byteText && line[p2] == ' '
    ensures line[p2 + 1..q] == mnemonic && line[q..] == rest
  {
    assert line == address + ([':', ' '] + (byteText + ([' '] + (mnemonic + rest))));
    assert line[p1..] == byteText + ([' '] + (mnemonic + rest));
    assert line[p2..] == [' '] + (mnemonic + rest);
    assert line[p2 + 1..] == mnemonic + rest;
  }

  /** A run is exactly a given piece when the piece is in the class and what follows is not. */
  lemma RunOver(line: string, i: nat, w: string, k: CharClass)
    requires i + |w| <= |line| && line[i..i + |w|] == w
    requires forall c :: c in w ==> InClass(c, k)
    requires i + |w| == |line| || !InClass(line[i + |w|], k)
    ensures Run(line, i, k) == |w|
  {
    forall j | i <= j < i + |w| ensures InClass(line[j], k) {
      assert line[j] == w[j - i];
      assert w[j - i] in w;
    }
    RunIs(line, i, |w|, k);
  }

  lemma AddressRun(line: string, address: string)
    requires |address| > 0 && AllUpperHex(address)
    requires |address| + 2 < |line| && line[..|address|] == address && line[|address|] == ':' && line[|address| + 1] == ' '
    requires line[|address| + 2] != ' ' && !IsSpace(line[|address| + 2])
    ensures Run(line, 0, UpperHex) == |address| && Run(line, |address| + 1, Space) == 1
  {
    assert line[0..|address|] == address;
    forall c | c in address ensures InClass(c, UpperHex) {
      var k :| 0 <= k < |address| && address[k] == c;
    }
    RunOver(line, 0, address, UpperHex);
    RunIs(line, |address| + 1, 1, Space);
  }

  lemma BytesRun(line: string, p1: nat, p2: nat, byteText: string, next: char)
    requires p2 == p1 + |byteText| && p2 + 1 < |line| && line[p1..p2] == byteText
    requires line[p2] == ' ' && line[p2 + 1] == next
    requires forall c :: c in byteText ==> IsUpperHexDigit(c) || c == ' '
    requires !IsUpperHexDigit(next) && next != ' ' && !IsSpace(next)
    ensures Run(line, p1, ByteChar) == p2 - p1 + 1
    ensures Run(line, p2, Space) == 1 && Run(line, p2 + 1, Space) == 0
  {
    SliceInClass(line, p1, byteText, ByteChar);
    assert forall j :: p1 <= j < p2 + 1 ==> InClass(line[j], ByteChar) by {
      assert InClass(line[p2], ByteChar);
    }
    RunIs(line, p1, p2 + 1 - p1, ByteChar);
    RunIs(line, p2, 1, Space);
    RunIs(line, p2 + 1, 0, Space);
  }

  lemma SliceInClass(line: string, i: nat, w: string, k: CharClass)
    requires i + |w| <= |line| && line[i..i + |w|] == w
    requires forall c :: c in w ==> InClass(c, k)
    ensures forall j :: i <= j < i + |w| ==> InClass(line[j], k)
  {
    forall j | i <= j < i + |w| ensures InClass(line[j], k) {
      assert line[j] == w[j - i];
      assert w[j - i] in w;
    }
  }

  lemma MnemonicRun(line: string, p2: nat, mnemonic: string)
    requires p2 + 1 + |mnemonic| <= |line| && line[p2 + 1..p2 + 1 + |mnemonic|] == mnemonic
    requires forall c :: c in mnemonic ==> IsWordChar(c)
    requires p2 + 1 + |mnemonic| == |line| || line[p2 + 1 + |mnemonic|] == ' '
    ensures Run(line, p2 + 1, Word) == |mnemonic|
  {
    RunOver(line, p2 + 1, mnemonic, Word);
  }

  /** The recogniser's result, from the runs of a line and the match of its operand part. */
  lemma AssembleCodeMatch(line: string, a: nat, p1: nat, p2: nat, q: nat, operands: Option<string>, comment: Option<string>)
    requires 0 < a && p1 == a + 2 && p1 < p2 && p2 + 1 < q <= |line| && line[a] == ':'
    requires Run(line, 0, UpperHex) == a && Run(line, a + 1, Space) == 1
    requires Run(line, p1, ByteChar) == p2 - p1 + 1
    requires Run(line, p2, Space) == 1 && Run(line, p2 + 1, Space) == 0
    requires Run(line, p2 + 1, Word) == q - p2 - 1
    requires OperandsAndComment(line, q) == Some((operands, comment))
    ensures MatchCodeLine(line) == Some(CodeMatch(line[..a], line[p1..p2], line[p2 + 1..q], operands, comment))
  {
    var rest := Rest(line[p2 + 1..q], operands, comment);
    AfterBytesIs(line, p2, q, operands, comment);
    NoMnemonicAfterSpace(line, p2 + 1);
    TryBytesFound(line, a, p1, p2, rest);
    TryBytesGivesBack(line, a, p1, p2 + 1);
    FirstSpaceTakesAll(line, a, p1, p2 + 1);
    MatchCodeLineStarts(line, a);
  }

  lemma AfterBytesIs(line: string, p2: nat, q: nat, operands: Option<string>, comment: Option<string>)
    requires p2 + 1 < q <= |line|
    requires Run(line, p2, Space) == 1 && Run(line, p2 + 1, Word) == q - p2 - 1
    requires OperandsAndComment(line, q) == Some((operands, comment))
    ensures AfterBytes(line, p2) == Some(Rest(line[p2 + 1..q], operands, comment))
  {
  }

  lemma NoMnemonicAfterSpace(line: string, p: nat)
    requires p <= |line| && Run(line, p, Space) == 0
    ensures AfterBytes(line, p) == None
  {
  }

  lemma TryBytesFound(line: string, a: nat, p1: nat, p2: nat, rest: Rest)
    requires a <= p1 < p2 <= |line|
    requires AfterBytes(line, p2) == Some(rest)
    ensures TryBytes(line, a, p1, p2 - p1) == Some(CodeMatch(line[..a], line[p1..p2], rest.mnemonic, rest.operands, rest.comment))
  {
  }

  lemma TryBytesGivesBack(line: string, a: nat, p1: nat, e: nat)
    requires a <= p1 && p1 + 2 <= e <= |line|
    requires AfterBytes(line, e) == None
    ensures TryBytes(line, a, p1, e - p1) == TryBytes(line, a, p1, e - 1 - p1)
  {
  }

  lemma FirstSpaceTakesAll(line: string, a: nat, p1: nat, e: nat)
    requires p1 == a + 2 && p1 < e <= |line|
    requires Run(line, p1, ByteChar) == e - p1
    requires TryBytes(line, a, p1, e - p1).Some?
    ensures TryFirstSpace(line, a, 1) == TryBytes(line, a, p1, e - p1)
  {
  }

  lemma MatchCodeLineStarts(line: string, a: nat)
    requires 0 < a && a + 2 <= |line| && line[a] == ':'
    requires Run(line, 0, UpperHex) == a && Run(line, a + 1, Space) == 1
    ensures MatchCodeLine(line) == TryFirstSpace(line, a, 1)
  {
  }

  /** The operand and comment groups of the disassembler's layout. */
  lemma OperandsRoundTrip(line: string, q: nat, operands: string, comment: Option<string>)
    requires q <= |line| && line[q..] == OperandsText(operands, comment)
    requires PrintableOperands(operands, comment)
    ensures OperandsAndComment(line, q) == Some((if operands == [] then None else Some(operands), comment))
  {
    if operands == [] {
      assert q == |line|;
      RunIs(line, q, 0, Space);
    } else {
      SomeOperandsRoundTrip(line, q, operands, comment);
    }
  }

  lemma SomeOperandsRoundTrip(line: string, q: nat, operands: string, comment: Option<string>)
    requires q <= |line| && line[q..] == OperandsText(operands, comment)
    requires PrintableOperands(operands, comment) && operands != []
    ensures OperandsAndComment(line, q) == Some((Some(operands), comment))
  {
    var suffix := if comment.None? then "" else " ; " + comment.value;
    assert line[q..] == " " + operands + suffix;
    OperandsFound(line, q, operands, comment);
  }

  /** `\s+(.+?)` followed by the tail, where the line holds a space, the operands and the comment part. */
  lemma OperandsFound(line: string, q: nat, operands: string, comment: Option<string>)
    requires PrintableOperands(operands, comment) && operands != []
    requires q + 1 + |operands| <= |line| && line[q] == ' '
    requires line[q + 1..q + 1 + |operands|] == operands
    requires line[q + 1 + |operands|..] == (if comment.None? then "" else " ; " + comment.value)
    ensures OperandsAndComment(line, q) == Some((Some(operands), comment))
  {
    var start := q + 1;
    var e := start + |operands|;
    RunIs(line, q, 1, Space);
    NoNewlineAfter(line, start, e, operands, comment);
    RunIs(line, start, |line| - start, NotNewline);
    TailAtOperandsEnd(line, e, comment);
    forall pos | start + 1 <= pos < e ensures Tail(line, pos) == None {
      TailInsideOperands(line, start, e, pos, operands);
    }
    TryLazyFinds(line, start, 1, |line| - start, |operands|, comment);
  }

  lemma NoNewlineAfter(line: string, start: nat, e: nat, operands: string, comment: Option<string>)
    requires start <= e <= |line| && line[start..e] == operands && '\n' !in operands
    requires line[e..] == (if comment.None? then "" else " ; " + comment.value)
    requires comment.Some? ==> '\n' !in comment.value
    ensures forall j :: start <= j < |line| ==> InClass(line[j], NotNewline)
  {
    forall j | start <= j < |line| ensures line[j] != '\n' {
      if j < e {
        assert line[j] == operands[j - start];
      } else if comment.Some? {
        var c := comment.value;
        assert line[e..] == " ; " + c;
        if j - e >= 3 {
          assert line[j] == line[e..][j - e] == c[j - e - 3];
        } else {
          assert line[j] == line[e..][j - e];
        }
      }
    }
  }

  lemma TailAtOperandsEnd(line: string, e: nat, comment: Option<string>)
    requires e <= |line|
    requires line[e..] == (if comment.None? then "" else " ; " + comment.value)
    requires comment.Some? ==> |comment.value| > 0 && '\n' !in comment.value && !IsSpace(comment.value[0])
    ensures Tail(line, e) == Some(comment)
  {
    if comment.None? {
      RunIs(line, e, 0, Space);
    } else {
      var c := comment.value;
      var k := e + 2;
      assert line[e..] == " ; " + c;
      assert line[e] == ' ' && line[e + 1] == ';' && line[k] == ' ';
      assert line[k + 1..] == c;
      RunIs(line, e, 1, Space);
      RunIs(line, k, 1, Space);
      forall j | k + 1 <= j < |line| ensures InClass(line[j], NotNewline) {
        assert line[j] == c[j - k - 1];
      }
      RunIs(line, k + 1, |c|, NotNewline);
      assert AtEnd(line, k + 1 + |c|);
      assert line[k + 1..k + 1 + |c|] == c;
      assert TryCommentSpace(line, k, 1) == Some(c);
      assert Comment(line, e) == Some(c);
    }
  }

  lemma TailInsideOperands(line: string, start: nat, e: nat, pos: nat, operands: string)
    requires start < pos < e <= |line|
    requires line[start..e] == operands
    requires ';' !in operands && !IsSpace(operands[|operands| - 1])
    ensures Tail(line, pos) == None
  {
    var w := Run(line, pos, Space);
    RunFacts(line, pos, Space);
    assert !IsSpace(line[e - 1]) by {
      assert line[e - 1] == operands[|operands| - 1];
    }
    assert pos + w <= e - 1;
    assert line[pos + w] != ';' by {
      assert line[pos + w] == operands[pos + w - start];
    }
  }

  lemma {:induction false} TryLazyFinds(line: string, start: nat, t: nat, d: nat, n: nat, comment: Option<string>)
    requires 1 <= t <= n <= d && start + d <= |line|
    requires forall pos :: start + t <= pos < start + n ==> Tail(line, pos) == None
    requires Tail(line, start + n) == Some(comment)
    ensures TryLazy(line, start, t, d) == Some((Some(line[start..start + n]), comment))
    decreases n - t
  {
    if t < n {
      assert Tail(line, start + t) == None;
      TryLazyFinds(line, start, t + 1, d, n, comment);
      assert TryLazy(line, start, t, d) == TryLazy(line, start, t + 1, d);
    } else {
      assert TryLazy(line, start, t, d) == Some((Some(line[start..start + n]), comment));
    }
  }
}
