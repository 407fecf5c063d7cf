/**
 * String helpers shared by the parser, the translator and the Lua generator.
 * Each helper reproduces the Python built-in the converter relies on
 * (`int(s, 16)`, `int(s)`, `str(n)`, `f"{n:04X}"`, `str.strip`, `str.split`,
 * `str.join`, `str.replace`, `str.lower`, `str.upper`, `f"{s:10s}"`).
 */
module Text {

  datatype Option<T> = None | Some(value: T)

  function Max(a: int, b: int): int { if a < b then b else a }
  function Min(a: int, b: int): int { if a < b then a else b }

  // ---------------------------------------------------------------------------
  // Character classes
  // ---------------------------------------------------------------------------

  /** Python's `str.isspace()`, which is also what `\s` and `strip()` use. */
  predicate IsSpace(c: char)
  {
    var n := c as int;
    n == 0x20 || (0x09 <= n <= 0x0D) || (0x1C <= n <= 0x1F) || n == 0x85 || n == 0xA0 ||
    n == 0x1680 || (0x2000 <= n <= 0x200A) || n == 0x2028 || n == 0x2029 ||
    n == 0x202F || n == 0x205F || n == 0x3000
  }

  /** The regex class `[0-9A-F]`. */
  predicate IsUpperHexDigit(c: char)
  {
    ('0' <= c <= '9') || ('A' <= c <= 'F')
  }

  /** A digit accepted by `int(s, 16)`. */
  predicate IsHexDigit(c: char)
  {
    IsUpperHexDigit(c) || ('a' <= c <= 'f')
  }

  predicate IsDigit(c: char) { '0' <= c <= '9' }

  predicate IsAsciiUpper(c: char) { 'A' <= c <= 'Z' }

  predicate IsAsciiLower(c: char) { 'a' <= c <= 'z' }

  /** The regex class `\w`, restricted to ASCII. */
  predicate IsWordChar(c: char)
  {
    IsDigit(c) || IsAsciiUpper(c) || IsAsciiLower(c) || c == '_'
  }

  predicate AllHex(s: string)
  {
    forall i :: 0 <= i < |s| ==> IsHexDigit(s[i])
  }

  predicate AllUpperHex(s: string)
  {
    forall i :: 0 <= i < |s| ==> IsUpperHexDigit(s[i])
  }

  predicate AllDigits(s: string)
  {
    forall i :: 0 <= i < |s| ==> IsDigit(s[i])
  }

  // ---------------------------------------------------------------------------
  // Hexadecimal and decimal numbers
  // ---------------------------------------------------------------------------

  function HexDigitValue(c: char): (d: nat)
    requires IsHexDigit(c)
    ensures d < 16
    ensures IsDigit(c) ==> d == (c - '0') as nat
  {
    if '0' <= c <= '9' then (c - '0') as nat
    else if 'A' <= c <= 'F' then (c - 'A') as nat + 10
    else (c - 'a') as nat + 10
  }

  /** The upper-case digit `%X` prints for d. */
  function HexDigitChar(d: nat): (c: char)
    requires d < 16
    ensures IsUpperHexDigit(c) && HexDigitValue(c) == d
  {
    if d < 10 then ('0' as int + d) as char else ('A' as int + d - 10) as char
  }

  /** The value of a string of hexadecimal digits, most significant first. */
  function HexValue(s: string): nat
    requires AllHex(s)
  {
    if s == [] then 0 else HexValue(s[..|s| - 1]) * 16 + HexDigitValue(s[|s| - 1])
  }

  /**
   * `int(s, 16)`: an optional `0x`/`0X` prefix followed by at least one
   * hexadecimal digit of either case; anything else is the ValueError case.
   */
  function ParseHex(s: string): (r: Option<nat>)
    ensures r.Some? ==> |s| > 0
    ensures AllHex(s) && |s| > 0 ==> r == Some(HexValue(s))
  {
    if |s| >= 2 && s[0] == '0' && (s[1] == 'x' || s[1] == 'X') then
      var digits := Slice(s, 2, |s|);
      if |digits| > 0 && AllHex(digits) then Some(HexValue(digits)) else None
    else if |s| > 0 && AllHex(s) then Some(HexValue(s))
    else None
  }

  /**
   * When `int(s, 16)` succeeds and when it raises: it succeeds exactly when
   * what follows the optional `0x` is a non-empty run of hexadecimal digits,
   * and then it is their value.
   */
  lemma ParseHexCases(s: string)
    ensures ParseHex(s).Some? <==> |HexBody(s)| > 0 && AllHex(HexBody(s))
    ensures ParseHex(s).Some? ==> ParseHex(s).value == HexValue(HexBody(s))
    ensures ParseHex(s).None? <==> |HexBody(s)| == 0 || exists i :: 0 <= i < |HexBody(s)| && !IsHexDigit(HexBody(s)[i])
  {
  }

  /** The digits `int(s, 16)` reads: s without an optional `0x`/`0X` prefix. */
  function HexBody(s: string): (d: string)
    ensures |d| <= |s|
    ensures !(|s| >= 2 && s[0] == '0' && (s[1] == 'x' || s[1] == 'X')) ==> d == s
  {
    if |s| >= 2 && s[0] == '0' && (s[1] == 'x' || s[1] == 'X') then Slice(s, 2, |s|) else s
  }

  /** `int("0x" + d, 16)` reads the digits after the prefix. */
  lemma ParseHexPrefixed(d: string)
    requires |d| > 0 && AllHex(d)
    ensures ParseHex("0x" + d) == Some(HexValue(d))
  {
    var s := "0x" + d;
    assert s[0] == '0' && s[1] == 'x';
    var digits := HexBody(s);
    assert forall k :: 0 <= k < |d| ==> digits[k] == s[2 + k] == d[k];
    assert digits == d;
  }

  /** The shortest upper-case hexadecimal spelling of n (`%X`). */
  function HexDigits(n: nat): (r: string)
    ensures |r| > 0 && AllUpperHex(r)
    decreases n
  {
    if n < 16 then [HexDigitChar(n)] else HexDigits(n / 16) + [HexDigitChar(n % 16)]
  }

  /** `c * n`: n copies of the character c (zero padding, space padding). */
  function Fill(c: char, n: nat): (r: string)
    ensures |r| == n && forall i :: 0 <= i < n ==> r[i] == c
  {
    if n == 0 then "" else [c] + Fill(c, n - 1)
  }

  /** Leading spaces are what `lstrip()` removes. */
  lemma {:induction false} LStripFill(n: nat, x: string)
    requires x == [] || !IsSpace(x[0])
    ensures LStrip(Fill(' ', n) + x) == x
    decreases n
  {
    if n > 0 {
      var s := Fill(' ', n) + x;
      assert s[1..] == Fill(' ', n - 1) + x;
      LStripFill(n - 1, x);
    }
  }

  /** `f"{n:04X}"`: upper-case hexadecimal, zero-padded to at least four digits. */
  function Hex4(n: nat): (r: string)
    ensures |r| == Max(4, |HexDigits(n)|)
    ensures AllUpperHex(r)
  {
    var d := HexDigits(n);
    if |d| < 4 then Fill('0', 4 - |d|) + d else d
  }

  lemma {:induction false} HexDigitsValue(n: nat)
    ensures AllHex(HexDigits(n)) && HexValue(HexDigits(n)) == n
    decreases n
  {
    var r := HexDigits(n);
    if n >= 16 {
      HexDigitsValue(n / 16);
      assert r[..|r| - 1] == HexDigits(n / 16);
    }
  }

  lemma {:induction false} HexValueLeadingZeros(k: nat, d: string)
    requires AllHex(d)
    ensures AllHex(Fill('0', k) + d) && HexValue(Fill('0', k) + d) == HexValue(d)
    decreases |d|
  {
    var z := Fill('0', k) + d;
    if d == [] {
      assert z == Fill('0', k);
      ZerosValue(k);
    } else {
      assert z[..|z| - 1] == Fill('0', k) + d[..|d| - 1];
      HexValueLeadingZeros(k, d[..|d| - 1]);
    }
  }

  lemma {:induction false} ZerosValue(k: nat)
    ensures AllHex(Fill('0', k)) && HexValue(Fill('0', k)) == 0
  {
    if k > 0 {
      var z := Fill('0', k);
      assert z[..|z| - 1] == Fill('0', k - 1);
      ZerosValue(k - 1);
    }
  }

  /** `int(f"{n:04X}", 16) == n`: the formatted number reads back as itself. */
  lemma Hex4RoundTrip(n: nat)
    ensures ParseHex(Hex4(n)) == Some(n)
  {
    var d := HexDigits(n);
    HexDigitsValue(n);
    if |d| < 4 {
      HexValueLeadingZeros(4 - |d|, d);
    }
  }

  /** `int(s)` for the argument-count tokens: at least one ASCII digit. */
  function ParseDec(s: string): (r: Option<nat>)
    ensures r.Some? <==> |s| > 0 && AllDigits(s)
  {
    if |s| > 0 && AllDigits(s) then Some(DecValue(s)) else None
  }

  function DecValue(s: string): nat
    requires AllDigits(s)
  {
    if s == [] then 0 else DecValue(s[..|s| - 1]) * 10 + (s[|s| - 1] - '0') as nat
  }

  /** `str(n)` for a non-negative integer. */
  function DecimalString(n: nat): (r: string)
    ensures |r| > 0 && AllDigits(r)
    ensures n < 10 <==> |r| == 1
  {
    if n < 10 then [('0' as int + n) as char] else DecimalString(n / 10) + [('0' as int + n % 10) as char]
  }

  /** `int(str(n)) == n`. */
  lemma {:induction false} DecimalRoundTrip(n: nat)
    ensures ParseDec(DecimalString(n)) == Some(n)
    decreases n
  {
    var r := DecimalString(n);
    if n >= 10 {
      DecimalRoundTrip(n / 10);
      assert r[..|r| - 1] == DecimalString(n / 10);
      assert DecValue(r) == DecValue(DecimalString(n / 10)) * 10 + n % 10;
    }
  }

  // ---------------------------------------------------------------------------
  // Searching, replacing, case
  // ---------------------------------------------------------------------------

  predicate HasPrefix(s: string, p: string)
  {
    |p| <= |s| && s[..|p|] == p
  }

  predicate HasSuffix(s: string, p: string)
  {
    |p| <= |s| && forall k :: 0 <= k < |p| ==> s[|s| - |p| + k] == p[k]
  }

  /** sub occurs in s at position i. */
  predicate ContainsAt(s: string, sub: string, i: nat)
  {
    i + |sub| <= |s| && forall k :: 0 <= k < |sub| ==> s[i + k] == sub[k]
  }

  /** Python's `sub in s`: a scan from the start for a position where sub occurs. */
  predicate Contains(s: string, sub: string)
  {
    ContainsFrom(s, sub, 0)
  }

  predicate ContainsFrom(s: string, sub: string, i: nat)
    requires i <= |s|
    decreases |s| - i
  {
    ContainsAt(s, sub, i) || (i < |s| && ContainsFrom(s, sub, i + 1))
  }

  /** The scan finds an occurrence exactly when there is one. */
  lemma {:induction false} ContainsIff(s: string, sub: string)
    ensures Contains(s, sub) <==> exists i :: 0 <= i <= |s| && ContainsAt(s, sub, i)
  {
    ContainsFromIff(s, sub, 0);
  }

  lemma {:induction false} ContainsFromIff(s: string, sub: string, i: nat)
    requires i <= |s|
    ensures ContainsFrom(s, sub, i) <==> exists j :: i <= j <= |s| && ContainsAt(s, sub, j)
    decreases |s| - i
  {
    if i < |s| {
      ContainsFromIff(s, sub, i + 1);
      if exists j :: i <= j <= |s| && ContainsAt(s, sub, j) {
        var j :| i <= j <= |s| && ContainsAt(s, sub, j);
        assert j == i || (i + 1 <= j <= |s| && ContainsAt(s, sub, j));
      }
    }
  }

  /** First index at or after i at which c occurs in s. */
  function IndexFrom(s: string, c: char, i: nat): (r: Option<nat>)
    requires i <= |s|
    ensures r.None? <==> forall j :: i <= j < |s| ==> s[j] != c
    ensures r.Some? ==> i <= r.value < |s| && s[r.value] == c && forall j :: i <= j < r.value ==> s[j] != c
    decreases |s| - i
  {
    if i == |s| then None
    else if s[i] == c then Some(i)
    else IndexFrom(s, c, i + 1)
  }

  /**
   * `s.replace(pat, "")`: removes the occurrences of a non-empty pattern found
   * by one left-to-right scan, never overlapping.
   */
  function RemoveAll(s: string, pat: string): (r: string)
    requires |pat| > 0
    ensures |r| <= |s|
    ensures |pat| == 1 ==> pat[0] !in r && forall c :: c in r ==> c in s
  {
    RemoveFrom(s, pat, 0)
  }

  /** The scan of RemoveAll from position i on. */
  function RemoveFrom(s: string, pat: string, i: nat): (r: string)
    requires |pat| > 0 && i <= |s|
    ensures |r| <= |s| - i
    ensures |pat| == 1 ==> pat[0] !in r && forall c :: c in r ==> exists j :: i <= j < |s| && s[j] == c
    decreases |s| - i
  {
    if i == |s| then ""
    else if ContainsAt(s, pat, i) then RemoveFrom(s, pat, i + |pat|)
    else [s[i]] + RemoveFrom(s, pat, i + 1)
  }

  /** A string in which the pattern never starts is left as it is. */
  lemma RemoveAllAbsent(s: string, pat: string)
    requires |pat| > 0 && forall i: nat :: i < |s| ==> !ContainsAt(s, pat, i)
    ensures RemoveAll(s, pat) == s
  {
    RemoveFromAbsent(s, pat, 0);
  }

  lemma {:induction false} RemoveFromAbsent(s: string, pat: string, i: nat)
    requires |pat| > 0 && i <= |s| && forall j: nat :: i <= j < |s| ==> !ContainsAt(s, pat, j)
    ensures RemoveFrom(s, pat, i) == s[i..]
    decreases |s| - i
  {
    if i < |s| {
      RemoveFromAbsent(s, pat, i + 1);
      assert s[i..] == [s[i]] + s[i + 1..];
    }
  }

  function LowerChar(c: char): char
  {
    if IsAsciiUpper(c) then (c as int + 32) as char else c
  }

  function UpperChar(c: char): char
  {
    if IsAsciiLower(c) then (c as int - 32) as char else c
  }

  /** `str.lower()` on ASCII letters. */
  function ToLower(s: string): (r: string)
    ensures |r| == |s|
    ensures forall i :: 0 <= i < |s| ==> r[i] == LowerChar(s[i])
    ensures forall i :: 0 <= i < |r| ==> !IsAsciiUpper(r[i])
  {
    seq(|s|, i requires 0 <= i < |s| => LowerChar(s[i]))
  }

  /** `str.upper()` on ASCII letters. */
  function ToUpper(s: string): (r: string)
    ensures |r| == |s|
    ensures forall i :: 0 <= i < |s| ==> r[i] == UpperChar(s[i])
    ensures forall i :: 0 <= i < |r| ==> !IsAsciiLower(r[i])
  {
    seq(|s|, i requires 0 <= i < |s| => UpperChar(s[i]))
  }

  // ---------------------------------------------------------------------------
  // Whitespace, splitting, joining, padding
  // ---------------------------------------------------------------------------

  function LStrip(s: string): (r: string)
    ensures HasSuffix(s, r)
    ensures r == [] || !IsSpace(r[0])
    ensures forall i :: 0 <= i < |s| - |r| ==> IsSpace(s[i])
  {
    if s != [] && IsSpace(s[0]) then LStrip(s[1..]) else s
  }

  function RStrip(s: string): (r: string)
    ensures HasPrefix(s, r)
    ensures r == [] || !IsSpace(r[|r| - 1])
    ensures forall i :: |r| <= i < |s| ==> IsSpace(s[i])
  {
    if s != [] && IsSpace(s[|s| - 1]) then RStrip(s[..|s| - 1]) else s
  }

  /** `str.strip()`: the string without its leading and trailing whitespace. */
  function Strip(s: string): (r: string)
    ensures r == [] || (!IsSpace(r[0]) && !IsSpace(r[|r| - 1]))
    ensures |r| <= |s|
    ensures CharsIn(r, s)
    ensures (forall i :: 0 <= i < |s| ==> IsSpace(s[i])) <==> r == []
    ensures exists i, j :: WhiteOutside(s, i, j) && r == s[i..j]
  {
    var l := LStrip(s);
    var r := RStrip(l);
    SliceCharsIn(s, |s| - |l|, |s|);
    SliceCharsIn(l, 0, |r|);
    assert r != [] ==> r[0] == l[0];
    assert r == [] ==> l == [];
    StripMiddle(s, l, r);
    r
  }

  /** s[i..j] is a slice of s with only white space before i and after j. */
  predicate WhiteOutside(s: string, i: int, j: int)
  {
    && 0 <= i <= j <= |s|
    && (forall k :: 0 <= k < i ==> IsSpace(s[k]))
    && (forall k :: j <= k < |s| ==> IsSpace(s[k]))
  }

  /** Left then right stripping keeps a middle slice and cuts only white space. */
  lemma StripMiddle(s: string, l: string, r: string)
    requires l == LStrip(s) && r == RStrip(l)
    ensures exists i, j :: WhiteOutside(s, i, j) && r == s[i..j]
  {
    var i := |s| - |l|;
    var j := i + |r|;
    assert l == s[i..];
    assert r == s[i..j];
    forall k | j <= k < |s| ensures IsSpace(s[k]) {
      assert s[k] == l[k - i];
    }
    assert WhiteOutside(s, i, j);
  }

  /** `sep.join(parts)`. */
  function Join(parts: seq<string>, sep: string): string
  {
    if |parts| == 0 then ""
    else if |parts| == 1 then parts[0]
    else Join(parts[..|parts| - 1], sep) + sep + parts[|parts| - 1]
  }

  /** Joining a first part onto the others. */
  lemma {:induction false} JoinFirst(first: string, rest: seq<string>, sep: string)
    requires |rest| > 0
    ensures Join([first] + rest, sep) == first + sep + Join(rest, sep)
    decreases |rest|
  {
    var parts := [first] + rest;
    if |rest| > 1 {
      assert parts[..|parts| - 1] == [first] + rest[..|rest| - 1];
      JoinFirst(first, rest[..|rest| - 1], sep);
    } else {
      assert parts[..|parts| - 1] == [first];
    }
  }

  /** s[lo..hi], built one character at a time from the right. */
  function Slice<T>(s: seq<T>, lo: nat, hi: nat): (r: seq<T>)
    requires lo <= hi <= |s|
    ensures |r| == hi - lo && forall k :: 0 <= k < hi - lo ==> r[k] == s[lo + k]
    decreases hi - lo
  {
    if lo == hi then [] else Slice(s, lo, hi - 1) + [s[hi - 1]]
  }

  lemma SliceIs<T>(s: seq<T>, lo: nat, hi: nat)
    requires lo <= hi <= |s|
    ensures Slice(s, lo, hi) == s[lo..hi]
  {
    assert forall k :: 0 <= k < hi - lo ==> Slice(s, lo, hi)[k] == s[lo..hi][k];
  }

  /** A prefix one element longer is the shorter one and that element. */
  lemma PrefixGrows<T>(s: seq<T>, i: nat)
    requires i < |s|
    ensures s[..i + 1] == s[..i] + [s[i]]
  {
  }

  /**
   * `s.split(c)` with an explicit separator: the pieces between occurrences
   * of c, empty pieces included, so there is always one more piece than
   * there are separators; joining the pieces with c gives s back.
   */
  function Split(s: string, c: char): (r: seq<string>)
    ensures |r| >= 1
    ensures forall k :: 0 <= k < |r| ==> c !in r[k]
    ensures Join(r, [c]) == s
  {
    SliceIs(s, 0, |s|);
    SplitFrom(s, c, 0)
  }

  /** The pieces of s from position i on. */
  function SplitFrom(s: string, c: char, i: nat): (r: seq<string>)
    requires i <= |s|
    ensures |r| >= 1
    ensures forall k :: 0 <= k < |r| ==> c !in r[k]
    ensures Join(r, [c]) == Slice(s, i, |s|)
    decreases |s| - i
  {
    match IndexFrom(s, c, i)
    case None => [Slice(s, i, |s|)]
    case Some(j) =>
      var rest := SplitFrom(s, c, j + 1);
      JoinFirst(Slice(s, i, j), rest, [c]);
      assert Slice(s, i, j) + [c] + Slice(s, j + 1, |s|) == Slice(s, i, |s|);
      [Slice(s, i, j)] + rest
  }

  /** `s.split()` without a separator: the maximal runs of non-whitespace. */
  function SplitWs(s: string): (r: seq<string>)
    ensures forall k :: 0 <= k < |r| ==> IsToken(r[k])
    decreases |s|
  {
    var t := LStrip(s);
    if t == [] then []
    else
      var n := WordLength(t, 0);
      [t[..n]] + SplitWs(t[n..])
  }

  /**
   * `" ".join(tokens).split()` gives the tokens back: `split()` cuts a line
   * of single-spaced tokens into exactly those tokens, in order.
   */
  lemma {:induction false} SplitWsJoin(toks: seq<string>)
    requires forall k :: 0 <= k < |toks| ==> IsToken(toks[k])
    ensures SplitWs(Join(toks, " ")) == toks
    decreases |toks|
  {
    if toks != [] {
      var w := toks[0];
      var rest := toks[1..];
      assert toks == [w] + rest;
      if rest == [] {
        SplitWsOne(w);
      } else {
        JoinFirst(w, rest, " ");
        JoinStartsWithToken(rest);
        SplitWsCons(w, Join(rest, " "));
        SplitWsJoin(rest);
      }
    }
  }

  lemma SplitWsOne(w: string)
    requires IsToken(w)
    ensures SplitWs(w) == [w]
  {
    WordIsWhole(w, "");
    assert w + "" == w;
    assert w[|w|..] == [];
  }

  /** A token, a space and text that starts with no white space: the token, then the words of that text. */
  lemma SplitWsCons(w: string, j: string)
    requires IsToken(w) && (j == [] || !IsSpace(j[0]))
    ensures SplitWs(w + " " + j) == [w] + SplitWs(j)
  {
    var s := w + " " + j;
    assert s == w + (" " + j);
    WordIsWhole(w, " " + j);
    assert s[|w|..] == " " + j;
    assert LStrip(" " + j) == j;
    assert SplitWs(" " + j) == SplitWs(j);
  }

  /** A token followed by nothing or by white space is the first word of the text. */
  lemma WordIsWhole(w: string, after: string)
    requires IsToken(w) && (after == [] || IsSpace(after[0]))
    ensures LStrip(w + after) == w + after
    ensures WordLength(w + after, 0) == |w|
    ensures (w + after)[..|w|] == w
  {
    var s := w + after;
    assert s[0] == w[0];
    WordLengthOver(s, 0, |w|);
  }

  lemma {:induction false} WordLengthOver(s: string, i: nat, n: nat)
    requires i + n <= |s| && forall j :: i <= j < i + n ==> !IsSpace(s[j])
    requires i + n == |s| || IsSpace(s[i + n])
    ensures WordLength(s, i) == n
    decreases n
  {
    if n > 0 {
      WordLengthOver(s, i + 1, n - 1);
    }
  }

  /** Single-spaced tokens start with the first token's first character. */
  lemma JoinStartsWithToken(toks: seq<string>)
    requires |toks| > 0 && forall k :: 0 <= k < |toks| ==> IsToken(toks[k])
    ensures |toks[0]| > 0 && |Join(toks, " ")| > 0 && Join(toks, " ")[0] == toks[0][0]
  {
    if |toks| > 1 {
      assert toks == [toks[0]] + toks[1..];
      JoinFirst(toks[0], toks[1..], " ");
    }
  }

  /** Single-spaced tokens end with the last token's last character. */
  lemma JoinEndsWithToken(toks: seq<string>)
    requires |toks| > 0 && forall k :: 0 <= k < |toks| ==> IsToken(toks[k])
    ensures var j := Join(toks, " "); var last := toks[|toks| - 1];
      |last| > 0 && |j| > 0 && j[|j| - 1] == last[|last| - 1]
  {
  }

  /** Text without white space at either end is its own `strip()`. */
  lemma StripTrimmed(s: string)
    requires s == [] || (!IsSpace(s[0]) && !IsSpace(s[|s| - 1]))
    ensures Strip(s) == s
  {
  }

  /** Every token `s.split()` returns is made of characters of s. */
  lemma {:induction false} SplitWsCharsIn(s: string)
    ensures forall k :: 0 <= k < |SplitWs(s)| ==> CharsIn(SplitWs(s)[k], s)
    decreases |s|
  {
    var t := LStrip(s);
    if t != [] {
      var n := WordLength(t, 0);
      var rest := SplitWs(t[n..]);
      var r := SplitWs(s);
      assert r == [t[..n]] + rest;
      assert CharsIn(t, s) by {
        assert t == s[|s| - |t|..];
        SliceCharsIn(s, |s| - |t|, |s|);
      }
      SliceCharsIn(t, 0, n);
      SliceCharsIn(t, n, |t|);
      SplitWsCharsIn(t[n..]);
      forall k | 0 <= k < |r| ensures CharsIn(r[k], s) {
        if k == 0 {
          CharsInTransitive(t[..n], t, s);
        } else {
          assert r[k] == rest[k - 1];
          CharsInTransitive(rest[k - 1], t[n..], t);
          CharsInTransitive(rest[k - 1], t, s);
        }
      }
    }
  }

  lemma CharsInTransitive(u: string, v: string, w: string)
    requires CharsIn(u, v) && CharsIn(v, w)
    ensures CharsIn(u, w)
  {
  }

  lemma SliceCharsIn(s: string, i: nat, j: nat)
    requires i <= j <= |s|
    ensures CharsIn(s[i..j], s)
  {
    forall c | c in s[i..j] ensures c in s {
      var k :| 0 <= k < j - i && s[i..j][k] == c;
      assert s[i + k] == c;
    }
  }

  /** Every character of w occurs in s. */
  predicate CharsIn(w: string, s: string)
  {
    forall c :: c in w ==> c in s
  }

  /** A non-empty string without whitespace. */
  predicate IsToken(w: string)
  {
    |w| > 0 && forall j :: 0 <= j < |w| ==> !IsSpace(w[j])
  }

  /** The length of the run of non-whitespace characters of s starting at i. */
  function WordLength(s: string, i: nat): (n: nat)
    requires i <= |s|
    ensures i + n <= |s|
    ensures forall j :: i <= j < i + n ==> !IsSpace(s[j])
    ensures i + n == |s| || IsSpace(s[i + n])
    decreases |s| - i
  {
    if i < |s| && !IsSpace(s[i]) then 1 + WordLength(s, i + 1) else 0
  }

  /** `s * n`: n copies of s, none for n below one. */
  function Repeat(s: string, n: int): (r: string)
    ensures |r| == if n <= 0 then 0 else n * |s|
    ensures (forall i :: 0 <= i < |s| ==> s[i] == ' ') ==> forall i :: 0 <= i < |r| ==> r[i] == ' '
    decreases n
  {
    if n <= 0 then "" else s + Repeat(s, n - 1)
  }

  /**
   * `_indent` of both the translator and the Lua generator: the four-space
   * indentation string repeated once per level (not at all for a level
   * below one), then the text.
   */
  function Indent(level: int, text: string): (r: string)
    ensures |r| == (if level <= 0 then 0 else 4 * level) + |text|
    ensures forall i :: 0 <= i < |r| - |text| ==> r[i] == ' '
    ensures forall i :: 0 <= i < |text| ==> r[|r| - |text| + i] == text[i]
  {
    Repeat("    ", level) + text
  }

  /** `f"{s:<w}"` (`:ws` for strings): left-justified in a field of width w. */
  function PadRight(s: string, w: nat): (r: string)
    ensures |r| == Max(w, |s|)
    ensures HasPrefix(r, s)
    ensures forall i :: |s| <= i < |r| ==> r[i] == ' '
  {
    if |s| >= w then s else s + Fill(' ', w - |s|)
  }

  // ---------------------------------------------------------------------------
  // Sorted order
  // ---------------------------------------------------------------------------

  /** Two strictly ascending sequences with the same elements are the same sequence. */
  lemma {:induction false} AscendingUnique(a: seq<nat>, b: seq<nat>)
    requires forall i, j :: 0 <= i < j < |a| ==> a[i] < a[j]
    requires forall i, j :: 0 <= i < j < |b| ==> b[i] < b[j]
    requires forall x :: x in a <==> x in b
    ensures a == b
    decreases |a|
  {
    assert a != [] ==> a[0] in b;
    assert b != [] ==> b[0] in a;
    if a != [] && b != [] {
      assert a[0] == b[0];
      forall x ensures x in a[1..] <==> x in b[1..] {
        if x in a[1..] {
          assert x in b && x != b[0];
        }
        if x in b[1..] {
          assert x in a && x != a[0];
        }
      }
      AscendingUnique(a[1..], b[1..]);
      assert a == [a[0]] + a[1..] && b == [b[0]] + b[1..];
    }
  }
}
