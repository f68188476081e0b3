/** The trace file: how the generators print a command and how the frontend reads it. */
module TraceText {
  import opened PimTypes

  /** One trace record. */
  datatype Trace = Trace(kind: ReqType, addr: int)

  // ---- printing --------------------------------------------------------------------------

  const DIGITS: string := "0123456789abcdef"

  function Hex(n: nat): (s: string)
    ensures s != []
  {
    if n < 16 then [DIGITS[n]] else Hex(n / 16) + [DIGITS[n % 16]]
  }

  /** At least `width` characters, filled up with zeros on the left. */
  function PadZeros(s: string, width: nat): string
    decreases width - |s|
  {
    if |s| >= width then s else PadZeros("0" + s, width)
  }

  /** The command names of the file format; refreshes have none. */
  function Name(t: ReqType): Option<string> {
    match t
    case Read => Some("LD")
    case Write => Some("ST")
    case AllBankRefresh => None
    case PerBankRefresh => None
    case PimMacAb => Some("PIM_MAC_AB")
    case PimMacSb => Some("PIM_MAC_SB")
    case PimMacPb => Some("PIM_MAC_PB")
    case PimWrGb => Some("PIM_WR_GB")
    case PimMvSb => Some("PIM_MV_SB")
    case PimMvGb => Some("PIM_MV_GB")
    case PimSfm => Some("PIM_SFM")
    case PimSetModel => Some("PIM_SET_MODEL")
    case PimSetHead => Some("PIM_SET_HEAD")
    case PimBarrier => Some("PIM_BARRIER")
  }

  /** One line, as the generators write it. */
  function PrintLine(kind: ReqType, addr: nat): string
    requires Name(kind).Some?
  {
    Name(kind).value + " 0x" + PadZeros(Hex(addr), 8)
  }

  // ---- reading ---------------------------------------------------------------------------

  /** The pieces between single spaces. */
  function Tokenize(line: string): (tokens: seq<string>)
    ensures tokens != []
  {
    if line == [] then [[]]
    else
      var rest := Tokenize(line[1..]);
      if line[0] == ' ' then [[]] + rest else [[line[0]] + rest[0]] + rest[1..]
  }

  /** The request type a command name stands for. */
  function TypeOf(token: string): Option<ReqType> {
    if token == "LD" then Some(Read)
    else if token == "ST" then Some(Write)
    else if token == "PIM_MAC_AB" then Some(PimMacAb)
    else if token == "PIM_MAC_SB" then Some(PimMacSb)
    else if token == "PIM_MAC_PB" then Some(PimMacPb)
    else if token == "PIM_WR_GB" then Some(PimWrGb)
    else if token == "PIM_MV_SB" then Some(PimMvSb)
    else if token == "PIM_MV_GB" then Some(PimMvGb)
    else if token == "PIM_SFM" then Some(PimSfm)
    else if token == "PIM_SET_MODEL" then Some(PimSetModel)
    else if token == "PIM_SET_HEAD" then Some(PimSetHead)
    else if token == "PIM_BARRIER" then Some(PimBarrier)
    else None
  }

  function DigitValue(c: char): int {
    if '0' <= c <= '9' then c as int - '0' as int
    else if 'a' <= c <= 'f' then c as int - 'a' as int + 10
    else if 'A' <= c <= 'F' then c as int - 'A' as int + 10
    else -1
  }

  predicate IsDigit(c: char, base: nat) {
    0 <= DigitValue(c) < base
  }

  predicate AllDigits(s: string, base: nat) {
    forall i :: 0 <= i < |s| ==> IsDigit(s[i], base)
  }

  /** The length of the longest prefix of digits. */
  function LeadingDigits(s: string, base: nat): (n: nat)
    ensures n <= |s| && AllDigits(s[..n], base)
    ensures n < |s| ==> !IsDigit(s[n], base)
  {
    if s == [] || !IsDigit(s[0], base) then 0 else 1 + LeadingDigits(s[1..], base)
  }

  function Number(s: string, base: nat): int {
    if s == [] then 0 else Number(s[..|s| - 1], base) * base + DigitValue(s[|s| - 1])
  }

  const LLONG_LIMIT: int := 0x8000_0000_0000_0000

  predicate IsSpace(c: char) {
    c in " \t\n\r" || c as int == 11 || c as int == 12
  }

  function SkipSpaces(s: string): string {
    if s != [] && IsSpace(s[0]) then SkipSpaces(s[1..]) else s
  }

  /** std::stoll: None stands for the exceptions it throws. */
  function Stoll(s: string, base: nat): Option<int> {
    var t := SkipSpaces(s);
    var negative := t != [] && t[0] == '-';
    var u := if t != [] && t[0] in "+-" then t[1..] else t;
    var v := if base == 16 && |u| > 2 && u[0] == '0' && u[1] in "xX" && IsDigit(u[2], 16) then u[2..] else u;
    var n := LeadingDigits(v, base);
    if n == 0 then None
    else
      var value := if negative then -Number(v[..n], base) else Number(v[..n], base);
      if -LLONG_LIMIT <= value < LLONG_LIMIT then Some(value) else None
  }

  predicate HasHexPrefix(token: string) {
    |token| >= 2 && token[0] == '0' && token[1] in "xX"
  }

  /** None when the line has not two tokens, no known command or no address in range. */
  function ParseLine(line: string): Option<Trace> {
    var tokens := Tokenize(line);
    if |tokens| != 2 then None
    else
      var kind := TypeOf(tokens[0]);
      var addr := if HasHexPrefix(tokens[1]) then Stoll(tokens[1][2..], 16) else Stoll(tokens[1], 10);
      if kind.None? || addr.None? then None else Some(Trace(kind.value, addr.value))
  }

  /** The whole file, or None when any line is rejected. */
  function ParseFile(lines: seq<string>): Option<seq<Trace>> {
    if lines == [] then Some([])
    else
      var front, last := ParseFile(lines[..|lines| - 1]), ParseLine(lines[|lines| - 1]);
      if front.None? || last.None? then None else Some(front.value + [last.value])
  }

  lemma {:induction false} ParseFileLines(lines: seq<string>)
    ensures var t := ParseFile(lines);
            && (t.Some? <==> forall i :: 0 <= i < |lines| ==> ParseLine(lines[i]).Some?)
            && (t.Some? ==> |t.value| == |lines| &&
                            forall i :: 0 <= i < |lines| ==> ParseLine(lines[i]) == Some(t.value[i]))
  {
    hide ParseLine;
    if lines == [] {
    } else {
      var n := |lines| - 1;
      ParseFileLines(lines[..n]);
      assert forall i :: 0 <= i < n ==> lines[..n][i] == lines[i];
    }
  }

  method InitTrace(lines: seq<string>) returns (trace: Option<seq<Trace>>)
    ensures trace == ParseFile(lines)
  {
    hide ParseLine;
    var t: seq<Trace> := [];
    for i := 0 to |lines|
      invariant ParseFile(lines[..i]) == Some(t)
    {
      var record := ParseLine(lines[i]);
      if record.None? {
        ParseFileLines(lines);
        return None;
      }
      assert lines[..i + 1][..i] == lines[..i];
      t := t + [record.value];
    }
    assert lines[..|lines|] == lines;
    trace := Some(t);
  }

  // ---- the round trip --------------------------------------------------------------------

  lemma HexDigit(n: nat)
    requires n < 16
    ensures IsDigit(DIGITS[n], 16) && DigitValue(DIGITS[n]) == n
  {
  }

  /** A digit at the end. */
  lemma NumberAppend(s: string, c: char)
    ensures Number(s + [c], 16) == Number(s, 16) * 16 + DigitValue(c)
  {
    assert (s + [c])[..|s + [c]| - 1] == s;
  }

  lemma {:induction false} HexDigits(n: nat)
    ensures AllDigits(Hex(n), 16) && Number(Hex(n), 16) == n
  {
    HexDigit(n % 16);
    if n < 16 {
      NumberAppend([], DIGITS[n]);
      assert [] + [DIGITS[n]] == Hex(n);
    } else {
      hide Number, DigitValue, IsDigit;
      HexDigits(n / 16);
      NumberAppend(Hex(n / 16), DIGITS[n % 16]);
    }
  }

  lemma {:induction false} NumberLeadingZero(s: string)
    ensures Number("0" + s, 16) == Number(s, 16)
  {
    if s == [] {
      NumberAppend([], '0');
      assert [] + ['0'] == "0" + s;
    } else {
      var n := |s| - 1;
      NumberLeadingZero(s[..n]);
      NumberAppend("0" + s[..n], s[n]);
      assert "0" + s[..n] + [s[n]] == "0" + s;
    }
  }

  /** Padding changes neither the digits nor the number. */
  lemma {:induction false} PadKeepsNumber(s: string, width: nat)
    requires AllDigits(s, 16) && s != []
    ensures AllDigits(PadZeros(s, width), 16) && PadZeros(s, width) != []
    ensures Number(PadZeros(s, width), 16) == Number(s, 16)
    decreases width - |s|
  {
    if |s| >= width {
    } else {
      NumberLeadingZero(s);
      PadKeepsNumber("0" + s, width);
    }
  }

  lemma {:induction false} AllLeading(s: string, base: nat)
    requires AllDigits(s, base)
    ensures LeadingDigits(s, base) == |s|
  {
    if s == [] {
    } else {
      AllLeading(s[1..], base);
    }
  }

  lemma {:induction false} TokenizeOne(word: string)
    requires ' ' !in word
    ensures Tokenize(word) == [word]
  {
    if word == [] {
    } else {
      TokenizeOne(word[1..]);
      assert [word[0]] + word[1..] == word;
    }
  }

  lemma {:induction false} TokenizeTwo(word: string, rest: string)
    requires ' ' !in word && ' ' !in rest
    ensures Tokenize(word + " " + rest) == [word, rest]
  {
    var line := word + " " + rest;
    if word == [] {
      assert line[1..] == rest;
      TokenizeOne(rest);
    } else {
      assert line[1..] == word[1..] + " " + rest;
      TokenizeTwo(word[1..], rest);
      assert [word[0]] + word[1..] == word;
    }
  }

  lemma NameRoundTrip(t: ReqType)
    requires Name(t).Some?
    ensures TypeOf(Name(t).value) == Some(t) && ' ' !in Name(t).value
  {
  }

  lemma HexDigitIsPlain(c: char)
    requires IsDigit(c, 16)
    ensures !IsSpace(c) && c !in "+-xX"
  {
  }

  /** Plain hexadecimal digits have neither spaces, nor a sign, nor a prefix. */
  lemma StollDigits(s: string)
    requires AllDigits(s, 16) && s != []
    ensures Stoll(s, 16) == if -LLONG_LIMIT <= Number(s, 16) < LLONG_LIMIT then Some(Number(s, 16)) else None
  {
    AllLeading(s, 16);
    HexDigitIsPlain(s[0]);
    assert s[..|s|] == s;
    if |s| > 1 {
      HexDigitIsPlain(s[1]);
    }
    hide Number, LeadingDigits, DigitValue, IsDigit, IsSpace;
    assert SkipSpaces(s) == s;
  }

  lemma DigitsHaveNoSpace(s: string)
    requires AllDigits(s, 16)
    ensures ' ' !in s
  {
  }

  /** What a line with a prefixed hexadecimal token parses to. */
  lemma ParsePieces(line: string, name: string, token: string)
    requires Tokenize(line) == [name, token] && HasHexPrefix(token) && TypeOf(name).Some?
    ensures ParseLine(line) == match Stoll(token[2..], 16)
                               case None => None
                               case Some(a) => Some(Trace(TypeOf(name).value, a))
  {
    hide Stoll, TypeOf, Tokenize;
  }

  /**
   * Reading a printed line gives back its type and address exactly when the address fits
   * 63 bits, and is rejected otherwise.
   */
  lemma PrintParse(kind: ReqType, addr: nat)
    requires Name(kind).Some?
    ensures ParseLine(PrintLine(kind, addr)) == if addr < LLONG_LIMIT then Some(Trace(kind, addr)) else None
  {
    HexDigits(addr);
    PadKeepsNumber(Hex(addr), 8);
    NameRoundTrip(kind);
    hide ParseLine, Hex, PadZeros, Name, TypeOf;
    ParseNumber(Name(kind).value, PadZeros(Hex(addr), 8));
  }

  /** A command name and a prefixed hexadecimal number. */
  lemma ParseNumber(name: string, digits: string)
    requires TypeOf(name).Some? && ' ' !in name
    requires AllDigits(digits, 16) && digits != []
    ensures ParseLine(name + " 0x" + digits) ==
            if -LLONG_LIMIT <= Number(digits, 16) < LLONG_LIMIT
            then Some(Trace(TypeOf(name).value, Number(digits, 16))) else None
  {
    var token := "0x" + digits;
    StollDigits(digits);
    DigitsHaveNoSpace(digits);
    TokenizeTwo(name, token);
    hide TypeOf, Tokenize, Stoll, Number, AllDigits;
    assert name + " 0x" + digits == name + " " + token;
    assert token[2..] == digits && token[0] == '0' && token[1] == 'x';
    ParsePieces(name + " 0x" + digits, name, token);
  }
}
