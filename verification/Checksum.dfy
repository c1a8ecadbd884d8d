/**
 The text format of checksum files: one `CRC32C (name) = hexdigits` per line.
 Text is a sequence of Unicode scalar values, as Rust's `char`s.
 */
module Checksum {
  import opened Wrappers
  import opened Sorting

  type U32 = n: nat | n < 0x1_0000_0000

  datatype Checked = Checked(name: string, crc: U32)

  datatype Problem = BadPrefix | NoParenthesis | BadName | NoEquals | BadLength | BadHex

  datatype ParseError = ParseError(line: nat, problem: Problem)

  // Hexadecimal.

  function HexDigit(n: nat): char
    requires n < 16
  {
    if n < 10 then ('0' as int + n) as char else ('a' as int + n - 10) as char
  }

  function Digits(n: nat, width: nat): string {
    if width == 0 then "" else Digits(n / 16, width - 1) + [HexDigit(n % 16)]
  }

  /** `{:08x}` */
  function ToHex(crc: U32): string {
    Digits(crc, 8)
  }

  function DigitValue(c: char): Option<nat> {
    if '0' <= c <= '9' then Some(c as int - '0' as int)
    else if 'a' <= c <= 'f' then Some(c as int - 'a' as int + 10)
    else if 'A' <= c <= 'F' then Some(c as int - 'A' as int + 10)
    else None
  }

  function DigitsValue(s: string): Option<nat> {
    if s == "" then Some(0)
    else
      match (DigitsValue(s[..|s| - 1]), DigitValue(s[|s| - 1]))
      case (Some(high), Some(low)) => Some(16 * high + low)
      case _ => None
  }

  /** `u32::from_str_radix(s, 16)`: an optional plus sign, then digits of either case that do not overflow. */
  function FromHex(s: string): Option<U32> {
    var digits := if s != "" && s[0] == '+' then s[1..] else s;
    if digits == "" then None
    else
      match DigitsValue(digits)
      case Some(n) => if n < 0x1_0000_0000 then Some(n) else None
      case None => None
  }

  // Text.

  /** Unicode's White_Space, which `trim` removes. */
  predicate IsWhitespace(c: char) {
    var n := c as int;
    || 0x9 <= n <= 0xD || n == 0x20 || n == 0x85 || n == 0xA0 || n == 0x1680
    || 0x2000 <= n <= 0x200A || n == 0x2028 || n == 0x2029 || n == 0x202F || n == 0x205F || n == 0x3000
  }

  function TrimStart(s: string): string {
    if s != "" && IsWhitespace(s[0]) then TrimStart(s[1..]) else s
  }

  function TrimEnd(s: string): string {
    if s != "" && IsWhitespace(s[|s| - 1]) then TrimEnd(s[..|s| - 1]) else s
  }

  function Trim(s: string): string {
    TrimEnd(TrimStart(s))
  }

  /** The position of the first `c`, or the length if there is none. */
  function Find(s: string, c: char): (i: nat)
    ensures i <= |s| && (i < |s| ==> s[i] == c)
  {
    if s == "" || s[0] == c then 0 else 1 + Find(s[1..], c)
  }

  /** The number of bytes of the text in UTF-8. */
  function ByteLength(s: string): nat {
    if s == "" then 0
    else
      var n := s[0] as int;
      (if n < 0x80 then 1 else if n < 0x800 then 2 else if n < 0x1_0000 then 3 else 4) + ByteLength(s[1..])
  }

  function StripReturn(s: string): string {
    if s != "" && s[|s| - 1] == '\r' then s[..|s| - 1] else s
  }

  /** `lines()`: pieces ended by a newline, without it or a carriage return before it, and a last piece without. */
  function Lines(s: string): seq<string> {
    if s == "" then []
    else
      var i := Find(s, '\n');
      if i == |s| then [s] else [StripReturn(s[..i])] + Lines(s[i + 1..])
  }

  // Parsing.

  const PREFIX: string := "CRC32C ("

  predicate GoodName(name: string) {
    '\n' !in name && '(' !in name && ')' !in name
  }

  /** The name and the eight bytes of text that should be the checksum. */
  function ParseLine(line: string): Result<(string, string), Problem> {
    var close := Find(line, ')');
    if !(PREFIX <= line) then Err(BadPrefix)
    else if close == |line| then Err(NoParenthesis)
    else if close < |PREFIX| then assert line[close] == PREFIX[close]; Err(NoParenthesis)
    else
      var name, rest := line[|PREFIX|..close], Trim(line[close + 1..]);
      if !GoodName(name) then Err(BadName)
      else if rest == "" || rest[0] != '=' then Err(NoEquals)
      else
        var hex := Trim(rest[1..]);
        if ByteLength(hex) != 8 then Err(BadLength) else Ok((name, hex))
  }

  /** What one line of a file, with its number, does to the checksums read so far. */
  function AddLine(checksums: map<string, U32>, line: string, number: nat): Result<map<string, U32>, ParseError> {
    var trimmed := Trim(line);
    if trimmed == "" then Ok(checksums)
    else
      match ParseLine(trimmed)
      case Err(problem) => Err(ParseError(number, problem))
      case Ok(parts) =>
        match FromHex(parts.1)
        case None => Err(ParseError(number, BadHex))
        case Some(crc) => Ok(checksums[parts.0 := crc])
  }

  function AddLines(lines: seq<string>): Result<map<string, U32>, ParseError> {
    if lines == [] then Ok(map[])
    else
      match AddLines(lines[..|lines| - 1])
      case Err(e) => Err(e)
      case Ok(checksums) => AddLine(checksums, lines[|lines| - 1], |lines|)
  }

  function Parsed(content: string): Result<map<string, U32>, ParseError> {
    AddLines(Lines(content))
  }

  method ParseChecksumsFile(content: string) returns (r: Result<map<string, U32>, ParseError>)
    ensures r == Parsed(content)
  {
    var checksums: map<string, U32> := map[];
    var lines := Lines(content);
    for i := 0 to |lines|
      invariant AddLines(lines[..i]) == Ok(checksums)
    {
      assert lines[..i + 1][..i] == lines[..i];
      var line := Trim(lines[i]);
      if line == "" {
        continue;
      }
      var parts := ParseLine(line);
      if parts.Err? {
        FirstErrorStays(lines, i + 1);
        return Err(ParseError(i + 1, parts.error));
      }
      var crc := FromHex(parts.value.1);
      if crc.None? {
        FirstErrorStays(lines, i + 1);
        return Err(ParseError(i + 1, BadHex));
      }
      checksums := checksums[parts.value.0 := crc.value];
    }
    assert lines[..|lines|] == lines;
    return Ok(checksums);
  }

  lemma {:induction false} FirstErrorStays(lines: seq<string>, n: nat)
    requires n <= |lines| && AddLines(lines[..n]).Err?
    ensures AddLines(lines) == AddLines(lines[..n])
    decreases |lines|
  {
    if n == |lines| {
      assert lines[..n] == lines;
    } else {
      assert lines[..|lines| - 1][..n] == lines[..n];
      FirstErrorStays(lines[..|lines| - 1], n);
    }
  }

  // Printing.

  function LineOf(c: Checked): string {
    PREFIX + c.name + ") = " + ToHex(c.crc)
  }

  function Printed(listing: seq<Checked>): string {
    if listing == [] then "" else Printed(listing[..|listing| - 1]) + LineOf(listing[|listing| - 1]) + "\n"
  }

  /** The order of Rust strings: by scalar values, which is the order of their UTF-8 bytes. */
  predicate TextLe(a: string, b: string) {
    a == "" || (b != "" && (a[0] < b[0] || (a[0] == b[0] && TextLe(a[1..], b[1..]))))
  }

  predicate NameLe(a: Checked, b: Checked) {
    TextLe(a.name, b.name)
  }

  /** The file printed for a map whose iteration yields `listing`. */
  function Formatted(listing: seq<Checked>): string {
    Printed(SortBy(NameLe, listing))
  }

  method FormatChecksumsFile(listing: seq<Checked>) returns (output: string)
    ensures output == Formatted(listing)
  {
    var lines := SortBy(NameLe, listing);
    output := "";
    for i := 0 to |lines|
      invariant output == Printed(lines[..i])
    {
      assert lines[..i + 1][..i] == lines[..i];
      output := output + (PREFIX + lines[i].name + ") = " + ToHex(lines[i].crc) + "\n");
    }
    assert lines[..|lines|] == lines;
  }

  /** A listing of a map: every entry once, in some order. */
  ghost predicate Lists(listing: seq<Checked>, checksums: map<string, U32>) {
    && (forall i, j | 0 <= i < j < |listing| :: listing[i].name != listing[j].name)
    && (forall i | 0 <= i < |listing| :: listing[i].name in checksums && checksums[listing[i].name] == listing[i].crc)
    && (forall name | name in checksums :: Checked(name, checksums[name]) in listing)
  }
}
