/**
 The text of checksum files, character by character: what is printed, what is
 accepted, and what is not.
 */
module ChecksumText {
  import opened Wrappers
  import opened Sorting
  import opened Checksum
  import opened ChecksumRoundTrip

  // Printing.

  /** Digits are lower case. */
  lemma HexDigitIs(n: nat)
    requires n < 16
    ensures HexDigit(n) == "0123456789abcdef"[n]
  {
  }

  /** Digit `i` from the left of `width` digits. */
  lemma {:induction false} DigitAt(n: nat, width: nat, i: nat)
    requires i < width
    ensures |Digits(n, width)| == width
    ensures Digits(n, width)[i] == "0123456789abcdef"[Shifted(n, width - 1 - i) % 16]
  {
    var init := Digits(n / 16, width - 1);
    HexDigitIs(n % 16);
    if i < width - 1 {
      DigitAt(n / 16, width - 1, i);
    } else {
      DigitCount(n / 16, width - 1);
    }
  }

  lemma {:induction false} DigitCount(n: nat, width: nat)
    ensures |Digits(n, width)| == width
  {
    if width > 0 {
      DigitCount(n / 16, width - 1);
    }
  }

  /** `n >> 4 * digits` */
  function Shifted(n: nat, digits: nat): nat {
    if digits == 0 then n else Shifted(n / 16, digits - 1)
  }

  /** The whole line. */
  lemma LineText(c: Checked)
    ensures LineOf(c) == "CRC32C (" + c.name + ") = " + ToHex(c.crc)
  {
  }

  /** The first difference decides the order of names, whatever follows it. */
  lemma {:induction false} FirstDifferenceDecides(p: string, x: char, a: string, y: char, b: string)
    requires x < y
    ensures TextLe(p + [x] + a, p + [y] + b) && !TextLe(p + [y] + b, p + [x] + a)
  {
    var low, high := p + [x] + a, p + [y] + b;
    if p != "" {
      assert low[1..] == p[1..] + [x] + a && high[1..] == p[1..] + [y] + b;
      FirstDifferenceDecides(p[1..], x, a, y, b);
    }
  }

  /** A name comes before its extensions. */
  lemma {:induction false} PrefixFirst(a: string, b: string)
    ensures TextLe(a, a + b)
  {
    if a != "" {
      assert (a + b)[1..] == a[1..] + b;
      PrefixFirst(a[1..], b);
    }
  }

  lemma PrintedTwo(a: Checked, b: Checked)
    requires TextLe(a.name, b.name) && !TextLe(b.name, a.name)
    ensures Formatted([a, b]) == Formatted([b, a]) == LineOf(a) + "\n" + LineOf(b) + "\n"
  {
    var sorted := [a, b];
    assert [a, b][..1] == [a] && [b, a][..1] == [b] && [a][..0] == [] && [b][..0] == [];
    assert SortBy(NameLe, [a]) == [a] && SortBy(NameLe, [b]) == [b];
    assert InsertBy(NameLe, [a], b) == [a] + [b] == sorted;
    assert InsertBy(NameLe, [b], a) == [a] + [b];
    assert Printed([a]) == "" + LineOf(a) + "\n" == LineOf(a) + "\n";
    assert Printed(sorted) == Printed([a]) + LineOf(b) + "\n";
  }

  /** A whole file. */
  lemma PrintedFile()
    ensures Formatted([Checked("index", 0xDEADBEEF), Checked("blobs", 0x1F)]) ==
            "CRC32C (blobs) = 0000001f" + "\n" + "CRC32C (index) = deadbeef" + "\n"
  {
    BlobsBeforeIndex();
    PrintedTwo(Checked("blobs", 0x1F), Checked("index", 0xDEADBEEF));
    LineOfBlobs();
    LineOfIndex();
  }

  lemma BlobsBeforeIndex()
    ensures TextLe("blobs", "index") && !TextLe("index", "blobs")
  {
    assert "blobs" == "" + ['b'] + "lobs" && "index" == "" + ['i'] + "ndex";
    FirstDifferenceDecides("", 'b', "lobs", 'i', "ndex");
  }

  lemma LineOfBlobs()
    ensures LineOf(Checked("blobs", 0x1F)) == "CRC32C (blobs) = 0000001f"
  {
    HexOfA();
  }

  lemma LineOfIndex()
    ensures LineOf(Checked("index", 0xDEADBEEF)) == "CRC32C (index) = deadbeef"
  {
    HexOfB();
  }

  lemma HexOfA()
    ensures ToHex(0x1F) == "0000001f"
  {
    assert Digits(0, 2) == "00";
    assert Digits(0, 4) == "0000";
    assert Digits(0, 6) == "000000";
  }

  lemma HexOfB()
    ensures ToHex(0xDEADBEEF) == "deadbeef"
  {
    assert Digits(0xDE, 2) == "de";
    assert Digits(0xDEAD, 4) == "dead";
    assert Digits(0xDEADBE, 6) == "deadbe";
  }

  // Parsing numbers.

  /** A plus sign, capitals and short numbers are accepted; no digits, other characters and overflow are not. */
  lemma NumbersAccepted()
    ensures FromHex("+1f") == Some(0x1F) && FromHex("1F") == Some(0x1F)
    ensures FromHex("") == None && FromHex("+") == None && FromHex("-1") == None && FromHex("g") == None
    ensures FromHex("ffffffff") == Some(0xFFFF_FFFF) && FromHex("100000000") == None
  {
    assert "+1f"[1..] == "1f" && "1f"[..1] == "1" && "1F"[..1] == "1" && "1"[..0] == "";
    assert "+"[1..] == "";
    assert "-1"[..1] == "-" && "-"[..0] == "" && "g"[..0] == "";
    LongNumbers();
  }

  lemma LongNumbers()
    ensures DigitsValue("ffffffff") == Some(0xFFFF_FFFF) && DigitsValue("100000000") == Some(0x1_0000_0000)
  {
    PowersOf16();
    DigitsRoundTrip(0xFFFF_FFFF, 8);
    EightDigits();
    DigitsRoundTrip(0x1_0000_0000, 9);
    NineDigits();
  }

  lemma EightDigits()
    ensures Digits(0xFFFF_FFFF, 8) == "ffffffff"
  {
    assert Digits(0xFF, 2) == "ff";
    assert Digits(0xFFFF, 4) == "ffff";
    assert Digits(0xFF_FFFF, 6) == "ffffff";
  }

  lemma NineDigits()
    ensures Digits(0x1_0000_0000, 9) == "100000000"
  {
    assert Digits(0x10, 2) == "10";
    assert Digits(0x1000, 4) == "1000";
    assert Digits(0x10_0000, 6) == "100000";
    assert Digits(0x1000_0000, 8) == "10000000";
  }

  lemma PowersOf16()
    ensures Power16(8) == 0x1_0000_0000 && Power16(9) == 0x10_0000_0000
  {
    assert Power16(4) == 16 * Power16(3) == 256 * Power16(2) == 65536;
    assert Power16(6) == 16 * Power16(5) == 256 * Power16(4);
    assert Power16(8) == 16 * Power16(7) == 256 * Power16(6);
  }

  // Parsing text.

  ghost predicate Blank(s: string) {
    forall i | 0 <= i < |s| :: IsWhitespace(s[i])
  }

  lemma {:induction false} TrimStartMeaning(s: string) returns (a: string)
    ensures Blank(a) && s == a + TrimStart(s) && (TrimStart(s) != "" ==> !IsWhitespace(TrimStart(s)[0]))
  {
    if s != "" && IsWhitespace(s[0]) {
      var b := TrimStartMeaning(s[1..]);
      a := [s[0]] + b;
    } else {
      a := "";
    }
  }

  lemma {:induction false} TrimEndMeaning(s: string) returns (b: string)
    ensures Blank(b) && s == TrimEnd(s) + b
    ensures TrimEnd(s) != "" ==> !IsWhitespace(TrimEnd(s)[|TrimEnd(s)| - 1])
  {
    if s != "" && IsWhitespace(s[|s| - 1]) {
      var c := TrimEndMeaning(s[..|s| - 1]);
      b := c + [s[|s| - 1]];
      assert s == s[..|s| - 1] + [s[|s| - 1]];
    } else {
      b := "";
    }
  }

  /** Trimming takes blanks, and blanks only, from both ends until none is left there. */
  lemma TrimMeaning(s: string) returns (a: string, b: string)
    ensures Blank(a) && Blank(b) && s == a + Trim(s) + b
    ensures Trim(s) != "" ==> !IsWhitespace(Trim(s)[0]) && !IsWhitespace(Trim(s)[|Trim(s)| - 1])
  {
    a := TrimStartMeaning(s);
    b := TrimEndMeaning(TrimStart(s));
    assert Trim(s) != "" ==> Trim(s)[0] == TrimStart(s)[0];
  }

  /** A newline ends a line, be it empty; what follows the last newline is a line only if there is something. */
  lemma LineByLine(line: string, rest: string)
    requires '\n' !in line
    ensures Lines(line + "\n" + rest) == [StripReturn(line)] + Lines(rest)
    ensures Lines(line) == if line == "" then [] else [line]
  {
    var all := line + "\n" + rest;
    FindAt(all, '\n', |line|);
    assert all[..|line|] == line && all[|line| + 1..] == rest;
  }

  /** One carriage return goes with the newline. */
  lemma OneReturn(line: string)
    ensures StripReturn(line + "\r") == line
    ensures line == "" || line[|line| - 1] != '\r' ==> StripReturn(line) == line
  {
    assert (line + "\r")[..|line|] == line;
  }

  /** What is made of a line with the prefix and a closing parenthesis, from the name and what follows it. */
  lemma PartsOfLine(name: string, rest: string)
    requires ')' !in name
    ensures var after := Trim(rest);
            ParseLine("CRC32C (" + name + ")" + rest) ==
            if '(' in name || '\n' in name then Err(BadName)
            else if after == "" || after[0] != '=' then Err(NoEquals)
            else if ByteLength(Trim(after[1..])) != 8 then Err(BadLength)
            else Ok((name, Trim(after[1..])))
  {
    var line := "CRC32C (" + name + ")" + rest;
    var close := 8 + |name|;
    assert PREFIX <= line && |PREFIX| == 8 && line[close] == ')';
    assert forall j | 0 <= j < close :: line[j] != ')' by {
      assert forall j | 8 <= j < close :: line[j] == name[j - 8];
      assert forall j | 0 <= j < 8 :: line[j] == "CRC32C ("[j];
    }
    FindAt(line, ')', close);
    assert line[8..close] == name && line[close + 1..] == rest;
  }

  /** Any other line is refused. */
  lemma OtherLines(line: string)
    ensures !("CRC32C (" <= line) ==> ParseLine(line) == Err(BadPrefix)
    ensures "CRC32C (" <= line && ')' !in line ==> ParseLine(line) == Err(NoParenthesis)
  {
  }

  /** Blank lines are skipped, the later line for a name counts, and a problem carries the number of its line. */
  lemma OneLineMore(lines: seq<string>, line: string, found: map<string, U32>)
    requires AddLines(lines) == Ok(found)
    ensures var parsed := ParseLine(Trim(line));
            AddLines(lines + [line]) ==
            if Trim(line) == "" then Ok(found)
            else if parsed.Err? then Err(ParseError(|lines| + 1, parsed.error))
            else if FromHex(parsed.value.1).None? then Err(ParseError(|lines| + 1, BadHex))
            else Ok(found[parsed.value.0 := FromHex(parsed.value.1).value])
  {
    assert (lines + [line])[..|lines|] == lines;
  }

  // Characters.

  /** The digits of either case, and no other character. */
  lemma DigitValues(c: char, n: nat)
    ensures DigitValue(c) == Some(n) <==> n < 16 && (c == "0123456789abcdef"[n] || c == "0123456789ABCDEF"[n])
  {
  }

  /** Lengths in UTF-8 change at these characters, and those of a text add up. */
  lemma {:induction false} ByteLengthAdds(a: string, b: string)
    ensures ByteLength(a + b) == ByteLength(a) + ByteLength(b)
    ensures ByteLength("\U{7F}") == 1 && ByteLength("\U{80}") == 2 && ByteLength("\U{7FF}") == 2
    ensures ByteLength("\U{800}") == 3 && ByteLength("\U{FFFF}") == 3 && ByteLength("\U{10000}") == 4
  {
    if a == "" {
      assert a + b == b;
    } else {
      assert (a + b)[1..] == a[1..] + b;
      ByteLengthAdds(a[1..], b);
    }
  }

  /** The 25 characters of White_Space. */
  lemma WhitespaceIs(c: char)
    ensures IsWhitespace(c) <==>
            c in "\U{9}\U{A}\U{B}\U{C}\U{D}\U{20}\U{85}\U{A0}\U{1680}\U{2000}\U{2001}\U{2002}\U{2003}\U{2004}" +
                 "\U{2005}\U{2006}\U{2007}\U{2008}\U{2009}\U{200A}\U{2028}\U{2029}\U{202F}\U{205F}\U{3000}"
  {
    var first := "\U{9}\U{A}\U{B}\U{C}\U{D}\U{20}\U{85}\U{A0}\U{1680}\U{2000}\U{2001}\U{2002}\U{2003}\U{2004}";
    var second := "\U{2005}\U{2006}\U{2007}\U{2008}\U{2009}\U{200A}\U{2028}\U{2029}\U{202F}\U{205F}\U{3000}";
    assert c in first + second <==> c in first || c in second;
  }
}
