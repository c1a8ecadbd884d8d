/** Printing and parsing checksum files undo each other. */
module ChecksumRoundTrip {
  import opened Wrappers
  import opened Sorting
  import opened Checksum

  // Hexadecimal.

  function Power16(width: nat): nat {
    if width == 0 then 1 else 16 * Power16(width - 1)
  }

  lemma {:induction false} DigitsRoundTrip(n: nat, width: nat)
    requires n < Power16(width)
    ensures |Digits(n, width)| == width && DigitsValue(Digits(n, width)) == Some(n)
    ensures forall i | 0 <= i < width :: DigitValue(Digits(n, width)[i]).Some?
  {
    if width > 0 {
      DigitsRoundTrip(n / 16, width - 1);
      var all := Digits(n, width);
      assert all[..|all| - 1] == Digits(n / 16, width - 1);
    }
  }

  /** Eight digits hold every 32-bit value. */
  lemma HexRoundTrip(crc: U32)
    ensures FromHex(ToHex(crc)) == Some(crc)
    ensures |ToHex(crc)| == 8
    ensures forall i | 0 <= i < 8 :: DigitValue(ToHex(crc)[i]).Some?
  {
    assert Power16(4) == 16 * Power16(3) == 256 * Power16(2) == 65536;
    assert Power16(8) == 16 * Power16(7) == 256 * Power16(6);
    assert Power16(6) == 16 * Power16(5) == 256 * Power16(4);
    DigitsRoundTrip(crc, 8);
    assert DigitValue(ToHex(crc)[0]).Some?;
  }

  // Text.

  lemma TrimIdle(s: string)
    requires s != "" && !IsWhitespace(s[0]) && !IsWhitespace(s[|s| - 1])
    ensures Trim(s) == s
  {
  }

  lemma TrimOneBlank(s: string)
    requires s != "" && !IsWhitespace(s[0]) && !IsWhitespace(s[|s| - 1])
    ensures Trim(" " + s) == s
  {
    var t := " " + s;
    assert t[0] == ' ' && t[1..] == s;
    assert TrimStart(t) == TrimStart(s) == s;
  }

  lemma {:induction false} FindAt(s: string, c: char, i: nat)
    requires i < |s| && s[i] == c && forall j | 0 <= j < i :: s[j] != c
    ensures Find(s, c) == i
  {
    if i > 0 {
      assert s[0] != c;
      FindAt(s[1..], c, i - 1);
    }
  }

  lemma {:induction false} NoneBefore(s: string, c: char, i: nat)
    requires i < Find(s, c)
    ensures s[i] != c
  {
    if i > 0 {
      NoneBefore(s[1..], c, i - 1);
    }
  }

  lemma {:induction false} PlainByteLength(s: string)
    requires forall i | 0 <= i < |s| :: DigitValue(s[i]).Some?
    ensures ByteLength(s) == |s|
  {
    if s != "" {
      assert DigitValue(s[0]).Some?;
      forall i | 0 <= i < |s[1..]| ensures DigitValue(s[1..][i]).Some? {
        assert s[1..][i] == s[i + 1];
      }
      PlainByteLength(s[1..]);
    }
  }

  lemma FirstLine(a: string, b: string) returns (first: string, rest: string)
    requires a != "" && a[|a| - 1] == '\n'
    ensures |rest| < |a| && (rest == "" || rest[|rest| - 1] == '\n')
    ensures Lines(a) == [first] + Lines(rest)
    ensures Lines(a + b) == [first] + Lines(rest + b)
  {
    var i, all := Find(a, '\n'), a + b;
    forall j: nat | j < i ensures a[j] != '\n' {
      NoneBefore(a, '\n', j);
    }
    assert a[|a| - 1] == '\n';
    assert i < |a|;
    assert all[..i] == a[..i];
    FindAt(all, '\n', i);
    first, rest := StripReturn(a[..i]), a[i + 1..];
    assert all[i + 1..] == rest + b;
  }

  lemma PrependAll(first: string, xs: seq<string>, ys: seq<string>)
    ensures [first] + (xs + ys) == ([first] + xs) + ys
  {
  }

  /** Text that stops at the end of a line splits there. */
  lemma {:induction false} LinesSplit(a: string, b: string)
    requires a == "" || a[|a| - 1] == '\n'
    ensures Lines(a + b) == Lines(a) + Lines(b)
    decreases |a|
  {
    if a == "" {
      assert a + b == b;
    } else {
      var first, rest := FirstLine(a, b);
      LinesSplit(rest, b);
      PrependAll(first, Lines(rest), Lines(b));
    }
  }

  lemma LinesOfOne(line: string)
    requires '\n' !in line && line != "" && line[|line| - 1] != '\r'
    ensures Lines(line + "\n") == [line]
  {
    var all := line + "\n";
    assert all[..|line|] == line && all[|line| + 1..] == "";
    FindAt(all, '\n', |line|);
  }

  lemma AppendLine(text: string, line: string)
    requires text == "" || text[|text| - 1] == '\n'
    requires '\n' !in line && line != "" && line[|line| - 1] != '\r'
    ensures Lines(text + line + "\n") == Lines(text) + [line]
  {
    LinesOfOne(line);
    LinesSplit(text, line + "\n");
    assert text + line + "\n" == text + (line + "\n");
  }

  // One line.

  lemma LineShape(c: Checked)
    requires GoodName(c.name)
    ensures
      var line := LineOf(c);
      && '\n' !in line && line != "" && line[|line| - 1] != '\r'
      && Trim(line) == line && PREFIX <= line
      && Find(line, ')') == |PREFIX| + |c.name|
      && line[|PREFIX|..|PREFIX| + |c.name|] == c.name
      && line[|PREFIX| + |c.name| + 1..] == " = " + ToHex(c.crc)
  {
    var line, hex, at := LineOf(c), ToHex(c.crc), |PREFIX| + |c.name|;
    HexRoundTrip(c.crc);
    assert DigitValue(hex[7]).Some? && line[|line| - 1] == hex[7];
    assert line[0] == 'C';
    TrimIdle(line);
    assert line[..at] == PREFIX + c.name;
    assert line[at] == ')';
    FindAt(line, ')', at);
    forall i | 0 <= i < 8 ensures hex[i] != '\n' {
      assert DigitValue(hex[i]).Some?;
    }
  }

  lemma LineParses(c: Checked)
    requires GoodName(c.name)
    ensures ParseLine(LineOf(c)) == Ok((c.name, ToHex(c.crc)))
  {
    var hex := ToHex(c.crc);
    HexRoundTrip(c.crc);
    LineShape(c);
    assert DigitValue(hex[0]).Some? && DigitValue(hex[7]).Some?;
    var rest := "= " + hex;
    assert rest[|rest| - 1] == hex[7];
    TrimOneBlank(rest);
    assert " " + rest == " = " + hex;
    assert rest[1..] == " " + hex;
    TrimOneBlank(hex);
    PlainByteLength(hex);
  }

  lemma LineAdds(checksums: map<string, U32>, c: Checked, number: nat)
    requires GoodName(c.name)
    ensures AddLine(checksums, LineOf(c), number) == Ok(checksums[c.name := c.crc])
  {
    LineShape(c);
    LineParses(c);
    HexRoundTrip(c.crc);
  }

  // The whole file.

  function Entries(listing: seq<Checked>): map<string, U32> {
    if listing == [] then map[]
    else Entries(listing[..|listing| - 1])[listing[|listing| - 1].name := listing[|listing| - 1].crc]
  }

  function LinesOf(listing: seq<Checked>): seq<string> {
    if listing == [] then [] else LinesOf(listing[..|listing| - 1]) + [LineOf(listing[|listing| - 1])]
  }

  lemma PrintedEnds(listing: seq<Checked>)
    ensures Printed(listing) == "" || Printed(listing)[|Printed(listing)| - 1] == '\n'
  {
  }

  lemma {:induction false} PrintedLines(listing: seq<Checked>)
    requires forall i | 0 <= i < |listing| :: GoodName(listing[i].name)
    ensures Lines(Printed(listing)) == LinesOf(listing)
  {
    if listing != [] {
      var front, last := listing[..|listing| - 1], listing[|listing| - 1];
      PrintedLines(front);
      PrintedEnds(front);
      LineShape(last);
      AppendLine(Printed(front), LineOf(last));
    }
  }

  lemma {:induction false} LinesAdd(listing: seq<Checked>)
    requires forall i | 0 <= i < |listing| :: GoodName(listing[i].name)
    ensures AddLines(LinesOf(listing)) == Ok(Entries(listing))
  {
    if listing != [] {
      var front, lines := listing[..|listing| - 1], LinesOf(listing);
      LinesAdd(front);
      assert lines[..|lines| - 1] == LinesOf(front);
      LineAdds(Entries(front), listing[|listing| - 1], |lines|);
    }
  }

  lemma {:induction false} EntriesOf(listing: seq<Checked>, name: string)
    requires forall i, j | 0 <= i < j < |listing| :: listing[i].name != listing[j].name
    ensures name in Entries(listing) <==> exists i :: 0 <= i < |listing| && listing[i].name == name
    ensures forall i | 0 <= i < |listing| && listing[i].name == name ::
              name in Entries(listing) && Entries(listing)[name] == listing[i].crc
  {
    if listing != [] {
      var front := listing[..|listing| - 1];
      EntriesOf(front, name);
      assert forall i | 0 <= i < |front| :: listing[i] == front[i];
      if name in Entries(listing) && listing[|listing| - 1].name != name {
        var i :| 0 <= i < |front| && front[i].name == name;
        assert listing[i].name == name;
      }
    }
  }

  lemma ListedEntries(listing: seq<Checked>, checksums: map<string, U32>)
    requires Lists(listing, checksums)
    ensures Entries(listing) == checksums
  {
    forall name
      ensures name in Entries(listing) <==> name in checksums
      ensures name in checksums ==> name in Entries(listing) && Entries(listing)[name] == checksums[name]
    {
      EntriesOf(listing, name);
      if name in checksums {
        var i :| 0 <= i < |listing| && listing[i] == Checked(name, checksums[name]);
        assert listing[i].name == name;
      }
    }
    assert Entries(listing).Keys == checksums.Keys;
  }

  /** Reordering a listing leaves it a listing of the same map. */
  lemma PermutedLists(a: seq<Checked>, b: seq<Checked>, checksums: map<string, U32>)
    requires Lists(a, checksums) && multiset(a) == multiset(b)
    ensures Lists(b, checksums)
  {
    PermutedNoDuplicates(a, b);
    forall i | 0 <= i < |b| ensures b[i].name in checksums && checksums[b[i].name] == b[i].crc {
      SameElement(a, b, b[i]);
    }
    forall i, j | 0 <= i < j < |b| ensures b[i].name != b[j].name {
      assert b[i] != b[j];
      assert b[i] == Checked(b[i].name, checksums[b[i].name]) && b[j] == Checked(b[j].name, checksums[b[j].name]);
    }
    forall name | name in checksums ensures Checked(name, checksums[name]) in b {
      SameElement(a, b, Checked(name, checksums[name]));
    }
  }

  // Which names come back.

  lemma {:induction false} ParsedNamesAreGood(lines: seq<string>)
    ensures AddLines(lines).Ok? ==> forall name | name in AddLines(lines).value :: GoodName(name)
  {
    if lines != [] {
      ParsedNamesAreGood(lines[..|lines| - 1]);
    }
  }

  /**
   Parsing the printed file of a map, in whatever order the map was iterated,
   gives the map back exactly when no name has a parenthesis or a newline.
   */
  lemma FileRoundTrip(listing: seq<Checked>, checksums: map<string, U32>)
    requires Lists(listing, checksums)
    ensures Parsed(Formatted(listing)) == Ok(checksums) <==> forall name | name in checksums :: GoodName(name)
  {
    var sorted := SortBy(NameLe, listing);
    SortByPermutes(NameLe, listing);
    PermutedLists(listing, sorted, checksums);
    ParsedNamesAreGood(Lines(Formatted(listing)));
    if forall name | name in checksums :: GoodName(name) {
      PrintedLines(sorted);
      LinesAdd(sorted);
      ListedEntries(sorted, checksums);
    }
  }

  // The printed file does not depend on the map's iteration order.

  lemma {:induction false} TextLeTotal(a: string, b: string)
    ensures TextLe(a, b) || TextLe(b, a)
  {
    if a != "" && b != "" {
      TextLeTotal(a[1..], b[1..]);
    }
  }

  lemma {:induction false} TextLeTransitive(a: string, b: string, c: string)
    requires TextLe(a, b) && TextLe(b, c)
    ensures TextLe(a, c)
  {
    if a != "" && a[0] == b[0] == c[0] {
      TextLeTransitive(a[1..], b[1..], c[1..]);
    }
  }

  lemma {:induction false} TextLeAntisymmetric(a: string, b: string)
    requires TextLe(a, b) && TextLe(b, a)
    ensures a == b
  {
    if a != "" {
      TextLeAntisymmetric(a[1..], b[1..]);
      assert a == [a[0]] + a[1..] && b == [b[0]] + b[1..];
    }
  }

  lemma NameLeOrders()
    ensures Ordering(NameLe)
  {
    forall a: Checked, b: Checked ensures NameLe(a, b) || NameLe(b, a) {
      TextLeTotal(a.name, b.name);
    }
    forall a: Checked, b: Checked, c: Checked | NameLe(a, b) && NameLe(b, c) ensures NameLe(a, c) {
      TextLeTransitive(a.name, b.name, c.name);
    }
  }

  lemma LastIsSame(a: seq<Checked>, b: seq<Checked>, checksums: map<string, U32>)
    requires a != [] && b != [] && Lists(a, checksums) && Lists(b, checksums)
    requires SortedBy(NameLe, a) && SortedBy(NameLe, b)
    ensures a[|a| - 1] == b[|b| - 1]
  {
    var x, y := a[|a| - 1], b[|b| - 1];
    assert x in b && y in a by {
      assert x == Checked(x.name, checksums[x.name]) && y == Checked(y.name, checksums[y.name]);
    }
    var i :| 0 <= i < |b| && b[i] == x;
    var j :| 0 <= j < |a| && a[j] == y;
    if i < |b| - 1 && j < |a| - 1 {
      assert NameLe(x, y) && NameLe(y, x);
      TextLeAntisymmetric(x.name, y.name);
    }
  }

  lemma FrontLists(a: seq<Checked>, checksums: map<string, U32>)
    requires a != [] && Lists(a, checksums)
    ensures Lists(a[..|a| - 1], checksums - {a[|a| - 1].name})
  {
    var front, last := a[..|a| - 1], a[|a| - 1];
    forall name | name in checksums - {last.name} ensures Checked(name, checksums[name]) in front {
      var i :| 0 <= i < |a| && a[i] == Checked(name, checksums[name]);
      assert i < |a| - 1 && front[i] == a[i];
    }
  }

  ghost predicate SortedListing(a: seq<Checked>, checksums: map<string, U32>) {
    Lists(a, checksums) && SortedBy(NameLe, a)
  }

  lemma EmptyListing(a: seq<Checked>, checksums: map<string, U32>)
    requires Lists(a, checksums)
    ensures a == [] <==> checksums.Keys == {}
  {
    if a != [] {
      assert a[0].name in checksums.Keys;
    }
  }

  lemma FrontSorted(a: seq<Checked>, checksums: map<string, U32>)
    requires a != [] && SortedListing(a, checksums)
    ensures SortedListing(a[..|a| - 1], checksums - {a[|a| - 1].name})
    ensures a == a[..|a| - 1] + [a[|a| - 1]]
  {
    FrontLists(a, checksums);
  }

  lemma {:induction false} SortedListingUnique(a: seq<Checked>, b: seq<Checked>, checksums: map<string, U32>)
    requires SortedListing(a, checksums) && SortedListing(b, checksums)
    ensures a == b
    decreases |a|
  {
    EmptyListing(a, checksums);
    EmptyListing(b, checksums);
    if a != [] {
      assert a[|a| - 1] == b[|b| - 1] by {
        LastIsSame(a, b, checksums);
      }
      assert a[..|a| - 1] == b[..|b| - 1] by {
        FrontSorted(a, checksums);
        FrontSorted(b, checksums);
        SortedListingUnique(a[..|a| - 1], b[..|b| - 1], checksums - {a[|a| - 1].name});
      }
      assert a == a[..|a| - 1] + [a[|a| - 1]] && b == b[..|b| - 1] + [b[|b| - 1]];
    }
  }

  /** Whatever order a map is iterated in, the printed file is the same. */
  lemma OutputIsDeterministic(a: seq<Checked>, b: seq<Checked>, checksums: map<string, U32>)
    requires Lists(a, checksums) && Lists(b, checksums)
    ensures Formatted(a) == Formatted(b)
  {
    NameLeOrders();
    SortBySorted(NameLe, a);
    SortBySorted(NameLe, b);
    SortByPermutes(NameLe, a);
    SortByPermutes(NameLe, b);
    PermutedLists(a, SortBy(NameLe, a), checksums);
    PermutedLists(b, SortBy(NameLe, b), checksums);
    SortedListingUnique(SortBy(NameLe, a), SortBy(NameLe, b), checksums);
  }
}
