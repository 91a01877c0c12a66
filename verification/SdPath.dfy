/** The file names of the energy log on the SD card: year/month[/day]/id with a kind as extension. */
module SdPath {
  import opened Base58

  const NO_DAY := 0xFF

  // SD_PATH_LENGTH
  const PATH_LENGTH := 32

  function DecimalDigit(d: nat): char
    requires d < 10
  {
    ('0' as int + d) as char
  }

  // A byte in decimal without leading zeros.
  function Itoa(value: nat): (s: string)
    requires value < 256
    ensures 1 <= |s| <= 3
  {
    if value >= 100 then [DecimalDigit(value / 100), DecimalDigit(value / 10 % 10), DecimalDigit(value % 10)]
    else if value >= 10 then [DecimalDigit(value / 10), DecimalDigit(value % 10)]
    else [DecimalDigit(value)]
  }

  // The extensions of wallbox data, energy manager data and energy manager data with prices.
  function Postfix(postfix: nat): (s: string)
    requires postfix < 3
    ensures |s| == 3
  {
    if postfix == 0 then ".wb" else if postfix == 1 then ".em" else ".e2"
  }

  datatype Name = Name(wallboxId: nat, year: nat, month: nat, day: nat, postfix: nat)

  predicate IsName(n: Name) {
    n.wallboxId < 0x1_0000_0000 && n.year < 256 && n.month < 256 && n.day < 256 && n.postfix < 3
  }

  function DayPart(day: nat): string
    requires day < 256
  {
    if day != NO_DAY then Itoa(day) + "/" else ""
  }

  function Path(n: Name): string
    requires IsName(n)
  {
    Itoa(n.year) + "/" + (Itoa(n.month) + "/" + (DayPart(n.day) + (Encode(n.wallboxId) + Postfix(n.postfix))))
  }

  lemma {:induction false} PathLength(n: Name)
    requires IsName(n)
    ensures |Path(n)| <= 21
  {
    hide Encode, Itoa;
    AtMostSixDigits(n.wallboxId);
  }

  // ----- Taking a path apart again ------------------------------------------------------------------------

  function FirstSlash(s: string): (i: nat)
    ensures i <= |s|
  {
    if s == [] || s[0] == '/' then 0 else 1 + FirstSlash(s[1..])
  }

  predicate Slashless(s: string) { forall i :: 0 <= i < |s| ==> s[i] != '/' }

  lemma {:induction false} SlashAfter(a: string, b: string)
    requires Slashless(a)
    ensures FirstSlash(a + "/" + b) == |a|
    decreases |a|
  {
    if a != [] {
      assert (a + "/" + b)[1..] == a[1..] + "/" + b;
      SlashAfter(a[1..], b);
    }
  }

  lemma {:induction false} NoSlash(a: string)
    requires Slashless(a)
    ensures FirstSlash(a) == |a|
    decreases |a|
  {
    if a != [] {
      NoSlash(a[1..]);
    }
  }

  function ValueOf(c: char): int { c as int - '0' as int }

  function Decimal(s: string): int {
    if |s| == 3 then 100 * ValueOf(s[0]) + 10 * ValueOf(s[1]) + ValueOf(s[2])
    else if |s| == 2 then 10 * ValueOf(s[0]) + ValueOf(s[1])
    else if |s| == 1 then ValueOf(s[0])
    else -1
  }

  lemma ItoaFacts(value: nat)
    requires value < 256
    ensures Decimal(Itoa(value)) == value
    ensures Slashless(Itoa(value))
  {}

  function KindOf(s: string): int {
    if s == ".wb" then 0 else if s == ".em" then 1 else if s == ".e2" then 2 else -1
  }

  datatype Parsed = Parsed(wallboxId: int, year: int, month: int, day: int, postfix: int)

  function ParseTail(rest: string, year: int, month: int): Parsed {
    var k := FirstSlash(rest);
    var day := if k < |rest| then Decimal(rest[..k]) else NO_DAY;
    var file := if k < |rest| then rest[k + 1..] else rest;
    var e := if |file| < 3 then 0 else |file| - 3;
    Parsed(Decode(file[..e]), year, month, day, KindOf(file[e..]))
  }

  function Parse(path: string): Parsed {
    var i := FirstSlash(path);
    if i == |path| then Parsed(-1, -1, -1, -1, -1) else
    var rest := path[i + 1..];
    var j := FirstSlash(rest);
    if j == |rest| then Parsed(-1, -1, -1, -1, -1) else
    ParseTail(rest[j + 1..], Decimal(path[..i]), Decimal(rest[..j]))
  }

  // Neither digits nor extensions contain a slash.
  lemma {:induction false} FileHasNoSlash(n: Name)
    requires IsName(n)
    ensures Slashless(Encode(n.wallboxId) + Postfix(n.postfix))
  {
    DigitsAreSymbols(n.wallboxId);
    hide Encode, ALPHABET;
    var digits := Encode(n.wallboxId);
    assert forall i :: 0 <= i < |digits| ==> DigitOf(digits[i]) != DigitOf('/');
  }

  lemma {:induction false} TailRoundTrip(n: Name)
    requires IsName(n)
    ensures ParseTail(DayPart(n.day) + (Encode(n.wallboxId) + Postfix(n.postfix)), n.year, n.month) ==
            Parsed(n.wallboxId, n.year, n.month, n.day, n.postfix)
  {
    var file := Encode(n.wallboxId) + Postfix(n.postfix);
    FileHasNoSlash(n);
    RoundTrip(n.wallboxId);
    KindRoundTrip(n.postfix);
    hide Encode, Itoa, Postfix, KindOf, FirstSlash, Decimal;
    assert file[..|file| - 3] == Encode(n.wallboxId) && file[|file| - 3..] == Postfix(n.postfix);
    if n.day != NO_DAY {
      ItoaFacts(n.day);
      SlashAfter(Itoa(n.day), file);
      var rest := Itoa(n.day) + "/" + file;
      assert rest[..|Itoa(n.day)|] == Itoa(n.day) && rest[|Itoa(n.day)| + 1..] == file;
    } else {
      NoSlash(file);
      assert "" + file == file;
    }
  }

  lemma KindRoundTrip(postfix: nat)
    requires postfix < 3
    ensures KindOf(Postfix(postfix)) == postfix
  {
    assert ".wb"[1] != ".em"[1] && ".em"[2] != ".e2"[2] && ".wb"[1] != ".e2"[1];
  }

  lemma ParseSplits(year: string, month: string, tail: string)
    requires Slashless(year) && Slashless(month)
    ensures Parse(year + "/" + (month + "/" + tail)) == ParseTail(tail, Decimal(year), Decimal(month))
  {
    hide FirstSlash, Decimal, ParseTail;
    var rest := month + "/" + tail;
    SlashAfter(month, tail);
    SlashAfter(year, rest);
    Halves(month, tail);
    Halves(year, rest);
  }

  // Every part of the name can be read back from the path, also whether it has a day at all.
  lemma {:induction false} PathRoundTrip(n: Name)
    requires IsName(n)
    ensures Parse(Path(n)) == Parsed(n.wallboxId, n.year, n.month, n.day, n.postfix)
  {
    hide Encode, Itoa, Postfix, DayPart, FirstSlash, Decimal, ParseTail, Parse;
    ItoaFacts(n.year);
    ItoaFacts(n.month);
    TailRoundTrip(n);
    ParseSplits(Itoa(n.year), Itoa(n.month), DayPart(n.day) + (Encode(n.wallboxId) + Postfix(n.postfix)));
  }

  lemma Halves(a: string, b: string)
    ensures (a + "/" + b)[..|a|] == a && (a + "/" + b)[|a| + 1..] == b && |a + "/" + b| > |a|
  {}

  // Different names have different paths.
  lemma {:induction false} PathsDiffer(m: Name, n: Name)
    requires IsName(m) && IsName(n) && m != n
    ensures Path(m) != Path(n)
  {
    PathRoundTrip(m);
    PathRoundTrip(n);
    hide Path, Parse;
  }

  // ----- Building it in place -------------------------------------------------------------------------------

  // sd_itoa
  method SdItoa(value: nat, str: array<char>, at: nat) returns (end: nat)
    requires value < 256 && at + 3 <= str.Length
    modifies str
    ensures end == at + |Itoa(value)| <= at + 3 && str[at..end] == Itoa(value)
    ensures str[..at] == old(str[..at]) && str[end..] == old(str[end..])
  {
    if value >= 100 {
      str[at + 2] := DecimalDigit(value % 10);
      str[at + 1] := DecimalDigit(value / 10 % 10);
      str[at] := DecimalDigit(value / 100);
      return at + 3;
    }
    if value >= 10 {
      str[at + 1] := DecimalDigit(value % 10);
      str[at] := DecimalDigit(value / 10);
      return at + 2;
    }
    str[at] := DecimalDigit(value);
    return at + 1;
  }

  method PutChar(c: char, str: array<char>, at: nat) returns (end: nat)
    requires at < str.Length
    modifies str
    ensures end == at + 1 && str[at..end] == [c]
    ensures str[..at] == old(str[..at]) && str[end..] == old(str[end..])
  {
    str[at] := c;
    end := at + 1;
  }

  method PutPostfix(postfix: nat, str: array<char>, at: nat) returns (end: nat)
    requires postfix < 3 && at + 3 <= str.Length
    modifies str
    ensures end == at + 3 && str[at..end] == Postfix(postfix)
    ensures str[..at] == old(str[..at]) && str[end..] == old(str[end..])
  {
    var s := Postfix(postfix);
    hide Postfix;
    str[at] := s[0];
    str[at + 1] := s[1];
    str[at + 2] := s[2];
    end := at + 3;
    assert str[at..end] == s;
  }

  // sd_get_path_with_filename on its buffer: a terminated string of at most 21 characters.
  method GetPathWithFilename(n: Name, p: array<char>)
    requires IsName(n) && p.Length == PATH_LENGTH
    modifies p
    ensures |Path(n)| <= 21 && p[..|Path(n)|] == Path(n)
    ensures forall k :: |Path(n)| <= k < p.Length ==> p[k] == '\0'
  {
    hide Itoa, Encode, Postfix, DayPart, Path;
    PathLength(n);
    DayLength(n.day);
    AtMostSixDigits(n.wallboxId);
    for k := 0 to p.Length
      invariant forall m :: 0 <= m < k ==> p[m] == '\0'
    {
      p[k] := '\0';
    }
    var np := 0;
    ghost var now, s: string := p[..], "";
    np := SdItoa(n.year, p, 0);
    Extend(now, p[..], 0, np, s, Itoa(n.year));
    now, s := p[..], s + Itoa(n.year);
    var at := np;
    np := PutChar('/', p, np);
    Extend(now, p[..], at, np, s, "/");
    now, s, at := p[..], s + "/", np;
    np := SdItoa(n.month, p, np);
    Extend(now, p[..], at, np, s, Itoa(n.month));
    now, s, at := p[..], s + Itoa(n.month), np;
    np := PutChar('/', p, np);
    Extend(now, p[..], at, np, s, "/");
    now, s, at := p[..], s + "/", np;
    np := PutDay(n.day, p, np);
    Extend(now, p[..], at, np, s, DayPart(n.day));
    now, s, at := p[..], s + DayPart(n.day), np;
    np := Base58Encode(n.wallboxId, p, np);
    Extend(now, p[..], at, np, s, Encode(n.wallboxId));
    now, s, at := p[..], s + Encode(n.wallboxId), np;
    np := PutPostfix(n.postfix, p, np);
    Extend(now, p[..], at, np, s, Postfix(n.postfix));
    s := s + Postfix(n.postfix);
    PathIs(n, s);
  }

  lemma DayLength(day: nat)
    requires day < 256
    ensures |DayPart(day)| <= 4
  {}

  // The day directory is left out for files without a day.
  method PutDay(day: nat, str: array<char>, at: nat) returns (end: nat)
    requires day < 256 && at + 4 <= str.Length
    modifies str
    ensures end == at + |DayPart(day)| <= at + 4 && str[at..end] == DayPart(day)
    ensures str[..at] == old(str[..at]) && str[end..] == old(str[end..])
  {
    hide Itoa;
    end := at;
    if day != NO_DAY {
      ghost var before := str[..];
      end := SdItoa(day, str, at);
      ghost var middle, mid := str[..], end;
      end := PutChar('/', str, end);
      assert str[at..end] == str[..mid][at..] + str[mid..end];
      assert str[..mid][at..] == middle[at..mid];
      assert str[..at] == str[..mid][..at] == middle[..at] == before[..at];
      assert str[end..] == middle[end..] == middle[mid..][1..] == before[end..];
    }
  }

  // Everything from a position on is still zero; a piece written there extends the string.
  lemma Extend(before: string, after: string, at: nat, end: nat, s: string, piece: string)
    requires at <= end <= |before| == |after| && before[..at] == s && after[..at] == before[..at]
    requires after[at..end] == piece && after[end..] == before[end..]
    requires forall k :: at <= k < |before| ==> before[k] == '\0'
    ensures after[..end] == s + piece
    ensures forall k :: end <= k < |after| ==> after[k] == '\0'
  {
    assert after[..end] == after[..at] + after[at..end];
    forall k | end <= k < |after| ensures after[k] == '\0' {
      assert after[k] == after[end..][k - end] == before[end..][k - end] == before[k];
    }
  }

  lemma PathIs(n: Name, s: string)
    requires IsName(n)
    requires s ==
             "" + Itoa(n.year) + "/" + Itoa(n.month) + "/" + DayPart(n.day) + Encode(n.wallboxId) + Postfix(n.postfix)
    ensures s == Path(n)
  {
    hide Itoa, Encode, Postfix, DayPart;
    var year, month, day := Itoa(n.year), Itoa(n.month), DayPart(n.day);
    var id, kind := Encode(n.wallboxId), Postfix(n.postfix);
    assert "" + year + "/" + month + "/" + day + id + kind == year + "/" + (month + "/" + (day + (id + kind)));
  }
}
