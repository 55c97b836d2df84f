/**
 * Reading a Yoda metadata export: parsing a date in one of two fixed
 * formats the way `datetime.strptime` does, the person records of a
 * dataset, and the row built for each dataset.
 */
module Yoda {
  import opened Common
  import opened PurePersons

  // ---------------------------------------------------------------------
  // strptime for the two formats

  /** The directives used by the two formats. */
  datatype Directive = Year | Month | Day | Hour | Minute | Second

  /** Position k holds a character between lo and hi. */
  predicate At(s: string, k: nat, lo: char, hi: char)
  {
    k < |s| && lo <= s[k] <= hi
  }

  /**
   * Two characters a literal of the format matches alike: CPython compiles
   * the strptime pattern with IGNORECASE, so 't' matches the 'T' of the format.
   */
  predicate SameIgnoringCase(a: char, b: char)
  {
    LowerChar(a) == LowerChar(b)
  }

  /** The literal the format expects next, if any, is at position k. */
  predicate Follows(s: string, k: nat, follow: Option<char>)
  {
    follow.None? || (k < |s| && SameIgnoringCase(s[k], follow.value))
  }

  /**
   * How many characters a directive consumes at position i: CPython's
   * strptime tries the alternatives of each directive in order (`%m` is
   * `1[0-2]|0[1-9]|[1-9]`, `%d` is `3[01]|[12]\d|0[1-9]|[1-9]| [1-9]`, `%H`
   * is `2[0-3]|[0-1]\d|\d`, `%M` is `[0-5]\d|\d`, `%S` is
   * `6[0-1]|[0-5]\d|\d`, `%Y` is four digits) and moves on to the next
   * alternative when the format's next literal does not follow.
   */
  function Consumed(d: Directive, s: string, i: nat, follow: Option<char>): (r: Option<nat>)
    ensures r.Some? ==> 1 <= r.value <= 4 && i + r.value <= |s| && Follows(s, i + r.value, follow)
  {
    match d
    case Year =>
      if At(s, i, '0', '9') && At(s, i + 1, '0', '9') && At(s, i + 2, '0', '9') && At(s, i + 3, '0', '9') &&
         Follows(s, i + 4, follow) then Some(4) else None
    case Month =>
      if At(s, i, '1', '1') && At(s, i + 1, '0', '2') && Follows(s, i + 2, follow) then Some(2)
      else if At(s, i, '0', '0') && At(s, i + 1, '1', '9') && Follows(s, i + 2, follow) then Some(2)
      else if At(s, i, '1', '9') && Follows(s, i + 1, follow) then Some(1)
      else None
    case Day =>
      if At(s, i, '3', '3') && At(s, i + 1, '0', '1') && Follows(s, i + 2, follow) then Some(2)
      else if At(s, i, '1', '2') && At(s, i + 1, '0', '9') && Follows(s, i + 2, follow) then Some(2)
      else if At(s, i, '0', '0') && At(s, i + 1, '1', '9') && Follows(s, i + 2, follow) then Some(2)
      else if At(s, i, '1', '9') && Follows(s, i + 1, follow) then Some(1)
      else if At(s, i, ' ', ' ') && At(s, i + 1, '1', '9') && Follows(s, i + 2, follow) then Some(2)
      else None
    case Hour =>
      if At(s, i, '2', '2') && At(s, i + 1, '0', '3') && Follows(s, i + 2, follow) then Some(2)
      else if At(s, i, '0', '1') && At(s, i + 1, '0', '9') && Follows(s, i + 2, follow) then Some(2)
      else if At(s, i, '0', '9') && Follows(s, i + 1, follow) then Some(1)
      else None
    case Minute =>
      if At(s, i, '0', '5') && At(s, i + 1, '0', '9') && Follows(s, i + 2, follow) then Some(2)
      else if At(s, i, '0', '9') && Follows(s, i + 1, follow) then Some(1)
      else None
    case Second =>
      if At(s, i, '6', '6') && At(s, i + 1, '0', '1') && Follows(s, i + 2, follow) then Some(2)
      else if At(s, i, '0', '5') && At(s, i + 1, '0', '9') && Follows(s, i + 2, follow) then Some(2)
      else if At(s, i, '0', '9') && Follows(s, i + 1, follow) then Some(1)
      else None
  }

  /** A format is a sequence of directives and literal characters. */
  datatype FormatItem = Dir(d: Directive) | Sep(c: char)

  /** `%Y-%m-%d` */
  function DateOnlyFormat(): seq<FormatItem>
  {
    [Dir(Year), Sep('-'), Dir(Month), Sep('-'), Dir(Day)]
  }

  /** `%Y-%m-%dT%H:%M:%S` */
  function DateTimeFormat(): seq<FormatItem>
  {
    DateOnlyFormat() + [Sep('T'), Dir(Hour), Sep(':'), Dir(Minute), Sep(':'), Dir(Second)]
  }

  /** `int(piece)` for a piece of digits, possibly led by the space `%d` allows. */
  function NumberValue(piece: string): nat
    decreases |piece|
  {
    if |piece| == 0 then 0
    else if IsDigit(Last(piece)) then NumberValue(piece[..|piece| - 1]) * 10 + (Last(piece) as int - '0' as int)
    else NumberValue(piece[..|piece| - 1])
  }

  /**
   * The regular expression match from position i: the values of the
   * directives in order, and no unconverted data left at the end.
   */
  function MatchFrom(fmt: seq<FormatItem>, s: string, i: nat): Option<seq<nat>>
    requires i <= |s|
    decreases |fmt|
  {
    if |fmt| == 0 then (if i == |s| then Some([]) else None)
    else match fmt[0]
      case Sep(c) => if i < |s| && SameIgnoringCase(s[i], c) then MatchFrom(fmt[1..], s, i + 1) else None
      case Dir(d) =>
        var follow := if |fmt| > 1 && fmt[1].Sep? then Some(fmt[1].c) else None;
        match Consumed(d, s, i, follow)
        case None => None
        case Some(len) =>
          match MatchFrom(fmt[1..], s, i + len)
          case None => None
          case Some(rest) => Some([NumberValue(s[i..i + len])] + rest)
  }

  predicate IsLeapYear(y: int)
  {
    (y % 4 == 0 && y % 100 != 0) || y % 400 == 0
  }

  function DaysInMonth(y: int, m: int): int
  {
    if m == 2 then (if IsLeapYear(y) then 29 else 28)
    else if m == 4 || m == 6 || m == 9 || m == 11 then 30
    else 31
  }

  /** The year, month and day parse_date keeps. */
  datatype DateParts = DateParts(year: int, month: int, day: int)

  predicate ValidDate(p: DateParts)
  {
    1 <= p.year <= 9999 && 1 <= p.month <= 12 && 1 <= p.day <= DaysInMonth(p.year, p.month)
  }

  /**
   * `datetime.strptime(s, fmt)` for one of the two formats: None for a
   * ValueError (no match, unconverted data, a day the month does not have,
   * year 0 or second 60/61).
   */
  function Strptime(s: string, fmt: seq<FormatItem>): Option<DateParts>
  {
    match MatchFrom(fmt, s, 0)
    case None => None
    case Some(v) =>
      if |v| < 3 then None
      else
        var p := DateParts(v[0], v[1], v[2]);
        if p.year < 1 || !(1 <= p.month <= 12) || !(1 <= p.day <= DaysInMonth(p.year, p.month)) then None
        else if |v| == 6 && v[5] > 59 then None
        else Some(p)
  }

  /** parse_date: the first of the two formats that parses, else None; a missing value raises TypeError. */
  function ParseDate(s: Option<string>): (r: Result<Option<DateParts>>)
    ensures r.Raised? <==> s.None?
    ensures r.Ok? && r.value.Some? ==> ValidDate(r.value.value)
  {
    if s.None? then Raised("TypeError")
    else
      match Strptime(s.value, DateOnlyFormat())
      case Some(p) => (YearInRange(s.value, DateOnlyFormat()); Ok(Some(p)))
      case None => (YearInRange(s.value, DateTimeFormat()); Ok(Strptime(s.value, DateTimeFormat())))
  }

  function Pow10(n: nat): nat
  {
    if n == 0 then 1 else 10 * Pow10(n - 1)
  }

  /** A piece of n characters has a value below 10^n. */
  lemma {:induction false} NumberValueBound(piece: string)
    ensures NumberValue(piece) < Pow10(|piece|)
    decreases |piece|
  {
    if |piece| > 0 {
      NumberValueBound(piece[..|piece| - 1]);
    }
  }

  /** Four digits never exceed 9999. */
  lemma YearInRange(s: string, fmt: seq<FormatItem>)
    requires |fmt| > 0 && fmt[0] == Dir(Year)
    ensures Strptime(s, fmt).Some? ==> Strptime(s, fmt).value.year <= 9999
  {
    if Strptime(s, fmt).Some? {
      var len := Consumed(Year, s, 0, if |fmt| > 1 && fmt[1].Sep? then Some(fmt[1].c) else None);
      assert len == Some(4);
      NumberValueBound(s[0..4]);
      assert Pow10(4) == 10000;
    }
  }

  /**
   * The two formats never both parse a string, so trying them in the other
   * order would give the same result.
   */
  lemma FormatsExclusive(s: string)
    ensures Strptime(s, DateOnlyFormat()).None? || Strptime(s, DateTimeFormat()).None?
  {
    if MatchFrom(DateOnlyFormat(), s, 0).Some? && MatchFrom(DateTimeFormat(), s, 0).Some? {
      var j := DateOnlyDayStart(s);
      var j' := DateTimeDayStart(s);
      assert j' == j;
      DayEnds(s, j);
    }
  }

  /** Where a `%Y-%m-%d` match puts the day: it runs to the end of the string. */
  lemma DateOnlyDayStart(s: string) returns (j: nat)
    requires MatchFrom(DateOnlyFormat(), s, 0).Some?
    ensures Consumed(Year, s, 0, Some('-')) == Some(4) && Consumed(Month, s, 5, Some('-')).Some?
    ensures j == 5 + Consumed(Month, s, 5, Some('-')).value + 1
    ensures Consumed(Day, s, j, None).Some? && j + Consumed(Day, s, j, None).value == |s|
  {
    var fmt := DateOnlyFormat();
    assert fmt[1..][1..] == fmt[2..] && fmt[2..][1..] == fmt[3..] && fmt[3..][1..] == fmt[4..] && fmt[4..][1..] == [];
    MatchDirectiveInv(fmt, s, 0);
    MatchSepInv(fmt[1..], s, 4);
    MatchDirectiveInv(fmt[2..], s, 5);
    j := 5 + Consumed(Month, s, 5, Some('-')).value + 1;
    MatchSepInv(fmt[3..], s, j - 1);
    MatchDirectiveInv(fmt[4..], s, j);
  }

  /** Where a `%Y-%m-%dT%H:%M:%S` match puts the day: a 'T' follows it. */
  lemma DateTimeDayStart(s: string) returns (j: nat)
    requires MatchFrom(DateTimeFormat(), s, 0).Some?
    ensures Consumed(Year, s, 0, Some('-')) == Some(4) && Consumed(Month, s, 5, Some('-')).Some?
    ensures j == 5 + Consumed(Month, s, 5, Some('-')).value + 1
    ensures Consumed(Day, s, j, Some('T')).Some?
  {
    var fmt := DateTimeFormat();
    assert fmt[1..][1..] == fmt[2..] && fmt[2..][1..] == fmt[3..] && fmt[3..][1..] == fmt[4..];
    assert fmt[1] == Sep('-') && fmt[3] == Sep('-') && fmt[4] == Dir(Day) && fmt[5] == Sep('T');
    MatchDirectiveInv(fmt, s, 0);
    MatchSepInv(fmt[1..], s, 4);
    MatchDirectiveInv(fmt[2..], s, 5);
    j := 5 + Consumed(Month, s, 5, Some('-')).value + 1;
    MatchSepInv(fmt[3..], s, j - 1);
    MatchDirectiveInv(fmt[4..], s, j);
  }

  /** A match that starts with a directive: the directive consumes something and the rest matches after it. */
  lemma MatchDirectiveInv(fmt: seq<FormatItem>, s: string, i: nat)
    requires i <= |s| && |fmt| > 0 && fmt[0].Dir? && MatchFrom(fmt, s, i).Some?
    ensures var len := Consumed(fmt[0].d, s, i, if |fmt| > 1 && fmt[1].Sep? then Some(fmt[1].c) else None);
      len.Some? && MatchFrom(fmt[1..], s, i + len.value).Some?
  {
  }

  /** A match that starts with a literal: the literal is there and the rest matches after it. */
  lemma MatchSepInv(fmt: seq<FormatItem>, s: string, i: nat)
    requires i <= |s| && |fmt| > 0 && fmt[0].Sep? && MatchFrom(fmt, s, i).Some?
    ensures i < |s| && SameIgnoringCase(s[i], fmt[0].c) && MatchFrom(fmt[1..], s, i + 1).Some?
  {
  }

  /** A day that ends the string is never followed by 'T'. */
  lemma DayEnds(s: string, j: nat)
    requires Consumed(Day, s, j, None).Some? && j + Consumed(Day, s, j, None).value == |s|
    ensures Consumed(Day, s, j, Some('T')).None?
  {
  }

  function DigitChar(n: nat): char
    requires n < 10
  {
    ('0' as int + n) as char
  }

  /** Two digits, zero-padded. */
  function Pad2(n: nat): string
    requires n < 100
  {
    [DigitChar(n / 10), DigitChar(n % 10)]
  }

  /** A date written `YYYY-MM-DD`, as Yoda exports it. */
  function IsoDate(p: DateParts): string
    requires ValidDate(p)
  {
    Pad2(p.year / 100) + Pad2(p.year % 100) + "-" + Pad2(p.month) + "-" + Pad2(p.day)
  }

  lemma NumberValuePad2(n: nat)
    requires n < 100
    ensures NumberValue(Pad2(n)) == n
  {
    var s := Pad2(n);
    assert s[..1][..0] == [];
    assert DigitChar(n / 10) as int - '0' as int == n / 10;
    assert DigitChar(n % 10) as int - '0' as int == n % 10;
    assert NumberValue(s[..1]) == n / 10;
    assert NumberValue(s) == NumberValue(s[..1]) * 10 + n % 10;
  }

  lemma NumberValueYear(y: nat)
    requires y < 10000
    ensures NumberValue(Pad2(y / 100) + Pad2(y % 100)) == y
  {
    var s := Pad2(y / 100) + Pad2(y % 100);
    assert s[..3] == Pad2(y / 100) + [s[2]];
    assert s[..3][..2] == Pad2(y / 100);
    NumberValuePad2(y / 100);
  }

  /** Every valid date written `YYYY-MM-DD` parses back to itself with the first format. */
  lemma {:induction false} IsoDateRoundTrip(p: DateParts)
    requires ValidDate(p)
    ensures Strptime(IsoDate(p), DateOnlyFormat()) == Some(p)
    ensures ParseDate(Some(IsoDate(p))) == Ok(Some(p))
  {
    IsoDateMatches(p);
  }

  /** The regular expression match of a `YYYY-MM-DD` date yields its three numbers. */
  lemma IsoDateMatches(p: DateParts)
    requires ValidDate(p)
    ensures MatchFrom(DateOnlyFormat(), IsoDate(p), 0) == Some([p.year, p.month, p.day])
  {
    IsoDatePieces(p);
    DateOnlyMatch(IsoDate(p), p.year, p.month, p.day);
  }

  /** A ten-character string whose three pieces each consume what they should matches `%Y-%m-%d`. */
  lemma DateOnlyMatch(s: string, year: nat, month: nat, day: nat)
    requires |s| == 10 && s[4] == '-' && s[7] == '-'
    requires NumberValue(s[0..4]) == year && NumberValue(s[5..7]) == month && NumberValue(s[8..10]) == day
    requires Consumed(Year, s, 0, Some('-')) == Some(4) && Consumed(Month, s, 5, Some('-')) == Some(2)
    requires Consumed(Day, s, 8, None) == Some(2)
    ensures MatchFrom(DateOnlyFormat(), s, 0) == Some([year, month, day])
  {
    var f4: seq<FormatItem> := [Dir(Day)];
    MatchDirCons(Day, [], s, 8, 2, []);
    assert [Dir(Day)] + [] == f4 && [NumberValue(s[8..10])] + [] == [day];
    var f3 := [Sep('-')] + f4;
    MatchSepCons('-', f4, s, 7, [day]);
    var f2 := [Dir(Month)] + f3;
    MatchDirCons(Month, f3, s, 5, 2, [day]);
    assert [NumberValue(s[5..7])] + [day] == [month, day];
    var f1 := [Sep('-')] + f2;
    MatchSepCons('-', f2, s, 4, [month, day]);
    MatchDirCons(Year, f1, s, 0, 4, [month, day]);
    assert [NumberValue(s[0..4])] + [month, day] == [year, month, day];
    assert [Dir(Year)] + f1 == DateOnlyFormat();
  }

  /** Where the pieces of a `YYYY-MM-DD` date are, and what each directive consumes there. */
  lemma IsoDatePieces(p: DateParts)
    requires ValidDate(p)
    ensures var s := IsoDate(p);
      |s| == 10 && s[4] == '-' && s[7] == '-' &&
      NumberValue(s[0..4]) == p.year && NumberValue(s[5..7]) == p.month && NumberValue(s[8..10]) == p.day &&
      Consumed(Year, s, 0, Some('-')) == Some(4) && Consumed(Month, s, 5, Some('-')) == Some(2) &&
      Consumed(Day, s, 8, None) == Some(2)
  {
    var s := IsoDate(p);
    assert s[0..4] == Pad2(p.year / 100) + Pad2(p.year % 100);
    assert s[5..7] == Pad2(p.month) && s[8..10] == Pad2(p.day);
    NumberValueYear(p.year);
    NumberValuePad2(p.month);
    NumberValuePad2(p.day);
  }

  /** One directive of the match: its value, then the rest of the format. */
  lemma MatchDirCons(d: Directive, next: seq<FormatItem>, s: string, i: nat, len: nat, rest: seq<nat>)
    requires i + len <= |s|
    requires Consumed(d, s, i, if |next| > 0 && next[0].Sep? then Some(next[0].c) else None) == Some(len)
    requires MatchFrom(next, s, i + len) == Some(rest)
    ensures MatchFrom([Dir(d)] + next, s, i) == Some([NumberValue(s[i..i + len])] + rest)
  {
    assert ([Dir(d)] + next)[1..] == next;
  }

  /** One literal of the match, in either case. */
  lemma MatchSepCons(c: char, next: seq<FormatItem>, s: string, i: nat, rest: seq<nat>)
    requires i < |s| && SameIgnoringCase(s[i], c)
    requires MatchFrom(next, s, i + 1) == Some(rest)
    ensures MatchFrom([Sep(c)] + next, s, i) == Some(rest)
  {
    assert ([Sep(c)] + next)[1..] == next;
  }

  // ---------------------------------------------------------------------
  // Persons

  /** The `Name` object of a person; a key that is absent is None. */
  datatype YodaName = YodaName(givenName: Option<string>, familyName: Option<string>)

  /**
   * One element of `Person_Identifier`; `otherKeys` says whether the object
   * has keys besides the two read here (an object with any key is kept).
   */
  datatype PersonIdentifierEntry = PersonIdentifierEntry(scheme: Option<string>, identifier: Option<string>, otherKeys: bool)

  /** A contributor or creator; `Name` absent is a name with neither part. */
  datatype YodaContributor = YodaContributor(name: YodaName, affiliation: seq<string>, personIdentifiers: seq<PersonIdentifierEntry>)

  datatype IdValue = IdValue(id: string, value: string)

  datatype YodaPerson = YodaPerson(name: string, personIds: seq<IdValue>, affiliation: string, kind: string)

  const UNKNOWN := "Unknown"
  const NOT_AVAILABLE := "N/A"
  const NO_AFFILIATION := "None"
  const CONTRIBUTOR_TYPE := "contributor"

  /** An identifier object is kept when it is not empty, with 'N/A' for a missing key. */
  function IdValueOf(e: PersonIdentifierEntry): (r: Option<IdValue>)
    ensures r.Some? <==> e.scheme.Some? || e.identifier.Some? || e.otherKeys
    ensures r.Some? ==> r.value.id == e.scheme.GetOr(NOT_AVAILABLE) && r.value.value == e.identifier.GetOr(NOT_AVAILABLE)
  {
    if e.scheme.Some? || e.identifier.Some? || e.otherKeys then
      Some(IdValue(e.scheme.GetOr(NOT_AVAILABLE), e.identifier.GetOr(NOT_AVAILABLE)))
    else None
  }

  /** parse_person_data. */
  function ParsePersonData(c: YodaContributor): YodaPerson
  {
    YodaPerson(c.name.givenName.GetOr(UNKNOWN) + " " + c.name.familyName.GetOr(UNKNOWN),
               FilterMap(c.personIdentifiers, IdValueOf),
               if |c.affiliation| > 0 then c.affiliation[0] else NO_AFFILIATION,
               CONTRIBUTOR_TYPE)
  }

  /**
   * The full name splits back at its space into the two parts it was made
   * of ('Unknown' for a missing one) when neither contains a space.
   */
  lemma FullNameRoundTrip(c: YodaContributor)
    requires ' ' !in c.name.givenName.GetOr(UNKNOWN) && ' ' !in c.name.familyName.GetOr(UNKNOWN)
    ensures Split(ParsePersonData(c).name, " ") == [c.name.givenName.GetOr(UNKNOWN), c.name.familyName.GetOr(UNKNOWN)]
  {
    var given := c.name.givenName.GetOr(UNKNOWN);
    var family := c.name.familyName.GetOr(UNKNOWN);
    assert given + " " + family == given + [' '] + family;
    SplitAtChar(given, ' ', family);
    NotContainsChar(given, ' ');
    NotContainsChar(family, ' ');
    NoSepSplitsToItself(given, " ");
    NoSepSplitsToItself(family, " ");
  }

  /**
   * person_ids keeps the non-empty identifier objects and only those, in
   * order, one entry each; every person is typed 'contributor' and has the
   * first affiliation or 'None'.
   */
  lemma PersonIdsKept(c: YodaContributor)
    ensures var ids := ParsePersonData(c).personIds;
      |ids| == |FilterIndices(c.personIdentifiers, IdValueOf)| <= |c.personIdentifiers| &&
      (forall k :: 0 <= k < |ids| ==> (0 <= FilterIndices(c.personIdentifiers, IdValueOf)[k] < |c.personIdentifiers| &&
        IdValueOf(c.personIdentifiers[FilterIndices(c.personIdentifiers, IdValueOf)[k]]) == Some(ids[k]))) &&
      (forall k, l :: 0 <= k < l < |ids| ==> FilterIndices(c.personIdentifiers, IdValueOf)[k] < FilterIndices(c.personIdentifiers, IdValueOf)[l])
    ensures ParsePersonData(c).kind == CONTRIBUTOR_TYPE
    ensures ParsePersonData(c).affiliation == if |c.affiliation| > 0 then c.affiliation[0] else NO_AFFILIATION
  {
    FilterMapSpec(c.personIdentifiers, IdValueOf);
    FilterIndicesBound(c.personIdentifiers, IdValueOf);
  }

  lemma {:induction false} FilterIndicesBound<T, U>(s: seq<T>, f: T -> Option<U>)
    ensures |FilterIndices(s, f)| <= |s|
    decreases |s|
  {
    if |s| > 0 {
      FilterIndicesBound(s[..|s| - 1], f);
    }
  }

  // ---------------------------------------------------------------------
  // Datasets

  /** The `metadata` object; a key that is absent is None (`Collected.Start_Date` absent is None too). */
  datatype YodaMetadata = YodaMetadata(title: Option<string>, description: Option<string>,
                                       startDate: Option<string>, creators: seq<YodaContributor>)

  /** One entry of the export, keyed by its path. */
  datatype YodaDataset = YodaDataset(metadata: YodaMetadata, doi: Option<string>, modified: Option<string>,
                                     contributors: seq<YodaContributor>)

  const YODA_PUBLISHER := "default"

  /** The date text used: `Collected.Start_Date` when non-empty, else `modified`. */
  function DateText(ds: YodaDataset): Option<string>
  {
    if Truthy(ds.metadata.startDate) then ds.metadata.startDate else ds.modified
  }

  /** Contributors first, then the metadata's creators. */
  function PersonsOf(ds: YodaDataset): (r: seq<YodaPerson>)
    ensures |r| == |ds.contributors| + |ds.metadata.creators|
    ensures forall i :: 0 <= i < |ds.contributors| ==> r[i] == ParsePersonData(ds.contributors[i])
    ensures forall i :: 0 <= i < |ds.metadata.creators| ==>
      r[|ds.contributors| + i] == ParsePersonData(ds.metadata.creators[i])
  {
    seq(|ds.contributors|, i requires 0 <= i < |ds.contributors| => ParsePersonData(ds.contributors[i])) +
    seq(|ds.metadata.creators|, i requires 0 <= i < |ds.metadata.creators| => ParsePersonData(ds.metadata.creators[i]))
  }

  /** A row as the code builds it: the date's parts are read out of `date_info` directly. */
  datatype YodaRowAsWritten = YodaRowAsWritten(doi: Option<string>, title: string, description: string,
                                               publisher: string, date: DateParts, persons: seq<YodaPerson>)

  /**
   * The row as written: an unparsable date leaves `date_info` empty and
   * `date_info['publication_year']` raises KeyError.
   */
  function RowAsWritten(ds: YodaDataset): Result<YodaRowAsWritten>
  {
    match ParseDate(DateText(ds))
    case Raised(e) => Raised(e)
    case Ok(None) => Raised("KeyError")
    case Ok(Some(p)) =>
      Ok(YodaRowAsWritten(ds.doi, ds.metadata.title.GetOr(NOT_AVAILABLE), ds.metadata.description.GetOr(NOT_AVAILABLE),
                          YODA_PUBLISHER, p, PersonsOf(ds)))
  }

  /** A row whose date parts are empty when the date does not parse. */
  datatype YodaRow = YodaRow(doi: Option<string>, title: string, description: string,
                             publisher: string, date: Option<DateParts>, persons: seq<YodaPerson>)

  /** The row with the empty `date_info` the `or {}` fallback means, instead of the KeyError. */
  function RowOf(ds: YodaDataset): Result<YodaRow>
  {
    match ParseDate(DateText(ds))
    case Raised(e) => Raised(e)
    case Ok(date) =>
      Ok(YodaRow(ds.doi, ds.metadata.title.GetOr(NOT_AVAILABLE), ds.metadata.description.GetOr(NOT_AVAILABLE),
                 YODA_PUBLISHER, date, PersonsOf(ds)))
  }

  /**
   * The corrected row raises only for the TypeError of a missing
   * `modified` with no start date; its date is the start date's when that
   * is non-empty, else the modification date's, and is a valid date.
   */
  lemma RowOfCases(ds: YodaDataset)
    ensures RowOf(ds).Raised? <==> !Truthy(ds.metadata.startDate) && ds.modified.None?
    ensures RowOf(ds).Ok? ==> (RowOf(ds).value.date == ParseDate(DateText(ds)).value &&
      (RowOf(ds).value.date.Some? ==> ValidDate(RowOf(ds).value.date.value)) &&
      RowOf(ds).value.publisher == YODA_PUBLISHER && RowOf(ds).value.persons == PersonsOf(ds))
  {
  }

  /** The two agree whenever the date parses; the code raises KeyError exactly when it does not. */
  lemma RowAsWrittenDiffers(ds: YodaDataset)
    ensures RowAsWritten(ds).Raised? && RowAsWritten(ds).error == "KeyError" <==>
      RowOf(ds).Ok? && RowOf(ds).value.date.None?
    ensures RowOf(ds).Ok? && RowOf(ds).value.date.Some? ==>
      RowAsWritten(ds).Ok? && RowAsWritten(ds).value.date == RowOf(ds).value.date.value
  {
  }

  /** A start date written `31/12/2024` parses in neither format, so the code raises KeyError. */
  lemma SlashDateRaises(ds: YodaDataset)
    requires ds.metadata.startDate == Some("31/12/2024")
    ensures RowAsWritten(ds) == Raised("KeyError")
    ensures RowOf(ds).Ok? && RowOf(ds).value.date.None?
  {
    var s := "31/12/2024";
    assert Truthy(ds.metadata.startDate);
    assert s[2] == '/';
    assert Consumed(Year, s, 0, Some('-')).None?;
  }

  /**
   * get_df_from_yoda: one row per dataset, in the export's order; an export
   * that could not be read (None) gives no rows.
   */
  method GetDfFromYoda(data: Option<seq<(string, YodaDataset)>>) returns (r: Result<seq<YodaRow>>)
    ensures data.None? ==> r == Ok([])
    ensures data.Some? ==> r == RowsOf(data.value)
  {
    if data.None? {
      return Ok([]);
    }
    var entries := data.value;
    var rows: seq<YodaRow> := [];
    var i := 0;
    while i < |entries|
      invariant 0 <= i <= |entries|
      invariant RowsWith(entries[..i], RowOf) == Ok(rows)
    {
      var row := BuildRow(entries[i].1);
      RowsWithSnoc(entries, RowOf, i);
      if row.Raised? {
        RowsRaisedStays(entries, RowOf, i + 1);
        return Raised(row.error);
      }
      rows := rows + [row.value];
      i := i + 1;
    }
    assert entries[..i] == entries;
    r := Ok(rows);
  }

  /** The body of the loop for one dataset. */
  method BuildRow(ds: YodaDataset) returns (row: Result<YodaRow>)
    ensures row == RowOf(ds)
  {
    var dateInfo := ParseDate(DateText(ds));
    if dateInfo.Raised? {
      return Raised(dateInfo.error);
    }
    var persons := PersonsOf(ds);
    row := Ok(YodaRow(ds.doi, ds.metadata.title.GetOr(NOT_AVAILABLE), ds.metadata.description.GetOr(NOT_AVAILABLE),
                      YODA_PUBLISHER, dateInfo.value, persons));
  }

  /** The loop over the entries with a given row builder: the first raise stops it. */
  function RowsWith(entries: seq<(string, YodaDataset)>, rowOf: YodaDataset -> Result<YodaRow>): Result<seq<YodaRow>>
    decreases |entries|
  {
    if |entries| == 0 then Ok([])
    else
      match RowsWith(entries[..|entries| - 1], rowOf)
      case Raised(e) => Raised(e)
      case Ok(front) =>
        match rowOf(Last(entries).1)
        case Raised(e) => Raised(e)
        case Ok(row) => Ok(front + [row])
  }

  /** The rows get_df_from_yoda builds. */
  function RowsOf(entries: seq<(string, YodaDataset)>): Result<seq<YodaRow>>
  {
    RowsWith(entries, RowOf)
  }

  lemma RowsWithSnoc(entries: seq<(string, YodaDataset)>, rowOf: YodaDataset -> Result<YodaRow>, i: nat)
    requires i < |entries|
    ensures RowsWith(entries[..i + 1], rowOf) ==
      match RowsWith(entries[..i], rowOf)
      case Raised(e) => Raised(e)
      case Ok(front) => (match rowOf(entries[i].1) case Raised(e) => Raised(e) case Ok(row) => Ok(front + [row]))
  {
    assert entries[..i + 1][..i] == entries[..i] && Last(entries[..i + 1]) == entries[i];
  }

  lemma RowsRaisedStays(entries: seq<(string, YodaDataset)>, rowOf: YodaDataset -> Result<YodaRow>, i: nat)
    requires i <= |entries| && RowsWith(entries[..i], rowOf).Raised?
    ensures RowsWith(entries, rowOf) == RowsWith(entries[..i], rowOf)
    decreases |entries| - i
  {
    if i < |entries| {
      RowsWithSnoc(entries, rowOf, i);
      RowsRaisedStays(entries, rowOf, i + 1);
    } else {
      assert entries[..i] == entries;
    }
  }

  /** Without a raise there is one row per dataset, the i-th built from the i-th dataset. */
  lemma {:induction false} RowsWithAligned(entries: seq<(string, YodaDataset)>, rowOf: YodaDataset -> Result<YodaRow>)
    requires RowsWith(entries, rowOf).Ok?
    ensures |RowsWith(entries, rowOf).value| == |entries|
    ensures forall i :: 0 <= i < |entries| ==> rowOf(entries[i].1) == Ok(RowsWith(entries, rowOf).value[i])
    decreases |entries|
  {
    if |entries| > 0 {
      var n := |entries| - 1;
      var front := entries[..n];
      RowsWithAligned(front, rowOf);
      var rows := RowsWith(entries, rowOf).value;
      var frontRows := RowsWith(front, rowOf).value;
      assert rows == frontRows + [rowOf(entries[n].1).value];
      forall i | 0 <= i < |entries|
        ensures rowOf(entries[i].1) == Ok(rows[i])
      {
        if i < n {
          assert front[i] == entries[i] && rows[i] == frontRows[i];
        }
      }
    }
  }

  /** Without a raise there is one row per dataset, the i-th built from the i-th dataset. */
  lemma RowsOfAligned(entries: seq<(string, YodaDataset)>)
    requires RowsOf(entries).Ok?
    ensures |RowsOf(entries).value| == |entries|
    ensures forall i :: 0 <= i < |entries| ==> RowOf(entries[i].1) == Ok(RowsOf(entries).value[i])
  {
    RowsWithAligned(entries, RowOf);
  }
}
