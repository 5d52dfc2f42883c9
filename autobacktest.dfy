/** The pure helpers of the batch driver: which futures contract month a session date
    belongs to, how a daily file name yields its date, and which files the driver processes. */
module AutoBacktest {
  import opened Wrappers
  import opened Dates

  /** str.split(c): the pieces between occurrences of c, always at least one. */
  function Split(s: string, c: char): (parts: seq<string>)
    ensures |parts| >= 1
    ensures |parts| == 1 <==> c !in s
    ensures forall k | 0 <= k < |parts| :: c !in parts[k]
  {
    if s == [] then [[]]
    else
      var rest := Split(s[1..], c);
      if s[0] == c then [[]] + rest else [[s[0]] + rest[0]] + rest[1..]
  }

  /** c.join(parts). */
  function Join(parts: seq<string>, c: char): string
  {
    if parts == [] then []
    else if |parts| == 1 then parts[0]
    else parts[0] + [c] + Join(parts[1..], c)
  }

  /** The text after the first c, or the empty text when s has no c. */
  function AfterFirst(s: string, c: char): (r: string)
    ensures |r| < |s| || r == []
  {
    if s == [] then []
    else if s[0] == c then s[1..]
    else AfterFirst(s[1..], c)
  }

  /** A text without c has nothing after a first c. */
  lemma {:induction false} AfterFirstAbsent(s: string, c: char)
    requires c !in s
    ensures AfterFirst(s, c) == []
  {
    if s != [] {
      assert s[0] != c && c !in s[1..];
      AfterFirstAbsent(s[1..], c);
    }
  }

  lemma {:induction false} AfterFirstOfPrefix(prefix: string, c: char, rest: string)
    requires c !in prefix
    ensures AfterFirst(prefix + [c] + rest, c) == rest
  {
    if prefix != [] {
      assert (prefix + [c] + rest)[1..] == prefix[1..] + [c] + rest;
      AfterFirstOfPrefix(prefix[1..], c, rest);
    }
  }

  /** Joining a part in front of at least one more part puts one separator between them. */
  lemma JoinCons(part: string, rest: seq<string>, c: char)
    requires rest != []
    ensures Join([part] + rest, c) == part + [c] + Join(rest, c)
  {
    assert ([part] + rest)[1..] == rest;
  }

  /** The step of JoinSplit for a text starting with the separator. */
  lemma JoinSplitAtSeparator(s: string, c: char)
    requires s != [] && s[0] == c && Join(Split(s[1..], c), c) == s[1..]
    ensures Join(Split(s, c), c) == s
  {
    var rest := Split(s[1..], c);
    assert Split(s, c) == [[]] + rest;
    JoinCons([], rest, c);
    assert s == [c] + s[1..];
  }

  /** The step of JoinSplit for a text starting with another character. */
  lemma JoinSplitAtOther(s: string, c: char)
    requires s != [] && s[0] != c && Join(Split(s[1..], c), c) == s[1..]
    ensures Join(Split(s, c), c) == s
  {
    var rest := Split(s[1..], c);
    assert s == [s[0]] + s[1..];
    if |rest| == 1 {
      assert Split(s, c) == [[s[0]] + rest[0]];
    } else {
      assert Split(s, c) == [[s[0]] + rest[0]] + rest[1..];
      assert rest == [rest[0]] + rest[1..];
      JoinCons([s[0]] + rest[0], rest[1..], c);
      JoinCons(rest[0], rest[1..], c);
    }
  }

  /** Splitting and joining with the same character gives the text back. */
  lemma {:induction false} JoinSplit(s: string, c: char)
    ensures Join(Split(s, c), c) == s
  {
    if s != [] {
      JoinSplit(s[1..], c);
      if s[0] == c {
        JoinSplitAtSeparator(s, c);
      } else {
        JoinSplitAtOther(s, c);
      }
    }
  }

  /** '_'.join(s.split('_')[1:]) drops the text up to and including the first separator,
      and is empty when there is no separator. */
  lemma {:induction false} JoinTailOfSplit(s: string, c: char)
    ensures Join(Split(s, c)[1..], c) == AfterFirst(s, c)
  {
    if s != [] {
      var rest := Split(s[1..], c);
      if s[0] == c {
        assert Split(s, c)[1..] == rest;
        JoinSplit(s[1..], c);
      } else {
        assert Split(s, c)[1..] == rest[1..];
        JoinTailOfSplit(s[1..], c);
      }
    }
  }

  /** str.replace(pat, ''): removes the non-overlapping occurrences of pat, scanning from the left. */
  function RemoveAll(s: string, pat: string): (r: string)
    requires pat != []
    ensures |r| <= |s|
    decreases |s|
  {
    if |pat| <= |s| && s[..|pat|] == pat then RemoveAll(s[|pat|..], pat)
    else if s == [] then []
    else [s[0]] + RemoveAll(s[1..], pat)
  }

  /** Removing ".csv" from a text that ends in ".csv" and has no other '.' leaves the stem. */
  lemma {:induction false} RemoveTrailingCsv(stem: string)
    requires '.' !in stem
    ensures RemoveAll(stem + ".csv", ".csv") == stem
  {
    var s := stem + ".csv";
    if stem == [] {
      assert s[..4] == ".csv";
      assert s[4..] == [];
    } else {
      assert s[0] != '.';
      assert s[1..] == stem[1..] + ".csv";
      RemoveTrailingCsv(stem[1..]);
    }
  }

  predicate StartsWith(s: string, prefix: string) {
    |prefix| <= |s| && s[..|prefix|] == prefix
  }

  predicate EndsWith(s: string, suffix: string) {
    |suffix| <= |s| && s[|s| - |suffix|..] == suffix
  }

  /** The session date named by a daily file: the text after the first '_', with ".csv" removed,
      read as "%Y_%m_%d". */
  function FilenameDate(filename: string): Option<Date>
  {
    ParseDate(RemoveAll(AfterFirst(filename, '_'), ".csv"), '_')
  }

  /** extract_date_from_filename: "Daily_2025_01_02.csv" gives "2025-01-02"; None where
      strptime raises ValueError. */
  function ExtractDateFromFilename(filename: string): (r: Option<string>)
    ensures r.Some? <==> FilenameDate(filename).Some?
    ensures r.Some? ==> r.value == Render(FilenameDate(filename).value, '-')
    ensures r.Some? ==> ParseDate(r.value, '-') == FilenameDate(filename)
  {
    var datePart := RemoveAll(Join(Split(filename, '_')[1..], '_'), ".csv");
    JoinTailOfSplit(filename, '_');
    match ParseDate(datePart, '_')
    case None => None
    case Some(d) =>
      RenderThenParse(d, '-');
      Some(Render(d, '-'))
  }

  /** The name of a session's daily file, as found in the exchange's archive. */
  function DailyFilename(d: Date): string
    requires IsValidDate(d)
  {
    "Daily_" + Render(d, '_') + ".csv"
  }

  /** Every daily file name yields its own date, in "%Y-%m-%d" form. */
  lemma {:induction false} DailyFilenameRoundTrip(d: Date)
    requires IsValidDate(d)
    ensures FilenameDate(DailyFilename(d)) == Some(d)
    ensures ExtractDateFromFilename(DailyFilename(d)) == Some(Render(d, '-'))
  {
    var stem := Render(d, '_');
    var name := DailyFilename(d);
    assert name == "Daily" + ['_'] + (stem + ".csv");
    AfterFirstOfPrefix("Daily", '_', stem + ".csv");
    forall k | 0 <= k < |stem| ensures stem[k] != '.' {
    }
    RemoveTrailingCsv(stem);
    RenderThenParse(d, '_');
  }

  const FirstContract: string := "202412"
  const SecondContract: string := "202501"
  const ThirdContract: string := "202502"

  predicate InRange(d: Date, first: Date, last: Date) {
    DateLe(first, d) && DateLe(d, last)
  }

  /** The contract month of a session date: three closed date ranges, with no contract
      for 2024-12-19 nor outside the ranges. */
  function ContractFor(d: Date): (c: Option<string>)
    ensures c == Some(FirstContract) <==> InRange(d, Date(2024, 11, 21), Date(2024, 12, 18))
    ensures c == Some(SecondContract) <==> InRange(d, Date(2024, 12, 20), Date(2025, 1, 15))
    ensures c == Some(ThirdContract) <==> InRange(d, Date(2025, 1, 16), Date(2025, 2, 19))
    ensures c.Some? ==> c.value in {FirstContract, SecondContract, ThirdContract}
  {
    if InRange(d, Date(2024, 11, 21), Date(2024, 12, 18)) then Some(FirstContract)
    else if InRange(d, Date(2024, 12, 20), Date(2025, 1, 15)) then Some(SecondContract)
    else if InRange(d, Date(2025, 1, 16), Date(2025, 2, 19)) then Some(ThirdContract)
    else None
  }

  /** get_contract_from_date: parses "%Y-%m-%d" (raising ValueError on bad text) and looks the
      date up. */
  function GetContractFromDate(dateStr: string): (r: Result<Option<string>>)
    ensures r.ValueError? <==> ParseDate(dateStr, '-').None?
    ensures r.Ok? ==> r.value == ContractFor(ParseDate(dateStr, '-').value)
    ensures r.Ok? && r.value.Some? ==>
              && r.value.value in {FirstContract, SecondContract, ThirdContract}
              && InRange(ParseDate(dateStr, '-').value, Date(2024, 11, 21), Date(2025, 2, 19))
  {
    match ParseDate(dateStr, '-')
    case None => ValueError
    case Some(d) => Ok(ContractFor(d))
  }

  /** A date rendered as "%Y-%m-%d" never makes get_contract_from_date raise, and the answer
      is the contract of that date. */
  lemma RenderedDateContract(d: Date)
    requires IsValidDate(d)
    ensures GetContractFromDate(Render(d, '-')) == Ok(ContractFor(d))
  {
    RenderThenParse(d, '-');
  }

  /** The file filter of the batch driver: a file is processed, with its date text and contract,
      only if its name starts with "Daily_", ends with ".csv", yields a date and that date has
      a contract. */
  function SelectFile(name: string): (r: Option<(string, string)>)
    ensures r.Some? <==> StartsWith(name, "Daily_") && EndsWith(name, ".csv")
                         && FilenameDate(name).Some? && ContractFor(FilenameDate(name).value).Some?
    ensures r.Some? ==> r.value == (Render(FilenameDate(name).value, '-'), ContractFor(FilenameDate(name).value).value)
  {
    if !(StartsWith(name, "Daily_") && EndsWith(name, ".csv")) then None
    else
      match ExtractDateFromFilename(name)
      case None => None
      case Some(dateStr) =>
        match GetContractFromDate(dateStr)
        case ValueError => assert false; None
        case Ok(contract) =>
          if contract.None? then None else Some((dateStr, contract.value))
  }

  /** A daily file of a date inside the contract ranges is processed under that date's contract. */
  lemma DailyFileSelected(d: Date)
    requires IsValidDate(d) && ContractFor(d).Some?
    ensures SelectFile(DailyFilename(d)) == Some((Render(d, '-'), ContractFor(d).value))
  {
    DailyFilenameRoundTrip(d);
    var name := DailyFilename(d);
    assert name[..6] == "Daily_";
    assert name[|name| - 4..] == ".csv";
  }

  /** The contract table at its edges: the first and last day of each range, the unmapped day
      between the first two ranges and the day after the last one. */
  lemma ContractExamples()
    ensures ContractFor(Date(2024, 11, 21)) == Some("202412")
    ensures ContractFor(Date(2024, 12, 18)) == Some("202412")
    ensures ContractFor(Date(2024, 12, 19)) == None
    ensures ContractFor(Date(2024, 12, 20)) == Some("202501")
    ensures ContractFor(Date(2025, 1, 15)) == Some("202501")
    ensures ContractFor(Date(2025, 1, 16)) == Some("202502")
    ensures ContractFor(Date(2025, 2, 19)) == Some("202502")
    ensures ContractFor(Date(2025, 2, 20)) == None
    ensures ContractFor(Date(2024, 11, 20)) == None
  {
  }

  /** Text that is not "%Y-%m-%d" makes get_contract_from_date raise ValueError. */
  lemma MalformedDateText()
    ensures GetContractFromDate("2024/12/01") == ValueError
    ensures GetContractFromDate("") == ValueError
  {
  }

  /** The daily file of a date without a contract (such as 2024-12-19) is skipped, although
      its date is read. */
  lemma DailyFileSkipped(d: Date)
    requires IsValidDate(d) && ContractFor(d).None?
    ensures ExtractDateFromFilename(DailyFilename(d)) == Some(Render(d, '-'))
    ensures SelectFile(DailyFilename(d)) == None
  {
    DailyFilenameRoundTrip(d);
  }

  /** A name without '_' has an empty date part, which strptime rejects. */
  lemma NoUnderscore(name: string)
    requires '_' !in name
    ensures FilenameDate(name) == None
    ensures ExtractDateFromFilename(name) == None
  {
    AfterFirstAbsent(name, '_');
    assert RemoveAll([], ".csv") == [];
  }

  /** For instance "Daily.csv". */
  lemma NoUnderscoreExample()
    ensures ExtractDateFromFilename("Daily.csv") == None
  {
    NoUnderscore("Daily.csv");
  }

  /** Helpers of ImpossibleDayExample, one stage of the file name each. */
  lemma Feb30Stem()
    ensures ParseDate("2025_02_30", '_') == None
  {
    var stem := "2025_02_30";
    assert MonthField(stem[5..], '_') == Some((2, 3));
    assert DayField(stem[8..]) == Some(30);
    assert MatchFields(stem, '_') == Some(Date(2025, 2, 30));
  }

  lemma Feb30Name()
    ensures AfterFirst("Daily_2025_02_30.csv", '_') == "2025_02_30.csv"
  {
    assert "Daily_2025_02_30.csv" == "Daily" + ['_'] + "2025_02_30.csv";
    AfterFirstOfPrefix("Daily", '_', "2025_02_30.csv");
  }

  lemma Feb30Csv()
    ensures RemoveAll("2025_02_30.csv", ".csv") == "2025_02_30"
  {
    assert "2025_02_30.csv" == "2025_02_30" + ".csv";
    RemoveTrailingCsv("2025_02_30");
  }

  /** A day February does not have is a ValueError of strptime, so the file has no date. */
  lemma ImpossibleDayExample()
    ensures FilenameDate("Daily_2025_02_30.csv") == None
    ensures ExtractDateFromFilename("Daily_2025_02_30.csv") == None
  {
    Feb30Name();
    Feb30Csv();
    Feb30Stem();
  }
}
