/**
 * The SEC EDGAR side of the service: choosing the latest 10-Q filing from a
 * company's submission history, parsing captured numbers, and the data-driven
 * pipeline that turns the matches of the label patterns into the seven balance
 * sheet and income figures plus working capital.
 *
 * The regular-expression engine is a parameter: `findAll(pattern)` stands for
 * `re.finditer(pattern, text_lower, re.IGNORECASE)` over the filing's text, each
 * match given by its capture group 1 and its whole matched text.
 */
module SecClient {
  import opened Options
  import opened PyStr
  import opened PyNum

  // ---------------------------------------------------------------------
  // get_latest_10q_filing

  /** filings.recent of the submissions JSON; a missing list reads as []. */
  datatype RecentFilings = RecentFilings(
    form: Option<seq<string>>, filingDate: Option<seq<string>>, accessionNumber: Option<seq<string>>)

  datatype Filing = Filing(form: string, filingDate: string, accessionNumber: string, cik: string)

  /** The largest index holding `target`, if any. */
  function LastIndexOf(items: seq<string>, target: string): (r: Option<nat>)
    ensures r.None? <==> forall j | 0 <= j < |items| :: items[j] != target
    ensures r.Some? ==> r.value < |items| && items[r.value] == target
    ensures r.Some? ==> forall j | r.value < j < |items| :: items[j] != target
  {
    if |items| == 0 then None
    else if items[|items| - 1] == target then Some(|items| - 1)
    else LastIndexOf(items[..|items| - 1], target)
  }

  /**
   * The filing get_latest_10q_filing reports: the most recent '10-Q' entry, its
   * accession number without dashes, and the CIK padded to ten characters. When
   * that entry has no filing date or accession number the lookup fails (an
   * IndexError that the function's handler turns into None).
   */
  function Latest10Q(cik: string, recent: RecentFilings): (r: Option<Filing>)
    ensures r.Some? ==> r.value.form == "10-Q"
    ensures r.Some? ==> '-' !in r.value.accessionNumber && |r.value.cik| >= 10
  {
    var forms := recent.form.GetOr([]);
    var filingDates := recent.filingDate.GetOr([]);
    var accessionNumbers := recent.accessionNumber.GetOr([]);
    match LastIndexOf(forms, "10-Q")
    case None => None
    case Some(i) =>
      if i < |filingDates| && i < |accessionNumbers| then
        RemoveAllRemoves(accessionNumbers[i], '-');
        Some(Filing(forms[i], filingDates[i], RemoveAll(accessionNumbers[i], '-'), ZFill(cik, 10)))
      else None
  }

  /** get_latest_10q_filing, after the submissions JSON has been fetched. */
  method GetLatest10QFiling(cik: string, recent: RecentFilings) returns (filing: Option<Filing>)
    ensures filing == Latest10Q(cik, recent)
  {
    var paddedCik := ZFill(cik, 10);
    var forms := recent.form.GetOr([]);
    var filingDates := recent.filingDate.GetOr([]);
    var accessionNumbers := recent.accessionNumber.GetOr([]);
    var i := |forms|;
    while i > 0
      invariant 0 <= i <= |forms|
      invariant forall j | i <= j < |forms| :: forms[j] != "10-Q"
    {
      i := i - 1;
      if forms[i] == "10-Q" {
        if i >= |filingDates| || i >= |accessionNumbers| {
          return None;
        }
        return Some(Filing(forms[i], filingDates[i], RemoveAll(accessionNumbers[i], '-'), paddedCik));
      }
    }
    return None;
  }

  /** The entry chosen is the last '10-Q' of the list; nothing earlier is considered. */
  lemma Latest10QPicksLast(cik: string, recent: RecentFilings, i: nat)
    requires i < |recent.form.GetOr([])| && recent.form.GetOr([])[i] == "10-Q"
    requires forall j | i < j < |recent.form.GetOr([])| :: recent.form.GetOr([])[j] != "10-Q"
    requires i < |recent.filingDate.GetOr([])| && i < |recent.accessionNumber.GetOr([])|
    ensures Latest10Q(cik, recent) ==
      Some(Filing("10-Q", recent.filingDate.GetOr([])[i],
                  RemoveAll(recent.accessionNumber.GetOr([])[i], '-'), ZFill(cik, 10)))
  {
  }

  /** No filing is reported when no form is '10-Q'. */
  lemma Latest10QAbsent(cik: string, recent: RecentFilings)
    requires forall j | 0 <= j < |recent.form.GetOr([])| :: recent.form.GetOr([])[j] != "10-Q"
    ensures Latest10Q(cik, recent).None?
  {
  }

  // ---------------------------------------------------------------------
  // parse_number

  /** `value_str.replace(',', '').replace('$', '').strip()` */
  function Clean(valueStr: string): string {
    Strip(RemoveAll(RemoveAll(valueStr, ','), '$'))
  }

  predicate Parenthesised(s: string) {
    |s| > 0 && s[0] == '(' && s[|s| - 1] == ')'
  }

  function Negated(r: Option<real>): Option<real> {
    match r
    case Some(v) => Some(-v)
    case None => None
  }

  /**
   * parse_number: drop every ',' and '$', strip, read enclosing parentheses as a
   * minus sign, and parse the rest with float(); None when float() would fail.
   */
  function ParseNumber(valueStr: string): Option<real> {
    var cleaned := Clean(valueStr);
    var negative := Parenthesised(cleaned);
    var r := ParseFloat(if negative then cleaned[1..|cleaned| - 1] else cleaned);
    if negative then Negated(r) else r
  }

  lemma SeparatorsRemoved(a: string, b: string, c: char)
    requires c == ',' || c == '$'
    ensures RemoveAll(RemoveAll(a + [c] + b, ','), '$') == RemoveAll(RemoveAll(a + b, ','), '$')
  {
    if c == ',' {
      RemoveAllInserted(a, b, ',');
    } else {
      RemoveAllKeepsInserted(a, b, '$', ',');
      RemoveAllInserted(RemoveAll(a, ','), RemoveAll(b, ','), '$');
      RemoveAllAppend(a, b, ',');
    }
  }

  /** Inserting a ',' or a '$' anywhere in the text does not change the number parsed. */
  lemma ParseNumberIgnoresSeparators(s: string, i: nat, c: char)
    requires i <= |s| && (c == ',' || c == '$')
    ensures ParseNumber(s[..i] + [c] + s[i..]) == ParseNumber(s)
  {
    SeparatorsRemoved(s[..i], s[i..], c);
    assert s[..i] + s[i..] == s;
  }

  /** Separators are removed around the enclosing parentheses, which strip() then keeps. */
  lemma CleanWrapped(s: string)
    ensures Clean("(" + s + ")") == "(" + RemoveAll(RemoveAll(s, ','), '$') + ")"
  {
    assert "(" + s + ")" == ['('] + s + [')'];
    RemoveAllEnclosed('(', s, ')', ',');
    RemoveAllEnclosed('(', RemoveAll(s, ','), ')', '$');
    var wrapped := ['('] + RemoveAll(RemoveAll(s, ','), '$') + [')'];
    StripUnpadded(wrapped);
  }

  /**
   * Enclosing a number in parentheses negates it (and leaves an unparsable text
   * unparsable), unless its cleaned form is already parenthesised.
   */
  lemma ParseNumberParentheses(s: string)
    requires !Parenthesised(Clean(s))
    ensures ParseNumber("(" + s + ")") == Negated(ParseNumber(s))
  {
    var inner := RemoveAll(RemoveAll(s, ','), '$');
    var wrapped := "(" + inner + ")";
    CleanWrapped(s);
    assert Parenthesised(wrapped) && wrapped[1..|wrapped| - 1] == inner;
    assert ParseNumber("(" + s + ")") == Negated(ParseFloat(inner));
    ParseFloatStrip(inner);
    assert ParseNumber(s) == ParseFloat(Strip(inner));
  }

  /**
   * A text without separators and without '(' is not read as a negative in
   * parentheses: parse_number is float() of the text itself.
   */
  lemma ParseNumberPlain(s: string)
    requires ',' !in s && '$' !in s && '(' !in s
    ensures ParseNumber(s) == ParseFloat(s)
  {
    RemoveAllAbsent(s, ',');
    RemoveAllAbsent(s, '$');
    if '(' in Strip(s) {
      StripSubset(s, '(');
    }
    ParseFloatStrip(s);
  }

  /** A character of the text that is not whitespace, a parenthesis or a separator survives cleaning. */
  lemma CleanKeeps(s: string, i: nat)
    requires i < |s| && !IsSpace(s[i]) && s[i] != ',' && s[i] != '$'
    ensures s[i] in Clean(s)
  {
    var x := s[i];
    RemoveAllKeeps(s, ',', x);
    RemoveAllKeeps(RemoveAll(s, ','), '$', x);
    var removed := RemoveAll(RemoveAll(s, ','), '$');
    var k :| 0 <= k < |removed| && removed[k] == x;
    StripKeeps(removed, k);
  }

  /** Cleaning adds no character. */
  lemma CleanSubset(s: string, x: char)
    requires x in Clean(s)
    ensures x in s
  {
    StripSubset(RemoveAll(RemoveAll(s, ','), '$'), x);
    RemoveAllSubset(RemoveAll(s, ','), '$', x);
    RemoveAllSubset(s, ',', x);
  }

  /**
   * A character other than a digit, '.', a sign, a parenthesis, a separator or
   * whitespace makes the text unparsable: the result is None, never an exception.
   */
  lemma ParseNumberRejectsForeign(s: string, i: nat)
    requires i < |s|
    requires !IsDigit(s[i]) && !IsSpace(s[i])
    requires s[i] !in {'.', '+', '-', '(', ')', ',', '$'}
    ensures ParseNumber(s) == None
  {
    var x := s[i];
    CleanKeeps(s, i);
    var cleaned := Clean(s);
    var m :| 0 <= m < |cleaned| && cleaned[m] == x;
    if Parenthesised(cleaned) {
      var body := cleaned[1..|cleaned| - 1];
      assert 0 < m < |cleaned| - 1 && body[m - 1] == x;
      ParseFloatRejects(body, m - 1);
    } else {
      ParseFloatRejects(cleaned, m);
    }
  }

  /** Without a '(' or a '-' in the text, a parsed value is never negative. */
  lemma ParseNumberNonNegative(s: string)
    requires '(' !in s && '-' !in s
    ensures ParseNumber(s).Some? ==> ParseNumber(s).value >= 0.0
  {
    var cleaned := Clean(s);
    if '(' in cleaned {
      CleanSubset(s, '(');
    }
    if '-' in cleaned {
      CleanSubset(s, '-');
    }
    assert !Parenthesised(cleaned);
    ParseFloatNonNegative(cleaned);
  }

  /**
   * A closing parenthesis without an opening one ("234567)") is not read as a
   * negative number: the text does not parse.
   */
  lemma UnbalancedParenthesisRejected(s: string, i: nat)
    requires i < |s| && s[i] == ')' && '(' !in s
    ensures ParseNumber(s) == None
  {
    CleanKeeps(s, i);
    var cleaned := Clean(s);
    if '(' in cleaned {
      CleanSubset(s, '(');
    }
    var m :| 0 <= m < |cleaned| && cleaned[m] == ')';
    ParseFloatRejects(cleaned, m);
  }

  // ---------------------------------------------------------------------
  // The extraction pipeline of extract_financial_data_from_html

  /** One regex match: capture group 1 and the whole matched text (group 0). */
  datatype Match = Match(capture: string, text: string)

  /**
   * The value scaled by the first scale word found anywhere in the matched
   * text, tested in the order million, thousand, billion.
   */
  function Scaled(v: real, matchText: string): (r: real)
    ensures Abs(r) >= Abs(v)
    ensures (r >= 0.0) == (v >= 0.0)
  {
    if Contains(matchText, "million") then v * 1000000.0
    else if Contains(matchText, "thousand") then v * 1000.0
    else if Contains(matchText, "billion") then v * 1000000000.0
    else v
  }

  /** "million" anywhere in the matched text scales by a million, even when "billion" occurs too. */
  lemma MillionTakesPrecedence(v: real, before: string, after: string)
    ensures Scaled(v, before + "million" + after) == v * 1000000.0
  {
    var t := before + "million" + after;
    assert t[|before|..|before| + 7] == "million";
    assert OccursAt(t, "million", |before|);
    ContainsOccurs(t, "million");
  }

  /** Without "million", "thousand" anywhere scales by a thousand, even when "billion" occurs too. */
  lemma ThousandBeforeBillion(v: real, before: string, after: string)
    requires !Contains(before + "thousand" + after, "million")
    ensures Scaled(v, before + "thousand" + after) == v * 1000.0
  {
    var t := before + "thousand" + after;
    assert t[|before|..|before| + 8] == "thousand";
    assert OccursAt(t, "thousand", |before|);
    ContainsOccurs(t, "thousand");
  }

  /** Without "million" or "thousand", "billion" anywhere in the matched text scales by a billion. */
  lemma BillionLast(v: real, before: string, after: string)
    requires !Contains(before + "billion" + after, "million")
    requires !Contains(before + "billion" + after, "thousand")
    ensures Scaled(v, before + "billion" + after) == v * 1000000000.0
  {
    var t := before + "billion" + after;
    assert t[|before|..|before| + 7] == "billion";
    assert OccursAt(t, "billion", |before|);
    ContainsOccurs(t, "billion");
  }

  /** A matched text without any scale word leaves the value as parsed. */
  lemma NoScaleWord(v: real, matchText: string)
    requires forall i: nat | i <= |matchText| ::
      !OccursAt(matchText, "million", i) && !OccursAt(matchText, "thousand", i)
      && !OccursAt(matchText, "billion", i)
    ensures Scaled(v, matchText) == v
  {
    ContainsOccurs(matchText, "million");
    ContainsOccurs(matchText, "thousand");
    ContainsOccurs(matchText, "billion");
  }

  /** The candidate a match contributes: its parsed value, scaled, as a magnitude; None if unparsable. */
  function CandidateOf(m: Match): (r: Option<real>)
    ensures r.Some? ==> r.value >= 0.0
  {
    match ParseNumber(m.capture)
    case Some(v) => Some(Abs(Scaled(v, Lower(m.text))))
    case None => None
  }

  /** A match yields a candidate exactly when its capture group parses. */
  lemma CandidateIffParses(m: Match)
    ensures CandidateOf(m).Some? <==> ParseNumber(m.capture).Some?
  {
  }

  /**
   * `values_found` after the loop over the matches of one pattern: the
   * candidates of the matches that yield one, in match order.
   */
  function Candidates(ms: seq<Match>, candidate: Match -> Option<real>): (r: seq<real>)
    ensures |r| <= |ms|
  {
    if |ms| == 0 then []
    else
      Candidates(ms[..|ms| - 1], candidate) +
      match candidate(ms[|ms| - 1])
      case Some(v) => [v]
      case None => []
  }

  /** max(values): the largest candidate. */
  function Max(s: seq<real>): (r: real)
    requires |s| > 0
    ensures r in s
    ensures forall i | 0 <= i < |s| :: s[i] <= r
  {
    if |s| == 1 then s[0]
    else
      var m := Max(s[..|s| - 1]);
      if s[|s| - 1] > m then s[|s| - 1] else m
  }

  /** A value is collected exactly when some match yields it. */
  lemma {:induction false} CandidatesAreParsedMatches(ms: seq<Match>, candidate: Match -> Option<real>, x: real)
    ensures x in Candidates(ms, candidate) <==> exists i | 0 <= i < |ms| :: candidate(ms[i]) == Some(x)
  {
    if |ms| > 0 {
      var init := ms[..|ms| - 1];
      CandidatesAreParsedMatches(init, candidate, x);
      assert forall i | 0 <= i < |init| :: init[i] == ms[i];
      if exists i | 0 <= i < |ms| :: candidate(ms[i]) == Some(x) {
        var i :| 0 <= i < |ms| && candidate(ms[i]) == Some(x);
        if i < |init| {
          assert candidate(init[i]) == Some(x);
        }
      }
    }
  }

  /** Every value parsed from a match is a magnitude: no collected value is negative. */
  lemma CandidatesNonNegative(ms: seq<Match>, x: real)
    requires x in Candidates(ms, CandidateOf)
    ensures x >= 0.0
  {
    CandidatesAreParsedMatches(ms, CandidateOf, x);
    var i :| 0 <= i < |ms| && CandidateOf(ms[i]) == Some(x);
  }

  /** A match that yields nothing is dropped; the matches around it still count. */
  lemma {:induction false} UnparsableMatchDropped(
    before: seq<Match>, m: Match, after: seq<Match>, candidate: Match -> Option<real>)
    requires candidate(m).None?
    ensures Candidates(before + [m] + after, candidate) == Candidates(before + after, candidate)
  {
    if |after| == 0 {
      assert before + [m] + after == before + [m];
      assert (before + [m])[..|before|] == before;
      assert before + after == before;
    } else {
      var init := after[..|after| - 1];
      assert (before + [m] + after)[..|before + [m] + after| - 1] == before + [m] + init;
      assert (before + after)[..|before + after| - 1] == before + init;
      UnparsableMatchDropped(before, m, init, candidate);
    }
  }

  /** A match whose capture group does not parse contributes nothing and does not stop the loop. */
  lemma UnparsableCaptureDropped(before: seq<Match>, m: Match, after: seq<Match>)
    requires ParseNumber(m.capture).None?
    ensures Candidates(before + [m] + after, CandidateOf) == Candidates(before + after, CandidateOf)
  {
    UnparsableMatchDropped(before, m, after, CandidateOf);
  }

  /** `values_found` for each pattern: the candidates of the matches `findAll` reports for it. */
  function ValuesOf(findAll: string -> seq<Match>): string -> seq<real> {
    pattern => Candidates(findAll(pattern), CandidateOf)
  }

  /** The fields of the filing the extractor looks for, and the derived working capital. */
  datatype Field =
    | CurrentAssets | CurrentLiabilities | TotalAssets | RetainedEarnings
    | OperatingIncome | TotalLiabilities | Sales | WorkingCapital

  /** required_fields, which is also the order of the pattern table. */
  const RequiredFields: seq<Field> :=
    [CurrentAssets, CurrentLiabilities, TotalAssets, RetainedEarnings, OperatingIncome, TotalLiabilities, Sales]

  // The label variants of each field, in the order they are tried.

  const CurrentAssetsLabels: seq<string> := [
    @"total\s+current\s+assets[^\d]*[\$]?\s*([\d,\(\)]+\.?\d*)\s*(?:million|thousand|billion)?",
    @"current\s+assets[^\d]*[\$]?\s*([\d,\(\)]+\.?\d*)\s*(?:million|thousand|billion)?"]

  const CurrentLiabilitiesLabels: seq<string> := [
    @"total\s+current\s+liabilities[^\d]*[\$]?\s*([\d,\(\)]+\.?\d*)\s*(?:million|thousand|billion)?",
    @"current\s+liabilities[^\d]*[\$]?\s*([\d,\(\)]+\.?\d*)\s*(?:million|thousand|billion)?"]

  const TotalAssetsLabels: seq<string> := [
    @"total\s+assets[^\d]*[\$]?\s*([\d,\(\)]+\.?\d*)\s*(?:million|thousand|billion)?"]

  const RetainedEarningsLabels: seq<string> := [
    @"retained\s+earnings[^\d]*[\$]?\s*([\d,\(\)]+\.?\d*)\s*(?:million|thousand|billion)?",
    @"accumulated\s+retained\s+earnings[^\d]*[\$]?\s*([\d,\(\)]+\.?\d*)\s*(?:million|thousand|billion)?"]

  const OperatingIncomeLabels: seq<string> := [
    @"operating\s+income[^\d]*[\$]?\s*([\d,\(\)]+\.?\d*)\s*(?:million|thousand|billion)?",
    @"income\s+from\s+operations[^\d]*[\$]?\s*([\d,\(\)]+\.?\d*)\s*(?:million|thousand|billion)?"]

  const TotalLiabilitiesLabels: seq<string> := [
    @"total\s+liabilities[^\d]*[\$]?\s*([\d,\(\)]+\.?\d*)\s*(?:million|thousand|billion)?"]

  const SalesLabels: seq<string> := [
    @"net\s+sales[^\d]*[\$]?\s*([\d,\(\)]+\.?\d*)\s*(?:million|thousand|billion)?",
    @"total\s+revenue[^\d]*[\$]?\s*([\d,\(\)]+\.?\d*)\s*(?:million|thousand|billion)?",
    @"net\s+revenue[^\d]*[\$]?\s*([\d,\(\)]+\.?\d*)\s*(?:million|thousand|billion)?",
    @"total\s+net\s+revenue[^\d]*[\$]?\s*([\d,\(\)]+\.?\d*)\s*(?:million|thousand|billion)?"]

  /** The pattern table: for each field its label variants, in the order they are tried. */
  const Patterns: map<Field, seq<string>> := map[
    CurrentAssets := CurrentAssetsLabels,
    CurrentLiabilities := CurrentLiabilitiesLabels,
    TotalAssets := TotalAssetsLabels,
    RetainedEarnings := RetainedEarningsLabels,
    OperatingIncome := OperatingIncomeLabels,
    TotalLiabilities := TotalLiabilitiesLabels,
    Sales := SalesLabels
  ]

  /** The table covers exactly the seven required fields, with 2, 2, 1, 2, 2, 1 and 4 variants. */
  lemma PatternTableShape()
    ensures Patterns.Keys == set f | f in RequiredFields
    ensures |Patterns[CurrentAssets]| == 2 && |Patterns[CurrentLiabilities]| == 2
    ensures |Patterns[TotalAssets]| == 1 && |Patterns[RetainedEarnings]| == 2
    ensures |Patterns[OperatingIncome]| == 2 && |Patterns[TotalLiabilities]| == 1
    ensures |Patterns[Sales]| == 4
  {
  }

  /**
   * A field's value: the largest of `values_found` for the first variant
   * whose `values_found` is non-empty; absent when there is none.
   */
  function FieldValue(variants: seq<string>, values: string -> seq<real>): Option<real> {
    if |variants| == 0 then None
    else
      var found := values(variants[0]);
      if |found| > 0 then Some(Max(found)) else FieldValue(variants[1..], values)
  }

  /** The first productive variant decides the field; it is the maximum of that variant's values. */
  lemma {:induction false} FieldValueFromFirstProductiveVariant(
    variants: seq<string>, values: string -> seq<real>, k: nat)
    requires k < |variants| && |values(variants[k])| > 0
    requires forall j | 0 <= j < k :: values(variants[j]) == []
    ensures FieldValue(variants, values) == Some(Max(values(variants[k])))
  {
    if k > 0 {
      assert values(variants[0]) == [];
      FieldValueFromFirstProductiveVariant(variants[1..], values, k - 1);
    }
  }

  /** "Not found" is distinct from zero: a field is absent exactly when no variant yields a value. */
  lemma {:induction false} FieldValueAbsent(variants: seq<string>, values: string -> seq<real>)
    ensures FieldValue(variants, values).None? <==>
      forall j | 0 <= j < |variants| :: values(variants[j]) == []
  {
    if |variants| > 0 {
      FieldValueAbsent(variants[1..], values);
      assert forall j | 1 <= j < |variants| :: variants[j] == variants[1..][j - 1];
    }
  }

  /** A field's value is one of the values some variant produced. */
  lemma {:induction false} FieldValueFound(variants: seq<string>, values: string -> seq<real>)
    requires FieldValue(variants, values).Some?
    ensures exists j | 0 <= j < |variants| :: FieldValue(variants, values).value in values(variants[j])
  {
    if |values(variants[0])| == 0 {
      FieldValueFound(variants[1..], values);
      var j :| 0 <= j < |variants[1..]| && FieldValue(variants, values).value in values(variants[1..][j]);
      assert variants[1..][j] == variants[j + 1];
    } else {
      assert FieldValue(variants, values).value in values(variants[0]);
    }
  }

  /** The value extracted for a field is never negative. */
  lemma FieldValueNonNegative(variants: seq<string>, findAll: string -> seq<Match>)
    requires FieldValue(variants, ValuesOf(findAll)).Some?
    ensures FieldValue(variants, ValuesOf(findAll)).value >= 0.0
  {
    var values := ValuesOf(findAll);
    FieldValueFound(variants, values);
    var j :| 0 <= j < |variants| && FieldValue(variants, values).value in values(variants[j]);
    CandidatesNonNegative(findAll(variants[j]), FieldValue(variants, values).value);
  }

  /**
   * Variants after the first productive one are never consulted: two outcomes
   * of the regex search that agree up to it give the field the same value.
   */
  lemma {:induction false} LaterVariantsIgnored(
    variants: seq<string>, values: string -> seq<real>, other: string -> seq<real>, k: nat)
    requires k < |variants| && |values(variants[k])| > 0
    requires forall j | 0 <= j <= k :: values(variants[j]) == other(variants[j])
    ensures FieldValue(variants, values) == FieldValue(variants, other)
  {
    var first := variants[0];
    assert values(first) == other(first);
    if |values(first)| == 0 {
      var rest := variants[1..];
      forall j | 0 <= j <= k - 1
        ensures values(rest[j]) == other(rest[j])
      {
        assert rest[j] == variants[j + 1];
      }
      LaterVariantsIgnored(rest, values, other, k - 1);
    }
  }

  /** The value a pattern table gives field `f`: that of its variants, absent when `f` has no entry. */
  function TableValue(table: map<Field, seq<string>>, values: string -> seq<real>, f: Field): Option<real> {
    if f in table then FieldValue(table[f], values) else None
  }

  /** TableValue as the valuation the loop over the table consults. */
  function Valuation(table: map<Field, seq<string>>, values: string -> seq<real>): Field -> Option<real> {
    f => TableValue(table, values, f)
  }

  /**
   * `financial_data` after the loop over `fields`, each field being entered with
   * its value when it has one and skipped otherwise.
   */
  function Collected(fields: seq<Field>, value: Field -> Option<real>): map<Field, real> {
    if |fields| == 0 then map[]
    else
      var before := Collected(fields[..|fields| - 1], value);
      var key := fields[|fields| - 1];
      match value(key)
      case Some(v) => before[key := v]
      case None => before
  }

  /** A field is collected exactly when it is listed and has a value, and then with that value. */
  lemma {:induction false} CollectedHolds(fields: seq<Field>, value: Field -> Option<real>, f: Field)
    ensures f in Collected(fields, value) <==> f in fields && value(f).Some?
    ensures f in Collected(fields, value) ==> Collected(fields, value)[f] == value(f).value
  {
    if |fields| > 0 {
      var init := fields[..|fields| - 1];
      CollectedHolds(init, value, f);
      assert f in fields <==> f in init || f == fields[|fields| - 1];
    }
  }

  /** The final check: every required field present, then working capital added; None otherwise. */
  function Gate(data: map<Field, real>): Option<map<Field, real>> {
    if forall f | f in RequiredFields :: f in data then
      Some(data[WorkingCapital := data[CurrentAssets] - data[CurrentLiabilities]])
    else None
  }

  /** The result of extract_financial_data_from_html once the matches are known. */
  function Extraction(findAll: string -> seq<Match>): Option<map<Field, real>> {
    Gate(Collected(RequiredFields, Valuation(Patterns, ValuesOf(findAll))))
  }

  /**
   * All or nothing, for any valuation of the fields: the check passes exactly
   * when every required field has a value, and the result then holds those
   * seven values and working capital, nothing else.
   */
  lemma GatedCollection(value: Field -> Option<real>)
    ensures Gate(Collected(RequiredFields, value)).Some? <==>
      forall f | f in RequiredFields :: value(f).Some?
    ensures Gate(Collected(RequiredFields, value)).Some? ==>
      var data := Gate(Collected(RequiredFields, value)).value;
      && data.Keys == (set f | f in RequiredFields) + {WorkingCapital}
      && (forall f | f in RequiredFields :: data[f] == value(f).value)
      && data[WorkingCapital] == data[CurrentAssets] - data[CurrentLiabilities]
  {
    var data := Collected(RequiredFields, value);
    forall f
      ensures f in data <==> f in RequiredFields && value(f).Some?
      ensures f in data ==> data[f] == value(f).value
    {
      CollectedHolds(RequiredFields, value, f);
    }
  }

  /**
   * All or nothing: the extraction succeeds exactly when every required field
   * was found, and then holds those seven values and working capital =
   * current assets - current liabilities, nothing else.
   */
  lemma ExtractionAllOrNothing(findAll: string -> seq<Match>)
    ensures Extraction(findAll).Some? <==>
      forall f | f in RequiredFields :: TableValue(Patterns, ValuesOf(findAll), f).Some?
    ensures Extraction(findAll).Some? ==>
      var data := Extraction(findAll).value;
      && data.Keys == (set f | f in RequiredFields) + {WorkingCapital}
      && (forall f | f in RequiredFields :: data[f] == TableValue(Patterns, ValuesOf(findAll), f).value)
      && data[WorkingCapital] == data[CurrentAssets] - data[CurrentLiabilities]
  {
    var value := Valuation(Patterns, ValuesOf(findAll));
    GatedCollection(value);
    assert forall f :: value(f) == TableValue(Patterns, ValuesOf(findAll), f);
  }

  /**
   * The body of the innermost loop: what one match adds to `values_found`,
   * statement by statement as the source runs it. CandidateOf is its
   * specification, and the candidate properties are proved about that function.
   */
  method MatchCandidate(found: Match) returns (candidate: Option<real>)
    ensures candidate == CandidateOf(found)
  {
    var parsedValue := ParseNumber(found.capture);
    if parsedValue.None? {
      return None;
    }
    var value := parsedValue.value;
    var matchText := Lower(found.text);
    if Contains(matchText, "million") {
      value := value * 1000000.0;
    } else if Contains(matchText, "thousand") {
      value := value * 1000.0;
    } else if Contains(matchText, "billion") {
      value := value * 1000000000.0;
    }
    assert value == Scaled(parsedValue.value, matchText);
    return Some(Abs(value));
  }

  /** The innermost loop: `values_found` for the matches of one pattern. */
  method ValuesFound(matches: seq<Match>) returns (valuesFound: seq<real>)
    ensures valuesFound == Candidates(matches, CandidateOf)
  {
    valuesFound := [];
    for m := 0 to |matches|
      invariant valuesFound == Candidates(matches[..m], CandidateOf)
    {
      assert matches[..m + 1][..m] == matches[..m];
      var candidate := MatchCandidate(matches[m]);
      if candidate.Some? {
        valuesFound := valuesFound + [candidate.value];
      }
    }
    assert matches[..|matches|] == matches;
  }

  /** The loop over one field's variants, stopping at the first that yields a value. */
  method FirstProductiveVariant(patternList: seq<string>, findAll: string -> seq<Match>) returns (r: Option<real>)
    ensures r == FieldValue(patternList, ValuesOf(findAll))
  {
    var v := 0;
    while v < |patternList|
      invariant 0 <= v <= |patternList|
      invariant FieldValue(patternList[v..], ValuesOf(findAll)) == FieldValue(patternList, ValuesOf(findAll))
    {
      var valuesFound := ValuesFound(findAll(patternList[v]));
      assert ValuesOf(findAll)(patternList[v]) == valuesFound;
      if |valuesFound| > 0 {
        return Some(Max(valuesFound));
      }
      assert patternList[v..][1..] == patternList[v + 1..];
      v := v + 1;
    }
    return None;
  }

  /** The loop over the pattern table, in the order of `fields`. */
  method CollectFields(fields: seq<Field>, table: map<Field, seq<string>>, findAll: string -> seq<Match>)
    returns (financialData: map<Field, real>)
    requires forall i | 0 <= i < |fields| :: fields[i] in table
    ensures financialData == Collected(fields, Valuation(table, ValuesOf(findAll)))
  {
    financialData := map[];
    for t := 0 to |fields|
      invariant financialData == Collected(fields[..t], Valuation(table, ValuesOf(findAll)))
    {
      var key := fields[t];
      assert fields[..t + 1][..t] == fields[..t];
      var found := FirstProductiveVariant(table[key], findAll);
      assert Valuation(table, ValuesOf(findAll))(key) == found;
      if found.Some? {
        financialData := financialData[key := found.value];
      }
    }
    assert fields[..|fields|] == fields;
  }

  /**
   * The check after the loop, as the source runs it: all required fields found,
   * then working capital added. Gate is its specification.
   */
  method CheckRequiredFields(financialData: map<Field, real>) returns (result: Option<map<Field, real>>)
    ensures result == Gate(financialData)
  {
    if forall f | f in RequiredFields :: f in financialData {
      var completed := financialData[WorkingCapital := financialData[CurrentAssets] - financialData[CurrentLiabilities]];
      return Some(completed);
    }
    return None;
  }

  /** extract_financial_data_from_html, from the point where the text has been matched. */
  method ExtractFinancialDataFromHtml(findAll: string -> seq<Match>) returns (result: Option<map<Field, real>>)
    ensures result == Extraction(findAll)
  {
    var financialData := CollectFields(RequiredFields, Patterns, findAll);
    result := CheckRequiredFields(financialData);
  }
}
