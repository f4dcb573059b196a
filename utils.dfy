/**
 * CIK lookup rules: zero padding of CIKs, the "looks like a ticker" test, the
 * three first-match searches over the SEC company directory, and the fallback
 * order between them. The fetched directory is a parameter.
 */
module Utils {
  import opened Options
  import opened PyStr

  /** One value of company_tickers.json; an absent key reads as "" (`entry.get(key, '')`). */
  datatype DirectoryEntry = DirectoryEntry(cikStr: Option<string>, ticker: Option<string>, title: Option<string>)

  /** zero_pad_cik / `.zfill(10)`: a CIK as at least ten characters. */
  function ZeroPadCik(cik: string): (r: string)
    ensures |r| == if |cik| >= 10 then |cik| else 10
    ensures AllDigitString(cik) ==>
      r[|r| - |cik|..] == cik && forall i | 0 <= i < |r| - |cik| :: r[i] == '0'
  {
    ZFill(cik, 10)
  }

  predicate AllDigitString(s: string) { forall i | 0 <= i < |s| :: IsDigit(s[i]) }

  /** The CIK of an entry, padded: `str(entry.get('cik_str', '')).zfill(10)`. */
  function PaddedCik(e: DirectoryEntry): string {
    ZeroPadCik(e.cikStr.GetOr(""))
  }

  /** The first index whose entry satisfies `p`, if any. */
  function FindFirst(entries: seq<DirectoryEntry>, p: DirectoryEntry -> bool): (r: Option<nat>)
    ensures r.None? <==> forall j | 0 <= j < |entries| :: !p(entries[j])
    ensures r.Some? ==> r.value < |entries| && p(entries[r.value])
    ensures r.Some? ==> forall j | 0 <= j < r.value :: !p(entries[j])
  {
    if |entries| == 0 then None
    else if p(entries[0]) then Some(0)
    else match FindFirst(entries[1..], p)
      case None => None
      case Some(k) => Some(k + 1)
  }

  // ---------------------------------------------------------------------
  // Matching rules

  /** The lookup key of get_cik_from_ticker and get_cik_and_ticker: `s.upper().strip()`. */
  function TickerKey(s: string): string { Strip(Upper(s)) }

  predicate TickerMatches(e: DirectoryEntry, key: string) {
    Upper(e.ticker.GetOr("")) == key
  }

  /** Title containment in either direction, on the lower-cased title. */
  predicate NameMatches(e: DirectoryEntry, nameLower: string) {
    var title := Lower(e.title.GetOr(""));
    Contains(title, nameLower) || Contains(nameLower, title)
  }

  /** The ticker-likeness test of get_cik, on the identifier as given. */
  predicate LooksLikeTicker(id: string) {
    |id| <= 5 && IsAlnum(RemoveAll(RemoveAll(id, '.'), '-'))
  }

  // ---------------------------------------------------------------------
  // Specifications of the searches

  /** get_cik_from_ticker's answer. */
  function TickerLookup(ticker: string, entries: seq<DirectoryEntry>): (r: Option<string>)
    ensures r.Some? ==> |r.value| >= 10
  {
    var key := TickerKey(ticker);
    match FindFirst(entries, e => TickerMatches(e, key))
    case Some(k) => Some(PaddedCik(entries[k]))
    case None => None
  }

  /** get_cik_from_name's answer. */
  function NameLookup(name: string, entries: seq<DirectoryEntry>): (r: Option<string>)
    ensures r.Some? ==> |r.value| >= 10
  {
    var key := Lower(Strip(name));
    match FindFirst(entries, e => NameMatches(e, key))
    case Some(k) => Some(PaddedCik(entries[k]))
    case None => None
  }

  datatype CikTicker = CikTicker(cik: string, ticker: string)

  /** get_cik_and_ticker's answer: the first entry passing either test. */
  function CikAndTickerLookup(id: string, entries: seq<DirectoryEntry>): (r: Option<CikTicker>)
    ensures r.Some? ==> |r.value.cik| >= 10
  {
    var upperKey := TickerKey(id);
    var lowerKey := Strip(Lower(id));
    match FindFirst(entries, e => TickerMatches(e, upperKey) || NameMatches(e, lowerKey))
    case Some(k) => Some(CikTicker(PaddedCik(entries[k]), Upper(entries[k].ticker.GetOr(""))))
    case None => None
  }

  /** Python truthiness of an optional string: present and non-empty. */
  predicate Truthy(r: Option<string>) { r.Some? && r.value != "" }

  /** get_cik's answer: ticker lookup if ticker-like, then name lookup, then ticker lookup. */
  function CikLookup(id: string, entries: seq<DirectoryEntry>): (r: Option<string>)
    ensures r.Some? ==> |r.value| >= 10
  {
    if LooksLikeTicker(id) && Truthy(TickerLookup(id, entries)) then TickerLookup(id, entries)
    else if Truthy(NameLookup(id, entries)) then NameLookup(id, entries)
    else TickerLookup(id, entries)
  }

  // ---------------------------------------------------------------------
  // The searches as the source runs them

  /** get_cik_from_ticker */
  method GetCikFromTicker(ticker: string, entries: seq<DirectoryEntry>) returns (cik: Option<string>)
    ensures cik == TickerLookup(ticker, entries)
  {
    var key := Strip(Upper(ticker));
    var i := 0;
    while i < |entries|
      invariant 0 <= i <= |entries|
      invariant forall j | 0 <= j < i :: !TickerMatches(entries[j], key)
    {
      if Upper(entries[i].ticker.GetOr("")) == key {
        return Some(ZeroPadCik(entries[i].cikStr.GetOr("")));
      }
      i := i + 1;
    }
    return None;
  }

  /** get_cik_from_name */
  method GetCikFromName(companyName: string, entries: seq<DirectoryEntry>) returns (cik: Option<string>)
    ensures cik == NameLookup(companyName, entries)
  {
    var name := Strip(companyName);
    var nameLower := Lower(name);
    var i := 0;
    while i < |entries|
      invariant 0 <= i <= |entries|
      invariant forall j | 0 <= j < i :: !NameMatches(entries[j], nameLower)
    {
      var title := Lower(entries[i].title.GetOr(""));
      if Contains(title, nameLower) || Contains(nameLower, title) {
        return Some(ZeroPadCik(entries[i].cikStr.GetOr("")));
      }
      i := i + 1;
    }
    return None;
  }

  /** get_cik */
  method GetCik(companyIdentifier: string, entries: seq<DirectoryEntry>) returns (cik: Option<string>)
    ensures cik == CikLookup(companyIdentifier, entries)
  {
    if |companyIdentifier| <= 5 && IsAlnum(RemoveAll(RemoveAll(companyIdentifier, '.'), '-')) {
      cik := GetCikFromTicker(companyIdentifier, entries);
      if cik.Some? && cik.value != "" {
        return;
      }
    }
    cik := GetCikFromName(companyIdentifier, entries);
    if cik.Some? && cik.value != "" {
      return;
    }
    cik := GetCikFromTicker(companyIdentifier, entries);
  }

  /** get_cik_and_ticker */
  method GetCikAndTicker(companyIdentifier: string, entries: seq<DirectoryEntry>)
    returns (result: Option<CikTicker>)
    ensures result == CikAndTickerLookup(companyIdentifier, entries)
  {
    var identifierUpper := Strip(Upper(companyIdentifier));
    var identifierLower := Strip(Lower(companyIdentifier));
    var i := 0;
    while i < |entries|
      invariant 0 <= i <= |entries|
      invariant forall j | 0 <= j < i ::
        !TickerMatches(entries[j], identifierUpper) && !NameMatches(entries[j], identifierLower)
    {
      var ticker := Upper(entries[i].ticker.GetOr(""));
      var title := Lower(entries[i].title.GetOr(""));
      if ticker == identifierUpper {
        return Some(CikTicker(ZeroPadCik(entries[i].cikStr.GetOr("")), ticker));
      }
      if Contains(title, identifierLower) || Contains(identifierLower, title) {
        return Some(CikTicker(ZeroPadCik(entries[i].cikStr.GetOr("")), ticker));
      }
      i := i + 1;
    }
    return None;
  }

  // ---------------------------------------------------------------------
  // Properties

  /** Padding an already padded CIK leaves it unchanged. */
  lemma ZeroPadCikIdempotent(cik: string)
    ensures ZeroPadCik(ZeroPadCik(cik)) == ZeroPadCik(cik)
  {
  }

  /** The ticker lookup answers with the padded CIK of the first entry whose upper-cased ticker equals the key. */
  lemma TickerLookupFirstMatch(ticker: string, entries: seq<DirectoryEntry>, k: nat)
    requires k < |entries| && TickerMatches(entries[k], TickerKey(ticker))
    requires forall j | 0 <= j < k :: !TickerMatches(entries[j], TickerKey(ticker))
    ensures TickerLookup(ticker, entries) == Some(PaddedCik(entries[k]))
  {
  }

  lemma TickerLookupAbsent(ticker: string, entries: seq<DirectoryEntry>)
    ensures TickerLookup(ticker, entries).None? <==>
      forall j | 0 <= j < |entries| :: !TickerMatches(entries[j], TickerKey(ticker))
  {
  }

  /** The name lookup answers with the first entry whose title contains, or is contained in, the key. */
  lemma NameLookupFirstMatch(name: string, entries: seq<DirectoryEntry>, k: nat)
    requires k < |entries| && NameMatches(entries[k], Lower(Strip(name)))
    requires forall j | 0 <= j < k :: !NameMatches(entries[j], Lower(Strip(name)))
    ensures NameLookup(name, entries) == Some(PaddedCik(entries[k]))
  {
  }

  lemma NameLookupAbsent(name: string, entries: seq<DirectoryEntry>)
    ensures NameLookup(name, entries).None? <==>
      forall j | 0 <= j < |entries| :: !NameMatches(entries[j], Lower(Strip(name)))
  {
  }

  /** An entry without a title matches every name, since "" is contained in any string. */
  lemma UntitledEntryMatchesAnyName(e: DirectoryEntry, nameLower: string)
    requires e.title.GetOr("") == ""
    ensures NameMatches(e, nameLower)
  {
    assert Lower("") == "";
    assert OccursAt(nameLower, "", 0);
  }

  /** A blank name is contained in every title, so the name lookup answers with the first entry. */
  lemma BlankNameMatchesFirstEntry(name: string, entries: seq<DirectoryEntry>)
    requires Strip(name) == "" && |entries| > 0
    ensures NameLookup(name, entries) == Some(PaddedCik(entries[0]))
  {
    assert Lower(Strip(name)) == "";
    var title := Lower(entries[0].title.GetOr(""));
    assert OccursAt(title, "", 0);
  }

  /** A ticker-like identifier contains no whitespace, so the ticker lookup uses it verbatim, upper-cased. */
  lemma TickerLikeKeyIsVerbatim(id: string)
    requires LooksLikeTicker(id)
    ensures TickerKey(id) == Upper(id)
  {
    var kept := RemoveAll(RemoveAll(id, '.'), '-');
    forall i | 0 <= i < |id|
      ensures !IsSpace(Upper(id)[i])
    {
      var x := id[i];
      if x != '.' && x != '-' {
        RemoveAllKeeps(id, '.', x);
        RemoveAllKeeps(RemoveAll(id, '.'), '-', x);
        var k :| 0 <= k < |kept| && kept[k] == x;
        assert IsAlnumChar(kept[k]);
      }
    }
    if |id| > 0 {
      StripUnpadded(Upper(id));
    }
  }

  /**
   * The ticker-likeness test character by character: at most five characters,
   * at least one of them neither '.' nor '-', and every other one a letter or a digit.
   */
  lemma LooksLikeTickerChars(id: string)
    ensures LooksLikeTicker(id) <==>
      && |id| <= 5
      && (exists i | 0 <= i < |id| :: id[i] != '.' && id[i] != '-')
      && (forall i | 0 <= i < |id| :: id[i] == '.' || id[i] == '-' || IsAlnumChar(id[i]))
  {
    var dotless := RemoveAll(id, '.');
    var kept := RemoveAll(dotless, '-');
    if IsAlnum(kept) {
      RemoveAllSubset(dotless, '-', kept[0]);
      RemoveAllSubset(id, '.', kept[0]);
      forall i | 0 <= i < |id| && id[i] != '.' && id[i] != '-'
        ensures IsAlnumChar(id[i])
      {
        RemoveAllKeeps(id, '.', id[i]);
        RemoveAllKeeps(dotless, '-', id[i]);
        var k :| 0 <= k < |kept| && kept[k] == id[i];
      }
    }
    if && (exists i | 0 <= i < |id| :: id[i] != '.' && id[i] != '-')
       && (forall i | 0 <= i < |id| :: id[i] == '.' || id[i] == '-' || IsAlnumChar(id[i])) {
      var i :| 0 <= i < |id| && id[i] != '.' && id[i] != '-';
      RemoveAllKeeps(id, '.', id[i]);
      RemoveAllKeeps(dotless, '-', id[i]);
      forall k | 0 <= k < |kept|
        ensures IsAlnumChar(kept[k])
      {
        RemoveAllSubset(dotless, '-', kept[k]);
        RemoveAllSubset(id, '.', kept[k]);
      }
    }
  }

  /**
   * get_cik's fallback order: a ticker-like identifier with a ticker hit is
   * answered by the ticker lookup; otherwise a name hit wins; otherwise the
   * ticker lookup is tried regardless. It is absent only when both lookups are.
   */
  lemma CikLookupOrder(id: string, entries: seq<DirectoryEntry>)
    ensures LooksLikeTicker(id) && TickerLookup(id, entries).Some? ==>
      CikLookup(id, entries) == TickerLookup(id, entries)
    ensures !(LooksLikeTicker(id) && TickerLookup(id, entries).Some?) && NameLookup(id, entries).Some? ==>
      CikLookup(id, entries) == NameLookup(id, entries)
    ensures NameLookup(id, entries).None? ==> CikLookup(id, entries) == TickerLookup(id, entries)
    ensures CikLookup(id, entries).None? <==>
      TickerLookup(id, entries).None? && NameLookup(id, entries).None?
  {
  }

  /**
   * get_cik_and_ticker finds an entry exactly when the ticker lookup or the name
   * lookup would.
   */
  lemma CikAndTickerCoversLookups(id: string, entries: seq<DirectoryEntry>)
    ensures CikAndTickerLookup(id, entries).None? <==>
      TickerLookup(id, entries).None? && NameLookup(id, entries).None?
  {
    StripLowerCommute(id);
    var upperKey, lowerKey := TickerKey(id), Strip(Lower(id));
    var both := FindFirst(entries, e => TickerMatches(e, upperKey) || NameMatches(e, lowerKey));
    var byTicker := FindFirst(entries, e => TickerMatches(e, upperKey));
    var byName := FindFirst(entries, e => NameMatches(e, lowerKey));
    if both.None? {
      assert byTicker.None? && byName.None?;
    } else {
      var k := both.value;
      assert TickerMatches(entries[k], upperKey) || NameMatches(entries[k], lowerKey);
    }
  }

  /**
   * Both tests are applied to each entry in turn, so an entry matched by name
   * wins over any later entry matched by ticker; the ticker reported is upper-cased.
   */
  lemma CikAndTickerFirstMatch(id: string, entries: seq<DirectoryEntry>, k: nat)
    requires k < |entries|
    requires TickerMatches(entries[k], TickerKey(id)) || NameMatches(entries[k], Strip(Lower(id)))
    requires forall j | 0 <= j < k ::
      !TickerMatches(entries[j], TickerKey(id)) && !NameMatches(entries[j], Strip(Lower(id)))
    ensures CikAndTickerLookup(id, entries) ==
      Some(CikTicker(PaddedCik(entries[k]), Upper(entries[k].ticker.GetOr(""))))
  {
    var upperKey, lowerKey := TickerKey(id), Strip(Lower(id));
    var found := FindFirst(entries, e => TickerMatches(e, upperKey) || NameMatches(e, lowerKey));
    assert found.Some? && found.value == k;
  }
}
