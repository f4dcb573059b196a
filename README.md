# Altman Z-Score service: verified model of its core

This project models, in Dafny, the three deterministic pieces of logic behind the
Altman Z-Score API:

- **SEC EDGAR client** (`sec_client.dfy`, module `SecClient`).
  - Choosing the latest 10-Q filing from a company's submission history.
  - `parse_number`: reads a captured figure such as `1,234.5`, `$ 12` or `(234,567)`.
  - The pipeline of `extract_financial_data_from_html` after the label patterns have been matched:
    - each match is parsed, scaled by a scale word (million, thousand, billion) and made a magnitude;
    - a field takes the largest value of the first label variant that produced one;
    - the result is all or nothing over the seven required fields, with working capital added.
- **Z-score calculator** (`calculator.dfy`, module `Calculator`).
  - The five ratios, each guarded against a zero denominator.
  - The weighted sum.
  - The Safe / Grey / Distress classification.
  - The rounded result record.
- **CIK lookup** (`utils.dfy`, module `Utils`).
  - `zero_pad_cik`.
  - The ticker-likeness test.
  - The ticker, name and combined first-match searches over the SEC company directory.
  - `get_cik`'s ticker, then name, then ticker fallback.

Two support modules model the Python built-ins that the core relies on:

- `pystr.dfy` (`PyStr`): `isspace`, `strip`, `upper`, `lower`, `replace(c, '')`, substring `in`, `zfill` and `isalnum`.
- `pynum.dfy` (`PyNum`): `float()` on decimal literals, `abs` and `round`.

`options.dfy` holds the `Option` type. `Option` stands for Python's `None`. Its `GetOr` stands for `dict.get(key, default)`.

The model is shaped as follows:

- **Numbers** are exact `real`s.
- **The fetched JSON** is a parameter: the company directory and the `filings.recent` lists.
- **The regular-expression search** is a parameter, `findAll`. It maps each pattern string of the table to its matches. Each match is given by its capture group 1 and its whole matched text.
- **Pure specifications.** Every search and loop of the source has one, stated as a function. Examples: `Latest10Q`, `TickerLookup`, `Candidates`, `FieldValue`, `Collected`, `Gate`.
- **Imperative methods.** The loops themselves are methods with loop invariants. Each method's postcondition ties its result to that specification.
- **The extraction's nested loops** are split into one method per loop level. From the outside in, they are:
  - `ExtractFinancialDataFromHtml`;
  - `CollectFields`: the loop over the table;
  - `FirstProductiveVariant`: the loop over a field's variants, with its `break`;
  - `ValuesFound`: the loop over the matches;
  - `MatchCandidate`: the body for one match;
  - `CheckRequiredFields`: the final check.
- **The properties** are proved about the specification functions as lemmas.

## Model

| member | source | states |
|---|---|---|
| SecClient.LastIndexOf | app/sec_client.py:49-50 | the index found holds the target and no later index does; absent exactly when no element is the target |
| SecClient.Latest10Q | app/sec_client.py:34-58 | a reported filing has form '10-Q', an accession number without any '-', and a CIK of at least ten characters |
| SecClient.GetLatest10QFiling | app/sec_client.py:33-61 | the backward scan with early return yields exactly the filing specified by Latest10Q, and None when the date or accession list is too short (the caught IndexError) |
| SecClient.Latest10QPicksLast | app/sec_client.py:49-56 | when index i holds the last '10-Q', the result is that entry: its date, its accession number with dashes removed, and the CIK zero-padded to ten |
| SecClient.Latest10QAbsent | app/sec_client.py:49-58 | with no '10-Q' among the forms there is no filing |
| SecClient.ParseNumber | app/sec_client.py:98-124 | parse_number: every ',' and '$' removed, strip, enclosing parentheses read as a minus sign, then float(), None when float() fails; its properties are the lemmas ParseNumberIgnoresSeparators, ParseNumberParentheses, ParseNumberPlain, ParseNumberRejectsForeign, ParseNumberNonNegative and UnbalancedParenthesisRejected |
| SecClient.Clean | app/sec_client.py:110 | `replace(',', '').replace('$', '').strip()`; what it keeps and drops is stated by CleanKeeps, CleanSubset, CleanWrapped and SeparatorsRemoved |
| SecClient.Parenthesised | app/sec_client.py:113 | the is_negative test: the cleaned text is non-empty, starts with '(' and ends with ')'; ParseNumberParentheses and ParseNumberPlain state when it holds and what follows |
| SecClient.Negated | app/sec_client.py:119-120 | the negated value, with a failed parse staying None; its effect on parse_number is stated by ParseNumberParentheses |
| SecClient.SeparatorsRemoved | app/sec_client.py:110 | inserting a ',' or '$' anywhere leaves the text with separators removed unchanged |
| SecClient.ParseNumberIgnoresSeparators | app/sec_client.py:110 | inserting a ',' or a '$' at any position does not change the parsed number |
| SecClient.CleanWrapped | app/sec_client.py:110 | cleaning "(" + s + ")" keeps the parentheses at the ends and removes the separators inside |
| SecClient.ParseNumberParentheses | app/sec_client.py:113-120 | enclosing a text in parentheses negates its parsed value, and keeps an unparsable text unparsable, unless the cleaned text is already parenthesised |
| SecClient.ParseNumberPlain | app/sec_client.py:113-122 | a text without ',', '$' or '(' is not negated: the result is float() of the text itself |
| SecClient.CleanKeeps | app/sec_client.py:110 | every character that is neither whitespace nor a separator survives cleaning |
| SecClient.CleanSubset | app/sec_client.py:110 | cleaning introduces no character |
| SecClient.ParseNumberRejectsForeign | app/sec_client.py:108-124 | any character other than a digit, '.', a sign, a parenthesis, a separator or whitespace makes the result None, not an exception |
| SecClient.ParseNumberNonNegative | app/sec_client.py:110-122 | a text containing neither '(' nor '-' never parses to a negative number |
| SecClient.UnbalancedParenthesisRejected | app/sec_client.py:113-124 | a ')' without any '(' (as in "234567)") makes the result None rather than a negative number |
| SecClient.Scaled | app/sec_client.py:189-195 | scaling never shrinks the magnitude and never changes the sign |
| SecClient.MillionTakesPrecedence | app/sec_client.py:189-191 | a matched text containing "million" anywhere is scaled by 1e6, even when "billion" or "thousand" also occur |
| SecClient.ThousandBeforeBillion | app/sec_client.py:190-195 | without "million", a matched text containing "thousand" is scaled by 1e3 even when "billion" also occurs |
| SecClient.BillionLast | app/sec_client.py:190-195 | without "million" or "thousand", a matched text containing "billion" is scaled by 1e9 |
| SecClient.NoScaleWord | app/sec_client.py:190-196 | a matched text with no scale word leaves the parsed value unscaled |
| SecClient.CandidateOf | app/sec_client.py:185-196 | a match's candidate is never negative (abs of the scaled value) |
| SecClient.CandidateIffParses | app/sec_client.py:186-187 | a match yields a candidate exactly when its capture group parses |
| SecClient.Candidates | app/sec_client.py:183-196 | values_found has at most one entry per match |
| SecClient.Max | app/sec_client.py:200 | max(values) is one of the values and at least every value |
| SecClient.CandidatesAreParsedMatches | app/sec_client.py:184-196 | a value is in values_found exactly when some match yields it |
| SecClient.CandidatesNonNegative | app/sec_client.py:196 | every value in values_found is non-negative |
| SecClient.UnparsableMatchDropped | app/sec_client.py:184-196 | a match yielding nothing is dropped and the matches before and after it still count, in order |
| SecClient.UnparsableCaptureDropped | app/sec_client.py:186-187 | a match whose capture does not parse leaves values_found as if it were absent; it does not abort the field |
| SecClient.PatternTableShape | app/sec_client.py:148-177 | the table covers exactly the seven required fields, with 2, 2, 1, 2, 2, 1 and 4 label variants |
| SecClient.Patterns | app/sec_client.py:148-177 | the pattern table, with the source's pattern strings verbatim and in the source's order; its shape is stated by PatternTableShape |
| SecClient.RequiredFields | app/sec_client.py:204-205 | required_fields, in the source's order, which is also the order of the loop over the table; GatedCollection and ExtractionAllOrNothing state the check over them |
| SecClient.FieldValue | app/sec_client.py:181-201 | a field's value: the maximum of the first variant with a non-empty values_found; stated by FieldValueFromFirstProductiveVariant, FieldValueAbsent, FieldValueFound, FieldValueNonNegative and LaterVariantsIgnored |
| SecClient.FieldValueFromFirstProductiveVariant | app/sec_client.py:181-201 | when variant k is the first with a non-empty values_found, the field's value is the maximum of that variant's values |
| SecClient.FieldValueAbsent | app/sec_client.py:181-201 | a field is missing (not zero) exactly when no variant yields a value |
| SecClient.FieldValueFound | app/sec_client.py:198-200 | a field's value is one of the values some variant produced |
| SecClient.FieldValueNonNegative | app/sec_client.py:181-201 | the value recorded for a field is never negative |
| SecClient.LaterVariantsIgnored | app/sec_client.py:198-201 | variants after the first productive one are never consulted: searches that agree up to it give the same value |
| SecClient.CollectedHolds | app/sec_client.py:180-201 | a field is in financial_data exactly when it is listed and has a value, and then holds that value |
| SecClient.Collected | app/sec_client.py:180-201 | financial_data after the loop over the table; stated by CollectedHolds |
| SecClient.Gate | app/sec_client.py:204-212 | the required-field check and the working-capital entry; stated by GatedCollection |
| SecClient.Extraction | app/sec_client.py:180-214 | the result of the extraction once the matches are known; stated by ExtractionAllOrNothing |
| SecClient.GatedCollection | app/sec_client.py:204-212 | the check passes exactly when every required field has a value; the result then holds those seven values plus working capital = current assets - current liabilities, nothing else |
| SecClient.ExtractionAllOrNothing | app/sec_client.py:180-214 | the extraction succeeds exactly when every required field is found through the pattern table, never with a partial map, and working capital is current assets minus current liabilities |
| SecClient.MatchCandidate | app/sec_client.py:185-196 | the body for one match (parse, scale by the first scale word, abs) computes exactly CandidateOf |
| SecClient.ValuesFound | app/sec_client.py:183-196 | the loop over the matches builds exactly Candidates of the matches, in match order |
| SecClient.FirstProductiveVariant | app/sec_client.py:181-201 | the loop over variants with its break yields exactly FieldValue: the maximum of the first productive variant, or absent |
| SecClient.CollectFields | app/sec_client.py:180-201 | the loop over the table fills financial_data exactly as Collected specifies |
| SecClient.CheckRequiredFields | app/sec_client.py:204-214 | the final check equals Gate: all required fields present, then working capital added, else None |
| SecClient.ExtractFinancialDataFromHtml | app/sec_client.py:144-214 | the whole post-match extraction equals Extraction, whose all-or-nothing behaviour ExtractionAllOrNothing states |
| Calculator.ComputeRatios | app/calculator.py:48-52 | with total assets 0, x1, x2, x3 and x5 are 0.0; otherwise each ratio times total assets is its numerator; x4 likewise against total liabilities |
| Calculator.Zone.Value | app/calculator.py:7-11 | the zone labels 'Safe Zone', 'Grey Zone' and 'Distress Zone' reported in the result |
| Calculator.Score | app/calculator.py:55 | the weighted sum of the ratios; stated in closed form by ScoreClosedForm |
| Calculator.ZoneOf | app/calculator.py:58-63 | Safe iff z > 2.99, Grey iff 1.81 < z <= 2.99, Distress iff z <= 1.81 |
| Calculator.CalculateAltmanZScore | app/calculator.py:65-80 | the zone is that of the unrounded score; the reported score is within 0.00005 and each ratio within 0.0000005 of the exact value; the seven inputs are returned unchanged |
| Calculator.ScoreClosedForm | app/calculator.py:48-55 | with non-zero denominators the score is 1.2·WC/TA + 1.4·RE/TA + 3.3·OI/TA + 0.6·MVE/TL + 1.0·S/TA |
| Calculator.ZoneMonotone | app/calculator.py:58-63 | a larger score never gives a worse zone |
| Calculator.ZoneAtBoundaries | app/calculator.py:58-63 | the thresholds are strict: 2.99 is Grey and 1.81 is Distress, while values just above them are Safe and Grey |
| Calculator.ZoneUsesUnroundedScore | app/calculator.py:55-72 | a score of 2.99004 is Safe although the reported rounded score 2.99 would be Grey |
| Calculator.ResultReproducible | app/calculator.py:73-79 | feeding the returned inputs back in reproduces the same result |
| Utils.ZeroPadCik | app/utils.py:163-173 | the result has length max(10, len); for a digit string it ends with the CIK and only '0's precede it |
| Utils.ZeroPadCikIdempotent | app/utils.py:173 | padding an already padded CIK leaves it unchanged |
| Utils.FindFirst | app/utils.py:34-40 | the index found satisfies the test and no earlier index does; absent exactly when no entry does |
| Utils.TickerLookup | app/utils.py:17-40 | a CIK found is at least ten characters long |
| Utils.NameLookup | app/utils.py:56-82 | a CIK found is at least ten characters long |
| Utils.CikAndTickerLookup | app/utils.py:135-157 | a CIK found is at least ten characters long |
| Utils.CikLookup | app/utils.py:99-110 | a CIK found is at least ten characters long |
| Utils.PaddedCik | app/utils.py:36-38 | `str(entry.get('cik_str', '')).zfill(10)`; its length and padding are stated by ZeroPadCik |
| Utils.Truthy | app/utils.py:101-102 | the `if cik:` test: present and non-empty; CikLookupOrder states the precedence it gives |
| Utils.TickerKey | app/utils.py:17 | the ticker key `upper().strip()`; TickerLikeKeyIsVerbatim states it for ticker-like input |
| Utils.TickerMatches | app/utils.py:35 | an entry matches when its upper-cased ticker, '' when missing, equals the key; used by TickerLookupFirstMatch and TickerLookupAbsent |
| Utils.NameMatches | app/utils.py:76-78 | two-way containment between the lower-cased title and the key; used by NameLookupFirstMatch, NameLookupAbsent and UntitledEntryMatchesAnyName |
| Utils.LooksLikeTicker | app/utils.py:99 | the ticker-likeness test; characterised by LooksLikeTickerChars |
| Utils.GetCikFromTicker | app/utils.py:17-40 | the search loop with early return yields exactly TickerLookup |
| Utils.GetCikFromName | app/utils.py:56-82 | the search loop with early return yields exactly NameLookup |
| Utils.GetCik | app/utils.py:88-110 | the fallback chain yields exactly CikLookup |
| Utils.GetCikAndTicker | app/utils.py:135-157 | the search loop applying both tests per entry yields exactly CikAndTickerLookup |
| Utils.TickerLookupFirstMatch | app/utils.py:34-38 | the answer is the padded CIK of the first entry whose upper-cased ticker equals the upper-cased, stripped input |
| Utils.TickerLookupAbsent | app/utils.py:34-40 | the ticker lookup is absent exactly when no entry's ticker matches |
| Utils.NameLookupFirstMatch | app/utils.py:75-80 | the answer is the padded CIK of the first entry whose lower-cased title contains the stripped, lower-cased name or is contained in it |
| Utils.NameLookupAbsent | app/utils.py:75-82 | the name lookup is absent exactly when no entry's title matches |
| Utils.UntitledEntryMatchesAnyName | app/utils.py:76-78 | an entry without a title matches every name, since '' is contained in every string |
| Utils.BlankNameMatchesFirstEntry | app/utils.py:56-80 | a blank name matches the first entry of a non-empty directory |
| Utils.LooksLikeTickerChars | app/utils.py:99 | ticker-like iff at most five characters, at least one of them neither '.' nor '-', and every other one a letter or digit |
| Utils.TickerLikeKeyIsVerbatim | app/utils.py:99-100 | a ticker-like identifier has no whitespace, so the ticker lookup's key is just its upper-cased form |
| Utils.CikLookupOrder | app/utils.py:99-110 | the ticker lookup wins for a ticker-like identifier it finds; otherwise the name lookup wins if it finds one; otherwise the ticker lookup decides; absent only when both lookups are |
| Utils.CikAndTickerCoversLookups | app/utils.py:139-157 | the combined search finds an entry exactly when the ticker lookup or the name lookup would |
| Utils.CikAndTickerFirstMatch | app/utils.py:139-157 | the first entry passing either test is returned, so an earlier name match beats a later ticker match, with the ticker upper-cased |
| PyStr.ZFill | app/utils.py:173 | zfill: length max(width, len); a string already that long is unchanged; otherwise '0's go in front, after any leading sign |
| PyStr.ZFillIdempotent | app/utils.py:173 | padding twice to the same width equals padding once |
| PyStr.StripIdempotent | app/sec_client.py:110 | strip() of a stripped string changes nothing |
| PyStr.StripLowerCommute | app/utils.py:136 | `s.lower().strip()` equals `s.strip().lower()`, so the combined search uses the same name key as the name lookup |
| PyStr.ContainsOccurs | app/sec_client.py:190 | the substring test `in` holds exactly when the needle occurs at some position |
| PyStr.RemoveAllRemoves | app/sec_client.py:54 | `replace('-', '')` leaves no '-' |
| PyStr.IsSpace | app/sec_client.py:110 | the whitespace set of `str.strip()` and `float()`; StripEnds and ParseFloatStrip state how it is trimmed |
| PyStr.Strip | app/sec_client.py:110 | strip() never lengthens the text; StripEnds, StripKeeps, StripSubset and StripIdempotent state what it drops and keeps |
| PyStr.Upper | app/utils.py:17 | the ASCII case mapping keeps the length |
| PyStr.Lower | app/utils.py:72 | the ASCII case mapping keeps the length; StripLowerCommute relates it to strip() |
| PyStr.RemoveAll | app/sec_client.py:110 | replace(c, '') never lengthens the text; RemoveAllRemoves, RemoveAllKeeps and RemoveAllSubset state what it removes and keeps |
| PyStr.Contains | app/sec_client.py:190 | the substring test `in`; characterised by ContainsOccurs |
| PyStr.IsAlnum | app/utils.py:99 | isalnum(): non-empty and every character a letter or digit |
| PyNum.ParseFloatRejects | app/sec_client.py:118 | float() fails on a text holding a character that is not whitespace, a digit, '.' or a sign |
| PyNum.ParseFloatNonNegative | app/sec_client.py:118 | float() of a text without '-' is never negative |
| PyNum.ParseFloatStrip | app/sec_client.py:118 | float() ignores surrounding whitespace |
| PyNum.ParseFloat | app/sec_client.py:118 | float() on a decimal literal with optional whitespace and sign; stated by ParseFloatRejects, ParseFloatNonNegative and ParseFloatStrip |
| PyNum.SplitSign | app/sec_client.py:118 | float()'s single optional leading sign; ParseFloatNonNegative states that without '-' no value is negative |
| PyNum.ParseUnsignedDecimal | app/sec_client.py:118 | an unsigned literal never reads as negative |
| PyNum.ParseUnsignedDecimalWholePart | app/sec_client.py:118 | the digits before the point are the integer part of the value read |
| PyNum.FractionBelowOne | app/sec_client.py:118 | the digits after the point contribute less than one |
| PyNum.Abs | app/sec_client.py:196 | abs gives a non-negative value equal to x or -x |
| PyNum.Round | app/calculator.py:66-71 | round(x, n) is within half a unit of the n-th decimal place of x |

## Left out

- Network I/O is not modelled: the `requests.get` calls, `raise_for_status` and JSON decoding. The fetched submissions lists and the company directory are parameters instead.
- `get_financial_data_from_10q`, `get_filing_document_url` and `get_sec_headers` are not modelled. They are orchestration of network calls and URL formatting.
- `app/stock_client.py`, `app/main.py` and `app/models.py` are not part of this model.
- BeautifulSoup's `get_text` and the `re` engine are not modelled. `findAll` stands for `re.finditer` over the lower-cased text. No claim is made about which filing text produces which matches. In particular, whether `$(234,567)` in a filing reaches `parse_number` with its parentheses depends on the greedy `[^\d]*` of the patterns.
- SecClient.ParseNumber: digits are the ASCII '0' to '9' only. Python's `float()` and the patterns' `\d` also accept other Unicode decimal digits, such as '١' or '１'. On text with such digits the model gives None where the source gives a number.
- SecClient.ParseNumberRejectsForeign: promises None also for non-ASCII decimal digits, which the source's `float()` reads as digits. The promise is the source's for text whose digits are ASCII.
- PyNum.ParseFloatRejects: the same restriction. A non-ASCII decimal digit is rejected here but accepted by Python's `float()`.
- SecClient.ParseNumber: `float()` is modelled for decimal literals only: optional whitespace, one optional sign, digits with at most one '.'. Exponents, `inf`, `nan` and underscores are treated as unparsable. The capture group `[\d,\(\)]+\.?\d*` cannot produce them.
- Values are exact reals, not binary floats. Scaling and the ratio divisions are exact, and `round` works on the exact value. Rounding errors of binary floating point, and their effect on ties, are not modelled.
- PyStr.Upper: maps ASCII letters only. Python's `upper()` maps every cased letter and can lengthen the text ('ß' becomes 'SS').
- PyStr.Lower: maps ASCII letters only. Python's `lower()` maps every cased letter and can lengthen the text ('İ' becomes two characters).
- PyStr.IsAlnum: accepts ASCII letters and digits only. Python's `isalnum()` also accepts other Unicode letters and digits.
- PyNum.ParseFloat: reads decimal literals over the ASCII digits only. Python's `float()` also reads other Unicode decimal digits, exponents, `inf`, `nan` and underscores between digits; the model gives None for these.
- The `print` diagnostics are left out. So are the catch-all `except Exception` handlers, except where an exception can arise in the modelled logic:
  - the IndexError of a short `filingDate`/`accessionNumber` list is modelled as None;
  - `float()` failing is modelled as None.
- Utils.DirectoryEntry: a missing key reads as "", as `entry.get(key, '')` does. A JSON `null` ticker or title is not modelled. In the source, `None.upper()` would raise, and the handler would answer None. `cik_str` is taken as the string `str()` gives for it.
- Utils.GetCik: the source fetches the directory once per lookup. The model passes one directory to all of them, so it assumes the fetches agree.

## Findings

None.
