# Bad Deed Validator: a Dafny model of its validation core

The validator reads OCR text of a property deed and pulls out a record of fields. It then checks that record and reports a verdict:

- the date of recording must not contradict the date of signing;
- the numeric amount must agree with the amount written out in words, within a cent;
- the free-text county is resolved against a reference table (exactly, by abbreviation, or by a fuzzy score) and gets that county's tax rate.

A deed with an error is REJECTED. Warnings (an unreadable written amount, a failed or low-confidence county match) never reject it.

The model has six modules:

- `Wrappers` holds `Option` and `Result`.
- `Text` holds the Python string operations the code relies on: `strip`, `upper`, `split`, `replace`, `in`, and `int`/`float` of digit text.
- `Calendar` holds `datetime(y, m, d)` validity, date comparison and its agreement with day numbers, and the conversion of the `YYYY-MM-DD` digits the date pattern captures.
- `CountyMatching` holds the `CountyMatcher` class. Its `MatchCounty` and `GetTaxRate` methods loop over the table as the source does, and each is proved equal to a specification function (`Match`, `TaxRate`) whose properties are lemmas.
- `Reconciliation` holds the date check, the reading of the written amount (the `re.search` of `(\d+(?:\.\d+)?)\s*Million` and `...Thousand`, leftmost match) and the verdict of the amount check.
- `Deeds` holds the `DeedData` class (fields updated in place), the conversions `parse` applies to the pattern results, the `DeedValidator` class whose methods update a deed, and the status of `process_and_report`.

`difflib.SequenceMatcher(...).ratio()` is a parameter of the matcher: any function of two strings with values in [0, 1]. Amounts are exact reals.

Behaviour that the code has and that the model keeps, as written:

- The date check raises when the recorded date is strictly *later* than the signed date (`validator.py:191`), although its message and docstring speak of a recording *before* signing. `DateCheckIsChronological` states the condition as written. A deed recorded after it was signed is rejected.
- The abbreviation rule compares the query, with its points and spaces removed, to the initials of the county name. So `S. Clara` gives `SCLARA`, which is not `SC` (`SClaraIsNoAbbreviation`). That input is resolved only by the fuzzy score, if at all (`validator.py:151-153`).
- A written amount spelled in words ("One Million Five Hundred Thousand") has no digits, so the pattern never matches. It is reported as unparsable, not compared (`WordsDoNotParse`).
- A date or amount error ends the pass before the county step, so such a deed gets no county or tax rate (`validator.py:180-185`).
- `get_tax_rate` cannot fail after `match_county` succeeds, because every returned name is in the table (`MatchIsListed`). The branch of `_enrich_county` that would record that failure (and keep `county_normalized` set) is therefore unreachable, and the method proves it so.
- `amount_numeric` of `0.0` counts as absent for the amount check, as Python's truthiness has it (`validator.py:199`).

## Model

| member | source | states |
|---|---|---|
| Text.StripRemovesOuterSpace | validator.py:141 | `strip()` gives the slice of the input left once the white space at both ends is cut: the result neither starts nor ends with white space, only white space was removed, and stripped text is unchanged |
| Text.Upper | validator.py:145 | upper-casing keeps the length and maps each character on its own |
| Text.Remove | validator.py:153 | `replace(c, '')` leaves no `c`, never lengthens, keeps only characters of the input, and is the identity when `c` is absent |
| Text.RemoveKeeps | validator.py:153 | every character other than the removed one survives `replace(c, '')` |
| Text.WordsAreWords | validator.py:152 | every word `split()` gives is non-empty and holds no white space |
| Text.RunEndsAt | validator.py:152 | a run of a character class measured from a position ends at the first character outside the class |
| Text.RemoveSkips | validator.py:106 | a removed character between two parts does not change the result of `replace` |
| Text.ParseFloatSucceeds | validator.py:106-108 | `float` of digits and points succeeds exactly when there is a digit and at most one point |
| Text.ParseFloatOfNumeral | validator.py:230 | `float` reads a numeral `whole.frac` back as its exact decimal value |
| Text.PadDigitsValue | validator.py:69 | a zero-padded numeral reads back as the number it was printed from |
| Calendar.MakeDate | validator.py:125 | `datetime(y, m, d)` gives that date exactly when it is a valid calendar date, and nothing otherwise |
| Calendar.AfterIsChronological | validator.py:191 | comparing two valid dates field by field agrees with comparing their day numbers, both ways |
| Calendar.ParseDate | validator.py:120-128 | no match gives None; a match gives the date of its digits exactly when that date is valid, and None otherwise |
| Calendar.IsoRoundTrip | validator.py:69 | every valid date printed as the date part of `isoformat()` and parsed back is the same date |
| Calendar.MonthThirteenIsAbsent | validator.py:125-127 | month 13 is no date: the parse gives None instead of failing |
| CountyMatching.Abbreviation | validator.py:152 | the abbreviation has one letter per word of the name, and each is the upper-cased first letter of its word |
| CountyMatching.SantaClaraAbbreviation | validator.py:151-152 | the abbreviation of "Santa Clara" is "SC" |
| CountyMatching.SClaraKeepsL | validator.py:141-153 | "S. Clara", stripped, upper-cased and without points and spaces, still holds the letter L |
| CountyMatching.SClaraIsNoAbbreviation | validator.py:151-153 | "S. Clara" is not an abbreviation hit for "Santa Clara", whatever its rate |
| CountyMatching.FirstHit | validator.py:144-154 | the index found is the first entry that matches exactly or by abbreviation; none found means no entry does |
| CountyMatching.BestFuzzyIsFirstMaximum | validator.py:156-159 | the fuzzy scan keeps the first entry reaching the greatest score, and only when that score is positive |
| CountyMatching.FuzzyMatch | validator.py:161-164 | a fuzzy failure reports the query, and an accepted fuzzy match has confidence between 0.6 and 1 |
| CountyMatching.FuzzyMatchIsBest | validator.py:156-164 | the fuzzy step fails exactly when every score is below 0.6; otherwise it returns a listed name whose score is the greatest and is strictly above every earlier entry's |
| CountyMatching.Match | validator.py:137-164 | empty input fails with the empty-name error; every other failure reports the stripped, upper-cased query; confidences lie in [0.6, 1] |
| CountyMatching.MatchIsListed | validator.py:144-169 | every name returned is an entry of the table, so its tax-rate lookup succeeds |
| CountyMatching.FirstHitWins | validator.py:144-154 | the first entry matching exactly (1.0) or by abbreviation (0.95) is the result, whatever follows it |
| CountyMatching.FuzzyFallback | validator.py:156-164 | with no exact or abbreviation match anywhere, the result is the fuzzy one |
| CountyMatching.TaxRate | validator.py:166-170 | a failed lookup reports the name it was given |
| CountyMatching.TaxRateIsFirstMatch | validator.py:166-170 | the lookup fails exactly when no entry has the name up to case, and otherwise gives the rate of the first entry that has it |
| CountyMatching.CountyMatcher.constructor | validator.py:134-135 | the matcher holds the given table |
| CountyMatching.CountyMatcher.MatchCounty | validator.py:137-164 | the loop returns what `Match` specifies, with a confidence in [0.6, 1] |
| CountyMatching.CountyMatcher.GetTaxRate | validator.py:166-170 | the loop returns what `TaxRate` specifies, and fails exactly when no entry carries the name up to case |
| Reconciliation.DateLogicCheck | validator.py:188-195 | the check raises exactly when both dates are present and the recorded one is later, and the error carries both dates |
| Reconciliation.DateCheckIsChronological | validator.py:190-191 | for two valid dates the check raises exactly when the recording falls on a later calendar day |
| Reconciliation.FractionLength | validator.py:228 | the optional `(?:\.\d+)` part is present exactly when a point is followed by a digit |
| Reconciliation.MatchAt | validator.py:228 | a match found at a position starts with a digit there and spans a group of whole digits and an optional fraction inside the text |
| Reconciliation.MatchIsNumeral | validator.py:228-230 | the group of a match is a non-empty run of digits, optionally followed by a point and more digits |
| Reconciliation.NumeralValue | validator.py:230 | a captured group has a non-negative value, and a group without a fraction has the value of its digits |
| Reconciliation.SearchMatch | validator.py:228 | the search returns a match at a position inside the text, at or after where it starts |
| Reconciliation.SearchIsLeftmost | validator.py:228 | `re.search` returns the leftmost match: no match starts before the one returned, and when none is returned no position holds one |
| Reconciliation.SearchNumber | validator.py:228-230 | the group the search returns is a well-formed numeral that `float` reads |
| Reconciliation.SearchNeedsKeyword | validator.py:227-233 | the search finds nothing in a text without a digit or without the keyword |
| Reconciliation.SearchSkips | validator.py:228 | positions where no match starts are skipped: the search goes on after them |
| Reconciliation.NoMatchAt | validator.py:228 | no match starts at a character that is not a digit |
| Reconciliation.MatchFromRuns | validator.py:228 | once the digit, fraction and white-space runs from a position are known, the pattern matches there exactly when the keyword follows them |
| Reconciliation.PartMatch | validator.py:228 | a numeral followed by white space and its keyword is matched from its first digit, over the whole numeral including its fraction |
| Reconciliation.PartNeedsKeyword | validator.py:232 | from inside such a numeral no match for another keyword starts, unless that keyword is what follows the white space |
| Reconciliation.PartGroup | validator.py:230 | the group of that match is the numeral itself |
| Reconciliation.FirstNumeralFound | validator.py:228-230 | in a text with no digit before a numeral that any amount of white space separates from its keyword, the search captures that numeral, fraction included |
| Reconciliation.LaterNumeralFound | validator.py:232-234 | after a first numeral with another keyword and any stretch without digits, the search for the second keyword passes over the first and captures the second numeral |
| Reconciliation.NoNumeralFound | validator.py:232 | when the only digits are those of a numeral with another keyword, the search finds nothing |
| Reconciliation.WrittenAmount | validator.py:225-235 | a written amount that parses is positive |
| Reconciliation.WrittenAmountNeedsDigitAndKeyword | validator.py:227-235 | only a text holding a digit and "Million" or "Thousand" parses |
| Reconciliation.WordsDoNotParse | validator.py:227-235 | "One Million Five Hundred Thousand" does not parse |
| Reconciliation.AmountOfParts | validator.py:226-235 | once both searches capture numerals, the written amount is their scaled sum when it is positive |
| Reconciliation.AmountOfMillions | validator.py:226-235 | a Million numeral alone gives that many millions |
| Reconciliation.AmountOfThousands | validator.py:226-235 | a Thousand numeral alone gives that many thousands |
| Reconciliation.OnePartFound | validator.py:227-234 | in a text whose only digits are those of one part, its keyword's search captures its numeral and the other keyword's search finds nothing |
| Reconciliation.PartFound | validator.py:227-234 | in a single `<number><white space><keyword>` part, the search for its keyword captures the numeral and the search for the other keyword finds nothing |
| Reconciliation.FormChars | validator.py:225-235 | the text `<m><ws>Million <t><ws>Thousand` holds the first part, a space and the second part position by position |
| Reconciliation.FormMillionsFound | validator.py:228-230 | the Million search in such a text captures the first numeral |
| Reconciliation.FormThousandsFound | validator.py:232-234 | the Thousand search in such a text passes over the first part and captures the second numeral |
| Reconciliation.WrittenFormReadsBack | validator.py:225-235 | `<m><ws>Million <t><ws>Thousand` reads back as m·10⁶ + t·10³, for numerals with or without a fraction and any white space, none included, before each keyword |
| Reconciliation.MillionsReadBack | validator.py:225-235 | `<m><ws>Million` alone reads back as m·10⁶ |
| Reconciliation.ThousandsReadBack | validator.py:225-235 | `<t><ws>Thousand` alone reads back as t·10³ |
| Reconciliation.Abs | validator.py:207 | the absolute value is non-negative and equals x or -x |
| Reconciliation.ReconcileAmounts | validator.py:199-200 | no check is made exactly when the numeric amount is absent or zero or the written one is absent or empty |
| Reconciliation.ReconcileAmountsCases | validator.py:202-212 | once checked, the text that does not parse is only noted; a mismatch is raised exactly when the two amounts are more than 0.01 apart, and it carries the parsed written value; otherwise they are reconciled |
| Deeds.DeedData.constructor | validator.py:45-61 | a new record has every field absent and both lists empty |
| Deeds.DeedData.Extracted | validator.py:90-114 | a record holds the extracted fields, with no county match, errors or warnings |
| Deeds.Enrichment | validator.py:214-223 | the county step never adds an error |
| Deeds.LowConfidence | validator.py:220-221 | an accepted match gets one warning exactly when its confidence is below 0.9 |
| Deeds.EnrichmentOf | validator.py:216-223 | a failed match becomes its one warning; an accepted one sets the name and its rate, and warns on low confidence |
| Deeds.EnrichmentSetsCountyAndRate | validator.py:216-219 | the county is set exactly when the matcher accepts a non-empty raw county; it is then a listed name, the rate set with it is that county's, and the rate is never set alone |
| Deeds.EnrichmentWarnings | validator.py:214-223 | no raw county gives no warning; a failed match gives exactly its error; an accepted one gives only the low-confidence note |
| Deeds.Validation | validator.py:179-186 | a pass records at most one error, and one exactly when the date check or the amount check raises |
| Deeds.ValidationSteps | validator.py:179-186 | the date error alone; else the amount error alone, with the discrepancy; else the unparsed-amount note followed by the county findings |
| Deeds.ValidatedCountyIsListed | validator.py:179-186 | a pass that sets a county sets a listed one with its own rate, and records no error |
| Deeds.ReportStatus | validator.py:255 | APPROVED exactly when there is no error |
| Deeds.NumericAmount | validator.py:103-108 | the amount group, commas removed, reads as a number exactly when it has a digit and at most one point |
| Deeds.SeparatorsIgnored | validator.py:106 | a comma anywhere in the amount group does not change its value |
| Deeds.AmountOf | validator.py:103-104 | no amount group gives no numeric amount |
| Deeds.Parse | validator.py:90-114 | a fresh record whose text fields are the extracted ones, whose dates are the parsed groups, whose amount is the comma-free group read as a number, and which has no county match, errors or warnings |
| Deeds.DeedValidator.constructor | validator.py:176-177 | the validator holds the given matcher |
| Deeds.DeedValidator.Validate | validator.py:179-186 | the deed's errors, warnings, county and tax rate become the old ones updated by the findings of `Validation` |
| Deeds.DeedValidator.ValidateDateLogic | validator.py:188-195 | it raises exactly when both dates are present and recorded is after signed, with the error `DateLogicCheck` gives |
| Deeds.DeedValidator.ValidateAmountReconciliation | validator.py:197-212 | it raises exactly on a mismatch, with the discrepancy, and appends the unparsed note exactly when the written amount does not parse |
| Deeds.DeedValidator.EnrichCounty | validator.py:214-223 | the deed's warnings, county and rate become the old ones updated by `Enrichment` |
| Deeds.ParseWrittenAmount | validator.py:225-235 | the method, which searches each part only when its keyword occurs, returns `WrittenAmount` |
| Deeds.ProcessAndReport | validator.py:252-255 | the deed's errors, warnings, county and tax rate are those `Validation` gives on the parsed fields, its other fields are the parsed ones, and it is APPROVED exactly when the dates are in order and the amounts do not mismatch |

## Left out

- File input: reading the county table and the JSON file in `DeedParser.__init__` and `BadDeedValidator.__init__` (`validator.py:86-88`, `241-246`). The table is a parameter of the matcher.
- The regular-expression engine. Matching the field patterns of `parse` and `_parse_date` is not modelled (`validator.py:92-100`, `103`, `110`, `117`, `121-122`). A `Captures` value stands for what they capture. `_extract_field`'s `strip()` is taken as already applied to the captured text fields. The pattern of `_parse_written_amount` is modelled exactly.
- `difflib.SequenceMatcher.ratio` (`validator.py:157`) is an arbitrary function into [0, 1], not the Ratcliff–Obershelp algorithm.
- Message texts, number formatting in messages, `str(e)`, and `to_dict` (`validator.py:63-80`, `192-194`, `209-211`, `221`). Errors and warnings are datatypes that carry the values the messages print. Of `to_dict`, only the date part (`YYYY-MM-DD`) of `isoformat()` is modelled (`IsoDigits`); the `T00:00:00` time part it appends is not.
- Deeds.DeedData.Extracted: `parse` assigns the fields of a blank `DeedData()` one by one. The model builds the record with one constructor taking the same values, and the observable result is the same.
- Binary floating point. Amounts, ratios and tax rates are exact reals, so rounding in `float()` and in `abs(a - b) > 0.01` is not modelled.
- Unicode beyond ASCII in `upper()` and in `\d` / `int()` / `float()`. Only ASCII letters are upper-cased and only ASCII digits are digits. White space is Python's full `isspace` set.
- The return value of `validate` (the same deed object). The report dictionary of `process_and_report` is not built: the method returns the status and the deed, whose `errors` and `warnings` are the summary's lists (the counts are their lengths); its `to_dict` is left out as above.
- CountyMatching.CountyMatcher.MatchCounty: its contract does not itself say that the returned name is listed. `MatchIsListed` states this about `Match`, which the method equals.
- Reconciliation.MatchAt: it measures the digit, fraction and white-space runs greedily and does not backtrack. This is what the regular-expression engine does for a keyword whose first letter is neither a digit, a point nor white space, as holds for Million and Thousand (`KeywordStart`). Its contract states what a match starts with and spans; the exact match semantics are in its definition and in `MatchFromRuns`, `PartMatch`, `SearchIsLeftmost` and the lemmas built on them.
