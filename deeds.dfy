/** The deed record, its validation pass (`DeedValidator` in validator.py),
    the conversions `DeedParser` applies to what its patterns capture, and
    the verdict of `process_and_report`. */
module Deeds {
  import opened Wrappers
  import opened Text
  import opened Calendar
  import opened CountyMatching
  import opened Reconciliation

  /** The notes `validate` appends to the warning list. */
  datatype Warning =
    | UnparsedWrittenAmount(written: string)   // 'Could not parse: <written>'
    | CountyLookupFailed(error: LookupError)   // the CountyLookupError message
    | LowConfidenceMatch(confidence: real)     // 'Low confidence county match: <n>%'

  /** Below this confidence an accepted county match is reported. */
  const LowConfidenceThreshold: real := 0.9

  /** `DeedData`: the fields extracted from one deed, filled in step by step. */
  class DeedData {
    var docId: Option<string>
    var countyRaw: Option<string>
    var countyNormalized: Option<string>
    var state: Option<string>
    var dateSigned: Option<Date>
    var dateRecorded: Option<Date>
    var grantor: Option<string>
    var grantee: Option<string>
    var amountNumeric: Option<real>
    var amountWritten: Option<string>
    var apn: Option<string>
    var status: Option<string>
    var taxRate: Option<real>
    var errors: seq<ValidationError>
    var warnings: seq<Warning>

    /** Every field absent and both lists empty. */
    constructor ()
      ensures docId.None? && countyRaw.None? && countyNormalized.None? && state.None?
      ensures dateSigned.None? && dateRecorded.None? && grantor.None? && grantee.None?
      ensures amountNumeric.None? && amountWritten.None? && apn.None? && status.None?
      ensures taxRate.None? && errors == [] && warnings == []
    {
      docId, countyRaw, countyNormalized, state := None, None, None, None;
      dateSigned, dateRecorded, grantor, grantee := None, None, None, None;
      amountNumeric, amountWritten, apn, status := None, None, None, None;
      taxRate, errors, warnings := None, [], [];
    }

    /** A record holding the given extracted fields, with no county match,
        no errors and no warnings. */
    constructor Extracted(
      docId: Option<string>, countyRaw: Option<string>, state: Option<string>,
      dateSigned: Option<Date>, dateRecorded: Option<Date>,
      grantor: Option<string>, grantee: Option<string>, apn: Option<string>, status: Option<string>,
      amountNumeric: Option<real>, amountWritten: Option<string>)
      ensures this.docId == docId && this.countyRaw == countyRaw && this.state == state
      ensures this.dateSigned == dateSigned && this.dateRecorded == dateRecorded
      ensures this.grantor == grantor && this.grantee == grantee && this.apn == apn && this.status == status
      ensures this.amountNumeric == amountNumeric && this.amountWritten == amountWritten
      ensures countyNormalized.None? && taxRate.None? && errors == [] && warnings == []
    {
      this.docId, this.countyRaw, this.state := docId, countyRaw, state;
      this.dateSigned, this.dateRecorded := dateSigned, dateRecorded;
      this.grantor, this.grantee, this.apn, this.status := grantor, grantee, apn, status;
      this.amountNumeric, this.amountWritten := amountNumeric, amountWritten;
      countyNormalized, taxRate, errors, warnings := None, None, [], [];
    }
  }

  /** What one validation pass adds: errors and warnings to append, and the
      county fields it sets (None leaves a field as it was). */
  datatype Findings = Findings(
    errors: seq<ValidationError>,
    warnings: seq<Warning>,
    countyNormalized: Option<string>,
    taxRate: Option<real>)

  /** `_enrich_county`: nothing without a non-empty raw county; a lookup
      failure becomes a warning; a match sets the canonical name, then its
      tax rate, then warns when the confidence is below 0.9. */
  function Enrichment(table: seq<County>, ratio: Similarity, countyRaw: Option<string>): (f: Findings)
    ensures f.errors == []
  {
    if countyRaw.None? || countyRaw.value == [] then Findings([], [], None, None)
    else
      match Match(table, ratio, countyRaw.value)
      case Err(e) => Findings([], [CountyLookupFailed(e)], None, None)
      case Ok(m) =>
        match TaxRate(table, m.name)
        case Err(e) => Findings([], [CountyLookupFailed(e)], Some(m.name), None)
        case Ok(rate) => Findings([], LowConfidence(m.confidence), Some(m.name), Some(rate))
  }

  /** The note an accepted match gets: one warning below 0.9, none otherwise. */
  function LowConfidence(confidence: real): (w: seq<Warning>)
    ensures |w| <= 1
    ensures w != [] <==> confidence < LowConfidenceThreshold
  {
    if confidence < LowConfidenceThreshold then [LowConfidenceMatch(confidence)] else []
  }

  /** Enrichment of a non-empty raw county, in terms of what the matcher returned. */
  lemma EnrichmentOf(table: seq<County>, ratio: Similarity, raw: string, found: Result<CountyMatch, LookupError>)
    requires raw != [] && found == Match(table, ratio, raw)
    ensures found.Err? ==>
              Enrichment(table, ratio, Some(raw)) == Findings([], [CountyLookupFailed(found.error)], None, None)
    ensures found.Ok? ==>
              && TaxRate(table, found.value.name).Ok?
              && Enrichment(table, ratio, Some(raw))
                 == Findings([], LowConfidence(found.value.confidence), Some(found.value.name),
                             Some(TaxRate(table, found.value.name).value))
  {
    MatchIsListed(table, ratio, raw);
  }

  /** The county is set exactly when the matcher accepts the raw text; it is
      then a name of the table, and the rate set with it is that county's
      rate: the two fields are set together or not at all. */
  lemma EnrichmentSetsCountyAndRate(table: seq<County>, ratio: Similarity, countyRaw: Option<string>)
    ensures var f := Enrichment(table, ratio, countyRaw);
            && (f.countyNormalized.Some?
                <==> countyRaw.Some? && countyRaw.value != [] && Match(table, ratio, countyRaw.value).Ok?)
            && (f.countyNormalized.Some? ==>
                  && f.countyNormalized.value == Match(table, ratio, countyRaw.value).value.name
                  && Lists(table, f.countyNormalized.value)
                  && f.taxRate.Some? && TaxRate(table, f.countyNormalized.value) == Ok(f.taxRate.value))
            && (f.countyNormalized.None? ==> f.taxRate.None?)
  {
    if countyRaw.Some? && countyRaw.value != [] && Match(table, ratio, countyRaw.value).Ok? {
      MatchIsListed(table, ratio, countyRaw.value);
    }
  }

  /** County problems are warnings: a failed lookup gives exactly its
      error, an accepted match below 0.9 exactly one low-confidence note. */
  lemma EnrichmentWarnings(table: seq<County>, ratio: Similarity, countyRaw: Option<string>)
    ensures var f := Enrichment(table, ratio, countyRaw);
            && (countyRaw.None? || countyRaw.value == [] ==> f.warnings == [])
            && (countyRaw.Some? && countyRaw.value != [] && Match(table, ratio, countyRaw.value).Err? ==>
                  f.warnings == [CountyLookupFailed(Match(table, ratio, countyRaw.value).error)])
            && (countyRaw.Some? && countyRaw.value != [] && Match(table, ratio, countyRaw.value).Ok? ==>
                  var confidence := Match(table, ratio, countyRaw.value).value.confidence;
                  f.warnings == LowConfidence(confidence))
  {
    if countyRaw.Some? && countyRaw.value != [] && Match(table, ratio, countyRaw.value).Ok? {
      MatchIsListed(table, ratio, countyRaw.value);
    }
  }

  /** `validate`: the date check, then the amount check, then the county
      enrichment. A raised date or amount error is the one error of the
      pass and ends it; the warnings of the earlier steps are kept. */
  function Validation(
    table: seq<County>, ratio: Similarity,
    signed: Option<Date>, recorded: Option<Date>,
    numeric: Option<real>, written: Option<string>,
    countyRaw: Option<string>): (f: Findings)
    ensures |f.errors| <= 1
    ensures f.errors != [] <==> DateLogicCheck(signed, recorded).Some? || ReconcileAmounts(numeric, written).Mismatch?
  {
    match DateLogicCheck(signed, recorded)
    case Some(e) => Findings([e], [], None, None)
    case None =>
      match ReconcileAmounts(numeric, written)
      case Mismatch(w) =>
        Findings([AmountMismatchError(numeric.value, written.value, Abs(numeric.value - w))], [], None, None)
      case Unparsed =>
        var e := Enrichment(table, ratio, countyRaw);
        Findings([], [UnparsedWrittenAmount(written.value)] + e.warnings, e.countyNormalized, e.taxRate)
      case _ =>
        var e := Enrichment(table, ratio, countyRaw);
        Findings([], e.warnings, e.countyNormalized, e.taxRate)
  }

  /** The findings of a pass, case by case: the date error alone; else the
      amount error alone, with the discrepancy between the two amounts; else
      the county enrichment, after the note on an unreadable written amount. */
  lemma ValidationSteps(
    table: seq<County>, ratio: Similarity,
    signed: Option<Date>, recorded: Option<Date>,
    numeric: Option<real>, written: Option<string>,
    countyRaw: Option<string>)
    ensures var f := Validation(table, ratio, signed, recorded, numeric, written, countyRaw);
            var c := ReconcileAmounts(numeric, written);
            var e := Enrichment(table, ratio, countyRaw);
            && (DateLogicCheck(signed, recorded).Some? ==>
                  f == Findings([DateLogicCheck(signed, recorded).value], [], None, None))
            && (DateLogicCheck(signed, recorded).None? && c.Mismatch? ==>
                  f == Findings([AmountMismatchError(numeric.value, written.value, Abs(numeric.value - c.written))],
                                [], None, None))
            && (DateLogicCheck(signed, recorded).None? && !c.Mismatch? ==>
                  f == Findings([], (if c.Unparsed? then [UnparsedWrittenAmount(written.value)] else []) + e.warnings,
                                e.countyNormalized, e.taxRate))
  {
  }

  /** A pass never reports a county it did not find in the table, and the
      rate it sets is that county's rate. */
  lemma ValidatedCountyIsListed(
    table: seq<County>, ratio: Similarity,
    signed: Option<Date>, recorded: Option<Date>,
    numeric: Option<real>, written: Option<string>,
    countyRaw: Option<string>)
    ensures var f := Validation(table, ratio, signed, recorded, numeric, written, countyRaw);
            f.countyNormalized.Some? ==>
              Lists(table, f.countyNormalized.value)
              && f.taxRate.Some? && TaxRate(table, f.countyNormalized.value) == Ok(f.taxRate.value)
              && f.errors == []
  {
    ValidationSteps(table, ratio, signed, recorded, numeric, written, countyRaw);
    EnrichmentSetsCountyAndRate(table, ratio, countyRaw);
  }

  /** The verdict of `process_and_report`. */
  datatype Status = Approved | Rejected

  function ReportStatus(errors: seq<ValidationError>): (s: Status)
    ensures s == Approved <==> errors == []
  {
    if errors == [] then Approved else Rejected
  }

  // What `DeedParser.parse` does with what its patterns find. The pattern
  // search is not modelled: a Captures value stands for its outcome. The
  // text fields hold what `_extract_field` returns (the group, stripped, or
  // None), the written amount its stripped group, the dates the three digit
  // groups of the date pattern, and the amount the group after `$`.

  datatype Captures = Captures(
    docId: Option<string>,
    county: Option<string>,
    state: Option<string>,
    signed: Option<DateDigits>,
    recorded: Option<DateDigits>,
    grantor: Option<string>,
    grantee: Option<string>,
    apn: Option<string>,
    status: Option<string>,
    amount: Option<string>,
    written: Option<string>)

  /** The characters of `[\d,.]+`. */
  predicate AmountChars(s: string) {
    forall i :: 0 <= i < |s| ==> IsDigit(s[i]) || s[i] == ',' || s[i] == '.'
  }

  /** What the patterns guarantee of the groups that are converted: three
      digit groups of the right widths for a date, and a non-empty run of
      digits, commas and points after `$`. */
  predicate WellFormedCaptures(c: Captures) {
    && (c.signed.Some? ==> WellFormedDigits(c.signed.value))
    && (c.recorded.Some? ==> WellFormedDigits(c.recorded.value))
    && (c.amount.Some? ==> c.amount.value != [] && AmountChars(c.amount.value))
  }

  /** `float(group.replace(',', ''))`, a ValueError leaving the amount absent:
      it succeeds exactly when the group holds a digit and at most one point. */
  function NumericAmount(group: string): (r: Option<real>)
    requires AmountChars(group)
    ensures r.Some? <==> HasDigit(group) && AtMostOnePoint(Remove(group, ','))
  {
    var s := Remove(group, ',');
    assert DecimalChars(s) by {
      forall i | 0 <= i < |s| ensures IsDigit(s[i]) || s[i] == '.' {
        assert s[i] in s;
      }
    }
    assert HasDigit(s) <==> HasDigit(group) by {
      if HasDigit(group) {
        var i :| 0 <= i < |group| && IsDigit(group[i]);
        RemoveKeeps(group, ',', i);
      }
      if HasDigit(s) {
        var i :| 0 <= i < |s| && IsDigit(s[i]);
        assert s[i] in s;
      }
    }
    ParseFloatSucceeds(s);
    ParseFloat(s)
  }

  /** Thousands separators are ignored wherever they stand. */
  lemma SeparatorsIgnored(a: string, b: string)
    requires AmountChars(a) && AmountChars(b)
    ensures AmountChars(a + "," + b) && AmountChars(a + b)
    ensures NumericAmount(a + "," + b) == NumericAmount(a + b)
  {
    AmountCharsJoin(a, ",", b);
    AmountCharsJoin(a, "", b);
    assert a + "" + b == a + b;
    RemoveSkips(a, b, ',');
  }

  lemma AmountCharsJoin(a: string, sep: string, b: string)
    requires AmountChars(a) && AmountChars(sep) && AmountChars(b)
    ensures AmountChars(a + sep + b)
  {
    var s := a + sep + b;
    forall i | 0 <= i < |s| ensures IsDigit(s[i]) || s[i] == ',' || s[i] == '.' {
      if i < |a| {
        assert s[i] == a[i];
      } else if i < |a| + |sep| {
        assert s[i] == sep[i - |a|];
      } else {
        assert s[i] == b[i - |a| - |sep|];
      }
    }
  }

  /** The numeric amount `parse` sets from the amount group, if any. */
  function AmountOf(group: Option<string>): (r: Option<real>)
    requires group.Some? ==> AmountChars(group.value)
    ensures group.None? ==> r.None?
  {
    if group.None? then None else NumericAmount(group.value)
  }

  /** `DeedParser.parse` from the pattern results on: a fresh record whose
      text fields are the extracted ones, whose dates are the valid ones
      among the captured digits, whose amount is the comma-free group read
      as a number, and which carries no county match, no errors and no
      warnings yet. */
  method Parse(c: Captures) returns (deed: DeedData)
    requires WellFormedCaptures(c)
    ensures fresh(deed)
    ensures deed.docId == c.docId && deed.countyRaw == c.county && deed.state == c.state
    ensures deed.dateSigned == ParseDate(c.signed) && deed.dateRecorded == ParseDate(c.recorded)
    ensures deed.grantor == c.grantor && deed.grantee == c.grantee
    ensures deed.apn == c.apn && deed.status == c.status
    ensures deed.amountNumeric == AmountOf(c.amount) && deed.amountWritten == c.written
    ensures deed.countyNormalized.None? && deed.taxRate.None? && deed.errors == [] && deed.warnings == []
  {
    var numeric: Option<real> := None;
    if c.amount.Some? {
      numeric := NumericAmount(c.amount.value);
    }
    deed := new DeedData.Extracted(c.docId, c.county, c.state, ParseDate(c.signed), ParseDate(c.recorded),
                                   c.grantor, c.grantee, c.apn, c.status, numeric, c.written);
  }

  /** `DeedValidator`: the checks of one deed against the county table. */
  class DeedValidator {
    const matcher: CountyMatcher

    constructor (matcher: CountyMatcher)
      ensures this.matcher == matcher
    {
      this.matcher := matcher;
    }

    /** `validate`: runs the three steps in order on the deed; a date or
        amount error is appended as the pass's only error and stops it. */
    method Validate(deed: DeedData)
      modifies deed`errors, deed`warnings, deed`countyNormalized, deed`taxRate
      ensures var f := Validation(matcher.counties, matcher.ratio, deed.dateSigned, deed.dateRecorded,
                                  deed.amountNumeric, deed.amountWritten, deed.countyRaw);
              && deed.errors == old(deed.errors) + f.errors
              && deed.warnings == old(deed.warnings) + f.warnings
              && deed.countyNormalized == (if f.countyNormalized.Some? then f.countyNormalized else old(deed.countyNormalized))
              && deed.taxRate == (if f.taxRate.Some? then f.taxRate else old(deed.taxRate))
    {
      ghost var signed, recorded, numeric, written, raw :=
        deed.dateSigned, deed.dateRecorded, deed.amountNumeric, deed.amountWritten, deed.countyRaw;
      ghost var w0 := deed.warnings;
      ValidationSteps(matcher.counties, matcher.ratio, signed, recorded, numeric, written, raw);
      var failure := ValidateDateLogic(deed);
      if failure.Some? {
        deed.errors := deed.errors + [failure.value];
        return;
      }
      failure := ValidateAmountReconciliation(deed);
      if failure.Some? {
        deed.errors := deed.errors + [failure.value];
        return;
      }
      ghost var w1 := deed.warnings;
      EnrichCounty(deed);
      AppendAssociates(w0, w1[|w0|..], Enrichment(matcher.counties, matcher.ratio, raw).warnings);
    }

    /** `_validate_date_logic`: the error it raises, if any. */
    method ValidateDateLogic(deed: DeedData) returns (failure: Option<ValidationError>)
      ensures failure.Some? <==> deed.dateSigned.Some? && deed.dateRecorded.Some?
                                 && After(deed.dateRecorded.value, deed.dateSigned.value)
      ensures failure == DateLogicCheck(deed.dateSigned, deed.dateRecorded)
    {
      failure := None;
      if deed.dateSigned.Some? && deed.dateRecorded.Some? {
        if After(deed.dateRecorded.value, deed.dateSigned.value) {
          failure := Some(DateLogicError(deed.dateRecorded.value, deed.dateSigned.value));
        }
      }
    }

    /** `_validate_amount_reconciliation`: appends a warning when the
        written amount does not parse, and returns the error it raises. */
    method ValidateAmountReconciliation(deed: DeedData) returns (failure: Option<ValidationError>)
      modifies deed`warnings
      ensures var c := ReconcileAmounts(deed.amountNumeric, deed.amountWritten);
              && (failure.Some? <==> c.Mismatch?)
              && (c.Mismatch? ==> failure.value == AmountMismatchError(deed.amountNumeric.value,
                                     deed.amountWritten.value, Abs(deed.amountNumeric.value - c.written)))
              && deed.warnings == old(deed.warnings)
                                  + if c.Unparsed? then [UnparsedWrittenAmount(deed.amountWritten.value)] else []
    {
      failure := None;
      if deed.amountNumeric.None? || deed.amountNumeric.value == 0.0
         || deed.amountWritten.None? || deed.amountWritten.value == [] {
        return;
      }
      var writtenNum := ParseWrittenAmount(deed.amountWritten.value);
      if writtenNum.None? {
        deed.warnings := deed.warnings + [UnparsedWrittenAmount(deed.amountWritten.value)];
        return;
      }
      var discrepancy := Abs(deed.amountNumeric.value - writtenNum.value);
      if discrepancy > Tolerance {
        failure := Some(AmountMismatchError(deed.amountNumeric.value, deed.amountWritten.value, discrepancy));
      }
    }

    /** `_enrich_county`: sets the canonical county and its tax rate, or
        records why it could not. */
    method EnrichCounty(deed: DeedData)
      modifies deed`countyNormalized, deed`taxRate, deed`warnings
      ensures var f := Enrichment(matcher.counties, matcher.ratio, deed.countyRaw);
              && deed.warnings == old(deed.warnings) + f.warnings
              && deed.countyNormalized == (if f.countyNormalized.Some? then f.countyNormalized else old(deed.countyNormalized))
              && deed.taxRate == (if f.taxRate.Some? then f.taxRate else old(deed.taxRate))
    {
      if deed.countyRaw.Some? && deed.countyRaw.value != [] {
        var found := matcher.MatchCounty(deed.countyRaw.value);
        EnrichmentOf(matcher.counties, matcher.ratio, deed.countyRaw.value, found);
        match found
        case Err(e) =>
          deed.warnings := deed.warnings + [CountyLookupFailed(e)];
        case Ok(m) =>
          deed.countyNormalized := Some(m.name);
          var rate := matcher.GetTaxRate(m.name);
          match rate
          case Err(_) =>
            // MatchCounty only returns names that GetTaxRate finds.
            assert false;
          case Ok(r) =>
            deed.taxRate := Some(r);
            if m.confidence < LowConfidenceThreshold {
              deed.warnings := deed.warnings + [LowConfidenceMatch(m.confidence)];
            }
      }
    }
  }

  /** `_parse_written_amount`: the Million part and the Thousand part, each
      looked for only when its keyword occurs, summed. */
  method ParseWrittenAmount(written: string) returns (r: Option<real>)
    ensures r == WrittenAmount(written)
  {
    var amount := 0.0;
    if Occurs(written, "Million") {
      var m := SearchNumber(written, "Million");
      if m.Some? {
        amount := amount + NumeralValue(m.value) * 1_000_000.0;
      }
    } else {
      SearchNeedsKeyword(written, "Million");
    }
    assert amount == Component(written, "Million", 1_000_000.0);
    if Occurs(written, "Thousand") {
      var t := SearchNumber(written, "Thousand");
      if t.Some? {
        amount := amount + NumeralValue(t.value) * 1_000.0;
      }
    } else {
      SearchNeedsKeyword(written, "Thousand");
    }
    r := if amount > 0.0 then Some(amount) else None;
  }

  /** `process_and_report` from the captured groups on: parse, validate, and
      the verdict, which is APPROVED exactly when the dates are in order and
      the two amounts agree (county problems never reject a deed). */
  method ProcessAndReport(validator: DeedValidator, c: Captures) returns (status: Status, deed: DeedData)
    requires WellFormedCaptures(c)
    ensures fresh(deed)
    ensures status == ReportStatus(deed.errors)
    ensures var f := Validation(validator.matcher.counties, validator.matcher.ratio,
                                ParseDate(c.signed), ParseDate(c.recorded),
                                AmountOf(c.amount), c.written, c.county);
            && deed.errors == f.errors && deed.warnings == f.warnings
            && deed.countyNormalized == f.countyNormalized && deed.taxRate == f.taxRate
    ensures deed.docId == c.docId && deed.countyRaw == c.county && deed.state == c.state
    ensures deed.dateSigned == ParseDate(c.signed) && deed.dateRecorded == ParseDate(c.recorded)
    ensures deed.grantor == c.grantor && deed.grantee == c.grantee
    ensures deed.apn == c.apn && deed.status == c.status
    ensures deed.amountNumeric == AmountOf(c.amount) && deed.amountWritten == c.written
    ensures status == Approved <==>
              && DateLogicCheck(ParseDate(c.signed), ParseDate(c.recorded)).None?
              && !ReconcileAmounts(AmountOf(c.amount), c.written).Mismatch?
  {
    deed := Parse(c);
    validator.Validate(deed);
    status := if deed.errors == [] then Approved else Rejected;
  }
}
