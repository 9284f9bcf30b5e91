/** County normalisation (`CountyMatcher` in validator.py): resolving free
    text to a canonical county of a reference table, and looking up that
    county's tax rate. */
module CountyMatching {
  import opened Wrappers
  import opened Text

  /** One entry of the reference table, `{"name": ..., "tax_rate": ...}`. */
  datatype County = County(name: string, taxRate: real)

  /** `difflib.SequenceMatcher(None, a, b).ratio()`, taken as given: any
      function of the two strings whose value lies between 0 and 1. */
  type Similarity = f: (string, string) -> real | forall a, b :: 0.0 <= f(a, b) <= 1.0
    witness (a: string, b: string) => 0.0

  /** The messages of `CountyLookupError`. */
  datatype LookupError =
    | EmptyName              // 'County name is empty'
    | NoMatch(query: string) // 'No match for <stripped, upper-cased input>'
    | NotFound(name: string) // 'County not found: <name>'

  datatype CountyMatch = CountyMatch(name: string, confidence: real)

  const ExactConfidence: real := 1.0
  const AbbreviationConfidence: real := 0.95
  const MinFuzzyRatio: real := 0.6

  /** The input as the matcher compares it: stripped and upper-cased. */
  function Query(raw: string): string {
    Upper(Strip(raw))
  }

  /** The upper-cased first letters of the words of a name ("Santa Clara" gives "SC"). */
  function Abbreviation(name: string): (a: string)
    ensures |a| == |Words(name)|
    ensures forall k :: 0 <= k < |a| ==> Words(name)[k] != [] && a[k] == UpperChar(Words(name)[k][0])
  {
    WordsAreWords(name);
    Upper(Initials(Words(name)))
  }

  predicate ExactHit(query: string, c: County) {
    query == Upper(c.name)
  }

  /** The query with its points and spaces removed equals the entry's abbreviation. */
  predicate AbbreviationHit(query: string, c: County) {
    Remove(Remove(query, '.'), ' ') == Abbreviation(c.name)
  }

  /** A single word is its own split. */
  lemma ClaraWords()
    ensures Words("Clara") == ["Clara"]
  {
    var s := "Clara";
    assert TrimLeft(s) == s;
    RunEndsAt(s, 0, 5, NonSpace);
    assert s[..5] == s && s[5..] == [];
  }

  /** Leading white space is not part of the first word. */
  lemma SpaceClaraWords()
    ensures Words(" Clara") == ["Clara"]
  {
    assert " Clara"[1..] == "Clara";
    assert TrimLeft(" Clara") == "Clara";
    ClaraWords();
  }

  /** "Santa Clara" has the two words "Santa" and "Clara". */
  lemma SantaClaraWords()
    ensures Words("Santa Clara") == ["Santa", "Clara"]
  {
    var s := "Santa Clara";
    SantaWordLength();
    assert s[..5] == "Santa" && s[5..] == " Clara";
    SpaceClaraWords();
  }

  /** Its first word is five letters long. */
  lemma SantaWordLength()
    ensures TrimLeft("Santa Clara") == "Santa Clara"
    ensures WordLength("Santa Clara") == 5
  {
    RunEndsAt("Santa Clara", 0, 5, NonSpace);
  }

  /** The abbreviation of "Santa Clara" is "SC". */
  lemma SantaClaraAbbreviation()
    ensures Abbreviation("Santa Clara") == "SC"
  {
    SantaClaraWords();
  }

  /** "S. Clara" keeps the letter L once its points and spaces are removed. */
  lemma SClaraKeepsL()
    ensures 'L' in Remove(Remove(Query("S. Clara"), '.'), ' ')
  {
    var raw := "S. Clara";
    StripRemovesOuterSpace(raw);
    assert Strip(raw) == raw;
    var q := Query(raw);
    assert q[4] == 'L';
    RemoveKeeps(q, '.', 4);
    var r := Remove(q, '.');
    var i :| 0 <= i < |r| && r[i] == 'L';
    RemoveKeeps(r, ' ', i);
  }

  /** An abbreviation is compared letter for letter: "S. Clara" is not the
      abbreviation "SC" of "Santa Clara". */
  lemma SClaraIsNoAbbreviation(rate: real)
    ensures !AbbreviationHit(Query("S. Clara"), County("Santa Clara", rate))
  {
    SantaClaraAbbreviation();
    SClaraKeepsL();
  }

  predicate Hit(query: string, c: County) {
    ExactHit(query, c) || AbbreviationHit(query, c)
  }

  predicate NoHitBefore(query: string, table: seq<County>, k: int)
    requires k <= |table|
  {
    forall j :: 0 <= j < k ==> !Hit(query, table[j])
  }

  lemma NoHitExtends(query: string, table: seq<County>, i: nat)
    requires i < |table| && NoHitBefore(query, table, i)
    requires query != Upper(table[i].name)
    requires Remove(Remove(query, '.'), ' ') != Abbreviation(table[i].name)
    ensures NoHitBefore(query, table, i + 1)
  {
  }

  /** Index of the first element of s satisfying p. */
  function FirstWhere<T>(s: seq<T>, p: T -> bool): (k: Option<nat>)
    ensures k.Some? ==> k.value < |s| && p(s[k.value]) && forall j :: 0 <= j < k.value ==> !p(s[j])
    ensures k.None? ==> forall j :: 0 <= j < |s| ==> !p(s[j])
  {
    if s == [] then None
    else if p(s[0]) then Some(0)
    else
      var rest := FirstWhere(s[1..], p);
      assert forall j :: 1 <= j < |s| ==> s[j] == s[1..][j - 1];
      match rest
      case None => None
      case Some(k) => Some(k + 1)
  }

  /** The first entry that the exact or the abbreviation rule accepts. */
  function FirstHit(query: string, table: seq<County>): (k: Option<nat>)
    ensures k.Some? ==> k.value < |table| && Hit(query, table[k.value]) && NoHitBefore(query, table, k.value)
    ensures k.None? ==> NoHitBefore(query, table, |table|)
  {
    FirstWhere(table, c => Hit(query, c))
  }

  /** The fuzzy score of an entry: the input against the upper-cased name. */
  function Score(ratio: Similarity, query: string, c: County): real {
    ratio(query, Upper(c.name))
  }

  /** The entry the fuzzy scan keeps: starting from a best ratio of 0, a later
      entry replaces the kept one only with a strictly greater score. */
  function BestFuzzy(ratio: Similarity, query: string, table: seq<County>): (b: Option<nat>)
    ensures b.Some? ==> b.value < |table|
    decreases |table|
  {
    if table == [] then None
    else
      var n := |table| - 1;
      var b := BestFuzzy(ratio, query, table[..n]);
      var kept := if b.Some? then Score(ratio, query, table[b.value]) else 0.0;
      if Score(ratio, query, table[n]) > kept then Some(n) else b
  }

  /** The kept entry is the first one reaching the maximum score, when that
      maximum is positive; no entry is kept when every score is 0. */
  lemma {:induction false} BestFuzzyIsFirstMaximum(ratio: Similarity, query: string, table: seq<County>)
    ensures var b := BestFuzzy(ratio, query, table);
      && (b.Some? ==> 0.0 < Score(ratio, query, table[b.value]))
      && (b.Some? ==> forall j :: 0 <= j < |table| ==> Score(ratio, query, table[j]) <= Score(ratio, query, table[b.value]))
      && (b.Some? ==> forall j :: 0 <= j < b.value ==> Score(ratio, query, table[j]) < Score(ratio, query, table[b.value]))
      && (b.None? ==> forall j :: 0 <= j < |table| ==> Score(ratio, query, table[j]) <= 0.0)
    decreases |table|
  {
    if table != [] {
      var n := |table| - 1;
      var prefix := table[..n];
      BestFuzzyIsFirstMaximum(ratio, query, prefix);
      assert forall j :: 0 <= j < n ==> prefix[j] == table[j];
    }
  }

  /** One more entry of the scan: it is kept exactly when it beats the score kept so far. */
  lemma BestFuzzyStep(ratio: Similarity, query: string, table: seq<County>, i: nat)
    requires i < |table|
    ensures var b := BestFuzzy(ratio, query, table[..i]);
      var kept := if b.Some? then Score(ratio, query, table[b.value]) else 0.0;
      BestFuzzy(ratio, query, table[..i + 1]) == if Score(ratio, query, table[i]) > kept then Some(i) else b
  {
    assert table[..i + 1][..i] == table[..i];
    var b := BestFuzzy(ratio, query, table[..i]);
    if b.Some? {
      assert table[..i][b.value] == table[b.value];
    }
  }

  /** Whether some entry of the table carries exactly this name. */
  predicate Lists(table: seq<County>, name: string) {
    exists k :: 0 <= k < |table| && table[k].name == name
  }

  /** `get_tax_rate`: the rate of the first entry whose name equals the given
      one case-insensitively, or NotFound. */
  function TaxRate(table: seq<County>, name: string): (r: Result<real, LookupError>)
    ensures r.Err? ==> r.error == NotFound(name)
  {
    if table == [] then Err(NotFound(name))
    else if Upper(table[0].name) == Upper(name) then Ok(table[0].taxRate)
    else TaxRate(table[1..], name)
  }

  /** The lookup fails exactly when no entry carries the name up to case,
      and otherwise gives the rate of the first entry that does. */
  lemma {:induction false} TaxRateIsFirstMatch(table: seq<County>, name: string)
    ensures var r := TaxRate(table, name);
            && (r.Err? <==> forall j :: 0 <= j < |table| ==> Upper(table[j].name) != Upper(name))
            && (r.Ok? ==> exists k :: 0 <= k < |table| && Upper(table[k].name) == Upper(name)
                                      && r.value == table[k].taxRate
                                      && forall j :: 0 <= j < k ==> Upper(table[j].name) != Upper(name))
  {
    if table != [] && Upper(table[0].name) != Upper(name) {
      var rest := table[1..];
      TaxRateIsFirstMatch(rest, name);
      assert forall j :: 1 <= j < |table| ==> table[j] == rest[j - 1];
      var r := TaxRate(rest, name);
      if r.Ok? {
        var k :| 0 <= k < |rest| && Upper(rest[k].name) == Upper(name)
                 && r.value == rest[k].taxRate
                 && forall j :: 0 <= j < k ==> Upper(rest[j].name) != Upper(name);
        assert Upper(table[k + 1].name) == Upper(name);
      }
    } else if table != [] {
      assert Upper(table[0].name) == Upper(name);
    }
  }

  /** The end of `match_county` when no entry matched exactly or by
      abbreviation: it fails exactly when every fuzzy score is below 0.6 (so
      always on an empty table), and otherwise returns the first entry
      reaching the greatest score, with that score as its confidence. */
  function FuzzyMatch(table: seq<County>, ratio: Similarity, query: string): (r: Result<CountyMatch, LookupError>)
    ensures r.Err? ==> r.error == NoMatch(query)
    ensures r.Ok? ==> MinFuzzyRatio <= r.value.confidence <= ExactConfidence
  {
    match BestFuzzy(ratio, query, table)
    case None => Err(NoMatch(query))
    case Some(b) =>
      var best := Score(ratio, query, table[b]);
      if best < MinFuzzyRatio then Err(NoMatch(query)) else Ok(CountyMatch(table[b].name, best))
  }

  lemma FuzzyMatchIsBest(table: seq<County>, ratio: Similarity, query: string)
    ensures var r := FuzzyMatch(table, ratio, query);
            && (r.Err? <==> forall j :: 0 <= j < |table| ==> Score(ratio, query, table[j]) < MinFuzzyRatio)
            && (r.Ok? ==> exists k :: 0 <= k < |table| && table[k].name == r.value.name
                                     && r.value.confidence == Score(ratio, query, table[k])
                                     && (forall j :: 0 <= j < |table| ==> Score(ratio, query, table[j]) <= r.value.confidence)
                                     && (forall j :: 0 <= j < k ==> Score(ratio, query, table[j]) < r.value.confidence))
  {
    BestFuzzyIsFirstMaximum(ratio, query, table);
  }

  /** `match_county`. Empty input fails without consulting the table, and
      any other failure reports the query; a confidence lies between 0.6 and
      1. Which entry wins is stated by FirstHitWins, FuzzyFallback and
      FuzzyMatchIsBest. */
  function Match(table: seq<County>, ratio: Similarity, raw: string): (r: Result<CountyMatch, LookupError>)
    ensures r.Err? ==> r.error == if raw == [] then EmptyName else NoMatch(Query(raw))
    ensures raw == [] ==> r.Err?
    ensures r.Ok? ==> MinFuzzyRatio <= r.value.confidence <= ExactConfidence
  {
    if raw == [] then Err(EmptyName)
    else
      var query := Query(raw);
      match FirstHit(query, table)
      case Some(k) =>
        Ok(CountyMatch(table[k].name, if ExactHit(query, table[k]) then ExactConfidence else AbbreviationConfidence))
      case None => FuzzyMatch(table, ratio, query)
  }

  /** Any returned name is one of the table's, so its tax rate can be found. */
  lemma MatchIsListed(table: seq<County>, ratio: Similarity, raw: string)
    ensures var r := Match(table, ratio, raw);
            r.Ok? ==> Lists(table, r.value.name) && TaxRate(table, r.value.name).Ok?
  {
    var r := Match(table, ratio, raw);
    if r.Ok? {
      if FirstHit(Query(raw), table).None? {
        FuzzyMatchIsBest(table, ratio, Query(raw));
      }
      var k :| 0 <= k < |table| && table[k].name == r.value.name;
      TaxRateIsFirstMatch(table, r.value.name);
    }
  }

  /** Scanning in table order, the first entry that matches the input exactly
      (ignoring case) is returned with confidence 1.0, and the first that
      matches it by abbreviation with 0.95, whatever follows in the table. */
  lemma FirstHitWins(table: seq<County>, ratio: Similarity, raw: string, k: nat)
    requires raw != [] && k < |table|
    requires Hit(Query(raw), table[k]) && NoHitBefore(Query(raw), table, k)
    ensures Match(table, ratio, raw)
            == Ok(CountyMatch(table[k].name,
                              if ExactHit(Query(raw), table[k]) then ExactConfidence else AbbreviationConfidence))
  {
    assert FirstHit(Query(raw), table) == Some(k);
  }

  /** With no exact or abbreviation match anywhere in the table, the result
      is the fuzzy one. */
  lemma FuzzyFallback(table: seq<County>, ratio: Similarity, raw: string)
    requires raw != [] && NoHitBefore(Query(raw), table, |table|)
    ensures Match(table, ratio, raw) == FuzzyMatch(table, ratio, Query(raw))
  {
    assert FirstHit(Query(raw), table).None?;
  }

  /** `CountyMatcher` over a reference table that is never changed after construction. */
  class CountyMatcher {
    const counties: seq<County>
    const ratio: Similarity

    constructor (counties: seq<County>, ratio: Similarity)
      ensures this.counties == counties && this.ratio == ratio
    {
      this.counties := counties;
      this.ratio := ratio;
    }

    /** `match_county`: one scan of the table in order, returning at the first
        exact or abbreviation hit and otherwise keeping the best fuzzy score. */
    method MatchCounty(raw: string) returns (r: Result<CountyMatch, LookupError>)
      ensures r == Match(counties, ratio, raw)
      ensures r.Ok? ==> MinFuzzyRatio <= r.value.confidence <= ExactConfidence
    {
      if raw == [] {
        return Err(EmptyName);
      }
      var query := Upper(Strip(raw));
      assert query == Query(raw);
      var bestMatch: Option<string> := None;
      var bestRatio: real := 0.0;
      ghost var best: Option<nat> := None;
      for i := 0 to |counties|
        invariant NoHitBefore(query, counties, i)
        invariant best == BestFuzzy(ratio, query, counties[..i])
        invariant best.Some? ==> best.value < i
        invariant bestMatch == (if best.Some? then Some(counties[best.value].name) else None)
        invariant bestRatio == (if best.Some? then Score(ratio, query, counties[best.value]) else 0.0)
      {
        var county := counties[i];
        var name := Upper(county.name);
        if query == name {
          FirstHitWins(counties, ratio, raw, i);
          return Ok(CountyMatch(county.name, ExactConfidence));
        }
        var abbrev := Abbreviation(county.name);
        if Remove(Remove(query, '.'), ' ') == abbrev {
          FirstHitWins(counties, ratio, raw, i);
          return Ok(CountyMatch(county.name, AbbreviationConfidence));
        }
        NoHitExtends(query, counties, i);
        var score := ratio(query, name);
        BestFuzzyStep(ratio, query, counties, i);
        if score > bestRatio {
          bestRatio, bestMatch := score, Some(county.name);
          best := Some(i);
        }
      }
      assert counties[..|counties|] == counties;
      FuzzyFallback(counties, ratio, raw);
      if bestRatio < MinFuzzyRatio {
        return Err(NoMatch(query));
      }
      return Ok(CountyMatch(bestMatch.value, bestRatio));
    }

    /** `get_tax_rate`: a search of the table for the name, case-insensitively. */
    method GetTaxRate(name: string) returns (r: Result<real, LookupError>)
      ensures r == TaxRate(counties, name)
      ensures r.Err? <==> forall j :: 0 <= j < |counties| ==> Upper(counties[j].name) != Upper(name)
    {
      TaxRateIsFirstMatch(counties, name);
      for i := 0 to |counties|
        invariant TaxRate(counties, name) == TaxRate(counties[i..], name)
      {
        assert counties[i..][1..] == counties[i + 1..];
        if Upper(counties[i].name) == Upper(name) {
          return Ok(counties[i].taxRate);
        }
      }
      return Err(NotFound(name));
    }
  }
}
