/** The reconciliation checks of `DeedValidator`: the order of the two
    dates, the reading of the written-out amount, and the comparison of the
    numeric amount against it. */
module Reconciliation {
  import opened Wrappers
  import opened Text
  import opened Calendar

  /** The failures `validate` records in the error list. */
  datatype ValidationError =
    | DateLogicError(recorded: Date, signed: Date)
    | AmountMismatchError(numeric: real, written: string, discrepancy: real)

  /** `_validate_date_logic`: it raises exactly when both dates are present
      and the recorded one is strictly later than the signed one. */
  function DateLogicCheck(signed: Option<Date>, recorded: Option<Date>): (e: Option<ValidationError>)
    ensures e.Some? <==> signed.Some? && recorded.Some? && After(recorded.value, signed.value)
    ensures e.Some? ==> e.value == DateLogicError(recorded.value, signed.value)
  {
    if signed.Some? && recorded.Some? && After(recorded.value, signed.value) then
      Some(DateLogicError(recorded.value, signed.value))
    else
      None
  }

  /** For two real dates the check fails exactly when the deed was recorded
      on a later calendar day than it was signed, and never when recording
      follows signing on the same day or precedes it. */
  lemma DateCheckIsChronological(signed: Date, recorded: Date)
    requires IsValid(signed) && IsValid(recorded)
    ensures DateLogicCheck(Some(signed), Some(recorded)).Some? <==> Ordinal(recorded) > Ordinal(signed)
  {
    AfterIsChronological(recorded, signed);
  }

  // The written amount. The pattern `(\d+(?:\.\d+)?)\s*<keyword>` is modelled
  // with the leftmost-match rule of `re.search`. Its greedy reading is the only
  // one: giving back a digit or a space never lets the keyword (which starts
  // with a letter) follow, and dropping the fraction leaves a point in its way.
  // A match is kept as positions; the text of its group is read off them apart.

  /** Length of the optional `.\d+` part of the pattern at position e: a
      point counts only when a digit follows it. */
  function FractionLength(s: string, e: nat): (f: nat)
    requires e <= |s|
    ensures e + f <= |s|
    ensures f == 0 <==> !(e + 1 < |s| && s[e] == '.' && IsDigit(s[e + 1]))
  {
    if e + 1 < |s| && s[e] == '.' && IsDigit(s[e + 1]) then 1 + RunLength(s, e + 1, Digit) else 0
  }

  /** A match of the pattern: its group spans start..end, and the whole
      digits end at point, which is end itself when there is no fraction. */
  datatype NumberMatch = NumberMatch(start: nat, point: nat, end: nat)

  predicate Spans(s: string, mt: NumberMatch) {
    mt.start < mt.point <= mt.end <= |s|
  }

  /** The match of the pattern that starts at position i, if there is one:
      the digit run, the fraction when a digit follows the point, white
      space, then the keyword. */
  function MatchAt(s: string, i: nat, keyword: string): (r: Option<NumberMatch>)
    requires i <= |s|
    ensures r.Some? ==> r.value.start == i && Spans(s, r.value) && IsDigit(s[i])
  {
    var w := RunLength(s, i, Digit);
    if w == 0 then None
    else
      var f := FractionLength(s, i + w);
      var k := i + w + f + RunLength(s, i + w + f, Space);
      if OccursAt(s, k, keyword) then Some(NumberMatch(i, i + w, i + w + f)) else None
  }

  /** The text the group `(\d+(?:\.\d+)?)` captures, split at its point. */
  datatype Numeral = Numeral(whole: string, fraction: string)

  predicate WellFormedNumeral(n: Numeral) {
    n.whole != [] && AllDigits(n.whole) && AllDigits(n.fraction)
  }

  /** `float` of the captured group. */
  function NumeralValue(n: Numeral): (v: real)
    requires WellFormedNumeral(n)
    ensures v >= 0.0
    ensures n.fraction == [] ==> v == DigitsValue(n.whole) as real
  {
    DecimalValue(n.whole, n.fraction)
  }

  /** `group(1)` of a match. */
  function Group(s: string, mt: NumberMatch): Numeral
    requires Spans(s, mt)
  {
    Numeral(s[mt.start..mt.point], if mt.end == mt.point then "" else s[mt.point + 1..mt.end])
  }

  /** The group of a match is a numeral: digits, then digits after the point. */
  lemma MatchIsNumeral(s: string, i: nat, keyword: string)
    requires i <= |s| && MatchAt(s, i, keyword).Some?
    ensures WellFormedNumeral(Group(s, MatchAt(s, i, keyword).value))
  {
    var mt := MatchAt(s, i, keyword).value;
    var whole := s[i..mt.point];
    RunHolds(s, i, Digit);
    forall j | 0 <= j < |whole| ensures IsDigit(whole[j]) {
      assert whole[j] == s[i + j] && InClass(s[i + j], Digit);
    }
    if mt.end != mt.point {
      var fraction := s[mt.point + 1..mt.end];
      RunHolds(s, mt.point + 1, Digit);
      forall j | 0 <= j < |fraction| ensures IsDigit(fraction[j]) {
        assert fraction[j] == s[mt.point + 1 + j] && InClass(s[mt.point + 1 + j], Digit);
      }
    }
  }

  /** `re.search` from position `from` on: the leftmost match. */
  function SearchMatch(s: string, keyword: string, from: nat): (r: Option<NumberMatch>)
    requires from <= |s|
    ensures r.Some? ==> from <= r.value.start < |s| && MatchAt(s, r.value.start, keyword) == r
    decreases |s| - from
  {
    if from == |s| then None
    else if MatchAt(s, from, keyword).Some? then MatchAt(s, from, keyword)
    else SearchMatch(s, keyword, from + 1)
  }

  /** No position before the one the search returns holds a match, and when it
      returns nothing no position does. */
  lemma {:induction false} SearchIsLeftmost(s: string, keyword: string, from: nat)
    requires from <= |s|
    ensures var r := SearchMatch(s, keyword, from);
            var stop := if r.Some? then r.value.start else |s|;
            forall j :: from <= j < stop ==> MatchAt(s, j, keyword).None?
    decreases |s| - from
  {
    if from < |s| && MatchAt(s, from, keyword).None? {
      SearchIsLeftmost(s, keyword, from + 1);
    }
  }

  /** `re.search(pattern, s)` and the group of its match. */
  function SearchNumber(s: string, keyword: string): (r: Option<Numeral>)
    ensures r.Some? ==> WellFormedNumeral(r.value)
  {
    match SearchMatch(s, keyword, 0)
    case None => None
    case Some(mt) =>
      MatchIsNumeral(s, mt.start, keyword);
      Some(Group(s, mt))
  }

  /** A match needs a digit and, after it, the keyword. */
  lemma MatchNeedsKeyword(s: string, i: nat, keyword: string)
    requires i <= |s|
    ensures MatchAt(s, i, keyword).Some? ==> HasDigit(s) && Occurs(s, keyword)
  {
    if MatchAt(s, i, keyword).Some? {
      var w := RunLength(s, i, Digit);
      var f := FractionLength(s, i + w);
      var k := i + w + f + RunLength(s, i + w + f, Space);
      assert OccursAt(s, k, keyword);
    }
  }

  /** So the search finds nothing in a text without a digit or without the keyword. */
  lemma SearchNeedsKeyword(s: string, keyword: string)
    ensures SearchNumber(s, keyword).Some? ==> HasDigit(s) && Occurs(s, keyword)
  {
    var r := SearchMatch(s, keyword, 0);
    if r.Some? {
      MatchNeedsKeyword(s, r.value.start, keyword);
    }
  }

  /** No match starts at positions lo..hi-1, so the search goes on at hi. */
  lemma SearchSkips(s: string, keyword: string, lo: nat, hi: nat)
    requires lo <= hi <= |s|
    requires forall j :: lo <= j < hi ==> MatchAt(s, j, keyword).None?
    ensures SearchMatch(s, keyword, lo) == SearchMatch(s, keyword, hi)
  {
    var r1, r2 := SearchMatch(s, keyword, lo), SearchMatch(s, keyword, hi);
    SearchIsLeftmost(s, keyword, lo);
    SearchIsLeftmost(s, keyword, hi);
    if r1.Some? {
      assert hi <= r1.value.start;
      if r2.Some? {
        assert r1.value.start <= r2.value.start <= r1.value.start;
      }
    } else if r2.Some? {
      assert MatchAt(s, r2.value.start, keyword).Some?;
    }
  }

  /** No match starts at a position that holds no digit. */
  lemma NoMatchAt(s: string, j: nat, x: string)
    requires j < |s| && !IsDigit(s[j])
    ensures MatchAt(s, j, x).None?
  {
    RunEndsAt(s, j, j, Digit);
  }

  /** The text of a numeral as the group captures it: the digits, then the
      point and the fraction digits when there is a fraction. */
  function NumeralText(n: Numeral): (t: string)
    ensures |t| == TextLength(n)
  {
    if n.fraction == [] then n.whole else n.whole + "." + n.fraction
  }

  /** The number of characters of that text. */
  function TextLength(n: Numeral): nat {
    |n.whole| + (if n.fraction == [] then 0 else 1 + |n.fraction|)
  }

  /** A keyword whose first letter can neither extend a numeral nor the
      white space before it. */
  predicate KeywordStart(keyword: string) {
    keyword != [] && !IsSpace(keyword[0]) && !IsDigit(keyword[0]) && keyword[0] != '.'
  }

  /** s holds at position i the numeral n, then m white-space characters,
      then the keyword. */
  predicate NumeralThenKeyword(s: string, i: nat, n: Numeral, m: nat, keyword: string) {
    && WellFormedNumeral(n) && KeywordStart(keyword)
    && i + TextLength(n) + m <= |s|
    && (forall t :: 0 <= t < |n.whole| ==> s[i + t] == n.whole[t])
    && (n.fraction != [] ==> s[i + |n.whole|] == '.')
    && (forall t :: 0 <= t < |n.fraction| ==> s[i + |n.whole| + 1 + t] == n.fraction[t])
    && (forall j :: i + TextLength(n) <= j < i + TextLength(n) + m ==> IsSpace(s[j]))
    && OccursAt(s, i + TextLength(n) + m, keyword)
  }

  /** The numeral of such a part is digits, with a point between the whole
      digits (up to w) and the fraction digits (up to e). */
  lemma PartDigits(s: string, i: nat, n: Numeral, m: nat, keyword: string)
    requires NumeralThenKeyword(s, i, n, m, keyword)
    ensures var w, e := i + |n.whole|, i + TextLength(n);
            && (forall j :: i <= j < w ==> IsDigit(s[j]))
            && (forall j :: w < j < e ==> IsDigit(s[j]))
  {
    var w, e := i + |n.whole|, i + TextLength(n);
    forall j | i <= j < w ensures IsDigit(s[j]) {
      assert s[j] == n.whole[j - i];
    }
    forall j | w < j < e ensures IsDigit(s[j]) {
      assert s[j] == n.fraction[j - w - 1];
    }
  }

  /** The numeral of such a part ends at a character that continues neither
      its digits nor a fraction, and the white space after it is a run of
      m characters that the keyword ends. */
  lemma PartEnds(s: string, i: nat, n: Numeral, m: nat, keyword: string)
    requires NumeralThenKeyword(s, i, n, m, keyword)
    ensures var e := i + TextLength(n);
            && e < |s| && !IsDigit(s[e]) && s[e] != '.'
            && RunLength(s, e, Space) == m
  {
    SpaceThenKeyword(s, i + TextLength(n), m, keyword);
  }

  /** m white-space characters from e on, then the keyword. */
  lemma SpaceThenKeyword(s: string, e: nat, m: nat, keyword: string)
    requires KeywordStart(keyword) && OccursAt(s, e + m, keyword)
    requires forall j :: e <= j < e + m ==> IsSpace(s[j])
    ensures !IsDigit(s[e]) && s[e] != '.'
    ensures RunLength(s, e, Space) == m
  {
    assert s[e + m] == keyword[0];
    if m > 0 {
      assert IsSpace(s[e]);
    }
    RunEndsAt(s, e, e + m, Space);
  }

  /** The runs MatchAt measures when it starts on a digit j of such a part:
      to the end of the whole digits and across the fraction, or, from
      inside the fraction, to its end. */
  lemma PartRuns(s: string, i: nat, n: Numeral, m: nat, keyword: string, j: nat)
    requires NumeralThenKeyword(s, i, n, m, keyword)
    requires i <= j < i + TextLength(n) && j != i + |n.whole|
    ensures var w, e := i + |n.whole|, i + TextLength(n);
            && (j < w ==> RunLength(s, j, Digit) == w - j && FractionLength(s, w) == e - w)
            && (w < j ==> RunLength(s, j, Digit) == e - j && FractionLength(s, e) == 0)
  {
    var w, e := i + |n.whole|, i + TextLength(n);
    PartDigits(s, i, n, m, keyword);
    PartEnds(s, i, n, m, keyword);
    if j < w {
      RunEndsAt(s, j, w, Digit);
      if n.fraction != [] {
        FractionRun(s, w, e);
      }
    } else {
      RunEndsAt(s, j, e, Digit);
    }
  }

  /** A point, then digits up to e: a fraction of length e - w. */
  lemma FractionRun(s: string, w: nat, e: nat)
    requires w + 1 < e < |s| && s[w] == '.' && !IsDigit(s[e])
    requires forall j :: w < j < e ==> IsDigit(s[j])
    ensures FractionLength(s, w) == e - w
  {
    RunEndsAt(s, w + 1, e, Digit);
  }

  /** MatchAt once the runs it measures from j are known: digits to w, a
      fraction up to e (none when e == w), white space up to k. */
  lemma MatchFromRuns(s: string, j: nat, w: nat, e: nat, k: nat, x: string)
    requires j < w <= e <= k <= |s|
    requires RunLength(s, j, Digit) == w - j
    requires FractionLength(s, w) == e - w
    requires RunLength(s, e, Space) == k - e
    ensures MatchAt(s, j, x) == if OccursAt(s, k, x) then Some(NumberMatch(j, w, e)) else None
  {
  }

  /** From no position inside the numeral of such a part does the pattern
      match unless x is what follows the white space. */
  lemma PartNeedsKeyword(s: string, i: nat, n: Numeral, m: nat, keyword: string, j: nat, x: string)
    requires NumeralThenKeyword(s, i, n, m, keyword) && i <= j < i + TextLength(n)
    ensures MatchAt(s, j, x).Some? ==> OccursAt(s, i + TextLength(n) + m, x)
  {
    var w, e := i + |n.whole|, i + TextLength(n);
    if j == w {
      NoMatchAt(s, j, x);
    } else {
      PartRuns(s, i, n, m, keyword, j);
      PartEnds(s, i, n, m, keyword);
      if j > w {
        MatchFromRuns(s, j, e, e, e + m, x);
      } else {
        MatchFromRuns(s, j, w, e, e + m, x);
      }
    }
  }

  /** From its first digit the pattern for its own keyword matches such a
      part, across its whole numeral. */
  lemma PartMatch(s: string, i: nat, n: Numeral, m: nat, keyword: string)
    requires NumeralThenKeyword(s, i, n, m, keyword)
    ensures MatchAt(s, i, keyword) == Some(NumberMatch(i, i + |n.whole|, i + TextLength(n)))
  {
    var w, e := i + |n.whole|, i + TextLength(n);
    PartRuns(s, i, n, m, keyword, i);
    PartEnds(s, i, n, m, keyword);
    MatchFromRuns(s, i, w, e, e + m, keyword);
  }

  /** The group of that match is the part's numeral. */
  lemma PartGroup(s: string, i: nat, n: Numeral, m: nat, keyword: string)
    requires NumeralThenKeyword(s, i, n, m, keyword)
    ensures Spans(s, NumberMatch(i, i + |n.whole|, i + TextLength(n)))
    ensures Group(s, NumberMatch(i, i + |n.whole|, i + TextLength(n))) == n
  {
    var w, e := i + |n.whole|, i + TextLength(n);
    assert s[i..w] == n.whole by {
      forall t | 0 <= t < |n.whole| ensures s[i..w][t] == n.whole[t] {
      }
    }
    if n.fraction != [] {
      assert s[w + 1..e] == n.fraction by {
        forall t | 0 <= t < |n.fraction| ensures s[w + 1..e][t] == n.fraction[t] {
        }
      }
    }
  }

  /** After a stretch without digits, the search for a part's keyword
      matches the part. */
  lemma FirstMatchFound(s: string, i: nat, n: Numeral, m: nat, keyword: string)
    requires NumeralThenKeyword(s, i, n, m, keyword)
    requires forall j :: 0 <= j < i ==> !IsDigit(s[j])
    ensures SearchMatch(s, keyword, 0) == Some(NumberMatch(i, i + |n.whole|, i + TextLength(n)))
  {
    forall j | 0 <= j < i ensures MatchAt(s, j, keyword).None? {
      NoMatchAt(s, j, keyword);
    }
    SearchSkips(s, keyword, 0, i);
    PartMatch(s, i, n, m, keyword);
  }

  /** So that search reads the part's numeral. */
  lemma FirstNumeralFound(s: string, i: nat, n: Numeral, m: nat, keyword: string)
    requires NumeralThenKeyword(s, i, n, m, keyword)
    requires forall j :: 0 <= j < i ==> !IsDigit(s[j])
    ensures SearchNumber(s, keyword) == Some(n)
  {
    FirstMatchFound(s, i, n, m, keyword);
    PartGroup(s, i, n, m, keyword);
  }

  /** After a first part with another keyword and a stretch without digits,
      the search for the second keyword matches the second part. */
  lemma LaterMatchFound(s: string, i: nat, n: Numeral, m: nat, keyword: string,
                        b: nat, n2: Numeral, m2: nat, keyword2: string)
    requires NumeralThenKeyword(s, i, n, m, keyword)
    requires !OccursAt(s, i + TextLength(n) + m, keyword2)
    requires forall j :: 0 <= j < i ==> !IsDigit(s[j])
    requires i + TextLength(n) <= b && NumeralThenKeyword(s, b, n2, m2, keyword2)
    requires forall j :: i + TextLength(n) <= j < b ==> !IsDigit(s[j])
    ensures SearchMatch(s, keyword2, 0) == Some(NumberMatch(b, b + |n2.whole|, b + TextLength(n2)))
  {
    forall j | 0 <= j < b ensures MatchAt(s, j, keyword2).None? {
      if i <= j < i + TextLength(n) {
        PartNeedsKeyword(s, i, n, m, keyword, j, keyword2);
      } else {
        NoMatchAt(s, j, keyword2);
      }
    }
    SearchSkips(s, keyword2, 0, b);
    PartMatch(s, b, n2, m2, keyword2);
  }

  /** So that search reads the second part's numeral. */
  lemma LaterNumeralFound(s: string, i: nat, n: Numeral, m: nat, keyword: string,
                          b: nat, n2: Numeral, m2: nat, keyword2: string)
    requires NumeralThenKeyword(s, i, n, m, keyword)
    requires !OccursAt(s, i + TextLength(n) + m, keyword2)
    requires forall j :: 0 <= j < i ==> !IsDigit(s[j])
    requires i + TextLength(n) <= b && NumeralThenKeyword(s, b, n2, m2, keyword2)
    requires forall j :: i + TextLength(n) <= j < b ==> !IsDigit(s[j])
    ensures SearchNumber(s, keyword2) == Some(n2)
  {
    LaterMatchFound(s, i, n, m, keyword, b, n2, m2, keyword2);
    PartGroup(s, b, n2, m2, keyword2);
  }

  /** A part with another keyword, and no digit elsewhere: the search for x
      reads nothing. */
  lemma NoNumeralFound(s: string, i: nat, n: Numeral, m: nat, keyword: string, x: string)
    requires NumeralThenKeyword(s, i, n, m, keyword)
    requires !OccursAt(s, i + TextLength(n) + m, x)
    requires forall j :: 0 <= j < |s| && !(i <= j < i + TextLength(n)) ==> !IsDigit(s[j])
    ensures SearchNumber(s, x) == None
  {
    forall j | 0 <= j < |s| ensures MatchAt(s, j, x).None? {
      if i <= j < i + TextLength(n) {
        PartNeedsKeyword(s, i, n, m, keyword, j, x);
      } else {
        NoMatchAt(s, j, x);
      }
    }
    SearchSkips(s, x, 0, |s|);
  }

  /** What one `<number> <keyword>` part adds: its number times the scale, or nothing. */
  function Component(s: string, keyword: string, scale: real): real {
    match SearchNumber(s, keyword)
    case Some(n) => NumeralValue(n) * scale
    case None => 0.0
  }

  /** `_parse_written_amount`: the Million part plus the Thousand part, and
      None unless that sum is positive. */
  function WrittenAmount(s: string): (r: Option<real>)
    ensures r.Some? ==> r.value > 0.0
  {
    var total := Component(s, "Million", 1_000_000.0) + Component(s, "Thousand", 1_000.0);
    if total > 0.0 then Some(total) else None
  }

  /** Only a text with a digit and a Million or a Thousand in it can parse. */
  lemma WrittenAmountNeedsDigitAndKeyword(s: string)
    ensures WrittenAmount(s).Some? ==> HasDigit(s) && (Occurs(s, "Million") || Occurs(s, "Thousand"))
  {
    SearchNeedsKeyword(s, "Million");
    SearchNeedsKeyword(s, "Thousand");
  }

  /** A written amount spelled out in words has no digit for the pattern to
      read, so it never parses. */
  lemma WordsDoNotParse()
    ensures WrittenAmount("One Million Five Hundred Thousand") == None
  {
    var s := "One Million Five Hundred Thousand";
    assert !HasDigit(s) by {
      forall i | 0 <= i < |s| ensures !IsDigit(s[i]) {
      }
    }
    WrittenAmountNeedsDigitAndKeyword(s);
  }

  /** The amount read from the numerals the two searches find. */
  lemma AmountOfParts(s: string, m: Numeral, t: Numeral)
    requires SearchNumber(s, "Million") == Some(m) && SearchNumber(s, "Thousand") == Some(t)
    requires NumeralValue(m) > 0.0 || NumeralValue(t) > 0.0
    ensures WrittenAmount(s) == Some(NumeralValue(m) * 1_000_000.0 + NumeralValue(t) * 1_000.0)
  {
  }

  lemma AmountOfMillions(s: string, m: Numeral)
    requires SearchNumber(s, "Million") == Some(m) && SearchNumber(s, "Thousand") == None
    requires NumeralValue(m) > 0.0
    ensures WrittenAmount(s) == Some(NumeralValue(m) * 1_000_000.0)
  {
  }

  lemma AmountOfThousands(s: string, t: Numeral)
    requires SearchNumber(s, "Million") == None && SearchNumber(s, "Thousand") == Some(t)
    requires NumeralValue(t) > 0.0
    ensures WrittenAmount(s) == Some(NumeralValue(t) * 1_000.0)
  {
  }

  /** In a text whose only digits are those of one part, the search for that
      part's keyword finds its numeral and the search for the other keyword
      finds nothing. */
  lemma OnePartFound(s: string, n: Numeral, m: nat, keyword: string, other: string)
    requires NumeralThenKeyword(s, 0, n, m, keyword)
    requires forall j :: TextLength(n) <= j < |s| ==> !IsDigit(s[j])
    requires !OccursAt(s, TextLength(n) + m, other)
    ensures SearchNumber(s, keyword) == Some(n) && SearchNumber(s, other) == None
  {
    FirstNumeralFound(s, 0, n, m, keyword);
    NoNumeralFound(s, 0, n, m, keyword, other);
  }

  predicate AllSpace(sp: string) {
    forall k :: 0 <= k < |sp| ==> IsSpace(sp[k])
  }

  /** One `<number><white space><keyword>` part of a written amount. */
  function Part(n: Numeral, sp: string, keyword: string): (p: string)
    ensures |p| == TextLength(n) + |sp| + |keyword|
  {
    NumeralText(n) + sp + keyword
  }

  /** The characters of such a part, position by position. */
  lemma PartChars(n: Numeral, sp: string, keyword: string)
    ensures var p, w, e := Part(n, sp, keyword), |n.whole|, TextLength(n);
            && (forall t :: 0 <= t < w ==> p[t] == n.whole[t])
            && (n.fraction != [] ==> p[w] == '.')
            && (forall t :: 0 <= t < |n.fraction| ==> p[w + 1 + t] == n.fraction[t])
            && (forall t :: 0 <= t < |sp| ==> p[e + t] == sp[t])
            && (forall t :: 0 <= t < |keyword| ==> p[e + |sp| + t] == keyword[t])
  {
    var p, w, e := Part(n, sp, keyword), |n.whole|, TextLength(n);
    var nt := NumeralText(n);
    assert p == nt + (sp + keyword);
    forall t | 0 <= t < w ensures p[t] == n.whole[t] {
      assert p[t] == nt[t];
    }
    if n.fraction != [] {
      assert p[w] == nt[w];
      forall t | 0 <= t < |n.fraction| ensures p[w + 1 + t] == n.fraction[t] {
        assert p[w + 1 + t] == nt[w + 1 + t];
      }
    }
  }

  /** Where s holds such a part from i on, it holds it as NumeralThenKeyword
      says, and past the numeral it holds no digit. */
  lemma PartLaidOut(s: string, i: nat, n: Numeral, sp: string, keyword: string)
    requires WellFormedNumeral(n) && AllSpace(sp) && KeywordStart(keyword) && !HasDigit(keyword)
    requires i + |Part(n, sp, keyword)| <= |s|
    requires forall t :: 0 <= t < |Part(n, sp, keyword)| ==> s[i + t] == Part(n, sp, keyword)[t]
    ensures NumeralThenKeyword(s, i, n, |sp|, keyword)
    ensures forall j :: i + TextLength(n) <= j < i + |Part(n, sp, keyword)| ==> !IsDigit(s[j])
  {
    PartChars(n, sp, keyword);
    NumeralLaidOut(s, i, n, sp, keyword);
    TailLaidOut(s, i, n, sp, keyword);
  }

  lemma NumeralLaidOut(s: string, i: nat, n: Numeral, sp: string, keyword: string)
    requires i + |Part(n, sp, keyword)| <= |s|
    requires forall t :: 0 <= t < |Part(n, sp, keyword)| ==> s[i + t] == Part(n, sp, keyword)[t]
    ensures forall t :: 0 <= t < |n.whole| ==> s[i + t] == n.whole[t]
    ensures n.fraction != [] ==> s[i + |n.whole|] == '.'
    ensures forall t :: 0 <= t < |n.fraction| ==> s[i + |n.whole| + 1 + t] == n.fraction[t]
  {
    var p, w := Part(n, sp, keyword), |n.whole|;
    PartChars(n, sp, keyword);
    forall t | 0 <= t < w ensures s[i + t] == n.whole[t] {
      assert s[i + t] == p[t];
    }
    if n.fraction != [] {
      assert s[i + w] == p[w];
      forall t | 0 <= t < |n.fraction| ensures s[i + w + 1 + t] == n.fraction[t] {
        assert s[i + w + 1 + t] == p[w + 1 + t];
      }
    }
  }

  lemma TailLaidOut(s: string, i: nat, n: Numeral, sp: string, keyword: string)
    requires AllSpace(sp) && !HasDigit(keyword)
    requires i + |Part(n, sp, keyword)| <= |s|
    requires forall t :: 0 <= t < |Part(n, sp, keyword)| ==> s[i + t] == Part(n, sp, keyword)[t]
    ensures forall j :: i + TextLength(n) <= j < i + TextLength(n) + |sp| ==> IsSpace(s[j])
    ensures OccursAt(s, i + TextLength(n) + |sp|, keyword)
    ensures forall j :: i + TextLength(n) <= j < i + |Part(n, sp, keyword)| ==> !IsDigit(s[j])
  {
    var p, e := Part(n, sp, keyword), TextLength(n);
    PartChars(n, sp, keyword);
    forall j | i + e <= j < i + e + |sp| ensures IsSpace(s[j]) && !IsDigit(s[j]) {
      assert s[j] == p[j - i];
      assert p[e + (j - i - e)] == sp[j - i - e];
    }
    forall t | 0 <= t < |keyword| ensures s[i + e + |sp| + t] == keyword[t] {
      assert s[i + e + |sp| + t] == p[e + |sp| + t];
    }
    forall j | i + e + |sp| <= j < i + |p| ensures !IsDigit(s[j]) {
      assert s[j] == keyword[j - i - e - |sp|];
    }
  }

  /** The form `<m><white space>Million <t><white space>Thousand` that
      written amounts take. */
  function WrittenForm(m: Numeral, sp1: string, t: Numeral, sp2: string): string {
    Part(m, sp1, "Million") + " " + Part(t, sp2, "Thousand")
  }

  /** s holds the first part, a space, then the second part. */
  predicate FormAt(s: string, m: Numeral, sp1: string, t: Numeral, sp2: string) {
    var p, q := Part(m, sp1, "Million"), Part(t, sp2, "Thousand");
    && |s| == |p| + 1 + |q|
    && (forall k :: 0 <= k < |p| ==> s[0 + k] == p[k])
    && s[|p|] == ' '
    && (forall k :: 0 <= k < |q| ==> s[|p| + 1 + k] == q[k])
  }

  /** The characters of a written amount of that form: the first part, a
      space, the second part. */
  lemma FormChars(m: Numeral, sp1: string, t: Numeral, sp2: string)
    ensures FormAt(WrittenForm(m, sp1, t, sp2), m, sp1, t, sp2)
  {
    var s, p, q := WrittenForm(m, sp1, t, sp2), Part(m, sp1, "Million"), Part(t, sp2, "Thousand");
    assert s == p + ([' '] + q);
    forall k | 0 <= k < |q| ensures s[|p| + 1 + k] == q[k] {
      assert s[|p| + 1 + k] == ([' '] + q)[1 + k];
    }
  }

  /** In such a text the first part is laid out as the searches see it, and
      no digit follows it before the second part. */
  lemma FirstPartLaidOut(s: string, m: Numeral, sp1: string, t: Numeral, sp2: string)
    requires WellFormedNumeral(m) && AllSpace(sp1) && FormAt(s, m, sp1, t, sp2)
    ensures NumeralThenKeyword(s, 0, m, |sp1|, "Million")
    ensures !OccursAt(s, TextLength(m) + |sp1|, "Thousand")
    ensures forall j :: TextLength(m) <= j < |Part(m, sp1, "Million")| + 1 ==> !IsDigit(s[j])
  {
    var p := Part(m, sp1, "Million");
    assert !HasDigit("Million");
    PartLaidOut(s, 0, m, sp1, "Million");
    assert s[TextLength(m) + |sp1|] == 'M' != "Thousand"[0];
    forall j | TextLength(m) <= j <= |p| ensures !IsDigit(s[j]) {
      if j == |p| {
        assert s[j] == ' ';
      }
    }
  }

  lemma SecondPartLaidOut(s: string, m: Numeral, sp1: string, t: Numeral, sp2: string)
    requires WellFormedNumeral(t) && AllSpace(sp2) && FormAt(s, m, sp1, t, sp2)
    ensures NumeralThenKeyword(s, |Part(m, sp1, "Million")| + 1, t, |sp2|, "Thousand")
  {
    assert !HasDigit("Thousand");
    PartLaidOut(s, |Part(m, sp1, "Million")| + 1, t, sp2, "Thousand");
  }

  /** The search for Million in such a text finds the first numeral. */
  lemma FormMillionsFound(s: string, m: Numeral, sp1: string, t: Numeral, sp2: string)
    requires WellFormedNumeral(m) && AllSpace(sp1) && FormAt(s, m, sp1, t, sp2)
    ensures SearchNumber(s, "Million") == Some(m)
  {
    FirstPartLaidOut(s, m, sp1, t, sp2);
    FirstNumeralFound(s, 0, m, |sp1|, "Million");
  }

  /** The search for Thousand in such a text passes over the first part and
      finds the second numeral. */
  lemma FormThousandsFound(s: string, m: Numeral, sp1: string, t: Numeral, sp2: string)
    requires WellFormedNumeral(m) && WellFormedNumeral(t) && AllSpace(sp1) && AllSpace(sp2)
    requires FormAt(s, m, sp1, t, sp2)
    ensures SearchNumber(s, "Thousand") == Some(t)
  {
    FirstPartLaidOut(s, m, sp1, t, sp2);
    SecondPartLaidOut(s, m, sp1, t, sp2);
    LaterNumeralFound(s, 0, m, |sp1|, "Million", |Part(m, sp1, "Million")| + 1, t, |sp2|, "Thousand");
  }

  /** A written amount in that form, with or without fractions and with any
      white space before the keywords, reads back as the amount it spells. */
  lemma WrittenFormReadsBack(m: Numeral, sp1: string, t: Numeral, sp2: string)
    requires WellFormedNumeral(m) && WellFormedNumeral(t) && AllSpace(sp1) && AllSpace(sp2)
    requires NumeralValue(m) > 0.0 || NumeralValue(t) > 0.0
    ensures WrittenAmount(WrittenForm(m, sp1, t, sp2))
         == Some(NumeralValue(m) * 1_000_000.0 + NumeralValue(t) * 1_000.0)
  {
    var s := WrittenForm(m, sp1, t, sp2);
    FormChars(m, sp1, t, sp2);
    FormMillionsFound(s, m, sp1, t, sp2);
    FormThousandsFound(s, m, sp1, t, sp2);
    AmountOfParts(s, m, t);
  }

  /** The searches in a single part find its numeral under its own keyword
      and nothing under the other. */
  lemma PartFound(n: Numeral, sp: string, keyword: string, other: string)
    requires WellFormedNumeral(n) && AllSpace(sp)
    requires keyword in {"Million", "Thousand"} && other in {"Million", "Thousand"} && keyword != other
    ensures SearchNumber(Part(n, sp, keyword), keyword) == Some(n)
    ensures SearchNumber(Part(n, sp, keyword), other) == None
  {
    var s := Part(n, sp, keyword);
    assert !HasDigit(keyword) && KeywordStart(keyword);
    forall k | 0 <= k < |s| ensures s[0 + k] == s[k] {
    }
    PartLaidOut(s, 0, n, sp, keyword);
    assert s[TextLength(n) + |sp|] == keyword[0] != other[0];
    OnePartFound(s, n, |sp|, keyword, other);
  }

  /** A written amount of millions alone reads back as that many millions. */
  lemma MillionsReadBack(m: Numeral, sp: string)
    requires WellFormedNumeral(m) && AllSpace(sp) && NumeralValue(m) > 0.0
    ensures WrittenAmount(Part(m, sp, "Million")) == Some(NumeralValue(m) * 1_000_000.0)
  {
    PartFound(m, sp, "Million", "Thousand");
    AmountOfMillions(Part(m, sp, "Million"), m);
  }

  /** A written amount of thousands alone reads back as that many thousands. */
  lemma ThousandsReadBack(t: Numeral, sp: string)
    requires WellFormedNumeral(t) && AllSpace(sp) && NumeralValue(t) > 0.0
    ensures WrittenAmount(Part(t, sp, "Thousand")) == Some(NumeralValue(t) * 1_000.0)
  {
    PartFound(t, sp, "Thousand", "Million");
    AmountOfThousands(Part(t, sp, "Thousand"), t);
  }

  function Abs(x: real): (a: real)
    ensures a >= 0.0 && (a == x || a == -x)
  {
    if x < 0.0 then -x else x
  }

  const Tolerance: real := 0.01

  /** What `_validate_amount_reconciliation` concludes. */
  datatype AmountCheck =
    | NotChecked                 // an amount is absent, zero or empty
    | Unparsed                   // the written amount could not be read: a warning
    | Reconciled                 // the two agree within the tolerance
    | Mismatch(written: real)    // they differ by more: AmountMismatchError

  /** `_validate_amount_reconciliation`: no check without a non-zero numeric
      amount and a non-empty written one; a written amount that does not
      parse is only noted; otherwise the two must agree within 0.01. */
  function ReconcileAmounts(numeric: Option<real>, written: Option<string>): (c: AmountCheck)
    ensures c.NotChecked? <==> numeric.None? || numeric.value == 0.0 || written.None? || written.value == []
  {
    if numeric.None? || numeric.value == 0.0 || written.None? || written.value == [] then NotChecked
    else
      match WrittenAmount(written.value)
      case None => Unparsed
      case Some(w) => if Abs(numeric.value - w) > Tolerance then Mismatch(w) else Reconciled
  }

  /** The outcomes of the check, by what the written amount reads as: unread
      text is only noted, and an error is raised exactly when the two amounts
      are more than the tolerance apart. */
  lemma ReconcileAmountsCases(numeric: Option<real>, written: Option<string>)
    requires numeric.Some? && numeric.value != 0.0 && written.Some? && written.value != []
    ensures var c := ReconcileAmounts(numeric, written);
            var w := WrittenAmount(written.value);
            && (c.Unparsed? <==> w.None?)
            && (c.Mismatch? <==> w.Some? && Abs(numeric.value - w.value) > Tolerance)
            && (c.Mismatch? ==> c.written == w.value)
            && (c.Reconciled? <==> w.Some? && Abs(numeric.value - w.value) <= Tolerance)
  {
  }
}
