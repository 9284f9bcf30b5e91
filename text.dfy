/** The Python string operations the validator relies on: `isspace`,
    `strip`, `upper`, `split`, `replace`, `in`, and `int`/`float` applied to
    the digit text that its patterns capture. */
module Text {
  import opened Wrappers

  /** `c.isspace()` in Python 3: the ASCII controls \t \n \v \f \r, the
      separators \x1c-\x1f, the space and the Unicode white-space code points.
      The same set is what `strip()`, `split()` and the pattern class `\s` use. */
  predicate IsSpace(c: char) {
    var n := c as int;
    (9 <= n <= 13) || (28 <= n <= 32) || n == 0x85 || n == 0xA0 || n == 0x1680
    || (0x2000 <= n <= 0x200A) || n == 0x2028 || n == 0x2029 || n == 0x202F
    || n == 0x205F || n == 0x3000
  }

  predicate IsDigit(c: char) {
    '0' <= c <= '9'
  }

  predicate AllDigits(s: string) {
    forall i :: 0 <= i < |s| ==> IsDigit(s[i])
  }

  /** s without its leading white space. */
  function TrimLeft(s: string): (r: string)
    ensures |r| <= |s|
    ensures r == [] || !IsSpace(r[0])
  {
    if s != [] && IsSpace(s[0]) then TrimLeft(s[1..]) else s
  }

  /** Only the white space in front is dropped. */
  lemma {:induction false} TrimLeftDropsSpace(s: string)
    ensures var r := TrimLeft(s);
            r == s[|s| - |r|..] && forall i :: 0 <= i < |s| - |r| ==> IsSpace(s[i])
  {
    if s != [] && IsSpace(s[0]) {
      TrimLeftDropsSpace(s[1..]);
    }
  }

  /** s without its trailing white space. */
  function TrimRight(s: string): (r: string)
    ensures |r| <= |s|
    ensures r == [] || !IsSpace(r[|r| - 1])
  {
    if s != [] && IsSpace(s[|s| - 1]) then TrimRight(s[..|s| - 1]) else s
  }

  /** Only the white space behind is dropped. */
  lemma {:induction false} TrimRightDropsSpace(s: string)
    ensures var r := TrimRight(s);
            r == s[..|r|] && forall i :: |r| <= i < |s| ==> IsSpace(s[i])
  {
    if s != [] && IsSpace(s[|s| - 1]) {
      TrimRightDropsSpace(s[..|s| - 1]);
    }
  }

  /** `s.strip()`. */
  function Strip(s: string): (r: string)
    ensures |r| <= |s|
  {
    TrimRight(TrimLeft(s))
  }

  /** r is the slice of s starting at i, and everything around it is white space. */
  predicate SpaceAround(s: string, r: string, i: int) {
    && 0 <= i <= |s| - |r| && r == s[i..i + |r|]
    && (forall j :: 0 <= j < i ==> IsSpace(s[j]))
    && (forall j :: i + |r| <= j < |s| ==> IsSpace(s[j]))
  }

  /** `strip()` gives the slice of s that is left once the white space at
      both ends is removed: it neither starts nor ends with white space, all
      that was cut off is white space, and text already in that form is
      returned unchanged. */
  lemma StripRemovesOuterSpace(s: string)
    ensures var r := Strip(s);
            && (r == [] || (!IsSpace(r[0]) && !IsSpace(r[|r| - 1])))
            && (exists i :: SpaceAround(s, r, i))
            && ((s == [] || (!IsSpace(s[0]) && !IsSpace(s[|s| - 1]))) ==> r == s)
  {
    var t := TrimLeft(s);
    var r := TrimRight(t);
    TrimLeftDropsSpace(s);
    TrimRightDropsSpace(t);
    var i := |s| - |t|;
    assert r == s[i..i + |r|];
    if r != [] {
      assert r[0] == t[0];
    }
    forall j | i + |r| <= j < |s| ensures IsSpace(s[j]) {
      assert s[j] == t[j - i];
    }
    assert SpaceAround(s, r, i);
  }

  /** `c.upper()` for the ASCII letters; every other character is kept. */
  function UpperChar(c: char): (u: char)
    ensures 'a' <= c <= 'z' ==> u as int == c as int - 32
    ensures !('a' <= c <= 'z') ==> u == c
  {
    if 'a' <= c <= 'z' then (c as int - 32) as char else c
  }

  /** `s.upper()`: the same characters, position by position upper-cased. */
  function Upper(s: string): (r: string)
    ensures |r| == |s|
    ensures forall i :: 0 <= i < |s| ==> r[i] == UpperChar(s[i])
  {
    seq(|s|, i requires 0 <= i < |s| => UpperChar(s[i]))
  }

  /** `s.replace(c, '')`: every c deleted, every other character kept in order. */
  function Remove(s: string, c: char): (r: string)
    ensures c !in r
    ensures |r| <= |s|
    ensures forall x :: x in r ==> x in s
    ensures c !in s ==> r == s
  {
    if s == [] then [] else (if s[0] == c then [] else [s[0]]) + Remove(s[1..], c)
  }

  /** Every character other than c survives the removal. */
  lemma {:induction false} RemoveKeeps(s: string, c: char, i: nat)
    requires i < |s| && s[i] != c
    ensures s[i] in Remove(s, c)
  {
    if i > 0 {
      RemoveKeeps(s[1..], c, i - 1);
    }
  }

  /** Removing c from a text with one more c in it gives the same result. */
  lemma {:induction false} RemoveSkips(a: string, b: string, c: char)
    ensures Remove(a + [c] + b, c) == Remove(a + b, c)
  {
    if a == [] {
      assert a + [c] + b == [c] + b && ([c] + b)[1..] == b;
      assert a + b == b;
    } else {
      assert (a + [c] + b)[1..] == a[1..] + [c] + b;
      assert (a + b)[1..] == a[1..] + b;
      RemoveSkips(a[1..], b, c);
    }
  }

  lemma AppendAssociates<T>(a: seq<T>, b: seq<T>, c: seq<T>)
    ensures (a + b) + c == a + (b + c)
  {
  }

  /** The character classes that runs are measured over: the regular
      expression classes `\d`, `\s` and `\S`. */
  datatype CharClass = Digit | Space | NonSpace

  predicate InClass(c: char, k: CharClass) {
    match k
    case Digit => IsDigit(c)
    case Space => IsSpace(c)
    case NonSpace => !IsSpace(c)
  }

  /** Length of the run of characters of class k that starts at i. */
  function RunLength(s: string, i: nat, k: CharClass): (n: nat)
    requires i <= |s|
    ensures i + n <= |s|
    ensures i + n == |s| || !InClass(s[i + n], k)
    decreases |s| - i
  {
    if i < |s| && InClass(s[i], k) then 1 + RunLength(s, i + 1, k) else 0
  }

  /** Every character of the run is of class k. */
  lemma {:induction false} RunHolds(s: string, i: nat, k: CharClass)
    requires i <= |s|
    ensures forall j :: i <= j < i + RunLength(s, i, k) ==> InClass(s[j], k)
    decreases |s| - i
  {
    if i < |s| && InClass(s[i], k) {
      RunHolds(s, i + 1, k);
    }
  }

  /** A run that is seen to stop at e has length e - i. */
  lemma {:induction false} RunEndsAt(s: string, i: nat, e: nat, k: CharClass)
    requires i <= e <= |s|
    requires forall j :: i <= j < e ==> InClass(s[j], k)
    requires e == |s| || !InClass(s[e], k)
    ensures RunLength(s, i, k) == e - i
    decreases e - i
  {
    if i < e {
      RunEndsAt(s, i + 1, e, k);
    }
  }

  /** A word of `split()`: non-empty, with no white space in it. */
  predicate IsWord(w: string) {
    w != [] && forall i :: 0 <= i < |w| ==> !IsSpace(w[i])
  }

  /** Length of the word t starts with. */
  function WordLength(t: string): (n: nat)
    requires t != [] && !IsSpace(t[0])
    ensures 0 < n <= |t| && IsWord(t[..n])
  {
    RunHolds(t, 0, NonSpace);
    RunLength(t, 0, NonSpace)
  }

  /** `s.split()` with no separator: the maximal runs of non-white-space
      characters, in order. */
  function Words(s: string): seq<string>
    decreases |s|
  {
    var t := TrimLeft(s);
    if t == [] then []
    else
      var n := WordLength(t);
      [t[..n]] + Words(t[n..])
  }

  lemma {:induction false} WordsAreWords(s: string)
    ensures forall k :: 0 <= k < |Words(s)| ==> IsWord(Words(s)[k])
    decreases |s|
  {
    var t := TrimLeft(s);
    if t != [] {
      var n := WordLength(t);
      var rest := Words(t[n..]);
      WordsAreWords(t[n..]);
      assert Words(s) == [t[..n]] + rest;
      forall k | 0 <= k < |Words(s)| ensures IsWord(Words(s)[k]) {
        if k > 0 { assert Words(s)[k] == rest[k - 1]; }
      }
    }
  }

  /** `''.join([w[0] for w in words])`. */
  function Initials(ws: seq<string>): (r: string)
    requires forall k :: 0 <= k < |ws| ==> ws[k] != []
    ensures |r| == |ws|
    ensures forall k :: 0 <= k < |ws| ==> r[k] == ws[k][0]
  {
    if ws == [] then [] else [ws[0][0]] + Initials(ws[1..])
  }

  /** Whether kw occurs in s starting at position k. */
  predicate OccursAt(s: string, k: nat, kw: string) {
    k + |kw| <= |s| && forall t :: 0 <= t < |kw| ==> s[k + t] == kw[t]
  }

  /** `kw in s`. */
  predicate Occurs(s: string, kw: string) {
    exists k: nat :: k <= |s| && OccursAt(s, k, kw)
  }

  /** Index of the first c in s, or |s| when there is none. */
  function IndexOf(s: string, c: char): (i: nat)
    ensures i <= |s|
    ensures i < |s| ==> s[i] == c
    ensures forall j :: 0 <= j < i ==> s[j] != c
  {
    if s == [] || s[0] == c then 0 else 1 + IndexOf(s[1..], c)
  }

  function DigitValue(c: char): (d: nat)
    requires IsDigit(c)
    ensures d <= 9
  {
    c as int - '0' as int
  }

  /** `int(s)` for a non-empty string of ASCII digits. */
  function DigitsValue(s: string): nat
    requires AllDigits(s)
    decreases |s|
  {
    if s == [] then 0 else 10 * DigitsValue(s[..|s| - 1]) + DigitValue(s[|s| - 1])
  }

  function Pow10(n: nat): (p: nat)
    ensures p >= 1
  {
    if n == 0 then 1 else 10 * Pow10(n - 1)
  }

  /** The exact value of the decimal numeral `whole.frac`. */
  function DecimalValue(whole: string, frac: string): real
    requires AllDigits(whole) && AllDigits(frac)
  {
    DigitsValue(whole) as real + DigitsValue(frac) as real / Pow10(|frac|) as real
  }

  /** The last `width` decimal digits of n, zero-padded, as `%0*d` prints them. */
  function PadDigits(n: nat, width: nat): (s: string)
    ensures |s| == width && AllDigits(s)
  {
    if width == 0 then [] else PadDigits(n / 10, width - 1) + [('0' as int + n % 10) as char]
  }

  /** Reading back a zero-padded numeral gives the number it was printed from. */
  lemma {:induction false} PadDigitsValue(n: nat, width: nat)
    requires n < Pow10(width)
    ensures DigitsValue(PadDigits(n, width)) == n
  {
    if width > 0 {
      var s := PadDigits(n, width);
      assert s[..width - 1] == PadDigits(n / 10, width - 1);
      assert DigitValue(s[width - 1]) == n % 10;
      assert n / 10 < Pow10(width - 1);
      PadDigitsValue(n / 10, width - 1);
    }
  }

  predicate HasDigit(s: string) {
    exists i :: 0 <= i < |s| && IsDigit(s[i])
  }

  /** The characters the amount pattern `[\d,.]+` leaves once commas are gone. */
  predicate DecimalChars(s: string) {
    forall i :: 0 <= i < |s| ==> IsDigit(s[i]) || s[i] == '.'
  }

  predicate AtMostOnePoint(s: string) {
    forall i, j :: 0 <= i < j < |s| && s[i] == '.' ==> s[j] != '.'
  }

  /** Python's `float(s)` for text made only of ASCII digits and points (what
      the amount pattern captures once its commas are removed): it succeeds
      exactly when there is at most one point and at least one digit, and then
      gives the exact decimal value (rounding to a binary float is not modelled). */
  function ParseFloat(s: string): (r: Option<real>)
    requires DecimalChars(s)
    ensures r.Some? && '.' !in s ==> r.value == DigitsValue(s) as real
  {
    var p := IndexOf(s, '.');
    if p == |s| then
      if s == [] then None else Some(DigitsValue(s) as real)
    else
      var whole, frac := s[..p], s[p + 1..];
      assert AllDigits(whole);
      if '.' in frac || (whole == [] && frac == []) then None
      else
        assert AllDigits(frac) by {
          forall i | 0 <= i < |frac| ensures IsDigit(frac[i]) {
            assert frac[i] == s[p + 1 + i];
          }
        }
        Some(DecimalValue(whole, frac))
  }

  /** `float` accepts such text exactly when it has a digit and at most one point. */
  lemma ParseFloatSucceeds(s: string)
    requires DecimalChars(s)
    ensures ParseFloat(s).Some? <==> HasDigit(s) && AtMostOnePoint(s)
  {
    var p := IndexOf(s, '.');
    if p == |s| {
      assert AtMostOnePoint(s);
      if s != [] {
        assert IsDigit(s[0]);
      }
    } else {
      var whole, frac := s[..p], s[p + 1..];
      if '.' in frac {
        var j :| 0 <= j < |frac| && frac[j] == '.';
        assert s[p + 1 + j] == '.';
      } else if whole == [] && frac == [] {
        assert s == ['.'];
      } else {
        assert AtMostOnePoint(s) by {
          forall i, j | 0 <= i < j < |s| && s[i] == '.' ensures s[j] != '.' {
            assert i == p;
            assert s[j] == frac[j - p - 1];
          }
        }
        assert HasDigit(s) by {
          if whole != [] { assert IsDigit(s[0]); } else { assert IsDigit(s[p + 1]); }
        }
      }
    }
  }

  /** A numeral `whole.frac` reads back as its decimal value. */
  lemma ParseFloatOfNumeral(whole: string, frac: string)
    requires whole != [] && AllDigits(whole) && AllDigits(frac)
    ensures DecimalChars(whole + "." + frac)
    ensures ParseFloat(whole + "." + frac) == Some(DecimalValue(whole, frac))
  {
    var s := whole + "." + frac;
    var p := |whole|;
    assert DecimalChars(s) by {
      forall i | 0 <= i < |s| ensures IsDigit(s[i]) || s[i] == '.' {
        if i < p { assert s[i] == whole[i]; }
        else if i > p { assert s[i] == frac[i - p - 1]; }
      }
    }
    assert IndexOf(s, '.') == p by {
      assert s[p] == '.';
      forall j | 0 <= j < p ensures s[j] != '.' {
        assert s[j] == whole[j];
      }
    }
    assert s[..p] == whole;
    assert s[p + 1..] == frac;
    assert '.' !in frac by {
      forall j | 0 <= j < |frac| ensures frac[j] != '.' { assert IsDigit(frac[j]); }
    }
  }
}
