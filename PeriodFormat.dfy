/**
 * The sentence that reports how long repaying takes, from a number of
 * months: "It will take 1 year and 1 month to repay this loan!".
 */
module PeriodFormat {
  import opened Wrappers

  predicate IsDigit(c: char)
  {
    '0' <= c <= '9'
  }

  function DigitChar(d: nat): (c: char)
    requires d < 10
    ensures IsDigit(c) && c as int - '0' as int == d
  {
    ('0' as int + d) as char
  }

  /** The decimal numeral of `n`, as Python's `str` writes a non-negative int. */
  function NatToString(n: nat): (s: string)
    ensures |s| >= 1
    ensures forall k :: 0 <= k < |s| ==> IsDigit(s[k])
    ensures s[0] == '0' ==> n == 0
    decreases n
  {
    if n < 10 then [DigitChar(n)] else NatToString(n / 10) + [DigitChar(n % 10)]
  }

  /** The value of a string of decimal digits. */
  function DigitsValue(s: string): nat
    requires forall k :: 0 <= k < |s| ==> IsDigit(s[k])
  {
    if s == [] then 0
    else
      assert IsDigit(s[|s| - 1]);
      DigitsValue(s[..|s| - 1]) * 10 + (s[|s| - 1] as int - '0' as int)
  }

  /** Reading a numeral back gives the number it was written from. */
  lemma {:induction false} DigitsValueOfNatToString(n: nat)
    ensures DigitsValue(NatToString(n)) == n
    decreases n
  {
    if n >= 10 {
      var s := NatToString(n);
      assert s[..|s| - 1] == NatToString(n / 10);
      DigitsValueOfNatToString(n / 10);
    }
  }

  /** How many digits `s` starts with. */
  function DigitRun(s: string): (r: nat)
    ensures r <= |s|
    ensures forall k :: 0 <= k < r ==> IsDigit(s[k])
    ensures r < |s| ==> !IsDigit(s[r])
  {
    if s == [] || !IsDigit(s[0]) then 0 else 1 + DigitRun(s[1..])
  }

  /** A run of digits followed by a non-digit is read off as exactly that run. */
  lemma DigitRunOfAppend(a: string, b: string)
    requires forall k :: 0 <= k < |a| ==> IsDigit(a[k])
    requires b == [] || !IsDigit(b[0])
    ensures DigitRun(a + b) == |a|
  {
    assert forall k :: 0 <= k < |a| ==> (a + b)[k] == a[k];
    assert |a| < |a + b| ==> (a + b)[|a|] == b[0];
  }

  /** Splits a number of months into whole years and the months left over. */
  function Split(n: int): (yearsMonths: (int, int))
    ensures 12 * yearsMonths.0 + yearsMonths.1 == n
    ensures 0 <= yearsMonths.1 < 12
  {
    // Dafny's / and % by a positive divisor floor like Python's // and %.
    (n / 12, n % 12)
  }

  datatype Unit = Year | Month

  function UnitWord(u: Unit): string
  {
    match u
    case Year => "year"
    case Month => "month"
  }

  /** "1 year", "2 years", "1 month", "11 months": the count, then the unit, plural unless it is one. */
  function Phrase(count: nat, u: Unit): (p: string)
    requires 1 <= count
  {
    NatToString(count) + " " + UnitWord(u) + (if count == 1 then "" else "s")
  }

  /**
   * The duration phrase, case by case: the years part when there is at
   * least one whole year, the months part when months are left over, joined
   * by " and " when both are there, and nothing when neither is.
   */
  function Duration(n: int): string
  {
    var (years, months) := Split(n);
    if 1 <= years && 1 <= months then Phrase(years, Year) + " and " + Phrase(months, Month)
    else if 1 <= years then Phrase(years, Year)
    else if 1 <= months then Phrase(months, Month)
    else ""
  }

  /** Python's `sep.join(parts)`. */
  function Join(parts: seq<string>, sep: string): string
  {
    if |parts| == 0 then ""
    else if |parts| == 1 then parts[0]
    else parts[0] + sep + Join(parts[1..], sep)
  }

  /**
   * The sentence for `nMonths`, built as the source builds it: a list of
   * parts, appended to one by one, then joined with " and ".
   */
  method FormatPeriodOutput(nMonths: int) returns (sentence: string)
    ensures sentence == "It will take " + Duration(nMonths) + " to repay this loan!"
  {
    var (years, months) := Split(nMonths);
    var result: seq<string> := [];
    if years == 1 {
      result := result + ["1 year"];
    } else if years > 1 {
      result := result + [NatToString(years) + " years"];
    }
    if months == 1 {
      result := result + ["1 month"];
    } else if months > 1 {
      result := result + [NatToString(months) + " months"];
    }
    var durationStr := Join(result, " and ");
    assert durationStr == Duration(nMonths) by {
      assert Split(nMonths) == (years, months);
      assert Phrase(1, Year) == "1 year";
      assert Phrase(1, Month) == "1 month";
      assert years > 1 ==> Phrase(years, Year) == NatToString(years) + " years";
      assert months > 1 ==> Phrase(months, Month) == NatToString(months) + " months";
      if 1 <= years && 1 <= months {
        assert result == [Phrase(years, Year), Phrase(months, Month)];
        assert result[1..] == [Phrase(months, Month)];
        assert Join(result[1..], " and ") == Phrase(months, Month);
        assert durationStr == Phrase(years, Year) + " and " + Phrase(months, Month);
      } else if 1 <= years {
        assert result == [Phrase(years, Year)];
      } else if 1 <= months {
        assert result == [Phrase(months, Month)];
      } else {
        assert result == [];
      }
    }
    sentence := "It will take " + durationStr + " to repay this loan!";
  }

  /** Reads " years", " year", " months" or " month" off the front of `s`: the unit and what follows. */
  function ReadUnit(s: string): Option<(Unit, string)>
  {
    if " years" <= s then Some((Year, s[6..]))
    else if " year" <= s then Some((Year, s[5..]))
    else if " months" <= s then Some((Month, s[7..]))
    else if " month" <= s then Some((Month, s[6..]))
    else None
  }

  /** Reads "<count> <unit>" or "<count> <unit>s" off the front of `s`: the count, the unit and what follows. */
  function ReadPhrase(s: string): Option<(nat, Unit, string)>
  {
    var j := DigitRun(s);
    if j == 0 then None
    else
      match ReadUnit(s[j..])
      case None => None
      case Some((u, rest)) => Some((DigitsValue(s[..j]), u, rest))
  }

  /** Reads a duration phrase back into its years and months. */
  function ReadDuration(d: string): Option<(int, int)>
  {
    if d == [] then Some((0, 0))
    else
      match ReadPhrase(d)
      case None => None
      case Some((k, Month, rest)) => if rest == [] then Some((0, k)) else None
      case Some((k, Year, rest)) => if rest == [] then Some((k, 0)) else ReadMonthsAfterYears(k, rest)
  }

  /** Reads " and <count> month(s)" following the years part. */
  function ReadMonthsAfterYears(years: int, rest: string): Option<(int, int)>
  {
    if " and " <= rest then
      match ReadPhrase(rest[5..])
      case Some((k, Month, rest2)) => if rest2 == [] then Some((years, k)) else None
      case _ => None
    else None
  }

  /** A unit word, singular or plural, followed by nothing or by a space is read back as that unit. */
  lemma ReadUnitOf(u: Unit, plural: bool, t: string)
    requires t == [] || t[0] == ' '
    ensures ReadUnit(" " + UnitWord(u) + (if plural then "s" else "") + t) == Some((u, t))
  {
    var s := " " + UnitWord(u) + (if plural then "s" else "") + t;
    match u
    case Year =>
      if plural {
        assert s == " years" + t;
      } else {
        assert s == " year" + t;
        assert !(" years" <= s) by {
          if |s| >= 6 { assert s[5] == t[0]; }
        }
      }
    case Month =>
      assert s[1] == 'm';
      if plural {
        assert s == " months" + t;
      } else {
        assert s == " month" + t;
        assert !(" months" <= s) by {
          if |s| >= 7 { assert s[6] == t[0]; }
        }
      }
  }

  /** A phrase followed by nothing or by a space is read back as its count and unit. */
  lemma ReadPhraseOf(count: nat, u: Unit, t: string)
    requires 1 <= count
    requires t == [] || t[0] == ' '
    ensures ReadPhrase(Phrase(count, u) + t) == Some((count, u, t))
  {
    var digits := NatToString(count);
    var tail := " " + UnitWord(u) + (if count == 1 then "" else "s") + t;
    var s := Phrase(count, u) + t;
    assert s == digits + tail;
    DigitRunOfAppend(digits, tail);
    assert s[..|digits|] == digits;
    assert s[|digits|..] == tail;
    DigitsValueOfNatToString(count);
    ReadUnitOf(u, count != 1, t);
  }

  /** A years part followed by a months part is read back as both counts. */
  lemma ReadYearsAndMonths(years: nat, months: nat)
    requires 1 <= years && 1 <= months
    ensures ReadDuration(Phrase(years, Year) + " and " + Phrase(months, Month)) == Some((years, months))
  {
    var second := Phrase(months, Month);
    var rest := " and " + second;
    assert Phrase(years, Year) + " and " + second == Phrase(years, Year) + rest;
    ReadPhraseOf(years, Year, rest);
    assert rest[5..] == second + [];
    ReadPhraseOf(months, Month, []);
  }

  /** A phrase alone is read back as its count in its own place. */
  lemma ReadSinglePart(count: nat, u: Unit)
    requires 1 <= count
    ensures ReadDuration(Phrase(count, u)) == if u == Year then Some((count, 0)) else Some((0, count))
  {
    assert Phrase(count, u) == Phrase(count, u) + [];
    ReadPhraseOf(count, u, []);
  }

  /**
   * The duration phrase of a non-negative number of months can be read back
   * into the years and months it was built from, so the sentence tells the
   * number of months exactly.
   */
  lemma DurationRoundTrip(n: int)
    requires 0 <= n
    ensures ReadDuration(Duration(n)) == Some(Split(n))
  {
    var (years, months) := Split(n);
    if 1 <= years && 1 <= months {
      ReadYearsAndMonths(years, months);
    } else if 1 <= years {
      ReadSinglePart(years, Year);
    } else if 1 <= months {
      ReadSinglePart(months, Month);
    }
  }

  /** Two different non-negative numbers of months never give the same phrase. */
  lemma DurationInjective(n1: int, n2: int)
    requires 0 <= n1 && 0 <= n2
    requires Duration(n1) == Duration(n2)
    ensures n1 == n2
  {
    DurationRoundTrip(n1);
    DurationRoundTrip(n2);
  }

  /** The phrases of 0, 1, 12, 13 and 25 months. */
  lemma DurationExamples()
    ensures Duration(0) == ""
    ensures Duration(1) == "1 month"
    ensures Duration(12) == "1 year"
    ensures Duration(13) == "1 year and 1 month"
    ensures Duration(25) == "2 years and 1 month"
  {
    assert Phrase(1, Year) == "1 year";
    assert Phrase(1, Month) == "1 month";
    assert NatToString(2) == "2";
    assert Phrase(2, Year) == "2 years";
    assert Split(0) == (0, 0) && Split(1) == (0, 1) && Split(12) == (1, 0);
    assert Split(13) == (1, 1) && Split(25) == (2, 1);
  }
}
