/**
 * Dates as the commands use them: the three fields of a struct tm that
 * matter here, the "%d-%d-%d" prefix that sscanf reads from an ISO-8601
 * text, and the texts the commands write back.
 */
module Dates {
  import opened Wrappers
  import opened Strings

  /** tm_year (years since 1900), tm_mon (months since January) and tm_mday. */
  datatype Tm = Tm(year: int, mon: int, mday: int)

  /** The calendar date a struct tm holds, the way the program writes it: year, month 1-12, day. */
  function Calendar(t: Tm): (int, int, int) {
    (t.year + 1900, t.mon + 1, t.mday)
  }

  // --------------------------------------------------------------- sscanf

  /**
   * The digits from k on, accumulated into acc as strtol does: the value
   * and the position of the first character that is not a digit.
   */
  function ReadDigits(s: string, k: nat, acc: nat): (r: (nat, nat))
    requires k <= |s|
    decreases |s| - k
  {
    if k < |s| && IsDigit(s[k]) then ReadDigits(s, k + 1, acc * 10 + DigitValue(s[k])) else (acc, k)
  }

  /** The digits at k, read as a number: the value and the position after the last digit. */
  function ScanDigits(s: string, k: nat): (r: Option<(int, nat)>)
    requires k <= |s|
  {
    if k < |s| && IsDigit(s[k]) then
      var (v, e) := ReadDigits(s, k, 0);
      Some((v as int, e))
    else None
  }

  /** The number at j with an optional sign in front. */
  function ScanSigned(s: string, j: nat): (r: Option<(int, nat)>)
    requires j <= |s|
  {
    if j < |s| && s[j] == '-' then
      match ScanDigits(s, j + 1)
      case None => None
      case Some((v, e)) => Some((-v, e))
    else if j < |s| && s[j] == '+' then ScanDigits(s, j + 1)
    else ScanDigits(s, j)
  }

  /**
   * sscanf's %d at position i: white space is skipped, then an optional
   * sign and at least one digit are read. The value and the position after
   * it, or nothing when no digit follows.
   */
  function ScanInt(s: string, i: nat): (r: Option<(int, nat)>)
    requires i <= |s|
    decreases |s| - i
  {
    if i < |s| && IsCSpace(s[i]) then ScanInt(s, i + 1) else ScanSigned(s, i)
  }

  /**
   * The three fields "%d-%d-%d" that every date parse here reads: each
   * '-' of the format must be the next character. What follows the day
   * (the time of day) is never used.
   */
  function ScanDate(s: string): (r: Option<(int, int, int)>) {
    match ScanInt(s, 0)
    case None => None
    case Some((y, i)) =>
      if i < |s| && s[i] == '-' then
        match ScanInt(s, i + 1)
        case None => None
        case Some((m, j)) =>
          if j < |s| && s[j] == '-' then
            match ScanInt(s, j + 1)
            case None => None
            case Some((d, _)) => Some((y, m, d))
          else None
      else None
  }

  /** A variable sscanf did not assign is read uninitialised. */
  const Unscanned := UndefinedBehaviour("a date field sscanf did not assign is read")

  /**
   * PhenotoolsCommand::string_to_time: the year less 1900, the month less
   * one and the day, from the leading "Y-M-D" of the text.
   */
  function StringToTime(s: string): (r: Result<Tm>)
    ensures r.Err? ==> r.error == Unscanned
  {
    match ScanDate(s)
    case None => Err(Unscanned)
    case Some((y, m, d)) => Ok(Tm(y - 1900, m - 1, d))
  }

  /** The struct tm holds the calendar date read, and there is one exactly when all three fields are read. */
  lemma StringToTimeMeaning(s: string)
    ensures StringToTime(s).Ok? <==> ScanDate(s).Some?
    ensures StringToTime(s).Ok? ==> Calendar(StringToTime(s).value) == ScanDate(s).value
  {
  }

  // ---------------------------------------------------------------- texts

  /** The text of a number, as operator<< writes it, zero-padded to two places or not. */
  function Number(v: int, padded: bool): string {
    if padded then PadLeft2(IntToString(v)) else IntToString(v)
  }

  /** stringify_date: the year, then the month and the day zero-padded to two places. */
  function StringifyDate(t: Tm): (r: string) {
    Number(t.year + 1900, false) + "-" + Number(t.mon + 1, true) + "-" + Number(t.mday, true)
  }

  /** The date as the row writers print it: year, month and day without padding. */
  function PlainDate(t: Tm): (r: string) {
    Number(t.year + 1900, false) + "-" + Number(t.mon + 1, false) + "-" + Number(t.mday, false)
  }

  /** (a.year, a.mon, a.mday) is not after (b.year, b.mon, b.mday) in lexicographic order. */
  predicate DateLeq(a: Tm, b: Tm) {
    a.year < b.year || (a.year == b.year && (a.mon < b.mon || (a.mon == b.mon && a.mday <= b.mday)))
  }

  // ---------------------------------------------------- reading back a date

  /** Leading zeros do not change the value of a run of digits. */
  lemma {:induction false} LeadingZero(s: string)
    requires AllDigits(s)
    ensures AllDigits("0" + s) && DigitsValue("0" + s) == DigitsValue(s)
  {
    if |s| > 0 {
      var p := s[..|s| - 1];
      LeadingZero(p);
      assert ("0" + s)[..|"0" + s| - 1] == "0" + p;
    }
  }

  /** Reading a run of digits after a prefix p gives the value of the prefix and the run together. */
  lemma {:induction false} ReadDigitsAt(s: string, k: nat, p: string, digits: string)
    requires AllDigits(p) && AllDigits(digits)
    requires k + |digits| <= |s| && s[k..k + |digits|] == digits
    requires k + |digits| == |s| || !IsDigit(s[k + |digits|])
    ensures AllDigits(p + digits)
    ensures ReadDigits(s, k, DigitsValue(p)) == (DigitsValue(p + digits), k + |digits|)
    decreases |digits|
  {
    if |digits| == 0 {
      assert p + digits == p;
    } else {
      var c := digits[0];
      assert s[k] == c;
      var q := p + [c];
      assert q[..|q| - 1] == p;
      assert s[k + 1..k + |digits|] == digits[1..];
      ReadDigitsAt(s, k + 1, q, digits[1..]);
      assert q + digits[1..] == p + digits;
    }
  }

  /** The digits at k are read in full. */
  lemma ScanDigitsAt(s: string, k: nat, digits: string)
    requires |digits| >= 1 && AllDigits(digits)
    requires k + |digits| <= |s| && s[k..k + |digits|] == digits
    requires k + |digits| == |s| || !IsDigit(s[k + |digits|])
    ensures ScanDigits(s, k) == Some((DigitsValue(digits) as int, k + |digits|))
  {
    assert s[k] == digits[0];
    ReadDigitsAt(s, k, "", digits);
    assert "" + digits == digits;
  }

  /** A run of digits, followed by the end or by something that is not a digit, is read back by %d. */
  lemma ScanIntAt(s: string, i: nat, digits: string)
    requires |digits| >= 1 && AllDigits(digits)
    requires i + |digits| <= |s| && s[i..i + |digits|] == digits
    requires i + |digits| == |s| || !IsDigit(s[i + |digits|])
    ensures ScanInt(s, i) == Some((DigitsValue(digits) as int, i + |digits|))
  {
    assert s[i] == digits[0];
    ScanDigitsAt(s, i, digits);
  }

  /** The same run with a '-' in front is read back as its negation. */
  lemma ScanNegativeAt(s: string, i: nat, digits: string)
    requires |digits| >= 1 && AllDigits(digits)
    requires i + 1 + |digits| <= |s| && s[i] == '-' && s[i + 1..i + 1 + |digits|] == digits
    requires i + 1 + |digits| == |s| || !IsDigit(s[i + 1 + |digits|])
    ensures ScanInt(s, i) == Some((-(DigitsValue(digits) as int), i + 1 + |digits|))
  {
    ScanDigitsAt(s, i + 1, digits);
  }

  /** A number written as an optional '-' and its digits. */
  function Signed(neg: bool, digits: string): string {
    (if neg then "-" else "") + digits
  }

  /** The value of such a text. */
  function SignedValue(neg: bool, digits: string): int
    requires AllDigits(digits)
  {
    if neg then -(DigitsValue(digits) as int) else DigitsValue(digits)
  }

  /** The sign and the digits of a number as operator<< writes it, padded to two places or not. */
  lemma NumberText(v: int, padded: bool) returns (neg: bool, digits: string)
    ensures |digits| >= 1 && AllDigits(digits)
    ensures SignedValue(neg, digits) == v
    ensures Number(v, padded) == Signed(neg, digits)
  {
    neg := v < 0;
    var plain := NatToString(if v < 0 then -v else v);
    NatToStringDigits(if v < 0 then -v else v);
    if padded && 0 <= v < 10 {
      LeadingZero(plain);
      digits := "0" + plain;
    } else {
      digits := plain;
    }
  }

  /** A signed number text is read back by %d when no digit follows it. */
  lemma ScanText(s: string, i: nat, neg: bool, digits: string)
    requires |digits| >= 1 && AllDigits(digits)
    requires i + |Signed(neg, digits)| <= |s| && s[i..i + |Signed(neg, digits)|] == Signed(neg, digits)
    requires i + |Signed(neg, digits)| == |s| || !IsDigit(s[i + |Signed(neg, digits)|])
    ensures ScanInt(s, i) == Some((SignedValue(neg, digits), i + |Signed(neg, digits)|))
  {
    var n := Signed(neg, digits);
    if neg {
      assert s[i] == n[0];
      assert s[i + 1..i + 1 + |digits|] == n[1..];
      ScanNegativeAt(s, i, digits);
    } else {
      ScanIntAt(s, i, digits);
    }
  }

  /** The three numbers and the two dashes between them make the date. */
  lemma ScanDateAt(s: string, y: int, i: nat, m: int, j: nat, d: int, k: nat)
    requires ScanInt(s, 0) == Some((y, i)) && i < |s| && s[i] == '-'
    requires ScanInt(s, i + 1) == Some((m, j)) && j < |s| && s[j] == '-'
    requires ScanInt(s, j + 1) == Some((d, k))
    ensures ScanDate(s) == Some((y, m, d))
  {
  }

  /** Three signed numbers at 0, i + 1 and j + 1, with a dash at i and at j, are read as the date. */
  lemma ScanDateIn(s: string, ny: bool, y: string, i: nat, nm: bool, m: string, j: nat, nd: bool, d: string, k: nat)
    requires |y| >= 1 && AllDigits(y) && |m| >= 1 && AllDigits(m) && |d| >= 1 && AllDigits(d)
    requires i == |Signed(ny, y)| && j == i + 1 + |Signed(nm, m)| && k == j + 1 + |Signed(nd, d)| && k <= |s|
    requires s[..i] == Signed(ny, y) && s[i] == '-'
    requires s[i + 1..j] == Signed(nm, m) && s[j] == '-'
    requires s[j + 1..k] == Signed(nd, d)
    requires k == |s| || !IsDigit(s[k])
    ensures ScanDate(s) == Some((SignedValue(ny, y), SignedValue(nm, m), SignedValue(nd, d)))
  {
    var vy, vm, vd := SignedValue(ny, y), SignedValue(nm, m), SignedValue(nd, d);
    assert ScanInt(s, 0) == Some((vy, i)) by {
      assert s[0..i] == s[..i] && !IsDigit(s[i]);
      ScanText(s, 0, ny, y);
    }
    assert ScanInt(s, i + 1) == Some((vm, j)) by {
      assert !IsDigit(s[j]);
      ScanText(s, i + 1, nm, m);
    }
    assert ScanInt(s, j + 1) == Some((vd, k)) by {
      ScanText(s, j + 1, nd, d);
    }
    ScanDateAt(s, vy, i, vm, j, vd, k);
  }

  /** A date text "y-m-d" made of three signed numbers is read back, whatever follows the day. */
  lemma ScanDateReads(ny: bool, y: string, nm: bool, m: string, nd: bool, d: string, rest: string)
    requires |y| >= 1 && AllDigits(y) && |m| >= 1 && AllDigits(m) && |d| >= 1 && AllDigits(d)
    requires |rest| == 0 || !IsDigit(rest[0])
    ensures ScanDate(Signed(ny, y) + "-" + Signed(nm, m) + "-" + Signed(nd, d) + rest)
         == Some((SignedValue(ny, y), SignedValue(nm, m), SignedValue(nd, d)))
  {
    var ty, tm, td := Signed(ny, y), Signed(nm, m), Signed(nd, d);
    DashedParts(ty, tm, td, rest);
    var s := ty + "-" + tm + "-" + td + rest;
    var i := |ty|;
    var j := i + 1 + |tm|;
    var k := j + 1 + |td|;
    ScanDateIn(s, ny, y, i, nm, m, j, nd, d, k);
  }

  /** Where the parts of "a-b-c" followed by rest sit in the text. */
  lemma DashedParts(a: string, b: string, c: string, rest: string)
    ensures var s := a + "-" + b + "-" + c + rest;
      var i := |a|;
      var j := i + 1 + |b|;
      var k := j + 1 + |c|;
      k <= |s| && s[..i] == a && s[i] == '-' && s[i + 1..j] == b && s[j] == '-' && s[j + 1..k] == c
      && (k == |s| || s[k] == rest[0])
  {
    var s := a + "-" + b + "-" + c + rest;
    var i := |a|;
    var j := i + 1 + |b|;
    var k := j + 1 + |c|;
    assert s[..i] == a;
    assert s[i + 1..j] == b;
    assert s[j + 1..k] == c;
    assert s[k..] == rest;
  }

  /** string_to_time reads back what stringify_date writes. */
  lemma StringifyDateRoundTrip(t: Tm)
    ensures StringToTime(StringifyDate(t)) == Ok(t)
  {
    var ny, y := NumberText(t.year + 1900, false);
    var nm, m := NumberText(t.mon + 1, true);
    var nd, d := NumberText(t.mday, true);
    DateTextRead(t, ny, y, nm, m, nd, d);
  }

  /** Three signed numbers holding the calendar date of t, joined by dashes, are read as t. */
  lemma DateTextRead(t: Tm, ny: bool, y: string, nm: bool, m: string, nd: bool, d: string)
    requires |y| >= 1 && AllDigits(y) && |m| >= 1 && AllDigits(m) && |d| >= 1 && AllDigits(d)
    requires (SignedValue(ny, y), SignedValue(nm, m), SignedValue(nd, d)) == Calendar(t)
    ensures StringToTime(Signed(ny, y) + "-" + Signed(nm, m) + "-" + Signed(nd, d)) == Ok(t)
  {
    var text := Signed(ny, y) + "-" + Signed(nm, m) + "-" + Signed(nd, d);
    assert ScanDate(text) == Some(Calendar(t)) by {
      ScanDateReads(ny, y, nm, m, nd, d, "");
      assert text + "" == text;
    }
  }

  /** string_to_time reads back the unpadded text too, and anything after the day is ignored. */
  lemma PlainDateRoundTrip(t: Tm, rest: string)
    requires |rest| == 0 || !IsDigit(rest[0])
    ensures StringToTime(PlainDate(t) + rest) == Ok(t)
  {
    var ny, y := NumberText(t.year + 1900, false);
    var nm, m := NumberText(t.mon + 1, false);
    var nd, d := NumberText(t.mday, false);
    ScanDateReads(ny, y, nm, m, nd, d, rest);
    assert PlainDate(t) + rest == Signed(ny, y) + "-" + Signed(nm, m) + "-" + Signed(nd, d) + rest;
  }
}
