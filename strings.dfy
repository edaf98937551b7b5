/**
 * The C++ std::string and Python str operations the program relies on,
 * each specified by what it finds rather than by how it searches.
 * Characters compare by code point, which for the byte strings the
 * program handles is the unsigned-char order std::string uses.
 */
module Strings {
  import opened Wrappers

  // ---------------------------------------------------------------- search

  /** std::string::find(char) / find_first_of(char): the first position of c. */
  function FindChar(s: string, c: char): (r: Option<nat>)
    ensures r.None? <==> c !in s
    ensures r.Some? ==> r.value < |s| && s[r.value] == c && c !in s[..r.value]
  {
    if |s| == 0 then None
    else if s[0] == c then Some(0)
    else match FindChar(s[1..], c)
      case None => None
      case Some(i) =>
        assert s[..i + 1] == [s[0]] + s[1..][..i];
        Some(i + 1)
  }

  /** The position of a c with no c before it is what find reports. */
  lemma {:induction false} FindCharAt(s: string, c: char, i: nat)
    requires i < |s| && s[i] == c && c !in s[..i]
    ensures FindChar(s, c) == Some(i)
  {
    if i > 0 {
      assert s[0] in s[..i];
      assert s[1..][..i - 1] == s[..i][1..];
      FindCharAt(s[1..], c, i - 1);
    }
  }

  /** std::string::find_last_of(char): the last position of c. */
  function FindLastChar(s: string, c: char): (r: Option<nat>)
    ensures r.None? <==> c !in s
    ensures r.Some? ==> r.value < |s| && s[r.value] == c && c !in s[r.value + 1..]
  {
    if |s| == 0 then None
    else if s[|s| - 1] == c then Some(|s| - 1)
    else match FindLastChar(s[..|s| - 1], c)
      case None => None
      case Some(i) =>
        assert s[i + 1..] == s[..|s| - 1][i + 1..] + [s[|s| - 1]];
        Some(i)
  }

  /** A c with no c after it is what find_last_of reports. */
  lemma {:induction false} FindLastCharAt(s: string, c: char, i: nat)
    requires i < |s| && s[i] == c && c !in s[i + 1..]
    ensures FindLastChar(s, c) == Some(i)
    decreases |s|
  {
    if i < |s| - 1 {
      assert s[|s| - 1] in s[i + 1..];
      assert s[..|s| - 1][i + 1..] == s[i + 1..][..|s| - i - 2];
      FindLastCharAt(s[..|s| - 1], c, i);
    }
  }

  /** std::string::find_first_of(chars): the first position holding any of the characters. */
  function FindFirstOf(s: string, chars: set<char>): (r: Option<nat>)
    ensures r.None? <==> forall k :: 0 <= k < |s| ==> s[k] !in chars
    ensures r.Some? ==> r.value < |s| && s[r.value] in chars
                        && forall k :: 0 <= k < r.value ==> s[k] !in chars
  {
    if |s| == 0 then None
    else if s[0] in chars then Some(0)
    else match FindFirstOf(s[1..], chars)
      case None => None
      case Some(i) => Some(i + 1)
  }

  /** pat occurs in s starting at position i. */
  predicate OccursAt(s: string, pat: string, i: nat) {
    i + |pat| <= |s| && s[i..i + |pat|] == pat
  }

  /** Each character of an occurrence is in the text at its place. */
  lemma OccursAtChar(s: string, pat: string, i: nat, k: nat)
    requires k < |pat|
    ensures OccursAt(s, pat, i) ==> i + k < |s| && s[i + k] == pat[k]
  {
    if OccursAt(s, pat, i) {
      assert s[i..i + |pat|][k] == s[i + k];
    }
  }

  /** A text without character c holds no pattern that has c at position k. */
  lemma NotContainsForChar(s: string, pat: string, k: nat)
    requires k < |pat| && pat[k] !in s
    ensures !Contains(s, pat)
  {
    forall i: nat ensures !OccursAt(s, pat, i) {
      OccursAtChar(s, pat, i, k);
    }
  }

  /** std::string::find(string) / Python `in`: the first position where pat occurs. */
  function Find(s: string, pat: string): (r: Option<nat>)
    ensures r.None? <==> forall i: nat :: !OccursAt(s, pat, i)
    ensures r.Some? ==> OccursAt(s, pat, r.value)
                        && forall i: nat :: i < r.value ==> !OccursAt(s, pat, i)
  {
    FindFrom(s, pat, 0)
  }

  function FindFrom(s: string, pat: string, from: nat): (r: Option<nat>)
    ensures r.None? <==> forall i: nat :: from <= i ==> !OccursAt(s, pat, i)
    ensures r.Some? ==> from <= r.value && OccursAt(s, pat, r.value)
                        && forall i: nat :: from <= i < r.value ==> !OccursAt(s, pat, i)
    decreases |s| - from
  {
    if from + |pat| > |s| then None
    else if s[from..from + |pat|] == pat then
      assert OccursAt(s, pat, from);
      Some(from)
    else FindFrom(s, pat, from + 1)
  }

  predicate Contains(s: string, pat: string) {
    Find(s, pat).Some?
  }

  /** Python str.startswith and C++ `s.rfind(p, 0) == 0`. */
  predicate StartsWith(s: string, p: string) {
    |p| <= |s| && s[..|p|] == p
  }

  predicate EndsWith(s: string, p: string) {
    |p| <= |s| && s[|s| - |p|..] == p
  }

  /** The text after the last c, or all of s when c does not occur. */
  function AfterLast(s: string, c: char): (r: string)
    ensures c !in r
    ensures c !in s ==> r == s
    ensures c in s ==> |r| < |s| && s == s[..|s| - |r| - 1] + [c] + r
  {
    match FindLastChar(s, c)
    case None => s
    case Some(i) => s[i + 1..]
  }

  /** The text with the character at position i replaced by c (`s[i] = c`). */
  function ReplaceAt(s: string, i: nat, c: char): (r: string)
    requires i < |s|
    ensures |r| == |s| && r[i] == c
    ensures forall k :: 0 <= k < |s| && k != i ==> r[k] == s[k]
  {
    s[..i] + [c] + s[i + 1..]
  }

  // ---------------------------------------------------------- comparison

  /** std::string operator<: lexicographic on character codes, a proper prefix first. */
  predicate LexLess(a: string, b: string) {
    if |a| == 0 then |b| > 0
    else if |b| == 0 then false
    else if a[0] != b[0] then a[0] < b[0]
    else LexLess(a[1..], b[1..])
  }

  lemma {:induction false} LexLessIrreflexive(a: string)
    ensures !LexLess(a, a)
  {
    if |a| > 0 { LexLessIrreflexive(a[1..]); }
  }

  lemma {:induction false} LexLessTransitive(a: string, b: string, c: string)
    requires LexLess(a, b) && LexLess(b, c)
    ensures LexLess(a, c)
  {
    if |a| > 0 && |b| > 0 && |c| > 0 && a[0] == b[0] && b[0] == c[0] {
      LexLessTransitive(a[1..], b[1..], c[1..]);
    }
  }

  lemma {:induction false} LexLessTotal(a: string, b: string)
    ensures a == b || LexLess(a, b) || LexLess(b, a)
  {
    if |a| > 0 && |b| > 0 && a[0] == b[0] {
      LexLessTotal(a[1..], b[1..]);
      if a[1..] == b[1..] {
        assert a == [a[0]] + a[1..] && b == [b[0]] + b[1..];
      }
    }
  }

  lemma {:induction false} LexLessAsymmetric(a: string, b: string)
    requires LexLess(a, b)
    ensures !LexLess(b, a)
  {
    if |a| > 0 && |b| > 0 && a[0] == b[0] {
      LexLessAsymmetric(a[1..], b[1..]);
    }
  }

  predicate LexLessEq(a: string, b: string) {
    a == b || LexLess(a, b)
  }

  /** Sorted strictly ascending: the iteration order of a std::set<std::string>. */
  predicate StrictlySorted(s: seq<string>) {
    forall i, j :: 0 <= i < j < |s| ==> LexLess(s[i], s[j])
  }

  /** std::set::insert: the set's element order is kept sorted and free of repeats. */
  function SetInsert(s: seq<string>, x: string): (r: seq<string>)
    requires StrictlySorted(s)
    ensures StrictlySorted(r)
    ensures forall y :: y in r <==> y in s || y == x
    decreases |s|
  {
    if |s| == 0 then [x]
    else if x == s[0] then s
    else if LexLess(x, s[0]) then
      LexInsertHead(x, s);
      [x] + s
    else
      LexLessTotal(x, s[0]);
      var t := SetInsert(s[1..], x);
      LexInsertTail(s[0], t, s[1..], x);
      [s[0]] + t
  }

  lemma LexInsertHead(x: string, s: seq<string>)
    requires |s| > 0 && StrictlySorted(s) && LexLess(x, s[0])
    ensures StrictlySorted([x] + s)
  {
    forall j | 0 < j < |s| ensures LexLess(x, s[j]) {
      LexLessTransitive(x, s[0], s[j]);
    }
  }

  lemma LexInsertTail(h: string, t: seq<string>, rest: seq<string>, x: string)
    requires StrictlySorted(t) && LexLess(h, x)
    requires forall j :: 0 <= j < |rest| ==> LexLess(h, rest[j])
    requires forall y :: y in t <==> y in rest || y == x
    ensures StrictlySorted([h] + t)
  {
    forall j | 0 <= j < |t| ensures LexLess(h, t[j]) {
      assert t[j] in t;
    }
  }

  /** The sorted, repeat-free sequence of the given strings (a std::set filled from xs). */
  function SetOf(xs: seq<string>): (r: seq<string>)
    ensures StrictlySorted(r)
    ensures forall y :: y in r <==> y in xs
  {
    if |xs| == 0 then [] else SetInsert(SetOf(xs[..|xs| - 1]), xs[|xs| - 1])
  }

  // -------------------------------------------------------- split and join

  /**
   * The pieces std::getline yields when it reads s with delimiter d:
   * an empty text gives no piece and a trailing delimiter adds no empty piece.
   */
  function Pieces(s: string, d: char): (r: seq<string>)
    ensures forall k :: 0 <= k < |r| ==> d !in r[k]
    decreases |s|
  {
    if |s| == 0 then []
    else match FindChar(s, d)
      case None => [s]
      case Some(i) => [s[..i]] + Pieces(s[i + 1..], d)
  }

  /** The pieces separated by single occurrences of d (also the loop of get_biocuration_string). */
  function Join(pieces: seq<string>, d: char): (r: string)
    ensures |pieces| == 0 ==> r == []
  {
    if |pieces| == 0 then []
    else if |pieces| == 1 then pieces[0]
    else pieces[0] + [d] + Join(pieces[1..], d)
  }

  /** Joining the pieces gives back any text that does not end with the delimiter. */
  lemma {:induction false} JoinPieces(s: string, d: char)
    requires |s| == 0 || s[|s| - 1] != d
    ensures Join(Pieces(s, d), d) == s
    decreases |s|
  {
    if |s| > 0 && FindChar(s, d).Some? {
      var i := FindChar(s, d).value;
      var rest := s[i + 1..];
      assert i != |s| - 1;
      JoinPieces(rest, d);
      JoinPiecesStep(s, d, i);
    }
  }

  lemma JoinPiecesStep(s: string, d: char, i: nat)
    requires FindChar(s, d) == Some(i) && i < |s| - 1
    requires Join(Pieces(s[i + 1..], d), d) == s[i + 1..]
    ensures Join(Pieces(s, d), d) == s
  {
    var rest := s[i + 1..];
    assert s == s[..i] + [d] + rest by {
      assert s[i] == d;
    }
    var tail := Pieces(rest, d);
    assert Pieces(s, d) == [s[..i]] + tail;
    assert |tail| > 0 by {
      assert |rest| > 0;
    }
    JoinCons(s[..i], tail, d);
  }

  lemma JoinCons(p: string, tail: seq<string>, d: char)
    requires |tail| > 0
    ensures Join([p] + tail, d) == p + [d] + Join(tail, d)
  {
    assert ([p] + tail)[1..] == tail;
  }

  /** Splitting a join gives back the pieces, when none holds d and the last is not empty. */
  lemma {:induction false} PiecesJoin(pieces: seq<string>, d: char)
    requires forall k :: 0 <= k < |pieces| ==> d !in pieces[k]
    requires |pieces| > 0 ==> pieces[|pieces| - 1] != []
    ensures Pieces(Join(pieces, d), d) == pieces
  {
    if |pieces| == 1 {
    } else if |pieces| > 1 {
      var s := Join(pieces, d);
      var p := pieces[0];
      var rest := Join(pieces[1..], d);
      assert s == p + ([d] + rest);
      assert FindChar(s, d) == Some(|p|) by {
        assert s[|p|] == d && s[..|p|] == p;
        assert d !in p;
        FindCharAt(s, d, |p|);
      }
      assert s[|p| + 1..] == rest;
      assert rest != [] by {
        JoinNonEmpty(pieces[1..], d);
      }
      PiecesJoin(pieces[1..], d);
      assert Pieces(s, d) == [p] + Pieces(rest, d);
      assert pieces == [p] + pieces[1..];
    }
  }

  /** A join whose last piece is not empty is not empty. */
  lemma {:induction false} JoinNonEmpty(pieces: seq<string>, d: char)
    requires |pieces| > 0 && pieces[|pieces| - 1] != []
    ensures Join(pieces, d) != []
  {
    if |pieces| > 1 {
      JoinNonEmpty(pieces[1..], d);
    }
  }

  /**
   * Parsing the pieces of a join of texts gives back the values written,
   * when no text is empty or holds the delimiter and each parses back.
   */
  lemma ParsedPiecesJoin<T>(xs: seq<T>, text: T -> string, parse: string -> Result<T>, d: char)
    requires forall k :: 0 <= k < |xs| ==> text(xs[k]) != [] && d !in text(xs[k]) && parse(text(xs[k])) == Ok(xs[k])
    ensures Parsed(Pieces(Join(Mapped(xs, text), d), d), parse) == Ok(xs)
  {
    var texts := Mapped(xs, text);
    MappedMeaning(xs, text);
    PiecesJoin(texts, d);
    ParsedMeaning(texts, parse);
    assert Parsed(texts, parse).value == xs;
  }

  /**
   * Python str.split(sep) with an explicit separator: every piece, empty
   * ones included, so there is always at least one.
   */
  function PySplit(s: string, d: char): (r: seq<string>)
    ensures |r| >= 1
    ensures forall k :: 0 <= k < |r| ==> d !in r[k]
    ensures |r| == 1 <==> d !in s
    decreases |s|
  {
    match FindChar(s, d)
    case None => [s]
    case Some(i) => [s[..i]] + PySplit(s[i + 1..], d)
  }

  // ----------------------------------------------- whitespace and numbers

  /** The characters Python's str.strip() removes within the ASCII range: space, tab to carriage return, and the four separators 28..31. */
  predicate IsPySpace(c: char) {
    c == ' ' || (9 <= c as int <= 13) || (28 <= c as int <= 31)
  }

  /** The characters C's isspace() accepts (space, tab to carriage return), which sscanf's %d skips. */
  predicate IsCSpace(c: char) {
    c == ' ' || (9 <= c as int <= 13)
  }

  function LStrip(s: string): (r: string)
    ensures |r| <= |s| && r == s[|s| - |r|..]
    ensures |r| == 0 || !IsPySpace(r[0])
    ensures forall k :: 0 <= k < |s| - |r| ==> IsPySpace(s[k])
  {
    if |s| > 0 && IsPySpace(s[0]) then LStrip(s[1..]) else s
  }

  /** Python str.rstrip(). */
  function RStrip(s: string): (r: string)
    ensures |r| <= |s| && r == s[..|r|]
    ensures |r| == 0 || !IsPySpace(r[|r| - 1])
    ensures forall k :: |r| <= k < |s| ==> IsPySpace(s[k])
  {
    if |s| > 0 && IsPySpace(s[|s| - 1]) then RStrip(s[..|s| - 1]) else s
  }

  /** Python str.strip(): no leading and no trailing whitespace. */
  function Strip(s: string): (r: string)
    ensures |r| == 0 || (!IsPySpace(r[0]) && !IsPySpace(r[|r| - 1]))
  {
    LStrip(RStrip(s))
  }

  /** Stripping text that has no whitespace at either end changes nothing. */
  lemma StripUnchanged(s: string)
    requires |s| == 0 || (!IsPySpace(s[0]) && !IsPySpace(s[|s| - 1]))
    ensures Strip(s) == s
  {
  }

  /** Python str.rstrip(c): drop every trailing c. */
  function RStripChar(s: string, c: char): (r: string)
    ensures |r| <= |s| && r == s[..|r|]
    ensures |r| == 0 || r[|r| - 1] != c
    ensures forall k :: |r| <= k < |s| ==> s[k] == c
  {
    if |s| > 0 && s[|s| - 1] == c then RStripChar(s[..|s| - 1], c) else s
  }

  /** Python str.replace(c, ""): every c removed, everything else kept in order. */
  function RemoveChar(s: string, c: char): (r: string)
    ensures c !in r
    ensures c !in s ==> r == s
    ensures |r| <= |s|
  {
    if |s| == 0 then []
    else (if s[0] == c then [] else [s[0]]) + RemoveChar(s[1..], c)
  }

  /** Removing c from a concatenation removes it from each part. */
  lemma {:induction false} RemoveCharAppend(a: string, b: string, c: char)
    ensures RemoveChar(a + b, c) == RemoveChar(a, c) + RemoveChar(b, c)
  {
    if |a| > 0 {
      assert (a + b)[1..] == a[1..] + b;
      RemoveCharAppend(a[1..], b, c);
    } else {
      assert a + b == b;
    }
  }

  /** Python slice s[i:], which clamps an index past the end. */
  function Drop(s: string, i: nat): (r: string)
    ensures i <= |s| ==> r == s[i..]
    ensures i > |s| ==> r == []
  {
    if i <= |s| then s[i..] else []
  }

  /** Python slice s[:i]. */
  function Take(s: string, i: nat): (r: string)
    ensures i <= |s| ==> r == s[..i]
    ensures i > |s| ==> r == s
  {
    if i <= |s| then s[..i] else s
  }

  /** C toupper() in the "C" locale: only 'a'..'z' change. */
  function ToUpper(s: string): (r: string)
    ensures |r| == |s|
    ensures forall k :: 0 <= k < |s| ==>
      r[k] == (if 'a' <= s[k] <= 'z' then (s[k] as int - 32) as char else s[k])
  {
    if |s| == 0 then [] else [UpperChar(s[0])] + ToUpper(s[1..])
  }

  function UpperChar(c: char): (r: char)
    ensures 'a' <= c <= 'z' ==> 'A' <= r <= 'Z' && r as int == c as int - 32
    ensures !('a' <= c <= 'z') ==> r == c
  {
    if 'a' <= c <= 'z' then (c as int - 32) as char else c
  }

  predicate IsDigit(c: char) { '0' <= c <= '9' }

  function DigitValue(c: char): (v: nat)
    requires IsDigit(c)
    ensures v < 10
  {
    c as int - '0' as int
  }

  function DigitChar(v: nat): (c: char)
    requires v < 10
    ensures IsDigit(c) && DigitValue(c) == v
  {
    ('0' as int + v) as char
  }

  predicate AllDigits(s: string) {
    forall k :: 0 <= k < |s| ==> IsDigit(s[k])
  }

  /** The value of a nonempty run of decimal digits. */
  function DigitsValue(s: string): (v: nat)
    requires AllDigits(s)
  {
    if |s| == 0 then 0 else DigitsValue(s[..|s| - 1]) * 10 + DigitValue(s[|s| - 1])
  }

  /** The decimal digits of n, as operator<< and Python's str() write them. */
  function NatToString(n: nat): (r: string)
    ensures |r| >= 1
  {
    if n < 10 then [DigitChar(n)] else NatToString(n / 10) + [DigitChar(n % 10)]
  }

  /** The text is a run of digits without leading zero whose value is n. */
  lemma {:induction false} NatToStringDigits(n: nat)
    ensures AllDigits(NatToString(n))
    ensures DigitsValue(NatToString(n)) == n
    ensures |NatToString(n)| > 1 ==> NatToString(n)[0] != '0'
    ensures n < 10 <==> |NatToString(n)| == 1
  {
    if n >= 10 {
      NatToStringDigits(n / 10);
      var r := NatToString(n);
      assert r[..|r| - 1] == NatToString(n / 10);
    }
  }

  /** operator<< of a number: a '-' for a negative one, then the digits. */
  function IntToString(n: int): (r: string)
    ensures |r| >= 1
  {
    if n >= 0 then NatToString(n) else "-" + NatToString(-n)
  }

  lemma IntToStringChars(n: int, c: char)
    requires c != '-' && !IsDigit(c)
    ensures c !in IntToString(n)
  {
    var r := IntToString(n);
    NatToStringDigits(if n < 0 then -n else n);
    forall k | 0 <= k < |r| ensures r[k] != c {
      if n < 0 && k > 0 {
        assert r[k] == NatToString(-n)[k - 1];
      }
    }
  }

  /** A number written by operator<< holds no whitespace, no ':' and no line end. */
  lemma IntToStringPlain(n: int)
    ensures forall k :: 0 <= k < |IntToString(n)| ==> !IsPySpace(IntToString(n)[k])
    ensures ':' !in IntToString(n) && '\n' !in IntToString(n) && '\t' !in IntToString(n)
  {
    var r := IntToString(n);
    NatToStringDigits(if n < 0 then -n else n);
    forall k | 0 <= k < |r| ensures r[k] == '-' || IsDigit(r[k]) {
      if n < 0 && k > 0 {
        assert r[k] == NatToString(-n)[k - 1];
      }
    }
  }

  /**
   * Python int(s) for a text in base 10: surrounding whitespace is ignored,
   * then an optional sign and at least one digit; anything else is a ValueError.
   */
  function PyInt(s: string): (r: Option<int>)
    ensures r.Some? ==> |Strip(s)| >= 1
  {
    SignedDigits(Strip(s))
  }

  /** A stripped text as int() reads it: an optional sign, then one or more digits. */
  function SignedDigits(t: string): (r: Option<int>)
    ensures r.Some? ==> |t| >= 1
  {
    if |t| >= 1 && (t[0] == '-' || t[0] == '+') then
      var digits := t[1..];
      if |digits| >= 1 && AllDigits(digits) then
        Some(if t[0] == '-' then -(DigitsValue(digits) as int) else DigitsValue(digits))
      else None
    else if |t| >= 1 && AllDigits(t) then Some(DigitsValue(t))
    else None
  }

  /** Python's int() reads back what str() wrote, whitespace around it included. */
  lemma PyIntOfIntToString(n: int, pre: string, post: string)
    requires forall k :: 0 <= k < |pre| ==> IsPySpace(pre[k])
    requires forall k :: 0 <= k < |post| ==> IsPySpace(post[k])
    ensures PyInt(pre + IntToString(n) + post) == Some(n)
  {
    var t := IntToString(n);
    assert !IsPySpace(t[0]) && !IsPySpace(t[|t| - 1]) by {
      IntToStringPlain(n);
    }
    StripAround(pre, t, post);
    SignedDigitsOfIntToString(n);
  }

  /** Python's int() reads back what str() wrote. */
  lemma PyIntOfPlainInt(n: int)
    ensures PyInt(IntToString(n)) == Some(n)
  {
    var t := IntToString(n);
    assert Strip(t) == t by {
      IntToStringPlain(n);
      StripUnchanged(t);
    }
    SignedDigitsOfIntToString(n);
  }

  /** A number as operator<< writes it is a sign and digits that int() reads as that number. */
  lemma SignedDigitsOfIntToString(n: int)
    ensures SignedDigits(IntToString(n)) == Some(n)
  {
    var t := IntToString(n);
    var m := if n < 0 then -n else n;
    var ds := NatToString(m);
    NatToStringDigits(m);
    if n < 0 {
      assert t[0] == '-' && t[1..] == ds;
    } else {
      assert t == ds;
      assert ds[0] != '-' && ds[0] != '+' by {
        assert IsDigit(ds[0]);
      }
    }
  }

  /** Stripping removes exactly the whitespace around a word that neither starts nor ends with any. */
  lemma {:induction false} StripAround(pre: string, t: string, post: string)
    requires |t| >= 1 && !IsPySpace(t[0]) && !IsPySpace(t[|t| - 1])
    requires forall k :: 0 <= k < |pre| ==> IsPySpace(pre[k])
    requires forall k :: 0 <= k < |post| ==> IsPySpace(post[k])
    ensures Strip(pre + t + post) == t
  {
    RStripAround(pre + t, post);
    LStripAround(pre, t);
  }

  lemma {:induction false} RStripAround(u: string, post: string)
    requires |u| >= 1 && !IsPySpace(u[|u| - 1])
    requires forall k :: 0 <= k < |post| ==> IsPySpace(post[k])
    ensures RStrip(u + post) == u
    decreases |post|
  {
    if |post| > 0 {
      var p := post[..|post| - 1];
      assert (u + post)[..|u + post| - 1] == u + p;
      RStripAround(u, p);
    } else {
      assert u + post == u;
    }
  }

  lemma {:induction false} LStripAround(pre: string, t: string)
    requires |t| >= 1 && !IsPySpace(t[0])
    requires forall k :: 0 <= k < |pre| ==> IsPySpace(pre[k])
    ensures LStrip(pre + t) == t
    decreases |pre|
  {
    if |pre| > 0 {
      assert (pre + t)[1..] == pre[1..] + t;
      LStripAround(pre[1..], t);
    } else {
      assert pre + t == t;
    }
  }

  /** std::setw(2) with setfill('0'): a text shorter than two gets leading zeros. */
  function PadLeft2(s: string): (r: string)
    ensures |s| >= 2 ==> r == s
    ensures |s| < 2 ==> |r| == 2 && r[2 - |s|..] == s
    ensures forall k :: 0 <= k < |r| - |s| ==> r[k] == '0'
  {
    if |s| >= 2 then s else if |s| == 1 then "0" + s else "00"
  }

  /** Writing `text` into a stringstream opened on `buf` overwrites buf from position 0. */
  function Overwrite(buf: string, text: string): (r: string)
    ensures |r| == if |text| >= |buf| then |text| else |buf|
    ensures r[..|text|] == text
    ensures |text| < |buf| ==> r[|text|..] == buf[|text|..]
  {
    if |text| >= |buf| then text else text + buf[|text|..]
  }

  // ---------------------------------------------------------- text files

  /** A line as operator<< writes it: the text, then "\n". */
  function Terminated(line: string): (r: string)
    ensures |r| == |line| + 1 && r[..|line|] == line && r[|line|] == '\n'
  {
    line + "\n"
  }

  /** The text of a file whose lines are each written followed by "\n". */
  function Written(lines: seq<string>): string {
    if |lines| == 0 then [] else Terminated(lines[0]) + Written(lines[1..])
  }

  /** Python's iteration over a text file: every line with its "\n"; the last one may lack it. */
  function PyLines(s: string): (r: seq<string>)
    decreases |s|
  {
    if |s| == 0 then []
    else match FindChar(s, '\n')
      case None => [s]
      case Some(i) => [s[..i + 1]] + PyLines(s[i + 1..])
  }

  /** Python reads back, line by line, a file written line by line. */
  lemma {:induction false} PyLinesWritten(lines: seq<string>)
    requires forall k :: 0 <= k < |lines| ==> '\n' !in lines[k]
    ensures PyLines(Written(lines)) == Mapped(lines, Terminated)
  {
    if |lines| > 0 {
      var s := Written(lines);
      var l := lines[0];
      var more := Written(lines[1..]);
      assert s == Terminated(l) + more;
      assert FindChar(s, '\n') == Some(|l|) by {
        assert s[|l|] == '\n' && s[..|l|] == l;
        assert '\n' !in l;
        FindCharAt(s, '\n', |l|);
      }
      assert s[..|l| + 1] == Terminated(l);
      assert s[|l| + 1..] == more;
      assert PyLines(s) == [Terminated(l)] + PyLines(more);
      PyLinesWritten(lines[1..]);
      MappedFirst(lines, Terminated);
    }
  }

  /** rstrip('\n') takes off the "\n" operator<< wrote, and nothing more. */
  lemma RStripTerminated(line: string)
    requires |line| == 0 || line[|line| - 1] != '\n'
    ensures RStripChar(Terminated(line), '\n') == line
  {
    assert Terminated(line)[..|line|] == line;
  }

  /** Python split(d) of texts joined by d gives the texts back. */
  lemma {:induction false} PySplitJoin(pieces: seq<string>, d: char)
    requires |pieces| > 0
    requires forall k :: 0 <= k < |pieces| ==> d !in pieces[k]
    ensures PySplit(Join(pieces, d), d) == pieces
  {
    if |pieces| > 1 {
      var tail := pieces[1..];
      PySplitJoinStep(pieces, d);
      assert forall k :: 0 <= k < |tail| ==> d !in tail[k] by {
        forall k | 0 <= k < |tail| ensures d !in tail[k] {
          assert tail[k] == pieces[k + 1];
        }
      }
      PySplitJoin(tail, d);
      assert pieces == [pieces[0]] + tail;
    }
  }

  /** The first piece of a join, when it holds no d, is the first piece split off. */
  lemma PySplitJoinStep(pieces: seq<string>, d: char)
    requires |pieces| > 1 && d !in pieces[0]
    ensures PySplit(Join(pieces, d), d) == [pieces[0]] + PySplit(Join(pieces[1..], d), d)
  {
    var p := pieces[0];
    var rest := Join(pieces[1..], d);
    var s := Join(pieces, d);
    assert s == p + [d] + rest;
    var i := |p|;
    assert FindChar(s, d) == Some(i) by {
      assert s[i] == d && s[..i] == p;
      FindCharAt(s, d, i);
    }
    assert s[..i] == p && s[i + 1..] == rest;
  }

  /** Python split(d) of a text with a single d: the two sides. */
  lemma PySplitTwo(a: string, b: string, d: char)
    requires d !in a && d !in b
    ensures PySplit(a + [d] + b, d) == [a, b]
  {
    PySplitJoin([a, b], d);
    assert Join([a, b], d) == a + [d] + Join([b], d);
  }
}
