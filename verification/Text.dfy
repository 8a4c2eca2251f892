/** The few string operations of Go that the modelled code leans on: splitting
    and joining on one character, trimming, and decimal conversion. */
module Text {

  datatype Option<+T> = None | Some(value: T)

  /** strings.Split with a one-character separator. */
  function Split(s: string, sep: char): (parts: seq<string>)
    ensures |parts| >= 1
  {
    if s == "" then [""]
    else
      var rest := Split(s[1..], sep);
      if s[0] == sep then [""] + rest
      else [[s[0]] + rest[0]] + rest[1..]
  }

  /** strings.Join with a one-character separator. */
  function Join(parts: seq<string>, sep: char): (s: string)
  {
    if parts == [] then ""
    else if |parts| == 1 then parts[0]
    else parts[0] + [sep] + Join(parts[1..], sep)
  }

  /** Without a separator there is one part, with one there are more. */
  lemma {:induction false} SplitPlain(s: string, sep: char)
    ensures if sep in s then |Split(s, sep)| >= 2 else Split(s, sep) == [s]
  {
    if s == "" {
    } else {
      assert s == [s[0]] + s[1..];
      SplitPlain(s[1..], sep);
    }
  }

  /** The first separator ends the first part. */
  lemma {:induction false} SplitFirst(a: string, b: string, sep: char)
    requires sep !in a
    ensures Split(a + [sep] + b, sep) == [a] + Split(b, sep)
  {
    var s := a + [sep] + b;
    if a == "" {
      assert s[1..] == b;
    } else {
      SplitFirst(a[1..], b, sep);
      assert s[1..] == a[1..] + [sep] + b;
      assert a == [a[0]] + a[1..];
    }
  }

  /** The first part ends at the first separator, or at the end of the text. */
  lemma {:induction false} SplitHead(s: string, sep: char)
    ensures var h := Split(s, sep)[0];
            sep !in h && h <= s && (if sep in s then h + [sep] <= s else h == s)
  {
    if s == "" {
    } else {
      assert s == [s[0]] + s[1..];
      SplitHead(s[1..], sep);
    }
  }

  /** A text is the first part of those that it is, or that go on with the separator. */
  lemma {:induction false} SplitHeadIs(s: string, sep: char, p: string)
    ensures Split(s, sep)[0] == p <==> sep !in p && (s == p || p + [sep] <= s)
  {
    SplitHead(s, sep);
    if sep !in p && s == p { SplitPlain(s, sep); }
    if sep !in p && p + [sep] <= s {
      SplitFirst(p, s[|p| + 1..], sep);
      assert s == p + [sep] + s[|p| + 1..];
    }
  }

  /** The second part lies between the first two separators. */
  lemma {:induction false} SplitSecond(s: string, sep: char, p: string)
    requires sep !in p && p + [sep] <= s
    ensures |Split(s, sep)| >= 2
    ensures var q := Split(s, sep)[1];
            sep !in q && (s == p + [sep] + q || p + [sep] + q + [sep] <= s)
  {
    var rest := s[|p| + 1..];
    assert s == p + [sep] + rest;
    SplitFirst(p, rest, sep);
    SplitHead(rest, sep);
    var q := Split(rest, sep)[0];
    assert Split(s, sep)[1] == q;
    assert rest == q + rest[|q|..];
    assert s == p + [sep] + q + rest[|q|..];
  }

  /** Splitting undoes joining when no part contains the separator. */
  lemma {:induction false} SplitJoin(parts: seq<string>, sep: char)
    requires parts != []
    requires forall p :: p in parts ==> sep !in p
    ensures Split(Join(parts, sep), sep) == parts
  {
    if |parts| == 1 {
      SplitPlain(parts[0], sep);
    } else {
      SplitJoin(parts[1..], sep);
      SplitFirst(parts[0], Join(parts[1..], sep), sep);
      assert parts == [parts[0]] + parts[1..];
    }
  }

  /** The first position from i on that holds none of the cutset. */
  function SkipForward(s: string, i: nat, cut: set<char>): (r: nat)
    requires i <= |s|
    ensures i <= r <= |s|
    ensures forall k :: i <= k < r ==> s[k] in cut
    ensures r < |s| ==> s[r] !in cut
    decreases |s| - i
  {
    if i < |s| && s[i] in cut then SkipForward(s, i + 1, cut) else i
  }

  /** The end of the prefix of s[..i] that ends in none of the cutset. */
  function SkipBackward(s: string, i: nat, cut: set<char>): (r: nat)
    requires i <= |s|
    ensures r <= i
    ensures forall k :: r <= k < i ==> s[k] in cut
    ensures r > 0 ==> s[r - 1] !in cut
  {
    if i > 0 && s[i - 1] in cut then SkipBackward(s, i - 1, cut) else i
  }

  /** bytes.TrimLeft. */
  function TrimLeft(s: string, cut: set<char>): (r: string)
    ensures r != "" ==> r[0] !in cut
  {
    s[SkipForward(s, 0, cut)..]
  }

  /** bytes.TrimRight. */
  function TrimRight(s: string, cut: set<char>): (r: string)
    ensures r != "" ==> r[|r| - 1] !in cut
  {
    s[..SkipBackward(s, |s|, cut)]
  }

  /** The white space of strings.TrimSpace in the Latin-1 range. */
  const WHITE_SPACE: set<char> := {'\t', '\n', '\U{0B}', '\U{0C}', '\r', ' ', '\U{85}', '\U{A0}'}

  function TrimSpace(s: string): (r: string)
    ensures r != "" ==> r[0] !in WHITE_SPACE && r[|r| - 1] !in WHITE_SPACE
  {
    TrimRight(TrimLeft(s, WHITE_SPACE), WHITE_SPACE)
  }

  // ----- decimal numbers

  predicate IsDigit(c: char) { '0' <= c <= '9' }

  predicate AllDigits(s: string) { forall i :: 0 <= i < |s| ==> IsDigit(s[i]) }

  function Digit(d: nat): (c: char)
    requires d < 10
    ensures IsDigit(c) && c as int - '0' as int == d
  {
    '0' + d as char
  }

  function Digits(n: nat): (s: string)
    ensures s != "" && AllDigits(s) && (s[0] == '0' ==> n == 0 && s == "0")
  {
    if n < 10 then [Digit(n)] else Digits(n / 10) + [Digit(n % 10)]
  }

  function DigitsValue(s: string): (n: nat)
    requires AllDigits(s)
  {
    if s == "" then 0
    else 10 * DigitsValue(s[..|s| - 1]) + (s[|s| - 1] as int - '0' as int)
  }

  /** strconv.Itoa. */
  function Itoa(n: int): (s: string)
    ensures s != ""
    ensures n >= 0 ==> AllDigits(s)
  {
    if n < 0 then "-" + Digits(-n) else Digits(n)
  }

  /** strconv.Atoi as the callers use it, with the error dropped: the value of an
      optionally signed run of digits, and 0 for anything else. */
  function Atoi(s: string): (n: int)
  {
    if s != "" && AllDigits(s) then DigitsValue(s)
    else if |s| > 1 && s[0] == '-' && AllDigits(s[1..]) then 0 - (DigitsValue(s[1..]) as int)
    else if |s| > 1 && s[0] == '+' && AllDigits(s[1..]) then DigitsValue(s[1..])
    else 0
  }

  lemma {:induction false} DigitsRoundTrip(n: nat)
    ensures DigitsValue(Digits(n)) == n
  {
    var s := Digits(n);
    if n < 10 {
      assert DigitsValue(s) == 10 * DigitsValue(s[..0]) + n;
    } else {
      DigitsRoundTrip(n / 10);
      assert s[..|s| - 1] == Digits(n / 10);
    }
  }

  lemma {:induction false} AtoiItoa(n: int)
    ensures Atoi(Itoa(n)) == n
  {
    if n < 0 {
      DigitsRoundTrip(-n);
      assert Itoa(n)[1..] == Digits(-n);
    } else {
      DigitsRoundTrip(n);
    }
  }

  /** A plus sign is allowed, and what is not a number counts as zero. */
  lemma {:induction false} AtoiOther(s: string)
    ensures s != "" && AllDigits(s) ==> Atoi("+" + s) == Atoi(s) && Atoi("-" + s) == 0 - Atoi(s)
    ensures !(s != "" && AllDigits(s)) && !(|s| > 1 && s[0] in {'+', '-'} && AllDigits(s[1..])) ==> Atoi(s) == 0
  {
    var plus, minus := "+" + s, "-" + s;
    assert plus[1..] == s && minus[1..] == s;
    assert !IsDigit(plus[0]) && !IsDigit(minus[0]);
  }

  lemma {:induction false} ItoaInjective(m: int, n: int)
    requires Itoa(m) == Itoa(n)
    ensures m == n
  {
    AtoiItoa(m);
    AtoiItoa(n);
  }

  /** A decimal number contains no character other than digits and a leading minus. */
  lemma {:induction false} ItoaAvoids(n: int, c: char)
    requires !IsDigit(c) && (n >= 0 || c != '-')
    ensures c !in Itoa(n)
  {
    var d := Digits(if n < 0 then -n else n);
    assert c !in d;
  }
}
