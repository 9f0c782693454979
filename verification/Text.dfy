/** The string handling the components rely on: strings.Split, strings.Join, strconv.Itoa, Atoi and ParseInt. */
module Text {
  import opened Common

  const MAX_INT64: int := 0x7fff_ffff_ffff_ffff
  const MIN_INT64: int := -0x8000_0000_0000_0000

  type int64 = x: int | MIN_INT64 <= x <= MAX_INT64

  predicate IsDigit(c: char) {
    '0' <= c <= '9'
  }

  predicate AllDigits(s: string) {
    forall i :: 0 <= i < |s| ==> IsDigit(s[i])
  }

  function DigitValue(c: char): (v: nat)
    requires IsDigit(c)
    ensures v < 10
  {
    c as int - '0' as int
  }

  function DigitChar(v: nat): (c: char)
    requires v < 10
    ensures IsDigit(c) && DigitValue(c) == v
  {
    ('0' as int + v) as char
  }

  /** The value of a decimal numeral, most significant digit first. */
  function Decimal(s: string): nat
    requires AllDigits(s)
  {
    if s == "" then 0 else 10 * Decimal(s[..|s| - 1]) + DigitValue(s[|s| - 1])
  }

  /** The shortest decimal numeral of n. */
  function Numeral(n: nat): (s: string)
    ensures |s| > 0 && AllDigits(s)
  {
    if n < 10 then [DigitChar(n)] else Numeral(n / 10) + [DigitChar(n % 10)]
  }

  function Itoa(n: int): string {
    if n < 0 then "-" + Numeral(-n) else Numeral(n)
  }

  /** strconv.ParseInt in base 10 with 64 bits: `value` is 0 on a syntax error and saturates on a range error. */
  datatype Parsed = Parsed(value: int64, ok: bool)

  function ParseInt(s: string): Parsed {
    var negative := |s| > 0 && s[0] == '-';
    var digits := if |s| > 0 && (s[0] == '-' || s[0] == '+') then s[1..] else s;
    if digits == "" || !AllDigits(digits) then Parsed(0, false)
    else
      var d: int := Decimal(digits);
      var v := if negative then -d else d;
      if v > MAX_INT64 then Parsed(MAX_INT64, false)
      else if v < MIN_INT64 then Parsed(MIN_INT64, false)
      else Parsed(v, true)
  }

  /** strconv.Atoi as its callers use it: a number, or an error. */
  function Atoi(s: string): Option<int> {
    var p := ParseInt(s);
    if p.ok then Some(p.value) else None
  }

  /** strings.Split with a one-character separator. */
  function Split(s: string, sep: char): (parts: seq<string>)
    ensures |parts| > 0
  {
    if s == "" then [""] else
      var rest := Split(s[1..], sep);
      if s[0] == sep then [""] + rest else [[s[0]] + rest[0]] + rest[1..]
  }

  /** strings.Join with a one-character separator. */
  function Join(parts: seq<string>, sep: char): string {
    if |parts| == 0 then ""
    else if |parts| == 1 then parts[0]
    else parts[0] + [sep] + Join(parts[1..], sep)
  }

  lemma {:induction false} DecimalOfNumeral(n: nat)
    ensures Decimal(Numeral(n)) == n
  {
    if n >= 10 {
      DecimalOfNumeral(n / 10);
      var s := Numeral(n);
      assert s[..|s| - 1] == Numeral(n / 10);
    } else {
      assert [DigitChar(n)][..0] == "";
    }
  }

  /** Parsing undoes formatting on every 64-bit integer. */
  lemma AtoiOfItoa(n: int)
    requires MIN_INT64 <= n <= MAX_INT64
    ensures Atoi(Itoa(n)) == Some(n)
  {
    var text := Numeral(if n < 0 then -n else n);
    DecimalOfNumeral(if n < 0 then -n else n);
    assert Itoa(n) == if n < 0 then "-" + text else text;
    hide Numeral, Decimal, Itoa;
    if n < 0 {
      assert Itoa(n)[0] == '-' && Itoa(n)[1..] == text;
    } else {
      assert IsDigit(text[0]);
    }
  }

  /** One character is a number iff it is a digit. */
  lemma ParseOfOneCharacter(c: char)
    ensures ParseInt([c]).ok <==> IsDigit(c)
    ensures IsDigit(c) ==> ParseInt([c]).value == DigitValue(c) && Itoa(DigitValue(c)) == [c]
  {
    assert [c][1..] == "" && [c][..0] == "" && Decimal("") == 0;
    assert AllDigits([c]) <==> IsDigit([c][0]);
    assert IsDigit(c) ==> Decimal([c]) == DigitValue(c);
  }

  lemma ItoaHasNoComma(n: int)
    ensures ',' !in Itoa(n)
  {
  }

  lemma {:induction false} SplitOfPrefix(p: string, rest: string, sep: char)
    requires sep !in p
    ensures Split(p + [sep] + rest, sep) == [p] + Split(rest, sep)
  {
    var s := p + [sep] + rest;
    if p == "" {
      assert s[1..] == rest;
    } else {
      SplitOfPrefix(p[1..], rest, sep);
      assert s[1..] == p[1..] + [sep] + rest;
      assert [p[0]] + p[1..] == p;
    }
  }

  lemma {:induction false} SplitOfPlain(p: string, sep: char)
    requires sep !in p
    ensures Split(p, sep) == [p]
  {
    if p != "" {
      SplitOfPlain(p[1..], sep);
      assert [p[0]] + p[1..] == p;
    }
  }

  /** Splitting undoes joining whenever there is something to join and no part contains the separator. */
  lemma {:induction false} SplitOfJoin(parts: seq<string>, sep: char)
    requires |parts| > 0
    requires forall i :: 0 <= i < |parts| ==> sep !in parts[i]
    ensures Split(Join(parts, sep), sep) == parts
  {
    if |parts| == 1 {
      SplitOfPlain(parts[0], sep);
    } else {
      SplitOfJoin(parts[1..], sep);
      SplitOfPrefix(parts[0], Join(parts[1..], sep), sep);
    }
  }

  /** Joining undoes splitting, for every string. */
  lemma {:induction false} JoinOfSplit(s: string, sep: char)
    ensures Join(Split(s, sep), sep) == s
    ensures forall i :: 0 <= i < |Split(s, sep)| ==> sep !in Split(s, sep)[i]
  {
    if s != "" {
      JoinOfSplit(s[1..], sep);
      var rest, parts := Split(s[1..], sep), Split(s, sep);
      assert s == [s[0]] + s[1..];
      if s[0] == sep {
        assert parts[1..] == rest;
      } else {
        assert parts[1..] == rest[1..];
        assert Join(parts, sep) == [s[0]] + Join(rest, sep);
      }
    }
  }

  /** A text with any character but digits after an optional sign is no number. */
  lemma NumbersAreDigits(s: string, i: nat)
    requires i < |s| && !IsDigit(s[i]) && (i > 0 || (s[0] != '-' && s[0] != '+'))
    ensures Atoi(s) == None
  {
    if s[0] == '-' || s[0] == '+' {
      assert s[1..][i - 1] == s[i];
    }
  }
}
