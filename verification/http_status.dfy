/**
 HTTP response statuses and the text Netty renders for them: the decimal code,
 one space, and the reason phrase ("400 Bad Request"). This text is what the
 handler appends to the body of every non-200 response.
 */
module HttpStatus {
  import opened Wrappers

  /** An HTTP response status: numeric code and reason phrase. */
  datatype Status = Status(code: nat, reason: string)

  const BadRequest := Status(400, "Bad Request")

  predicate IsDigit(c: char) {
    '0' <= c <= '9'
  }

  /** A non-empty run of decimal digits. */
  predicate IsDigits(s: string) {
    |s| > 0 && forall i :: 0 <= i < |s| ==> IsDigit(s[i])
  }

  function DigitChar(d: nat): (c: char)
    requires d < 10
    ensures IsDigit(c)
  {
    ('0' as int + d) as char
  }

  function DigitValue(c: char): (d: nat)
    requires IsDigit(c)
    ensures d < 10 && DigitChar(d) == c
  {
    c as int - '0' as int
  }

  /** A digit run in canonical form: a single digit, or no leading zero. */
  predicate IsCanonical(s: string) {
    IsDigits(s) && (|s| == 1 || s[0] != '0')
  }

  /** Decimal rendering of a code, most significant digit first, no leading zero. */
  function Decimal(n: nat): (s: string)
    ensures IsCanonical(s)
    ensures n > 0 ==> s[0] != '0'
    decreases n
  {
    if n < 10 then [DigitChar(n)] else Decimal(n / 10) + [DigitChar(n % 10)]
  }

  /** Value of a run of decimal digits; the reading direction of Decimal. */
  function ParseDecimal(s: string): nat
    requires IsDigits(s)
    decreases |s|
  {
    if |s| == 1 then DigitValue(s[0])
    else ParseDecimal(s[..|s| - 1]) * 10 + DigitValue(s[|s| - 1])
  }

  lemma {:induction false} DecimalRoundTrip(n: nat)
    ensures ParseDecimal(Decimal(n)) == n
    decreases n
  {
    if n < 10 {
      assert Decimal(n) == [DigitChar(n)];
    } else {
      var s := Decimal(n);
      var d := Decimal(n / 10);
      assert s == d + [DigitChar(n % 10)];
      assert s[..|s| - 1] == d;
      DecimalRoundTrip(n / 10);
      assert ParseDecimal(s) == ParseDecimal(d) * 10 + n % 10;
    }
  }

  /** A digit run whose first digit is not zero has a positive value. */
  lemma {:induction false} LeadingDigitPositive(s: string)
    requires IsDigits(s) && s[0] != '0'
    ensures ParseDecimal(s) > 0
    decreases |s|
  {
    if |s| > 1 {
      assert s[..|s| - 1][0] == s[0];
      LeadingDigitPositive(s[..|s| - 1]);
    }
  }

  /** Every canonical digit run is the rendering of its own value. */
  lemma {:induction false} DecimalOfParse(s: string)
    requires IsCanonical(s)
    ensures Decimal(ParseDecimal(s)) == s
    decreases |s|
  {
    if |s| > 1 {
      var p := s[..|s| - 1];
      assert p[0] == s[0];
      LeadingDigitPositive(s);
      LeadingDigitPositive(p);
      DecimalOfParse(p);
      var n := ParseDecimal(s);
      assert n / 10 == ParseDecimal(p) && n % 10 == DigitValue(s[|s| - 1]);
      assert s == p + [s[|s| - 1]];
    }
  }

  /** Index of the first space in t, or |t| when there is none. */
  function SpaceIndex(t: string): (k: nat)
    ensures k <= |t|
    ensures forall j :: 0 <= j < k ==> t[j] != ' '
    ensures k < |t| ==> t[k] == ' '
    decreases |t|
  {
    if |t| == 0 then 0
    else if t[0] == ' ' then 0
    else 1 + SpaceIndex(t[1..])
  }

  /** The status line text, as HttpResponseStatus.toString() builds it: code, a space, reason. */
  function StatusText(s: Status): string {
    Decimal(s.code) + " " + s.reason
  }

  /**
   Reads a status text back: canonical digits up to the first space, then the
   reason phrase.
   */
  function ParseStatusText(t: string): Option<Status> {
    var k := SpaceIndex(t);
    if k < |t| && IsCanonical(t[..k]) then Some(Status(ParseDecimal(t[..k]), t[k + 1..]))
    else None
  }

  /** The code and reason of every status are recoverable from its text. */
  lemma StatusTextRoundTrip(s: Status)
    ensures ParseStatusText(StatusText(s)) == Some(s)
  {
    var d := Decimal(s.code);
    var t := StatusText(s);
    assert t == d + " " + s.reason;
    assert t[|d|] == ' ';
    var k := SpaceIndex(t);
    assert k == |d|;
    assert t[..k] == d;
    assert t[k + 1..] == s.reason;
    DecimalRoundTrip(s.code);
  }

  /** The parser accepts nothing but status texts: it is an exact inverse of StatusText. */
  lemma StatusTextParseExact(t: string, s: Status)
    ensures ParseStatusText(t) == Some(s) <==> t == StatusText(s)
  {
    if ParseStatusText(t) == Some(s) {
      var k := SpaceIndex(t);
      DecimalOfParse(t[..k]);
      assert t == t[..k] + " " + t[k + 1..];
    }
    if t == StatusText(s) {
      StatusTextRoundTrip(s);
    }
  }
}
