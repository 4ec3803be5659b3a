/**
  The redirect target of `POST /students/:id/results` is the template string
  `/students/${studentId}/results`. Ids are integers here, written in decimal;
  the inverse direction is the `/students/:id/results` route pattern with its
  segment read back as an integer.
 */
module Paths {
  import opened Wrappers

  predicate IsDigit(c: char) {
    '0' <= c <= '9'
  }

  predicate AllDigits(s: string) {
    forall i :: 0 <= i < |s| ==> IsDigit(s[i])
  }

  function DigitChar(d: nat): (c: char)
    requires d < 10
    ensures IsDigit(c) && c as int - '0' as int == d
  {
    ('0' as int + d) as char
  }

  /** Decimal digits of a natural number, most significant first, no leading zero. */
  function Digits(n: nat): (s: string)
    ensures |s| >= 1 && AllDigits(s)
    decreases n
  {
    if n < 10 then [DigitChar(n)] else Digits(n / 10) + [DigitChar(n % 10)]
  }

  /**
    The text of an id path segment. The source pastes the raw `req.params.id`
    string into the redirect and never formats a number; since ids are
    modelled as integers written in canonical decimal, this function gives
    that segment's text. It does not model a number-to-text conversion.
   */
  function Decimal(i: int): string {
    if i < 0 then "-" + Digits(-i) else Digits(i)
  }

  /** Value of a string of decimal digits. */
  function DigitsValue(s: string): nat
    requires AllDigits(s)
    decreases |s|
  {
    if s == [] then 0 else DigitsValue(s[..|s| - 1]) * 10 + (s[|s| - 1] as int - '0' as int)
  }

  /** An optionally signed decimal integer, or None. */
  function ParseInteger(s: string): Option<int> {
    if |s| >= 2 && s[0] == '-' && AllDigits(s[1..]) then Some(-(DigitsValue(s[1..]) as int))
    else if |s| >= 1 && AllDigits(s) then Some(DigitsValue(s))
    else None
  }

  lemma {:induction false} DigitsRoundTrip(n: nat)
    ensures DigitsValue(Digits(n)) == n
    decreases n
  {
    var s := Digits(n);
    if n < 10 {
      assert s[..|s| - 1] == [];
    } else {
      DigitsRoundTrip(n / 10);
      assert s[..|s| - 1] == Digits(n / 10);
    }
  }

  /** Reading back what Decimal wrote gives the same integer. */
  lemma DecimalRoundTrip(i: int)
    ensures ParseInteger(Decimal(i)) == Some(i)
  {
    if i < 0 {
      DigitsRoundTrip(-i);
      assert Decimal(i)[1..] == Digits(-i);
    } else {
      DigitsRoundTrip(i);
    }
  }

  const StudentsPrefix: string := "/students/"
  const ResultsSuffix: string := "/results"

  /** `/students/${studentId}/results`. */
  function ResultsPath(id: int): string {
    StudentsPrefix + Decimal(id) + ResultsSuffix
  }

  /** The route `/students/:id/results`: the id its `:id` segment names, if the path matches. */
  function MatchResultsRoute(path: string): Option<int> {
    if |path| > |StudentsPrefix| + |ResultsSuffix|
       && path[..|StudentsPrefix|] == StudentsPrefix
       && path[|path| - |ResultsSuffix|..] == ResultsSuffix
    then
      var segment := path[|StudentsPrefix|..|path| - |ResultsSuffix|];
      if '/' in segment then None else ParseInteger(segment)
    else None
  }

  /** The redirect after adding a result lands on the results page of the same student. */
  lemma RedirectMatchesRoute(id: int)
    ensures MatchResultsRoute(ResultsPath(id)) == Some(id)
  {
    var d := Decimal(id);
    var p := ResultsPath(id);
    assert p[..|StudentsPrefix|] == StudentsPrefix;
    assert p[|p| - |ResultsSuffix|..] == ResultsSuffix;
    assert p[|StudentsPrefix|..|p| - |ResultsSuffix|] == d;
    assert '/' !in d by {
      if id >= 0 {
        assert AllDigits(d);
      } else {
        assert d == "-" + Digits(-id) && AllDigits(Digits(-id));
      }
    }
    DecimalRoundTrip(id);
  }
}
