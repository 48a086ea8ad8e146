/**
 * The part of android.net.Uri, android.content.ContentUris and Java's decimal
 * integer conversions that the inventory code relies on. A Uri is seen the way
 * UriMatcher sees it: a scheme, an authority and the decoded path segments.
 */
module Uris {

  datatype Uri = Uri(scheme: string, authority: string, path: seq<string>)

  /** Uri.withAppendedPath: the same address with one more path segment. */
  function WithAppendedPath(u: Uri, segment: string): Uri
  {
    u.(path := u.path + [segment])
  }

  predicate IsDigit(c: char)
  {
    '0' <= c <= '9'
  }

  predicate AllDigits(s: string)
  {
    forall k :: 0 <= k < |s| ==> IsDigit(s[k])
  }

  /** What UriMatcher's `#` wildcard accepts: a non-empty run of decimal digits. */
  predicate IsDigits(s: string)
  {
    |s| > 0 && AllDigits(s)
  }

  function DigitChar(d: nat): (c: char)
    requires d < 10
    ensures IsDigit(c) && c as int - '0' as int == d
  {
    ('0' as int + d) as char
  }

  /** The decimal spelling of a natural number, most significant digit first. */
  function Decimal(n: nat): (s: string)
    ensures IsDigits(s)
    decreases n
  {
    if n < 10 then [DigitChar(n)] else Decimal(n / 10) + [DigitChar(n % 10)]
  }

  /** The value of a string of digits (what Long.parseLong returns for it). */
  function DigitsValue(s: string): nat
    requires AllDigits(s)
  {
    if s == [] then 0
    else 10 * DigitsValue(s[..|s| - 1]) + (s[|s| - 1] as int - '0' as int)
  }

  /** Reading back the decimal spelling of n gives n. */
  lemma {:induction false} DecimalRoundTrip(n: nat)
    ensures DigitsValue(Decimal(n)) == n
  {
    if n >= 10 {
      DecimalRoundTrip(n / 10);
      var s := Decimal(n / 10) + [DigitChar(n % 10)];
      assert s[..|s| - 1] == Decimal(n / 10);
    }
  }

  /** Integer.toString / String.valueOf: a minus sign before the digits of a negative value. */
  function IntToString(i: int): string
  {
    if i < 0 then "-" + Decimal(-i) else Decimal(i)
  }

  /** Only the spelling of a non-negative value is a run of digits. */
  lemma IntToStringDigits(i: int)
    ensures IsDigits(IntToString(i)) <==> i >= 0
    ensures i >= 0 ==> DigitsValue(IntToString(i)) == i
  {
    if i >= 0 {
      DecimalRoundTrip(i);
    } else {
      assert !IsDigit(IntToString(i)[0]);
    }
  }

  /** ContentUris.withAppendedId: the id's decimal spelling as one more path segment. */
  function WithAppendedId(u: Uri, id: int): Uri
  {
    WithAppendedPath(u, IntToString(id))
  }

  /**
   * ContentUris.parseId: the value of the last path segment, or -1 when there
   * is none. Long.parseLong throws on text that is not a number; the provider
   * only parses addresses whose last segment the matcher has seen to be digits.
   */
  function ParseId(u: Uri): int
    requires |u.path| > 0 ==> IsDigits(u.path[|u.path| - 1])
  {
    if |u.path| == 0 then -1 else DigitsValue(u.path[|u.path| - 1])
  }

  /** parseId undoes withAppendedId for every non-negative id. */
  lemma ParseAppendedId(u: Uri, id: int)
    requires id >= 0
    ensures IsDigits(WithAppendedId(u, id).path[|WithAppendedId(u, id).path| - 1])
    ensures ParseId(WithAppendedId(u, id)) == id
  {
    IntToStringDigits(id);
  }
}
