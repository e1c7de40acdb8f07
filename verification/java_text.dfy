/** The pieces of Java's string library and regular-expression character classes that the
    service clients rely on, written out over `seq<char>`. */
module JavaText {
  import opened Wrappers

  /** Java's `\s` (without UNICODE_CHARACTER_CLASS): space, tab, newline, vertical tab,
      form feed, carriage return. */
  predicate IsRegexSpace(c: char) {
    c == ' ' || c == '\t' || c == '\n' || c == '\U{B}' || c == '\U{C}' || c == '\r'
  }

  /** The characters that Java's `.` does not match (default flags, no UNIX_LINES). */
  predicate IsLineTerminator(c: char) {
    c == '\n' || c == '\r' || c == '\U{85}' || c == '\U{2028}' || c == '\U{2029}'
  }

  /** The characters `String.trim()` removes from both ends. */
  predicate IsTrimmed(c: char) {
    c as int <= 0x20
  }

  /** `String.trim()`: the longest infix with no trimmable character at either end. */
  function Trim(s: string): (r: string)
    ensures exists a, b :: (0 <= a <= b <= |s| && r == s[a..b]
      && (forall k :: 0 <= k < a ==> IsTrimmed(s[k]))
      && (forall k :: b <= k < |s| ==> IsTrimmed(s[k])))
    ensures r != [] ==> !IsTrimmed(r[0]) && !IsTrimmed(r[|r| - 1])
  {
    var a := KeptStart(s, 0);
    var b := KeptEnd(s, a, |s|);
    s[a..b]
  }

  /** The first index at or after `i` whose character `trim` keeps, or `|s|`. */
  function KeptStart(s: string, i: nat): (a: nat)
    requires i <= |s|
    ensures i <= a <= |s|
    ensures forall k :: i <= k < a ==> IsTrimmed(s[k])
    ensures a < |s| ==> !IsTrimmed(s[a])
    decreases |s| - i
  {
    if i < |s| && IsTrimmed(s[i]) then KeptStart(s, i + 1) else i
  }

  /** Moves `b` down past trimmable characters, but not below `a`. */
  function KeptEnd(s: string, a: nat, b: nat): (e: nat)
    requires a <= b <= |s|
    ensures a <= e <= b
    ensures forall k :: e <= k < b ==> IsTrimmed(s[k])
    ensures a < e ==> !IsTrimmed(s[e - 1])
    decreases b
  {
    if a < b && IsTrimmed(s[b - 1]) then KeptEnd(s, a, b - 1) else b
  }

  /** `String.contains`: `sub` occurs in `s` at some position. */
  predicate Contains(s: string, sub: string)
    decreases |s|
  {
    |sub| <= |s| && (s[..|sub|] == sub || Contains(s[1..], sub))
  }

  ghost predicate OccursAt(s: string, sub: string, i: int) {
    0 <= i && i + |sub| <= |s| && s[i..i + |sub|] == sub
  }

  lemma {:induction false} ContainsIsOccurrence(s: string, sub: string)
    ensures Contains(s, sub) <==> exists i :: OccursAt(s, sub, i)
  {
    if Contains(s, sub) {
      ContainsHasOccurrence(s, sub);
    }
    if exists i :: OccursAt(s, sub, i) {
      var i :| OccursAt(s, sub, i);
      OccurrenceIsContained(s, sub, i);
    }
  }

  lemma {:induction false} ContainsHasOccurrence(s: string, sub: string)
    requires Contains(s, sub)
    ensures exists i :: OccursAt(s, sub, i)
    decreases |s|
  {
    if s[..|sub|] == sub {
      assert OccursAt(s, sub, 0);
    } else {
      ContainsHasOccurrence(s[1..], sub);
      var i :| OccursAt(s[1..], sub, i);
      assert s[i + 1..i + 1 + |sub|] == s[1..][i..i + |sub|];
      assert OccursAt(s, sub, i + 1);
    }
  }

  lemma {:induction false} OccurrenceIsContained(s: string, sub: string, i: int)
    requires OccursAt(s, sub, i)
    ensures Contains(s, sub)
    decreases i
  {
    if s[..|sub|] != sub {
      assert i != 0;
      assert s[1..][i - 1..i - 1 + |sub|] == s[i..i + |sub|];
      OccurrenceIsContained(s[1..], sub, i - 1);
    }
  }

  /** The decimal digit character for `d`. */
  function DigitChar(d: nat): (c: char)
    requires d < 10
    ensures '0' <= c <= '9' && c as int - '0' as int == d
  {
    (d + '0' as int) as char
  }

  /** `Long.toString` of a non-negative value: its decimal digits, most significant first. */
  function NatToString(n: nat): (r: string)
    ensures r != [] && forall k :: 0 <= k < |r| ==> '0' <= r[k] <= '9'
  {
    if n < 10 then [DigitChar(n)] else NatToString(n / 10) + [DigitChar(n % 10)]
  }

  /** `Long.toString`: a leading minus sign for negative values. */
  function IntToString(n: int): (r: string)
    ensures r != []
    ensures n < 0 <==> r[0] == '-'
  {
    if n < 0 then "-" + NatToString(-n) else NatToString(n)
  }

  /** String concatenation with a possibly-null `Long`: `"" + null` is `"null"`. */
  function LongToString(n: Option<int>): (r: string)
    ensures r != []
  {
    match n
    case None => "null"
    case Some(v) => IntToString(v)
  }

  /** String concatenation with a possibly-null `String`. */
  function StringOrNull(s: Option<string>): (r: string)
    ensures s.Some? ==> r == s.value
  {
    match s
    case None => "null"
    case Some(v) => v
  }

  /** Reads back a string of decimal digits: the inverse of `NatToString`. */
  function ParseDigits(s: string): nat
  {
    if s == [] then 0
    else
      var d := s[|s| - 1] as int - '0' as int;
      ParseDigits(s[..|s| - 1]) * 10 + (if 0 <= d < 10 then d else 0)
  }

  lemma {:induction false} ParseNatToString(n: nat)
    ensures ParseDigits(NatToString(n)) == n
  {
    var s := NatToString(n);
    if n >= 10 {
      ParseNatToString(n / 10);
      assert s[..|s| - 1] == NatToString(n / 10);
    }
  }

  /** Distinct values print differently, including null. */
  lemma LongToStringInjective(a: Option<int>, b: Option<int>)
    requires LongToString(a) == LongToString(b)
    ensures a == b
  {
    if a.Some? && b.Some? {
      var x, y := a.value, b.value;
      if x < 0 {
        assert NatToString(-x) == IntToString(x)[1..] == IntToString(y)[1..] == NatToString(-y);
      }
      ParseNatToString(if x < 0 then -x else x);
      ParseNatToString(if y < 0 then -y else y);
    }
  }
}
