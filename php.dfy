/**
 * The small part of the PHP runtime that the modelled code relies on:
 * values and array keys, `isset`/`empty`, `(string)` of an integer,
 * integer-form numeric strings, loose `==` as a `switch` uses it,
 * `explode`/`implode` and `array_diff`.
 *
 * Semantics are those of PHP 5.4 to 7 (the versions the code was written
 * for): a non-numeric string compares loosely equal to the integer 0 and
 * `empty("0")` holds.
 */
module Php {

  datatype Option<T> = None | Some(value: T)

  datatype Result<T, E> = Ok(value: T) | Err(error: E)

  /** An array key: PHP arrays are keyed by integers or by strings. */
  datatype Key = IntKey(i: int) | StrKey(s: string)

  /**
   * A PHP value, as far as the modelled code inspects it.  An array is a
   * map from keys to values; the insertion order of its entries is not kept.
   */
  datatype Value = Null | Bool(b: bool) | Int(i: int) | Str(s: string) | Arr(entries: map<Key, Value>)

  /** `isset($v)`: the value exists and is not null. */
  predicate IsSet(v: Value) {
    !v.Null?
  }

  /** `empty($s)` for a string: the empty string and "0" are empty. */
  predicate EmptyString(s: string) {
    s == "" || s == "0"
  }

  /** `empty($v)`. */
  predicate IsEmpty(v: Value) {
    match v
    case Null => true
    case Bool(b) => !b
    case Int(i) => i == 0
    case Str(s) => EmptyString(s)
    case Arr(a) => a == map[]
  }

  // ---------------------------------------------------------------------
  // Decimal text of integers
  // ---------------------------------------------------------------------

  predicate IsDigit(c: char) {
    '0' <= c <= '9'
  }

  predicate AllDigits(s: string) {
    forall i :: 0 <= i < |s| ==> IsDigit(s[i])
  }

  function DigitChar(d: nat): (c: char)
    requires d < 10
    ensures IsDigit(c)
  {
    ('0' as int + d) as char
  }

  function DigitValue(c: char): (d: nat)
    requires IsDigit(c)
    ensures d < 10
  {
    c as int - '0' as int
  }

  /** The decimal digits of `n`, without leading zeros. */
  function NatToString(n: nat): (s: string)
    ensures |s| >= 1 && AllDigits(s)
    ensures n >= 10 ==> s[0] != '0'
    decreases n
  {
    if n < 10 then [DigitChar(n)] else NatToString(n / 10) + [DigitChar(n % 10)]
  }

  /** `(string)$i`: an optional minus sign, then the decimal digits. */
  function IntToString(i: int): (s: string)
  {
    if i < 0 then "-" + NatToString(-i) else NatToString(i)
  }

  /** The value of a non-empty run of decimal digits (leading zeros allowed). */
  function ParseDigits(s: string): (r: Option<nat>)
    ensures r.Some? <==> |s| >= 1 && AllDigits(s)
    decreases |s|
  {
    if |s| == 0 || !IsDigit(s[|s| - 1]) then None
    else if |s| == 1 then Some(DigitValue(s[0]))
    else match ParseDigits(s[..|s| - 1])
      case None => None
      case Some(p) => Some(p * 10 + DigitValue(s[|s| - 1]))
  }

  /**
   * The integer a numeric string of integer form denotes: an optional
   * sign followed by decimal digits.  Other strings give None.
   */
  function ParseInt(s: string): (r: Option<int>)
  {
    if |s| >= 1 && (s[0] == '-' || s[0] == '+') then
      match ParseDigits(s[1..])
      case None => None
      case Some(n) => Some(if s[0] == '-' then 0 - n else n as int)
    else
      match ParseDigits(s)
      case None => None
      case Some(n) => Some(n)
  }

  lemma {:induction false} ParseNatToString(n: nat)
    ensures ParseDigits(NatToString(n)) == Some(n)
    decreases n
  {
    if n >= 10 {
      var s := NatToString(n);
      ParseNatToString(n / 10);
      assert s[..|s| - 1] == NatToString(n / 10);
    }
  }

  /** Reading back the text of an integer gives that integer. */
  lemma IntToStringRoundTrip(i: int)
    ensures ParseInt(IntToString(i)) == Some(i)
  {
    var s := IntToString(i);
    if i < 0 {
      ParseNatToString(-i);
      assert s[1..] == NatToString(-i);
    } else {
      ParseNatToString(i);
    }
  }

  /** The text of an integer is its sign and digits only: no space or separator. */
  lemma IntToStringChars(i: int)
    ensures |IntToString(i)| >= 1
    ensures forall k :: 0 <= k < |IntToString(i)| ==> IsDigit(IntToString(i)[k]) || IntToString(i)[k] == '-'
  {
  }

  /** Different integers have different texts. */
  lemma IntToStringInjective(a: int, b: int)
    requires IntToString(a) == IntToString(b)
    ensures a == b
  {
    IntToStringRoundTrip(a);
    IntToStringRoundTrip(b);
  }

  // ---------------------------------------------------------------------
  // Loose comparison
  // ---------------------------------------------------------------------

  /**
   * `$a == $b` for two strings: when both are numeric they are compared as
   * numbers, otherwise byte by byte.
   */
  predicate LooseStrEquals(a: string, b: string) {
    match (ParseInt(a), ParseInt(b))
    case (Some(x), Some(y)) => x == y
    case _ => a == b
  }

  /**
   * A case label of a `switch`: a string that starts with a lower-case
   * letter, so it is not numeric and its leading-number value is 0.
   */
  predicate IsWordLabel(word: string) {
    |word| >= 1 && 'a' <= word[0] <= 'z'
  }

  /** `$v == $word`, the comparison a `switch ($v)` makes against `case $word`. */
  predicate SwitchMatches(v: Value, word: string)
    requires IsWordLabel(word)
  {
    match v
    case Null => false
    case Bool(b) => b
    case Int(i) => i == 0
    case Str(s) => s == word
    case Arr(_) => false
  }

  /** A switch on the integer 0 takes the first word case it meets. */
  lemma ZeroMatchesEveryWordLabel(word: string)
    requires IsWordLabel(word)
    ensures SwitchMatches(Int(0), word)
  {
  }

  /** On strings the switch comparison is plain equality, since a word label is not numeric. */
  lemma SwitchOnStringIsEquality(s: string, word: string)
    requires IsWordLabel(word)
    ensures SwitchMatches(Str(s), word) <==> LooseStrEquals(s, word)
  {
    assert ParseInt(word).None? by {
      assert !IsDigit(word[0]);
    }
  }

  // ---------------------------------------------------------------------
  // explode / implode
  // ---------------------------------------------------------------------

  /** The number of occurrences of `c` in `s`. */
  function Count(c: char, s: string): nat
    decreases |s|
  {
    if |s| == 0 then 0 else (if s[0] == c then 1 else 0) + Count(c, s[1..])
  }

  /**
   * `explode($sep, $s)` for a one-character separator: the pieces between
   * separators, empty pieces included; an empty string gives one empty piece.
   */
  function Explode(sep: char, s: string): (parts: seq<string>)
    ensures |parts| >= 1
    decreases |s|
  {
    if |s| == 0 then [""]
    else
      var rest := Explode(sep, s[1..]);
      if s[0] == sep then [""] + rest else [[s[0]] + rest[0]] + rest[1..]
  }

  /** `implode($sep, $parts)`. */
  function Implode(sep: char, parts: seq<string>): string
    decreases |parts|
  {
    if |parts| == 0 then ""
    else if |parts| == 1 then parts[0]
    else parts[0] + [sep] + Implode(sep, parts[1..])
  }

  /** Every piece is free of the separator, and there is one more piece than separators. */
  lemma {:induction false} ExplodeShape(sep: char, s: string)
    ensures |Explode(sep, s)| == Count(sep, s) + 1
    ensures forall i :: 0 <= i < |Explode(sep, s)| ==> sep !in Explode(sep, s)[i]
    decreases |s|
  {
    if |s| > 0 {
      ExplodeShape(sep, s[1..]);
    }
  }

  /** Joining the pieces with the separator gives back the original string. */
  lemma {:induction false} ImplodeExplode(sep: char, s: string)
    ensures Implode(sep, Explode(sep, s)) == s
    decreases |s|
  {
    if |s| > 0 {
      var rest := Explode(sep, s[1..]);
      ImplodeExplode(sep, s[1..]);
      if s[0] != sep {
        if |rest| == 1 {
          assert Implode(sep, rest) == rest[0];
        } else {
          assert Implode(sep, rest) == rest[0] + [sep] + Implode(sep, rest[1..]);
          assert [[s[0]] + rest[0]] + rest[1..] == [[s[0]] + rest[0]] + rest[1..];
          assert ([[s[0]] + rest[0]] + rest[1..])[1..] == rest[1..];
        }
      }
    }
  }

  /** Splitting a join of separator-free pieces gives back the pieces. */
  lemma {:induction false} ExplodeImplode(sep: char, parts: seq<string>)
    requires |parts| >= 1
    requires forall i :: 0 <= i < |parts| ==> sep !in parts[i]
    ensures Explode(sep, Implode(sep, parts)) == parts
    decreases |parts|
  {
    if |parts| == 1 {
      ExplodeNoSep(sep, parts[0]);
    } else {
      var tail := Implode(sep, parts[1..]);
      ExplodeImplode(sep, parts[1..]);
      ExplodeAppend(sep, parts[0], tail);
    }
  }

  /** A separator-free string explodes to itself alone. */
  lemma {:induction false} ExplodeNoSep(sep: char, s: string)
    requires sep !in s
    ensures Explode(sep, s) == [s]
    decreases |s|
  {
    if |s| > 0 {
      ExplodeNoSep(sep, s[1..]);
      assert [s[0]] + s[1..] == s;
    }
  }

  /** Exploding `a + sep + b`, where `a` holds no separator, puts `a` in front of the pieces of `b`. */
  lemma {:induction false} ExplodeAppend(sep: char, a: string, b: string)
    requires sep !in a
    ensures Explode(sep, a + [sep] + b) == [a] + Explode(sep, b)
    decreases |a|
  {
    if |a| == 0 {
      assert a + [sep] + b == [sep] + b;
      assert ([sep] + b)[1..] == b;
    } else {
      ExplodeAppend(sep, a[1..], b);
      assert (a + [sep] + b)[1..] == a[1..] + [sep] + b;
      assert [a[0]] + a[1..] == a;
    }
  }

  // ---------------------------------------------------------------------
  // array_diff
  // ---------------------------------------------------------------------

  /** `array_diff($a, $b)` on lists of strings: the entries of `a` not in `b`, in order. */
  function ArrayDiff(a: seq<string>, b: set<string>): (r: seq<string>)
    ensures forall x :: x in r <==> x in a && x !in b
    ensures |r| <= |a|
    decreases |a|
  {
    if |a| == 0 then []
    else if a[0] in b then ArrayDiff(a[1..], b)
    else [a[0]] + ArrayDiff(a[1..], b)
  }

  /** A single entry is kept exactly when it is not in `b`. */
  lemma ArrayDiffSingle(x: string, b: set<string>)
    ensures ArrayDiff([x], b) == if x in b then [] else [x]
  {
    assert [x][1..] == [];
  }

  /**
   * `array_diff` filters each entry on its own and keeps the survivors in
   * their original order: the difference of a concatenation is the
   * concatenation of the differences.
   */
  lemma {:induction false} ArrayDiffAppend(a: seq<string>, c: seq<string>, b: set<string>)
    ensures ArrayDiff(a + c, b) == ArrayDiff(a, b) + ArrayDiff(c, b)
    decreases |a|
  {
    if |a| == 0 {
      assert a + c == c;
    } else {
      assert (a + c)[0] == a[0];
      assert (a + c)[1..] == a[1..] + c;
      ArrayDiffAppend(a[1..], c, b);
    }
  }
}
