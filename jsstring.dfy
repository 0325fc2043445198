/**
 * The JavaScript string semantics the blog's transforms rely on: truthiness of
 * string-or-nullish values, `startsWith`/`endsWith`, `trim`, `split`, the `<`
 * comparison on strings, `parseInt(s, 10)` and `String(n)` for integers.
 * A JavaScript value that is a string, `null` or `undefined` is an `Option<string>`.
 */
module JsString {
  import opened Wrappers
  import opened Seqs

  /** Truthiness of a string-or-nullish value: only a non-empty string is truthy. */
  predicate Truthy(v: Option<string>) {
    v.Some? && v.value != ""
  }

  /** `a ?? d` on a string-or-nullish value. */
  function Coalesce(a: Option<string>, d: string): string {
    if a.Some? then a.value else d
  }

  /** What a template literal `${v}` inserts for a string-or-nullish value
      (`null` and `undefined` are not told apart: both read "undefined"). */
  function Interpolate(v: Option<string>): string {
    if v.Some? then v.value else "undefined"
  }

  predicate StartsWith(s: string, prefix: string) {
    |prefix| <= |s| && s[..|prefix|] == prefix
  }

  predicate EndsWith(s: string, suffix: string) {
    |suffix| <= |s| && s[|s| - |suffix|..] == suffix
  }

  /** `s.replace(/<suffix>$/, "")` for a literal suffix: drops it once, at the end only. */
  function StripSuffix(s: string, suffix: string): (r: string)
    ensures EndsWith(s, suffix) ==> r + suffix == s
    ensures !EndsWith(s, suffix) ==> r == s
  {
    if EndsWith(s, suffix) then s[..|s| - |suffix|] else s
  }

  // ---------------------------------------------------------------------------
  // trim

  /** The WhiteSpace and LineTerminator code points of ECMAScript: what `trim` removes. */
  predicate IsWhitespace(c: char) {
    || c == '\t' || c == '\n' || c == '\U{000B}' || c == '\U{000C}' || c == '\r' || c == ' '
    || c == '\U{00A0}' || c == '\U{1680}' || ('\U{2000}' <= c <= '\U{200A}')
    || c == '\U{2028}' || c == '\U{2029}' || c == '\U{202F}' || c == '\U{205F}'
    || c == '\U{3000}' || c == '\U{FEFF}'
  }

  /** Every character of `s` is whitespace. */
  predicate Blank(s: string) {
    forall i :: 0 <= i < |s| ==> IsWhitespace(s[i])
  }

  /** `s.trimStart()`: the suffix left after dropping leading whitespace. */
  function TrimStart(s: string): (r: string)
    ensures |r| <= |s| && r == s[|s| - |r|..]
    ensures r == [] || !IsWhitespace(r[0])
    ensures Blank(s[..|s| - |r|])
  {
    if s != [] && IsWhitespace(s[0]) then TrimStart(s[1..]) else s
  }

  /** `s.trimEnd()`: the prefix left after dropping trailing whitespace. */
  function TrimEnd(s: string): (r: string)
    ensures |r| <= |s| && r == s[..|r|]
    ensures r == [] || !IsWhitespace(r[|r| - 1])
    ensures Blank(s[|r|..])
  {
    if s != [] && IsWhitespace(s[|s| - 1]) then TrimEnd(s[..|s| - 1]) else s
  }

  /** `s.trim()` */
  function Trim(s: string): string {
    TrimEnd(TrimStart(s))
  }

  /** `s.trim() !== ""` holds exactly when `s` has a character that is not whitespace. */
  lemma TrimEmptyIffBlank(s: string)
    ensures Trim(s) == "" <==> Blank(s)
  {
    var t := TrimStart(s);
    if Trim(s) == "" {
      assert Blank(t) by { assert t[0..] == t; }
      if t != [] {
        assert false;
      }
      assert s[..|s|] == s;
    }
    if Blank(s) {
      BlankTrimsAway(s);
    }
  }

  /** A blank string trims to the empty string from the start. */
  lemma {:induction false} BlankTrimsAway(s: string)
    requires Blank(s)
    ensures TrimStart(s) == ""
  {
    if s != [] {
      assert IsWhitespace(s[0]);
      BlankTrimsAway(s[1..]);
    }
  }

  // ---------------------------------------------------------------------------
  // split and join

  /** `s.split(sep)` for a one-character separator. */
  function Split(s: string, sep: char): (parts: seq<string>)
    ensures |parts| >= 1
    ensures forall i :: 0 <= i < |parts| ==> sep !in parts[i]
  {
    if s == [] then [""]
    else
      var rest := Split(s[1..], sep);
      if s[0] == sep then [""] + rest
      else [[s[0]] + rest[0]] + rest[1..]
  }

  /** `parts.join(sep)` for a one-character separator. */
  function Join(parts: seq<string>, sep: char): string {
    if |parts| == 0 then ""
    else if |parts| == 1 then parts[0]
    else parts[0] + [sep] + Join(parts[1..], sep)
  }

  /** Joining the pieces of a split gives back the string. */
  lemma {:induction false} JoinSplit(s: string, sep: char)
    ensures Join(Split(s, sep), sep) == s
  {
    if s != [] {
      var rest := Split(s[1..], sep);
      JoinSplit(s[1..], sep);
      if s[0] == sep {
        assert Split(s, sep) == [""] + rest;
        assert Join([""] + rest, sep) == "" + [sep] + Join(rest, sep) by {
          assert ([""] + rest)[1..] == rest;
        }
        assert s == [s[0]] + s[1..];
      } else {
        assert Split(s, sep) == [[s[0]] + rest[0]] + rest[1..];
        if |rest| == 1 {
          assert s == [s[0]] + rest[0];
        } else {
          assert Join(rest, sep) == rest[0] + [sep] + Join(rest[1..], sep);
          assert ([[s[0]] + rest[0]] + rest[1..])[1..] == rest[1..];
          assert s == [s[0]] + s[1..];
        }
      }
    }
  }

  /** A string without the separator splits into itself alone. */
  lemma {:induction false} SplitNoSeparator(a: string, sep: char)
    requires sep !in a
    ensures Split(a, sep) == [a]
  {
    if a != [] {
      SplitNoSeparator(a[1..], sep);
      assert a == [a[0]] + a[1..];
    }
  }

  /** A piece without the separator, then the separator, then the rest: the piece comes off first. */
  lemma {:induction false} SplitCons(a: string, sep: char, rest: string)
    requires sep !in a
    ensures Split(a + [sep] + rest, sep) == [a] + Split(rest, sep)
  {
    if a == [] {
      assert a + [sep] + rest == [sep] + rest;
      assert ([sep] + rest)[1..] == rest;
    } else {
      SplitCons(a[1..], sep, rest);
      assert (a + [sep] + rest)[1..] == a[1..] + [sep] + rest;
      assert a == [a[0]] + a[1..];
    }
  }

  /** Splitting a join of separator-free pieces gives back the pieces. */
  lemma {:induction false} SplitJoin(parts: seq<string>, sep: char)
    requires |parts| >= 1
    requires forall i :: 0 <= i < |parts| ==> sep !in parts[i]
    ensures Split(Join(parts, sep), sep) == parts
  {
    if |parts| == 1 {
      SplitNoSeparator(parts[0], sep);
    } else {
      SplitJoin(parts[1..], sep);
      SplitCons(parts[0], sep, Join(parts[1..], sep));
      assert parts == [parts[0]] + parts[1..];
    }
  }

  // ---------------------------------------------------------------------------
  // the `<` operator on strings

  /** JavaScript `a < b` on two strings: lexicographic by character, and a proper prefix is smaller. */
  predicate Less(a: string, b: string) {
    if a == [] then b != []
    else if b == [] then false
    else if a[0] != b[0] then a[0] < b[0]
    else Less(a[1..], b[1..])
  }

  lemma {:induction false} LessAsymmetric(a: string, b: string)
    ensures Less(a, b) ==> !Less(b, a)
  {
    if a != [] && b != [] && a[0] == b[0] {
      LessAsymmetric(a[1..], b[1..]);
    }
  }

  lemma {:induction false} LessTransitive(a: string, b: string, c: string)
    ensures Less(a, b) && Less(b, c) ==> Less(a, c)
  {
    if a != [] && b != [] && c != [] && a[0] == b[0] && b[0] == c[0] {
      LessTransitive(a[1..], b[1..], c[1..]);
    }
  }

  /** Any two different strings are ordered one way or the other. */
  lemma {:induction false} LessConnected(a: string, b: string)
    ensures a != b ==> Less(a, b) || Less(b, a)
  {
    if a != [] && b != [] && a[0] == b[0] {
      LessConnected(a[1..], b[1..]);
      assert a == [a[0]] + a[1..] && b == [b[0]] + b[1..];
    }
  }

  /** "Not less" chains: if `b` is not below `a` and `c` is not below `b`, then `c` is not below `a`. */
  lemma NotLessTransitive(a: string, b: string, c: string)
    ensures !Less(a, b) && !Less(b, c) ==> !Less(a, c)
  {
    if !Less(a, b) && !Less(b, c) && Less(a, c) {
      LessConnected(a, b);
      LessConnected(b, c);
      if a == b {
      } else if b == c {
      } else {
        LessTransitive(c, b, a);
        LessAsymmetric(a, c);
      }
    }
  }

  // ---------------------------------------------------------------------------
  // decimal integers: parseInt(s, 10) and String(n)

  predicate IsDigit(c: char) {
    '0' <= c <= '9'
  }

  predicate AllDigits(z: string) {
    forall i :: 0 <= i < |z| ==> IsDigit(z[i])
  }

  function DigitValue(c: char): nat
    requires IsDigit(c)
  {
    (c as int) - ('0' as int)
  }

  function DigitChar(d: nat): (c: char)
    requires d < 10
    ensures IsDigit(c) && DigitValue(c) == d
  {
    (('0' as int) + d) as char
  }

  /** The longest prefix of `s` made of decimal digits. */
  function DigitPrefix(s: string): (z: string)
    ensures |z| <= |s| && z == s[..|z|]
    ensures AllDigits(z)
    ensures |z| == |s| || !IsDigit(s[|z|])
  {
    if s != [] && IsDigit(s[0]) then [s[0]] + DigitPrefix(s[1..]) else []
  }

  /** The number a string of decimal digits denotes. */
  function DigitsValue(z: string): nat
    requires AllDigits(z)
  {
    if z == [] then 0 else DigitsValue(z[..|z| - 1]) * 10 + DigitValue(z[|z| - 1])
  }

  /** The decimal digits of `n`, without leading zeros. */
  function NatDigits(n: nat): (z: string)
    ensures |z| >= 1 && AllDigits(z)
    ensures z[0] != '0' || n == 0
  {
    if n < 10 then [DigitChar(n)] else NatDigits(n / 10) + [DigitChar(n % 10)]
  }

  /** `String(n)` for an integer number. */
  function DecimalString(n: int): string {
    if n < 0 then "-" + NatDigits(-n) else NatDigits(n)
  }

  /** `parseInt(s, 10)` as section 19.2.5 of ECMA-262 defines it: skip leading
      whitespace, take an optional sign, then the longest run of decimal digits;
      `None` stands for NaN (no digit there). `-0` is 0 here. */
  function ParseInt(s: string): (n: Option<int>)
    ensures var t := TrimStart(s);
            var body := if t != [] && (t[0] == '-' || t[0] == '+') then t[1..] else t;
            && (n.None? <==> body == [] || !IsDigit(body[0]))
            && (n.Some? && t[0] == '-' ==> n.value <= 0)
            && (n.Some? && t[0] != '-' ==> n.value >= 0)
  {
    ParseSigned(TrimStart(s))
  }

  /** The sign step of `parseInt`, on a string whose leading whitespace is gone. */
  function ParseSigned(t: string): Option<int> {
    if t != [] && t[0] == '-' then Negate(ParseDigits(t[1..]))
    else if t != [] && t[0] == '+' then ParseDigits(t[1..])
    else ParseDigits(t)
  }

  function Negate(v: Option<int>): Option<int> {
    match v
    case None => None
    case Some(x) => Some(-x)
  }

  /** The digit step of `parseInt`: the value of the leading digit run, NaN when there is none. */
  function ParseDigits(body: string): Option<int> {
    var z := DigitPrefix(body);
    if z == [] then None else Some(DigitsValue(z))
  }

  lemma {:induction false} DigitsValueOfNatDigits(n: nat)
    ensures DigitsValue(NatDigits(n)) == n
  {
    if n >= 10 {
      DigitsValueOfNatDigits(n / 10);
      var z := NatDigits(n);
      assert z[..|z| - 1] == NatDigits(n / 10);
    }
  }

  /** The digit run of a digit string followed by a non-digit is that digit string. */
  lemma {:induction false} DigitPrefixOfDigits(z: string, rest: string)
    requires AllDigits(z)
    requires rest == [] || !IsDigit(rest[0])
    ensures DigitPrefix(z + rest) == z
  {
    if z != [] {
      DigitPrefixOfDigits(z[1..], rest);
      assert (z + rest)[1..] == z[1..] + rest;
      assert z == [z[0]] + z[1..];
    }
  }

  /** `parseInt(String(n) + rest, 10) == n` whenever `rest` does not continue the digits. */
  lemma ParseIntDecimal(n: int, rest: string)
    requires rest == [] || !IsDigit(rest[0])
    ensures ParseInt(DecimalString(n) + rest) == Some(n)
  {
    var m: nat := if n < 0 then -n else n;
    DigitsValueOfNatDigits(m);
    if n < 0 {
      ParseIntNegative(NatDigits(m), rest);
      assert DecimalString(n) == ['-'] + NatDigits(m);
      AppendAssoc(['-'], NatDigits(m), rest);
    } else {
      ParseIntUnsigned(NatDigits(m), rest);
    }
  }

  lemma ParseIntUnsigned(z: string, rest: string)
    requires z != [] && AllDigits(z)
    requires rest == [] || !IsDigit(rest[0])
    ensures ParseInt(z + rest) == Some(DigitsValue(z))
  {
    var s := z + rest;
    assert s[0] == z[0];
    TrimStartNoWhitespace(s);
    ParseDigitsOfDigits(z, rest);
  }

  lemma ParseIntNegative(z: string, rest: string)
    requires z != [] && AllDigits(z)
    requires rest == [] || !IsDigit(rest[0])
    ensures ParseInt(['-'] + (z + rest)) == Some(-(DigitsValue(z) as int))
  {
    var t := z + rest;
    ParseDigitsOfDigits(z, rest);
    ParseIntMinus(t);
    assert Negate(ParseDigits(t)) == Some(-(DigitsValue(z) as int));
  }

  /** A leading minus sign negates what follows. */
  lemma ParseIntMinus(t: string)
    ensures ParseInt(['-'] + t) == Negate(ParseDigits(t))
  {
    var s := ['-'] + t;
    assert s[0] == '-' && s[1..] == t;
    TrimStartNoWhitespace(s);
  }

  /** Leading whitespace does not change what `parseInt` reads. */
  lemma ParseIntSkipsWhitespace(w: char, s: string)
    requires IsWhitespace(w)
    ensures ParseInt([w] + s) == ParseInt(s)
  {
    assert ([w] + s)[1..] == s;
  }

  /** A string that, once whitespace is skipped, starts with neither a sign nor a digit is NaN. */
  lemma ParseIntNoDigit(s: string)
    requires s != [] && !IsWhitespace(s[0]) && s[0] != '-' && s[0] != '+' && !IsDigit(s[0])
    ensures ParseInt(s) == None
  {
    TrimStartNoWhitespace(s);
  }

  /** A single digit reads as its value. */
  lemma ParseIntDigit(c: char)
    requires IsDigit(c)
    ensures ParseInt([c]) == Some(DigitValue(c))
  {
    ParseIntUnsigned([c], []);
    assert [c] + [] == [c];
    assert [c][..0] == [];
  }

  lemma TrimStartNoWhitespace(s: string)
    requires s != [] && !IsWhitespace(s[0])
    ensures TrimStart(s) == s
  {
  }

  lemma ParseDigitsOfDigits(z: string, rest: string)
    requires z != [] && AllDigits(z)
    requires rest == [] || !IsDigit(rest[0])
    ensures ParseDigits(z + rest) == Some(DigitsValue(z))
  {
    DigitPrefixOfDigits(z, rest);
  }

  /** `parseInt` yields NaN exactly when, after whitespace and one sign, no digit follows. */
  lemma ParseIntNaN(s: string)
    ensures var t := TrimStart(s);
            var body := if t != [] && (t[0] == '-' || t[0] == '+') then t[1..] else t;
            ParseInt(s).None? <==> (body == [] || !IsDigit(body[0]))
  {
  }

  /** `parts.join("")`. */
  function Concat(parts: seq<string>): string {
    if parts == [] then "" else parts[0] + Concat(parts[1..])
  }

  /** `x` occurs in `s` at some position. */
  ghost predicate Contains(s: string, x: string) {
    exists k :: OccursAt(s, x, k)
  }

  predicate OccursAt(s: string, x: string, k: int) {
    0 <= k && k + |x| <= |s| && s[k..k + |x|] == x
  }

  /** The joined string is the join of the parts before `i`, part `i`, and the join of the rest. */
  lemma {:induction false} ConcatSplit(parts: seq<string>, i: nat)
    requires i < |parts|
    ensures Concat(parts) == Concat(parts[..i]) + parts[i] + Concat(parts[i + 1..])
  {
    if i > 0 {
      ConcatSplit(parts[1..], i - 1);
      assert parts[1..][..i - 1] == parts[..i][1..];
      assert parts[1..][i..] == parts[i + 1..];
    }
  }

  /** Every part occurs in the joined string. */
  lemma ConcatContains(parts: seq<string>, i: nat, x: string, offset: nat)
    requires i < |parts| && offset + |x| <= |parts[i]| && parts[i][offset..offset + |x|] == x
    ensures Contains(Concat(parts), x)
  {
    ConcatSplit(parts, i);
    var before := Concat(parts[..i]);
    var after := Concat(parts[i + 1..]);
    var k := |before| + offset;
    forall j | 0 <= j < |x| ensures (before + parts[i] + after)[k + j] == x[j] {
      assert x[j] == parts[i][offset + j];
    }
    assert OccursAt(Concat(parts), x, k);
  }

  /** An occurrence inside the middle of a concatenation, shifted by the length of what precedes it. */
  lemma OccursInside(pre: string, body: string, post: string, x: string, k: int)
    requires OccursAt(body, x, k)
    ensures OccursAt(pre + body + post, x, |pre| + k)
  {
    assert (pre + body + post)[|pre| + k..|pre| + k + |x|] == body[k..k + |x|];
  }

  /** An occurrence in a prefix is an occurrence in the whole string. */
  lemma OccursBefore(a: string, b: string, x: string, k: int)
    requires OccursAt(a, x, k)
    ensures OccursAt(a + b, x, k)
  {
    assert (a + b)[k..k + |x|] == a[k..k + |x|];
  }
}
