/**
 * The string primitives the framework relies on, stated over `seq<char>`:
 * the `\s` character class, `toLowerCase`, `replace(/\s+/g, sep)`,
 * `replace(/[:.]/g, '-')`, `includes` and `parseInt(text, 10)`.
 */
module Text {

  /** JavaScript's `\s`: the WhiteSpace and LineTerminator characters of ECMAScript. */
  predicate IsWhitespace(c: char) {
    || c == ' ' || c == '\t' || c == '\n' || c == '\r'
    || c == '\U{000B}' || c == '\U{000C}' || c == '\U{00A0}' || c == '\U{1680}'
    || ('\U{2000}' <= c <= '\U{200A}')
    || c == '\U{2028}' || c == '\U{2029}' || c == '\U{202F}' || c == '\U{205F}'
    || c == '\U{3000}' || c == '\U{FEFF}'
  }

  predicate NoWhitespace(s: string) {
    forall i :: 0 <= i < |s| ==> !IsWhitespace(s[i])
  }

  predicate AllWhitespace(s: string) {
    forall i :: 0 <= i < |s| ==> IsWhitespace(s[i])
  }

  predicate IsUpper(c: char) {
    'A' <= c <= 'Z'
  }

  /** `toLowerCase` on one character (ASCII letters; every other character is kept). */
  function LowerChar(c: char): (r: char)
    ensures !IsUpper(r)
    ensures IsWhitespace(r) <==> IsWhitespace(c)
    ensures !IsUpper(c) ==> r == c
  {
    if IsUpper(c) then (c as int + ('a' as int - 'A' as int)) as char else c
  }

  /** `s.toLowerCase()`. */
  function ToLower(s: string): (r: string)
    ensures |r| == |s|
    ensures forall i :: 0 <= i < |s| ==> r[i] == LowerChar(s[i])
  {
    if s == [] then [] else [LowerChar(s[0])] + ToLower(s[1..])
  }

  lemma {:induction false} ToLowerAppend(a: string, b: string)
    ensures ToLower(a + b) == ToLower(a) + ToLower(b)
    decreases |a|
  {
    if a == [] {
      assert a + b == b;
    } else {
      assert (a + b)[1..] == a[1..] + b;
      ToLowerAppend(a[1..], b);
    }
  }

  /** Lowercasing twice is lowercasing once. */
  lemma ToLowerIdempotent(s: string)
    ensures ToLower(ToLower(s)) == ToLower(s)
  {
    var once := ToLower(s);
    assert forall i :: 0 <= i < |once| ==> ToLower(once)[i] == once[i];
  }

  /**
   * The suffix of `s` left once its leading whitespace is dropped: what is
   * dropped is all whitespace, and what is left does not start with any.
   */
  function SkipWhitespace(s: string): (r: string)
    ensures |r| <= |s| && r == s[|s| - |r|..]
    ensures AllWhitespace(s[..|s| - |r|])
    ensures r == [] || !IsWhitespace(r[0])
  {
    if s != [] && IsWhitespace(s[0]) then
      var r := SkipWhitespace(s[1..]);
      assert s[..|s| - |r|] == [s[0]] + s[1..][..|s| - 1 - |r|];
      r
    else s
  }

  /** `s.replace(/\s+/g, sep)`: every maximal run of whitespace becomes one `sep`. */
  function ReplaceWhitespaceRuns(s: string, sep: string): string
    decreases |s|
  {
    if s == [] then []
    else if IsWhitespace(s[0]) then sep + ReplaceWhitespaceRuns(SkipWhitespace(s[1..]), sep)
    else [s[0]] + ReplaceWhitespaceRuns(s[1..], sep)
  }

  /** A word (no whitespace) passes through unchanged. */
  lemma {:induction false} ReplaceRunsKeepsWord(word: string, rest: string, sep: string)
    requires NoWhitespace(word)
    ensures ReplaceWhitespaceRuns(word + rest, sep) == word + ReplaceWhitespaceRuns(rest, sep)
  {
    if word != [] {
      assert (word + rest)[1..] == word[1..] + rest;
      ReplaceRunsKeepsWord(word[1..], rest, sep);
      assert word == [word[0]] + word[1..];
    } else {
      assert word + rest == rest;
    }
  }

  lemma {:induction false} SkipRun(run: string, rest: string)
    requires AllWhitespace(run)
    requires rest == [] || !IsWhitespace(rest[0])
    ensures SkipWhitespace(run + rest) == rest
  {
    if run == [] {
      assert run + rest == rest;
    } else {
      assert (run + rest)[1..] == run[1..] + rest;
      SkipRun(run[1..], rest);
    }
  }

  /** A maximal whitespace run, however long, becomes exactly one `sep`. */
  lemma {:induction false} ReplaceRunsCollapsesRun(run: string, rest: string, sep: string)
    requires run != [] && AllWhitespace(run)
    requires rest == [] || !IsWhitespace(rest[0])
    ensures ReplaceWhitespaceRuns(run + rest, sep) == sep + ReplaceWhitespaceRuns(rest, sep)
  {
    assert (run + rest)[1..] == run[1..] + rest;
    SkipRun(run[1..], rest);
  }

  /** A word, then a whitespace run, then more text: the word is kept and the run becomes one `sep`. */
  lemma ReplaceRunsJoinsWords(word: string, run: string, rest: string, sep: string)
    requires NoWhitespace(word)
    requires run != [] && AllWhitespace(run)
    requires rest == [] || !IsWhitespace(rest[0])
    ensures ReplaceWhitespaceRuns(word + run + rest, sep) == word + sep + ReplaceWhitespaceRuns(rest, sep)
  {
    assert word + run + rest == word + (run + rest);
    ReplaceRunsKeepsWord(word, run + rest, sep);
    ReplaceRunsCollapsesRun(run, rest, sep);
    assert word + (sep + ReplaceWhitespaceRuns(rest, sep)) == word + sep + ReplaceWhitespaceRuns(rest, sep);
  }

  /** With a separator free of whitespace, the result holds no whitespace. */
  lemma {:induction false} ReplaceRunsNoWhitespace(s: string, sep: string)
    requires NoWhitespace(sep)
    ensures NoWhitespace(ReplaceWhitespaceRuns(s, sep))
    decreases |s|
  {
    if s == [] {
    } else if IsWhitespace(s[0]) {
      ReplaceRunsNoWhitespace(SkipWhitespace(s[1..]), sep);
    } else {
      ReplaceRunsNoWhitespace(s[1..], sep);
    }
  }

  /** Characters other than whitespace are never changed in case or order by the replacement. */
  lemma {:induction false} ReplaceRunsNoUpper(s: string, sep: string)
    requires forall i :: 0 <= i < |s| ==> !IsUpper(s[i])
    requires forall i :: 0 <= i < |sep| ==> !IsUpper(sep[i])
    ensures forall i :: 0 <= i < |ReplaceWhitespaceRuns(s, sep)| ==> !IsUpper(ReplaceWhitespaceRuns(s, sep)[i])
    decreases |s|
  {
    if s == [] {
    } else if IsWhitespace(s[0]) {
      var t := SkipWhitespace(s[1..]);
      forall i | 0 <= i < |t| ensures !IsUpper(t[i]) {
        assert t[i] == s[|s| - |t| + i];
      }
      ReplaceRunsNoUpper(t, sep);
      var r := ReplaceWhitespaceRuns(t, sep);
      assert ReplaceWhitespaceRuns(s, sep) == sep + r;
      forall i | 0 <= i < |sep + r| ensures !IsUpper((sep + r)[i]) {
        if i >= |sep| {
          assert (sep + r)[i] == r[i - |sep|];
        }
      }
    } else {
      ReplaceRunsNoUpper(s[1..], sep);
    }
  }

  /** `s.replace(/[<targets>]/g, replacement)`: every character in `targets` becomes `replacement`. */
  function ReplaceEach(s: string, targets: set<char>, replacement: char): (r: string)
    ensures |r| == |s|
    ensures forall i :: 0 <= i < |s| ==> r[i] == if s[i] in targets then replacement else s[i]
  {
    if s == [] then []
    else [if s[0] in targets then replacement else s[0]] + ReplaceEach(s[1..], targets, replacement)
  }

  /** The replacement works character by character, so it distributes over concatenation. */
  lemma {:induction false} ReplaceEachAppend(a: string, b: string, targets: set<char>, replacement: char)
    ensures ReplaceEach(a + b, targets, replacement)
            == ReplaceEach(a, targets, replacement) + ReplaceEach(b, targets, replacement)
    decreases |a|
  {
    if a == [] {
      assert a + b == b;
    } else {
      assert (a + b)[1..] == a[1..] + b;
      ReplaceEachAppend(a[1..], b, targets, replacement);
    }
  }

  /** A string free of the targets is left as it is. */
  lemma ReplaceEachKeeps(s: string, targets: set<char>, replacement: char)
    requires forall i :: 0 <= i < |s| ==> s[i] !in targets
    ensures ReplaceEach(s, targets, replacement) == s
  {
  }

  /** One target character between `a` and a target-free `b` becomes the replacement. */
  lemma ReplaceEachAtTarget(a: string, x: char, b: string, targets: set<char>, replacement: char)
    requires x in targets
    requires forall i :: 0 <= i < |b| ==> b[i] !in targets
    ensures ReplaceEach(a + [x] + b, targets, replacement)
            == ReplaceEach(a, targets, replacement) + [replacement] + b
  {
    ReplaceEachAppend(a + [x], b, targets, replacement);
    ReplaceEachAppend(a, [x], targets, replacement);
    ReplaceEachKeeps(b, targets, replacement);
    var one := ReplaceEach([x], targets, replacement);
    assert one == [replacement] by {
      assert |one| == 1 && one[0] == replacement;
    }
  }

  predicate StartsWith(s: string, prefix: string) {
    |prefix| <= |s| && s[..|prefix|] == prefix
  }

  /** `s.includes(sub)`. */
  function Contains(s: string, sub: string): bool
    decreases |s|
  {
    if StartsWith(s, sub) then true
    else if s == [] then false
    else Contains(s[1..], sub)
  }

  /** `sub` occurs in `s` starting at position `i`. */
  predicate OccursAt(s: string, sub: string, i: int) {
    0 <= i && i + |sub| <= |s| && s[i..i + |sub|] == sub
  }

  /** `Contains` holds exactly when `sub` occurs at some position of `s`. */
  lemma {:induction false} ContainsIff(s: string, sub: string)
    ensures Contains(s, sub) <==> exists i :: OccursAt(s, sub, i)
    decreases |s|
  {
    if StartsWith(s, sub) {
      assert OccursAt(s, sub, 0);
    } else if s == [] {
    } else {
      ContainsIff(s[1..], sub);
      if exists i :: OccursAt(s, sub, i) {
        var i :| OccursAt(s, sub, i);
        assert i != 0;
        assert OccursAt(s[1..], sub, i - 1) by {
          assert s[1..][i - 1..i - 1 + |sub|] == s[i..i + |sub|];
        }
      }
      if exists j :: OccursAt(s[1..], sub, j) {
        var j :| OccursAt(s[1..], sub, j);
        assert OccursAt(s, sub, j + 1) by {
          assert s[1..][j..j + |sub|] == s[j + 1..j + 1 + |sub|];
        }
      }
    }
  }

  /** Occurrence at a known position is enough for `Contains`. */
  lemma ContainsAt(s: string, sub: string, i: nat)
    requires OccursAt(s, sub, i)
    ensures Contains(s, sub)
  {
    ContainsIff(s, sub);
  }

  /** `sub` is found between any prefix and suffix. */
  lemma ContainsInMiddle(a: string, sub: string, b: string)
    ensures Contains(a + sub + b, sub)
  {
    assert (a + sub + b)[|a|..|a| + |sub|] == sub;
    ContainsAt(a + sub + b, sub, |a|);
  }

  /** A string that never has the first character of `sub` does not contain `sub`. */
  lemma MissingFirstChar(s: string, sub: string)
    requires sub != []
    requires forall k :: 0 <= k < |s| ==> s[k] != sub[0]
    ensures !Contains(s, sub)
  {
    ContainsIff(s, sub);
    forall i | 0 <= i < |s|
      ensures !OccursAt(s, sub, i)
    {
      if i + |sub| <= |s| {
        assert s[i..i + |sub|][0] == s[i];
      }
    }
  }

  // ---------------------------------------------------------------------------
  // parseInt(text, 10)

  /** A JavaScript number that `parseInt` can yield: an integer or `NaN`. */
  datatype ParsedInt = NaN | Num(value: int)

  predicate IsDigit(c: char) {
    '0' <= c <= '9'
  }

  predicate AllDigits(s: string) {
    forall i :: 0 <= i < |s| ==> IsDigit(s[i])
  }

  function DigitValue(c: char): (d: nat)
    requires IsDigit(c)
    ensures d < 10
  {
    c as int - '0' as int
  }

  function DigitChar(d: nat): (c: char)
    requires d < 10
    ensures IsDigit(c) && DigitValue(c) == d
  {
    ('0' as int + d) as char
  }

  /** The longest prefix of `s` made of decimal digits. */
  function DigitPrefix(s: string): (r: string)
    ensures |r| <= |s| && r == s[..|r|]
    ensures AllDigits(r)
    ensures |r| == |s| || !IsDigit(s[|r|])
  {
    if s != [] && IsDigit(s[0]) then [s[0]] + DigitPrefix(s[1..]) else []
  }

  /** The value of a decimal numeral, most significant digit first. */
  function DigitsValue(s: string): nat
    requires AllDigits(s)
  {
    if s == [] then 0 else DigitsValue(s[..|s| - 1]) * 10 + DigitValue(s[|s| - 1])
  }

  /** The longest run of leading digits, read as a number; `NaN` when there is none. */
  function ParseDigits(body: string): ParsedInt {
    var digits := DigitPrefix(body);
    if digits == [] then NaN else Num(DigitsValue(digits))
  }

  /** `-x` in JavaScript: `NaN` stays `NaN`. */
  function Negate(p: ParsedInt): ParsedInt {
    match p
    case NaN => NaN
    case Num(v) => Num(-v)
  }

  /** One optional sign, then the digits. */
  function ParseSigned(t: string): ParsedInt {
    if t != [] && t[0] == '-' then Negate(ParseDigits(t[1..]))
    else if t != [] && t[0] == '+' then ParseDigits(t[1..])
    else ParseDigits(t)
  }

  /**
   * `parseInt(s, 10)`: leading whitespace is skipped, one optional sign is read,
   * then the longest run of digits; no digit at all gives `NaN`.
   */
  function ParseInt(s: string): ParsedInt {
    ParseSigned(SkipWhitespace(s))
  }

  /** The decimal numeral of a natural number, as JavaScript's `String(n)` writes it. */
  function NatToString(n: nat): (r: string)
    ensures r != [] && AllDigits(r)
    ensures |r| > 1 ==> r[0] != '0'
  {
    if n < 10 then [DigitChar(n)] else NatToString(n / 10) + [DigitChar(n % 10)]
  }

  /** `String(i)` for an integer. */
  function IntToString(i: int): string {
    if i < 0 then "-" + NatToString(-i) else NatToString(i)
  }

  lemma {:induction false} DigitsValueOfNatToString(n: nat)
    ensures DigitsValue(NatToString(n)) == n
  {
    var s := NatToString(n);
    if n < 10 {
      assert s[..|s| - 1] == [];
    } else {
      DigitsValueOfNatToString(n / 10);
      assert s[..|s| - 1] == NatToString(n / 10);
    }
  }

  lemma {:induction false} DigitPrefixOfNumeral(digits: string, tail: string)
    requires AllDigits(digits)
    requires tail == [] || !IsDigit(tail[0])
    ensures DigitPrefix(digits + tail) == digits
  {
    if digits == [] {
      assert digits + tail == tail;
    } else {
      assert (digits + tail)[1..] == digits[1..] + tail;
      DigitPrefixOfNumeral(digits[1..], tail);
      assert digits == [digits[0]] + digits[1..];
    }
  }

  /** A digit is neither blank nor a sign. */
  lemma DigitIsNotBlankOrSign(c: char)
    requires IsDigit(c)
    ensures !IsWhitespace(c) && c != '-' && c != '+'
  {
  }

  /** Text that does not start blank is not changed by skipping blanks. */
  lemma NoLeadingBlank(s: string)
    requires s != [] && !IsWhitespace(s[0])
    ensures SkipWhitespace(s) == s
  {
  }

  /** A numeral followed by a non-digit reads as the numeral's value. */
  lemma ParseDigitsOfNumeral(numeral: string, tail: string)
    requires numeral != [] && AllDigits(numeral)
    requires tail == [] || !IsDigit(tail[0])
    ensures ParseDigits(numeral + tail) == Num(DigitsValue(numeral))
  {
    DigitPrefixOfNumeral(numeral, tail);
  }

  lemma ParseIntOfUnsigned(numeral: string, tail: string)
    requires numeral != [] && AllDigits(numeral)
    requires tail == [] || !IsDigit(tail[0])
    ensures ParseInt(numeral + tail) == Num(DigitsValue(numeral))
  {
    var s := numeral + tail;
    assert s[0] == numeral[0];
    DigitIsNotBlankOrSign(s[0]);
    NoLeadingBlank(s);
    ParseDigitsOfNumeral(numeral, tail);
  }

  /** A leading minus sign negates what the digits after it read as. */
  lemma ParseIntOfMinus(body: string)
    ensures ParseInt(['-'] + body) == Negate(ParseDigits(body))
  {
    var s := ['-'] + body;
    NoLeadingBlank(s);
    assert s[1..] == body;
  }

  lemma ParseIntOfNegative(numeral: string, tail: string)
    requires numeral != [] && AllDigits(numeral)
    requires tail == [] || !IsDigit(tail[0])
    ensures ParseInt(['-'] + (numeral + tail)) == Num(-(DigitsValue(numeral) as int))
  {
    ParseIntOfMinus(numeral + tail);
    ParseDigitsOfNumeral(numeral, tail);
  }

  /**
   * `parseInt` reads back every integer written in decimal, whatever non-digit
   * text follows it.
   */
  lemma ParseIntOfDecimal(i: int, tail: string)
    requires tail == [] || !IsDigit(tail[0])
    ensures ParseInt(IntToString(i) + tail) == Num(i)
  {
    var m: nat := if i < 0 then -i else i;
    var numeral := NatToString(m);
    assert DigitsValue(numeral) == m by {
      DigitsValueOfNatToString(m);
    }
    if i < 0 {
      assert IntToString(i) + tail == ['-'] + (numeral + tail);
      ParseIntOfNegative(numeral, tail);
    } else {
      assert IntToString(i) + tail == numeral + tail;
      ParseIntOfUnsigned(numeral, tail);
    }
  }

  /** Text whose first non-blank character is neither a sign nor a digit parses to `NaN`. */
  lemma ParseIntNaN(s: string)
    requires var t := SkipWhitespace(s); t == [] || (!IsDigit(t[0]) && t[0] != '-' && t[0] != '+')
    ensures ParseInt(s) == NaN
  {
    var t := SkipWhitespace(s);
    if t != [] {
      assert DigitPrefix(t) == [];
    }
  }
}
