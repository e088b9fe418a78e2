/** String helpers shared by the session and the supervisor: JavaScript's
    `toLowerCase`, `includes`, `split`, `trim` and number-to-decimal
    conversion, stated over `seq<char>`. */
module Text {

  // ---------------------------------------------------------------------
  // Case folding
  // ---------------------------------------------------------------------

  /** Upper-case letters of ASCII and of the Latin-1 supplement (the accented
      capitals of Spanish titles); U+00D7 (multiplication sign) is not a letter. */
  predicate IsUpper(c: char) {
    ('A' <= c <= 'Z') || ('\U{C0}' <= c <= '\U{DE}' && c != '\U{D7}')
  }

  function LowerChar(c: char): char {
    if IsUpper(c) then (c as int + 32) as char else c
  }

  /** `String.prototype.toLowerCase`, restricted to the letters `IsUpper` knows. */
  function Lower(s: string): string {
    seq(|s|, i requires 0 <= i < |s| => LowerChar(s[i]))
  }

  lemma LowerHasNoUpper(s: string)
    ensures |Lower(s)| == |s|
    ensures forall i :: 0 <= i < |s| ==> !IsUpper(Lower(s)[i])
  {
  }

  lemma LowerIdempotent(s: string)
    ensures Lower(Lower(s)) == Lower(s)
  {
  }

  // ---------------------------------------------------------------------
  // Substring search
  // ---------------------------------------------------------------------

  /** `sub` occurs in `s` starting at position `i`. */
  predicate OccursAt(s: string, sub: string, i: nat) {
    i + |sub| <= |s| && s[i..i + |sub|] == sub
  }

  /** `String.prototype.includes`: true iff `sub` occurs somewhere in `s`
      (so the empty string is contained in every string). */
  function Contains(s: string, sub: string): (b: bool)
    ensures b <==> exists i: nat :: OccursAt(s, sub, i)
    decreases |s|
  {
    if |sub| > |s| then
      assert forall i: nat :: !OccursAt(s, sub, i);
      false
    else if s[..|sub|] == sub then
      assert OccursAt(s, sub, 0);
      true
    else
      var b := Contains(s[1..], sub);
      ContainsShift(s, sub);
      b
  }

  /** Occurrences in `s[1..]` are the occurrences in `s` after position 0. */
  lemma ContainsShift(s: string, sub: string)
    requires |s| > 0 && !OccursAt(s, sub, 0)
    ensures (exists i: nat :: OccursAt(s[1..], sub, i)) <==> (exists i: nat :: OccursAt(s, sub, i))
  {
    forall i: nat | OccursAt(s[1..], sub, i)
      ensures OccursAt(s, sub, i + 1)
    {
      assert s[1..][i..i + |sub|] == s[i + 1..i + 1 + |sub|];
    }
    forall i: nat | OccursAt(s, sub, i)
      ensures i > 0 && OccursAt(s[1..], sub, i - 1)
    {
      assert s[1..][i - 1..i - 1 + |sub|] == s[i..i + |sub|];
    }
  }

  // ---------------------------------------------------------------------
  // Splitting and joining on one separator character
  // ---------------------------------------------------------------------

  /** `String.prototype.split(sep)` for a one-character separator: never
      empty, and `"".split(sep) == [""]`. */
  function Split(s: string, sep: char): (parts: seq<string>)
    ensures |parts| >= 1
    ensures forall k :: 0 <= k < |parts| ==> sep !in parts[k]
    decreases |s|
  {
    if s == [] then [[]]
    else
      var rest := Split(s[1..], sep);
      if s[0] == sep then [[]] + rest
      else [[s[0]] + rest[0]] + rest[1..]
  }

  /** `Array.prototype.join(sep)`. */
  function Join(parts: seq<string>, sep: char): string
    decreases |parts|
  {
    if parts == [] then []
    else if |parts| == 1 then parts[0]
    else parts[0] + [sep] + Join(parts[1..], sep)
  }

  /** Splitting loses nothing: joining the pieces back gives the input. */
  lemma {:induction false} JoinSplit(s: string, sep: char)
    ensures Join(Split(s, sep), sep) == s
    decreases |s|
  {
    if s != [] {
      var rest := Split(s[1..], sep);
      JoinSplit(s[1..], sep);
      if s[0] == sep {
        assert Split(s, sep) == [[]] + rest;
        assert ([[]] + rest)[1..] == rest;
      } else {
        var parts := [[s[0]] + rest[0]] + rest[1..];
        assert Split(s, sep) == parts;
        if |rest| == 1 {
          assert Join(rest, sep) == rest[0];
        } else {
          assert Join(rest, sep) == rest[0] + [sep] + Join(rest[1..], sep);
          assert parts[1..] == rest[1..];
        }
      }
    }
  }

  /** Equal prefixes and suffixes cancel. */
  lemma ConcatCancel(pre: string, x: string, y: string, suf: string)
    ensures pre + x + suf == pre + y + suf <==> x == y
  {
    if pre + x + suf == pre + y + suf {
      assert |x| == |y|;
      assert x == (pre + x + suf)[|pre|..|pre| + |x|];
      assert y == (pre + y + suf)[|pre|..|pre| + |y|];
    }
  }

  /** A string without the separator is one piece. */
  lemma {:induction false} SplitNoSeparator(a: string, sep: char)
    requires sep !in a
    ensures Split(a, sep) == [a]
    decreases |a|
  {
    if a != [] {
      SplitNoSeparator(a[1..], sep);
      assert [a[0]] + a[1..] == a;
    }
  }

  /** The first separator ends the first piece. */
  lemma {:induction false} SplitAtFirst(a: string, b: string, sep: char)
    requires sep !in a
    ensures Split(a + [sep] + b, sep) == [a] + Split(b, sep)
    decreases |a|
  {
    var s := a + [sep] + b;
    if a == [] {
      assert s[1..] == b;
    } else {
      assert s[1..] == a[1..] + [sep] + b;
      SplitAtFirst(a[1..], b, sep);
      assert [a[0]] + a[1..] == a;
    }
  }

  /** `x` is the text of `t` up to its first `sep`, or all of `t` when it
      holds none. */
  predicate LeadingField(x: string, t: string, sep: char) {
    sep !in x && x <= t && (|x| == |t| || t[|x|] == sep)
  }

  /** The first piece of a split is the text before the first separator. */
  lemma {:induction false} SplitLeads(t: string, sep: char)
    ensures LeadingField(Split(t, sep)[0], t, sep)
    decreases |t|
  {
    if t != [] && t[0] != sep {
      SplitLeads(t[1..], sep);
      var x := Split(t[1..], sep)[0];
      assert Split(t, sep)[0] == [t[0]] + x;
      assert t == [t[0]] + t[1..];
    }
  }

  /** The second piece of a split is the text between the first and the
      second separator. */
  lemma SplitSecondLeads(t: string, sep: char)
    requires |Split(t, sep)| >= 2
    ensures |Split(t, sep)[0]| < |t|
    ensures LeadingField(Split(t, sep)[1], t[|Split(t, sep)[0]| + 1..], sep)
  {
    var x := Split(t, sep)[0];
    SplitLeads(t, sep);
    SplitHasSeparator(t, sep);
    var rest := t[|x| + 1..];
    assert t == x + [sep] + rest;
    SplitAtFirst(x, rest, sep);
    SplitLeads(rest, sep);
  }

  /** Joining pieces free of the separator and splitting again gives the
      pieces back. */
  lemma {:induction false} SplitJoin(parts: seq<string>, sep: char)
    requires |parts| >= 1
    requires forall k :: 0 <= k < |parts| ==> sep !in parts[k]
    ensures Split(Join(parts, sep), sep) == parts
    decreases |parts|
  {
    if |parts| == 1 {
      SplitNoSeparator(parts[0], sep);
    } else {
      SplitJoin(parts[1..], sep);
      SplitAtFirst(parts[0], Join(parts[1..], sep), sep);
      assert [parts[0]] + parts[1..] == parts;
    }
  }

  /** The input holds the separator exactly when it splits into two or more pieces. */
  lemma {:induction false} SplitHasSeparator(s: string, sep: char)
    ensures sep in s <==> |Split(s, sep)| >= 2
    decreases |s|
  {
    if sep !in s {
      SplitNoSeparator(s, sep);
    } else if s[0] != sep {
      assert sep in s[1..] by {
        var i :| 0 <= i < |s| && s[i] == sep;
        assert s[1..][i - 1] == sep;
      }
      SplitHasSeparator(s[1..], sep);
    }
  }

  // ---------------------------------------------------------------------
  // Whitespace trimming
  // ---------------------------------------------------------------------

  /** The characters `String.prototype.trim` removes: white space and line
      terminators of ECMAScript (section 12.2 and 12.3 of ECMA-262). */
  predicate IsSpace(c: char) {
    c == ' ' || c == '\t' || c == '\n' || c == '\r' || c == '\U{B}' || c == '\U{C}'
    || c == '\U{A0}' || c == '\U{1680}' || ('\U{2000}' <= c <= '\U{200A}')
    || c == '\U{2028}' || c == '\U{2029}' || c == '\U{202F}' || c == '\U{205F}'
    || c == '\U{3000}' || c == '\U{FEFF}'
  }

  predicate Blank(s: string) {
    forall i :: 0 <= i < |s| ==> IsSpace(s[i])
  }

  /** The first position at or after `i` that does not hold white space. */
  function SkipSpaces(s: string, i: nat): (k: nat)
    requires i <= |s|
    ensures i <= k <= |s| && (k == |s| || !IsSpace(s[k]))
    ensures forall m :: i <= m < k ==> IsSpace(s[m])
    decreases |s| - i
  {
    if i < |s| && IsSpace(s[i]) then SkipSpaces(s, i + 1) else i
  }

  /** The position after the last character before `j` (and at or after `lo`)
      that is not white space. */
  function SkipSpacesBack(s: string, lo: nat, j: nat): (k: nat)
    requires lo <= j <= |s|
    ensures lo <= k <= j && (k == lo || !IsSpace(s[k - 1]))
    ensures forall m :: k <= m < j ==> IsSpace(s[m])
    decreases j
  {
    if j > lo && IsSpace(s[j - 1]) then SkipSpacesBack(s, lo, j - 1) else j
  }

  /** `String.prototype.trim`: the input without its leading and trailing
      white space. */
  function Trim(s: string): (r: string)
    ensures Unpadded(r)
    ensures exists a: nat, b: nat :: a <= b <= |s| && r == s[a..b] && Blank(s[..a]) && Blank(s[b..])
    ensures exists i: nat :: OccursAt(s, r, i)
    ensures r == [] <==> Blank(s)
  {
    var a := SkipSpaces(s, 0);
    var b := SkipSpacesBack(s, a, |s|);
    assert OccursAt(s, s[a..b], a);
    assert Blank(s[..a]) && Blank(s[b..]);
    s[a..b]
  }

  /** Neither the first nor the last character is white space. */
  predicate Unpadded(s: string) {
    s == [] || (!IsSpace(s[0]) && !IsSpace(s[|s| - 1]))
  }

  /** Trimming a string without surrounding white space changes nothing. */
  lemma TrimUnpadded(s: string)
    requires Unpadded(s)
    ensures Trim(s) == s
  {
    var a: nat, b: nat :| a <= b <= |s| && Trim(s) == s[a..b] && Blank(s[..a]) && Blank(s[b..]);
    if a > 0 {
      assert s[..a][0] == s[0];
    }
    if b < |s| {
      assert s[b..][|s| - 1 - b] == s[|s| - 1];
    }
  }

  // ---------------------------------------------------------------------
  // Decimal representation of numbers (template literals `${n}`)
  // ---------------------------------------------------------------------

  predicate IsDigit(c: char) {
    '0' <= c <= '9'
  }

  function DigitChar(d: nat): (c: char)
    requires d < 10
    ensures IsDigit(c)
  {
    ('0' as int + d) as char
  }

  function DigitValue(c: char): (d: nat)
    requires IsDigit(c)
    ensures d < 10 && DigitChar(d) == c
  {
    c as int - '0' as int
  }

  /** The decimal digits of `n`, most significant first, without leading zeros. */
  function NatToString(n: nat): (s: string)
    ensures |s| >= 1
    ensures forall i :: 0 <= i < |s| ==> IsDigit(s[i])
    decreases n
  {
    if n < 10 then [DigitChar(n)] else NatToString(n / 10) + [DigitChar(n % 10)]
  }

  /** `${i}` for a possibly negative integer. */
  function IntToString(i: int): string {
    if i < 0 then "-" + NatToString(-i) else NatToString(i)
  }

  function ParseDigits(s: string): nat
    requires forall i :: 0 <= i < |s| ==> IsDigit(s[i])
    decreases |s|
  {
    if s == [] then 0 else ParseDigits(s[..|s| - 1]) * 10 + DigitValue(s[|s| - 1])
  }

  /** Reading the decimal text back gives the number. */
  lemma {:induction false} ParseNatToString(n: nat)
    ensures ParseDigits(NatToString(n)) == n
    decreases n
  {
    var s := NatToString(n);
    if n >= 10 {
      ParseNatToString(n / 10);
      assert s[..|s| - 1] == NatToString(n / 10);
      assert DigitValue(s[|s| - 1]) == n % 10;
    } else {
      assert DigitValue(s[0]) == n;
      assert s[..0] == [];
    }
  }

  /** Distinct numbers have distinct decimal texts. */
  lemma NatToStringInjective(a: nat, b: nat)
    ensures NatToString(a) == NatToString(b) <==> a == b
  {
    ParseNatToString(a);
    ParseNatToString(b);
  }

  /** Distinct integers have distinct decimal texts (the sign tells the two
      halves apart). */
  lemma IntToStringInjective(a: int, b: int)
    ensures IntToString(a) == IntToString(b) <==> a == b
  {
    if a < 0 && b < 0 {
      assert IntToString(a) == "-" + NatToString(-a);
      assert IntToString(b) == "-" + NatToString(-b);
      PrefixedNumberInjective("-", -a, -b);
    } else if a >= 0 && b >= 0 {
      NatToStringInjective(a, b);
    } else if a < 0 {
      assert IntToString(a)[0] == '-' && IsDigit(IntToString(b)[0]);
    } else {
      assert IntToString(b)[0] == '-' && IsDigit(IntToString(a)[0]);
    }
  }

  /** A fixed prefix followed by a decimal number identifies the number. */
  lemma PrefixedNumberInjective(prefix: string, a: nat, b: nat)
    ensures prefix + NatToString(a) == prefix + NatToString(b) <==> a == b
  {
    if prefix + NatToString(a) == prefix + NatToString(b) {
      assert (prefix + NatToString(a))[|prefix|..] == NatToString(a);
      assert (prefix + NatToString(b))[|prefix|..] == NatToString(b);
      NatToStringInjective(a, b);
    }
  }
}
