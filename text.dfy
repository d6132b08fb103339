/**
 * The string operations the client applies to URLs, names and paths:
 * ASCII case folding for str.lower(), str.replace, the last field of
 * str.split('/'), substring membership, and what int() accepts.
 */
module Text {

  predicate IsUpper(c: char) { 'A' <= c <= 'Z' }

  predicate IsDigit(c: char) { '0' <= c <= '9' }

  /** str.lower() on one character, restricted to ASCII letters. */
  function LowerChar(c: char): (d: char)
    ensures !IsUpper(d)
    ensures IsUpper(c) ==> d as int == c as int + 32
    ensures !IsUpper(c) ==> d == c
  {
    if IsUpper(c) then (c as int + 32) as char else c
  }

  /** str.lower(): every character folded, nothing else changed. */
  function Lower(s: string): (r: string)
    ensures |r| == |s|
    ensures forall i :: 0 <= i < |s| ==> r[i] == LowerChar(s[i])
  {
    seq(|s|, i requires 0 <= i < |s| => LowerChar(s[i]))
  }

  lemma LowerIdempotent(s: string)
    ensures Lower(Lower(s)) == Lower(s)
  {
  }

  /** A lower-cased string is never "None": its first letter cannot be 'N'. */
  lemma LowerIsNeverNone(s: string)
    ensures Lower(s) != "None"
  {
    if |Lower(s)| == 4 {
      assert !IsUpper(Lower(s)[0]);
    }
  }

  /** Lower-casing keeps digits and signs in place, and folds nothing onto them. */
  lemma LowerKeepsNonLetters(a: string, b: string, i: nat)
    requires Lower(a) == Lower(b) && i < |a|
    ensures IsDigit(a[i]) <==> IsDigit(b[i])
    ensures a[i] == '-' <==> b[i] == '-'
    ensures a[i] == '+' <==> b[i] == '+'
    ensures IsDigit(a[i]) || a[i] == '-' || a[i] == '+' ==> a[i] == b[i]
  {
    assert LowerChar(a[i]) == LowerChar(b[i]);
  }

  /** p occurs in s starting at index i. */
  predicate OccursAt(s: string, p: string, i: int)
  {
    0 <= i <= |s| - |p| && s[i..i + |p|] == p
  }

  /** Python's `p in s`. */
  function Contains(s: string, p: string): (b: bool)
    ensures b <==> exists i :: OccursAt(s, p, i)
    decreases |s|
  {
    if |s| < |p| then false
    else if s[..|p|] == p then
      assert OccursAt(s, p, 0);
      true
    else
      var rest := Contains(s[1..], p);
      assert forall i :: OccursAt(s, p, i) ==> i == 0 || OccursAt(s[1..], p, i - 1);
      assert forall i :: OccursAt(s[1..], p, i) ==> OccursAt(s, p, i + 1);
      rest
  }

  /** What occurs in the tail of a string occurs in the string. */
  /** Every character of a pattern that occurs in s is a character of s. */
  lemma ContainsHasChar(s: string, p: string, k: int)
    requires 0 <= k < |p|
    ensures Contains(s, p) ==> p[k] in s
  {
    if Contains(s, p) {
      var i :| OccursAt(s, p, i);
      assert s[i + k] == s[i..i + |p|][k];
    }
  }

  lemma ContainsTail(s: string, p: string)
    requires |s| > 0
    ensures Contains(s[1..], p) ==> Contains(s, p)
  {
    if Contains(s[1..], p) {
      var i :| OccursAt(s[1..], p, i);
      assert s[i + 1..i + 1 + |p|] == s[1..][i..i + |p|];
      assert OccursAt(s, p, i + 1);
    }
  }

  /** str.replace(pat, rep): every non-overlapping occurrence, scanning left to right. */
  function Replace(s: string, pat: string, rep: string): (r: string)
    requires |pat| > 0
    decreases |s|
  {
    if |s| < |pat| then s
    else if s[..|pat|] == pat then rep + Replace(s[|pat|..], pat, rep)
    else [s[0]] + Replace(s[1..], pat, rep)
  }

  /** Where the pattern does not start the text, its first character is kept. */
  lemma ReplaceSkip(s: string, pat: string, rep: string)
    requires 0 < |pat| <= |s| && s[..|pat|] != pat
    ensures Replace(s, pat, rep) == [s[0]] + Replace(s[1..], pat, rep)
  {
  }

  /** Replacing changes nothing when the pattern does not occur. */
  lemma {:induction false} ReplaceAbsent(s: string, pat: string, rep: string)
    requires |pat| > 0 && !Contains(s, pat)
    ensures Replace(s, pat, rep) == s
    decreases |s|
  {
    if |s| >= |pat| {
      assert s[0..|pat|] == s[..|pat|];
      ReplaceAbsent(s[1..], pat, rep);
    }
  }

  /** Every character of the result comes from the input or from the replacement. */
  lemma {:induction false} ReplaceChars(s: string, pat: string, rep: string, c: char)
    requires |pat| > 0 && c in Replace(s, pat, rep)
    ensures c in s || c in rep
    decreases |s|
  {
    if |s| >= |pat| {
      if s[..|pat|] == pat {
        if c !in rep {
          ReplaceChars(s[|pat|..], pat, rep, c);
        }
      } else if c != s[0] {
        ReplaceChars(s[1..], pat, rep, c);
      }
    }
  }

  /** Replacing a one-character pattern by text without it removes that character. */
  lemma {:induction false} ReplaceRemovesChar(s: string, c: char, rep: string)
    requires c !in rep
    ensures c !in Replace(s, [c], rep)
    decreases |s|
  {
    if |s| >= 1 {
      if s[..1] == [c] {
        ReplaceRemovesChar(s[1..], c, rep);
      } else {
        assert s[0] != c;
        ReplaceRemovesChar(s[1..], c, rep);
      }
    }
  }

  /** A one-character pattern occurs only where its character does. */
  lemma {:induction false} CharAbsent(s: string, c: char)
    requires c !in s
    ensures !Contains(s, [c])
    decreases |s|
  {
    if |s| >= 1 {
      assert s[..1][0] == s[0];
      CharAbsent(s[1..], c);
    }
  }

  /** Replacing one character works piece by piece: no occurrence straddles a join. */
  lemma {:induction false} ReplaceCharAppend(a: string, b: string, c: char, rep: string)
    ensures Replace(a + b, [c], rep) == Replace(a, [c], rep) + Replace(b, [c], rep)
    decreases |a|
  {
    if |a| == 0 {
      assert a + b == b;
    } else {
      assert (a + b)[..1] == a[..1];
      assert (a + b)[1..] == a[1..] + b;
      ReplaceCharAppend(a[1..], b, c, rep);
    }
  }

  /** The one occurrence of c between two stretches without it becomes rep, and nothing else changes. */
  lemma ReplaceCharOnce(a: string, b: string, c: char, rep: string)
    requires c !in a && c !in b
    ensures Replace(a + [c] + b, [c], rep) == a + rep + b
  {
    ReplaceCharAppend(a + [c], b, c, rep);
    ReplaceCharAppend(a, [c], c, rep);
    CharAbsent(a, c);
    CharAbsent(b, c);
    ReplaceAbsent(a, [c], rep);
    ReplaceAbsent(b, [c], rep);
    ReplaceOwnChar(c, rep);
  }

  lemma ReplaceOwnChar(c: char, rep: string)
    ensures Replace([c], [c], rep) == rep
  {
    assert [c][..1] == [c] && [c][1..] == [];
  }

  /** s.split('/')[-1]: the text after the last '/', or all of s when it has none. */
  function LastSegment(s: string): (r: string)
    ensures '/' !in r
    ensures |r| <= |s| && r == s[|s| - |r|..]
    ensures |r| < |s| ==> s[|s| - |r| - 1] == '/'
    decreases |s|
  {
    if |s| == 0 || s[|s| - 1] == '/' then ""
    else
      var init := s[..|s| - 1];
      var r0 := LastSegment(init);
      assert s[|s| - |r0| - 1..] == init[|init| - |r0|..] + [s[|s| - 1]];
      r0 + [s[|s| - 1]]
  }

  /** The last segment of a '/'-joined path is the field after its last separator. */
  lemma {:induction false} LastSegmentOfJoin(head: string, field: string)
    requires '/' !in field
    ensures LastSegment(head + "/" + field) == field
  {
    var s := head + "/" + field;
    if field != "" {
      var init := field[..|field| - 1];
      assert s[..|s| - 1] == head + "/" + init;
      LastSegmentOfJoin(head, init);
      assert field == init + [field[|field| - 1]];
    }
  }

  predicate AllDigits(s: string)
  {
    forall i :: 0 <= i < |s| ==> IsDigit(s[i])
  }

  /**
   * Whether int(s) succeeds: an optional sign followed by decimal digits.
   * Python's int() also allows surrounding whitespace and '_' separators;
   * those are not part of this model.
   */
  predicate IsIntLiteral(s: string)
  {
    if |s| > 0 && (s[0] == '-' || s[0] == '+') then |s| > 1 && AllDigits(s[1..])
    else |s| > 0 && AllDigits(s)
  }

  /** Whether int() accepts a string is unaffected by lower-casing it. */
  lemma IntLiteralIgnoresCase(a: string, b: string)
    requires Lower(a) == Lower(b)
    ensures IsIntLiteral(a) <==> IsIntLiteral(b)
  {
    forall i | 0 <= i < |a|
      ensures IsDigit(a[i]) <==> IsDigit(b[i])
      ensures a[i] == '-' <==> b[i] == '-'
      ensures a[i] == '+' <==> b[i] == '+'
    {
      LowerKeepsNonLetters(a, b, i);
    }
  }

  function DigitChar(d: nat): (c: char)
    requires d < 10
    ensures IsDigit(c)
  {
    ('0' as int + d) as char
  }

  /** The number a string of decimal digits denotes, most significant digit first. */
  function DigitsValue(s: string): int
    decreases |s|
  {
    if |s| == 0 then 0 else DigitsValue(s[..|s| - 1]) * 10 + (s[|s| - 1] as int - '0' as int)
  }

  /** int(s) for a string IsIntLiteral accepts: an optional sign, then the digits' value. */
  function IntValue(s: string): int
  {
    if |s| > 0 && s[0] == '-' then -DigitsValue(s[1..])
    else if |s| > 0 && s[0] == '+' then DigitsValue(s[1..])
    else DigitsValue(s)
  }

  /** The decimal digits of n, without leading zeros. */
  function NatDigits(n: nat): (r: string)
    ensures |r| > 0 && AllDigits(r)
    ensures DigitsValue(r) == n
    ensures n == 0 ==> r == "0"
    ensures n > 0 ==> r[0] != '0'
    ensures |r| > 1 ==> r[0] != '0'
    decreases n
  {
    if n < 10 then
      assert [DigitChar(n)][..0] == [];
      [DigitChar(n)]
    else
      var d := NatDigits(n / 10);
      assert (d + [DigitChar(n % 10)])[..|d|] == d;
      d + [DigitChar(n % 10)]
  }

  /**
   * str(n) for an int: something int() accepts and parses back to n, in
   * canonical form: no '+', and no leading zero after an optional '-'.
   */
  function DecimalString(n: int): (r: string)
    ensures IsIntLiteral(r)
    ensures r[0] == '-' <==> n < 0
    ensures IntValue(r) == n
    ensures r[0] != '+'
    ensures n >= 0 && |r| > 1 ==> r[0] != '0'
    ensures n < 0 ==> r[1] != '0'
  {
    if n < 0 then
      var d := NatDigits(-n);
      assert ("-" + d)[1..] == d;
      "-" + d
    else NatDigits(n)
  }

  /** Distinct ints have distinct decimal strings. */
  lemma DecimalStringInjective(m: int, n: int)
    requires DecimalString(m) == DecimalString(n)
    ensures m == n
  {
    assert IntValue(DecimalString(m)) == m;
  }
}
