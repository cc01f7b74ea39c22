// Substrings and decimal printing.
module Text {

  predicate OccursAt(s: string, k: string, i: nat) {
    i + |k| <= |s| && s[i..i + |k|] == k
  }

  // strings.Contains
  predicate Contains(s: string, k: string) {
    exists i :: 0 <= i <= |s| && OccursAt(s, k, i)
  }

  lemma ContainsLeft(a: string, b: string, k: string)
    requires Contains(a, k)
    ensures Contains(a + b, k)
  {
    var i :| 0 <= i <= |a| && OccursAt(a, k, i);
    assert (a + b)[i..i + |k|] == a[i..i + |k|];
    assert OccursAt(a + b, k, i);
  }

  lemma ContainsRight(a: string, b: string, k: string)
    requires Contains(b, k)
    ensures Contains(a + b, k)
  {
    var i :| 0 <= i <= |b| && OccursAt(b, k, i);
    assert (a + b)[|a| + i..|a| + i + |k|] == b[i..i + |k|];
    assert OccursAt(a + b, k, |a| + i);
  }

  lemma Straddles(a: string, c: char, b: string, k: string, i: nat)
    requires OccursAt(a + [c] + b, k, i) && i <= |a| < i + |k|
    ensures c in k
  {
    assert (a + [c] + b)[i..i + |k|][|a| - i] == c;
    assert k[|a| - i] == c;
  }

  lemma OccursBefore(a: string, c: char, b: string, k: string, i: nat)
    requires OccursAt(a + [c] + b, k, i) && i + |k| <= |a|
    ensures Contains(a, k)
  {
    assert (a + [c] + b)[i..i + |k|] == a[i..i + |k|];
    assert OccursAt(a, k, i);
  }

  lemma OccursAfter(a: string, c: char, b: string, k: string, i: nat)
    requires OccursAt(a + [c] + b, k, i) && |a| < i
    ensures Contains(b, k)
  {
    var j := i - |a| - 1;
    assert (a + [c] + b)[i..i + |k|] == b[j..j + |k|];
    assert OccursAt(b, k, j);
  }

  lemma ContainsBothSides(a: string, c: char, b: string, k: string)
    ensures Contains(a, k) ==> Contains(a + [c] + b, k)
    ensures Contains(b, k) ==> Contains(a + [c] + b, k)
  {
    if Contains(a, k) { ContainsLeft(a, [c], k); ContainsLeft(a + [c], b, k); }
    if Contains(b, k) { ContainsRight(a + [c], b, k); }
  }

  // A keyword without the character c cannot straddle an occurrence of c.
  lemma ContainsAcross(a: string, c: char, b: string, k: string)
    requires k != [] && c !in k
    ensures Contains(a + [c] + b, k) <==> Contains(a, k) || Contains(b, k)
  {
    ContainsBothSides(a, c, b, k);
    if Contains(a + [c] + b, k) {
      var i :| 0 <= i <= |a + [c] + b| && OccursAt(a + [c] + b, k, i);
      if i + |k| <= |a| {
        OccursBefore(a, c, b, k, i);
      } else if |a| < i {
        OccursAfter(a, c, b, k, i);
      } else {
        Straddles(a, c, b, k, i);
        assert false;
      }
    }
  }

  // A string contains every character of a keyword it contains.
  lemma KeepsChars(s: string, k: string, c: char)
    requires c in k && Contains(s, k)
    ensures c in s
  {
    var i :| 0 <= i <= |s| && OccursAt(s, k, i);
    var j :| 0 <= j < |k| && k[j] == c;
    assert s[i..i + |k|][j] == s[i + j];
  }

  lemma LacksChar(s: string, k: string, c: char)
    requires c in k && c !in s
    ensures !Contains(s, k)
  {
    if Contains(s, k) {
      KeepsChars(s, k, c);
      assert false;
    }
  }

  // A separator whose ends are not in the keyword and which lacks one of the
  // keyword's characters.
  lemma ContainsThrough(a: string, mid: string, b: string, k: string, c: char)
    requires |mid| >= 2 && mid[0] !in k && mid[|mid| - 1] !in k
    requires c in k && c !in mid
    ensures Contains(a + mid + b, k) <==> Contains(a, k) || Contains(b, k)
  {
    var inner := mid[1..|mid| - 1];
    LacksChar(inner, k, c);
    assert a + mid + b == a + [mid[0]] + (inner + [mid[|mid| - 1]] + b);
    ContainsAcross(a, mid[0], inner + [mid[|mid| - 1]] + b, k);
    ContainsAcross(inner, mid[|mid| - 1], b, k);
  }

  lemma ContainsItself(k: string)
    ensures Contains(k, k)
  {
    assert OccursAt(k, k, 0);
  }

  // --- %d ----------------------------------------------------------------------

  predicate IsDigit(c: char) {
    '0' <= c <= '9'
  }

  function Digit(n: nat): (c: char)
    requires n < 10
    ensures IsDigit(c)
  {
    "0123456789"[n]
  }

  function Natural(n: nat): (s: string)
    ensures s != [] && forall c :: c in s ==> IsDigit(c)
  {
    if n < 10 then [Digit(n)] else Natural(n / 10) + [Digit(n % 10)]
  }

  function Decimal(n: int): (s: string)
    ensures s != []
    ensures forall c :: c in s ==> IsDigit(c) || c == '-'
    ensures n < 0 ==> s[0] == '-'
  {
    if n < 0 then "-" + Natural(-n) else Natural(n)
  }

  lemma {:induction false} NaturalInjective(m: nat, n: nat)
    requires Natural(m) == Natural(n)
    ensures m == n
  {
    NaturalParts(m);
    NaturalParts(n);
    if m < 10 {
      DigitInjective(m, n);
    } else {
      NaturalInjective(m / 10, n / 10);
      DigitInjective(m % 10, n % 10);
    }
  }

  lemma DigitInjective(m: nat, n: nat)
    requires m < 10 && n < 10 && Digit(m) == Digit(n)
    ensures m == n
  {
  }

  // The last digit and the others.
  lemma NaturalParts(n: nat)
    ensures n < 10 <==> |Natural(n)| == 1
    ensures n < 10 ==> Natural(n)[0] == Digit(n)
    ensures n >= 10 ==> var s := Natural(n); s[..|s| - 1] == Natural(n / 10) && s[|s| - 1] == Digit(n % 10)
  {
  }

  lemma DecimalInjective(m: int, n: int)
    requires Decimal(m) == Decimal(n)
    ensures m == n
  {
    SignShows(m);
    SignShows(n);
    if m < 0 {
      NaturalInjective(-m, -n);
    } else {
      NaturalInjective(m, n);
    }
  }

  lemma SignShows(n: int)
    ensures n < 0 <==> Decimal(n)[0] == '-'
    ensures n < 0 ==> Decimal(n)[1..] == Natural(-n)
  {
    if n >= 0 { assert IsDigit(Natural(n)[0]); }
  }

  // --- Join ----------------------------------------------------------------------

  function Join(parts: seq<string>, sep: string): string {
    if parts == [] then ""
    else if |parts| == 1 then parts[0]
    else parts[0] + sep + Join(parts[1..], sep)
  }

  // A keyword without a space is in the joined text exactly when it is in one
  // of the parts.
  lemma {:induction false} JoinContains(parts: seq<string>, k: string)
    requires k != [] && ' ' !in k
    ensures Contains(Join(parts, " "), k) <==> exists p :: p in parts && Contains(p, k)
  {
    if parts == [] {
      assert !Contains("", k);
    } else if |parts| == 1 {
      assert parts == [parts[0]];
    } else {
      ContainsAcross(parts[0], ' ', Join(parts[1..], " "), k);
      JoinContains(parts[1..], k);
      assert forall p :: p in parts <==> p == parts[0] || p in parts[1..];
    }
  }

  // --- words ---------------------------------------------------------------------

  // The pieces between the spaces of a text.
  function Words(s: string): (words: seq<string>)
    ensures words != []
  {
    if s == "" then [""]
    else if s[0] == ' ' then [""] + Words(s[1..])
    else Onto(s[0], Words(s[1..]))
  }

  // The words with one more character at the start of the first.
  function Onto(c: char, words: seq<string>): (r: seq<string>)
    requires words != []
    ensures r != []
  {
    [[c] + words[0]] + words[1..]
  }

  lemma OntoAll(c: char, u: seq<string>, v: seq<string>)
    requires u != []
    ensures Onto(c, u + v) == Onto(c, u) + v
  {
    assert (u + v)[1..] == u[1..] + v;
  }

  lemma {:induction false} OneWord(s: string)
    requires ' ' !in s
    ensures Words(s) == [s]
  {
    if s != "" {
      OneWord(s[1..]);
      assert [s[0]] + s[1..] == s;
    }
  }

  lemma {:induction false} WordsAcross(a: string, b: string)
    ensures Words(a + [' '] + b) == Words(a) + Words(b)
  {
    if a == "" {
      assert (a + [' '] + b)[1..] == b;
    } else {
      WordsAcross(a[1..], b);
      FirstCharacter(a, b);
      if a[0] == ' ' {
        assert [""] + (Words(a[1..]) + Words(b)) == [""] + Words(a[1..]) + Words(b);
      } else {
        OntoAll(a[0], Words(a[1..]), Words(b));
      }
    }
  }

  lemma FirstCharacter(a: string, b: string)
    requires a != ""
    ensures a + [' '] + b != "" && (a + [' '] + b)[0] == a[0] && (a + [' '] + b)[1..] == a[1..] + [' '] + b
  {
  }

  // One more word at the end, made of an option and its value.
  lemma WordAdded(s: string, option: string, value: string)
    requires ' ' !in option && ' ' !in value
    ensures Words(s + ([' '] + option) + value) == Words(s) + [option + value]
  {
    assert s + ([' '] + option) + value == s + [' '] + (option + value);
    WordsAcross(s, option + value);
    OneWord(option + value);
  }

  // --- reading a number back ---------------------------------------------------------

  // The value of a string of digits.
  function Value(s: string): nat {
    if s == "" then 0 else 10 * Value(s[..|s| - 1]) + DigitValue(s[|s| - 1])
  }

  function DigitValue(c: char): nat {
    if '0' <= c <= '9' then c as int - '0' as int else 0
  }

  lemma {:induction false} NaturalReads(n: nat)
    ensures Value(Natural(n)) == n
  {
    NaturalParts(n);
    if n < 10 {
      DigitReads(n);
      assert Natural(n)[..0] == "";
    } else {
      NaturalReads(n / 10);
      DigitReads(n % 10);
    }
  }

  lemma DigitReads(n: nat)
    requires n < 10
    ensures DigitValue(Digit(n)) == n
  {
  }

  // A printed number is read back as itself.
  lemma DecimalReads(n: int)
    ensures n >= 0 ==> Value(Decimal(n)) == n
    ensures n < 0 ==> Decimal(n)[0] == '-' && Value(Decimal(n)[1..]) == -n
  {
    SignShows(n);
    NaturalReads(if n < 0 then -n else n);
  }
}
