/**
 * The string operations of the webhook receiver: decimal rendering of
 * integers (`str(n)`, `%Y`, `%I`, `%M`) and `str.replace(pattern, '')`.
 * Joining words with single spaces is how the timestamp format lays out its
 * fields; `Split` (Python's `str.split(' ')`) is not called by the receiver and
 * serves as the inverse that reads a timestamp back.  Each operation comes
 * with the inverse or reference definition that pins down what it computes.
 */
module Text {

  predicate IsDigit(c: char) { '0' <= c <= '9' }

  predicate AllDigits(s: string) { forall i :: 0 <= i < |s| ==> IsDigit(s[i]) }

  function DigitValue(c: char): (d: nat)
    requires IsDigit(c)
    ensures d < 10
  {
    c as int - '0' as int
  }

  function DigitChar(d: nat): (c: char)
    requires d < 10
    ensures IsDigit(c) && DigitValue(c) == d
  {
    ('0' as int + d) as char
  }

  /** The decimal digits of `n`, without leading zeros: Python's `str(n)` for `n >= 0`. */
  function Decimal(n: nat): (s: string)
    ensures |s| >= 1 && AllDigits(s)
    ensures s[0] == '0' <==> n == 0
    decreases n
  {
    if n < 10 then [DigitChar(n)] else Decimal(n / 10) + [DigitChar(n % 10)]
  }

  /** The value of a string of decimal digits (the empty string reads as 0). */
  function ParseNat(s: string): nat
    requires AllDigits(s)
  {
    if s == [] then 0 else ParseNat(s[..|s| - 1]) * 10 + DigitValue(s[|s| - 1])
  }

  /** Reading back the decimal rendering gives the number rendered. */
  lemma {:induction false} ParseDecimal(n: nat)
    ensures ParseNat(Decimal(n)) == n
    decreases n
  {
    if n >= 10 {
      var s := Decimal(n / 10);
      assert Decimal(n)[..|Decimal(n)| - 1] == s;
      ParseDecimal(n / 10);
    }
  }

  /** Two-digit zero-padded rendering, as strftime's `%I` and `%M` produce. */
  function Pad2(n: nat): (s: string)
    requires n < 100
    ensures |s| == 2 && AllDigits(s) && ParseNat(s) == n
  {
    var s := [DigitChar(n / 10), DigitChar(n % 10)];
    assert s[..1] == [DigitChar(n / 10)] && s[..1][..0] == [];
    assert ParseNat(s[..1]) == n / 10;
    assert ParseNat(s) == (n / 10) * 10 + n % 10;
    s
  }

  /** The strings Python's `str` produces for an `int`. */
  predicate IsIntLiteral(s: string)
  {
    (|s| >= 1 && s[0] != '-' && AllDigits(s)) || (|s| >= 2 && s[0] == '-' && AllDigits(s[1..]))
  }

  /** Python's `str(i)` for an `int`: a minus sign for negative values, then the digits. */
  function IntToString(i: int): (s: string)
    ensures IsIntLiteral(s)
  {
    if i < 0 then "-" + Decimal(-i) else Decimal(i)
  }

  /** Python's `int(s)` on the strings `str` produces for integers. */
  function ParseInt(s: string): int
    requires IsIntLiteral(s)
  {
    if s[0] == '-' then 0 - ParseNat(s[1..]) else ParseNat(s)
  }

  lemma IntToStringRoundTrip(i: int)
    ensures ParseInt(IntToString(i)) == i
  {
    if i < 0 {
      assert IntToString(i)[1..] == Decimal(-i);
      ParseDecimal(-i);
    } else {
      ParseDecimal(i);
    }
  }

  /** Python's `s.split(' ')`: the pieces between single spaces, empty pieces kept. */
  function Split(s: string): (ws: seq<string>)
    ensures |ws| >= 1
    decreases |s|
  {
    if s == [] then [[]]
    else
      var rest := Split(s[1..]);
      if s[0] == ' ' then [[]] + rest else [[s[0]] + rest[0]] + rest[1..]
  }

  /** Python's `' '.join(ws)`. */
  function Join(ws: seq<string>): string
    requires |ws| >= 1
  {
    if |ws| == 1 then ws[0] else ws[0] + " " + Join(ws[1..])
  }

  lemma {:induction false} SplitWord(w: string, t: string)
    requires ' ' !in w
    ensures Split(w + " " + t) == [w] + Split(t)
    decreases |w|
  {
    var s := w + " " + t;
    if w == [] {
      assert s[1..] == t;
    } else {
      assert s[1..] == w[1..] + " " + t;
      SplitWord(w[1..], t);
      assert [w[0]] + w[1..] == w;
    }
  }

  lemma {:induction false} SplitSingleWord(w: string)
    requires ' ' !in w
    ensures Split(w) == [w]
    decreases |w|
  {
    if w != [] {
      SplitSingleWord(w[1..]);
      assert [w[0]] + w[1..] == w;
    }
  }

  /** Splitting the words joined by single spaces gives the words back, when none holds a space. */
  lemma {:induction false} SplitJoin(ws: seq<string>)
    requires |ws| >= 1
    requires forall k :: 0 <= k < |ws| ==> ' ' !in ws[k]
    ensures Split(Join(ws)) == ws
    decreases |ws|
  {
    if |ws| == 1 {
      SplitSingleWord(ws[0]);
    } else {
      SplitWord(ws[0], Join(ws[1..]));
      SplitJoin(ws[1..]);
    }
  }

  /** `pattern` occurs in `s` starting at index `i`. */
  predicate OccursAt(s: string, pattern: string, i: nat)
  {
    i + |pattern| <= |s| && s[i..i + |pattern|] == pattern
  }

  predicate Contains(s: string, pattern: string)
  {
    exists i :: 0 <= i < |s| && OccursAt(s, pattern, i)
  }

  /**
   * Python's `s.replace(pattern, '')`: scanning left to right, every
   * non-overlapping occurrence of `pattern` is removed; what is left is not
   * scanned again.
   */
  function RemoveAll(s: string, pattern: string): (r: string)
    requires pattern != []
    ensures |r| <= |s|
    decreases |s|
  {
    if s == [] then []
    else if OccursAt(s, pattern, 0) then RemoveAll(s[|pattern|..], pattern)
    else [s[0]] + RemoveAll(s[1..], pattern)
  }

  /** A string with no occurrence of the pattern is left as it is. */
  lemma {:induction false} RemoveAllAbsent(s: string, pattern: string)
    requires pattern != [] && !Contains(s, pattern)
    ensures RemoveAll(s, pattern) == s
    decreases |s|
  {
    if s != [] {
      assert !OccursAt(s, pattern, 0);
      forall i: nat | i < |s| - 1 ensures !OccursAt(s[1..], pattern, i) {
        assert !OccursAt(s, pattern, i + 1);
        if i + |pattern| <= |s| - 1 {
          assert s[1..][i..i + |pattern|] == s[i + 1..i + 1 + |pattern|];
        }
      }
      RemoveAllAbsent(s[1..], pattern);
      assert [s[0]] + s[1..] == s;
    }
  }

  /** A leading occurrence is removed and the rest is treated as on its own. */
  lemma RemoveAllLeading(pattern: string, s: string)
    requires pattern != []
    ensures RemoveAll(pattern + s, pattern) == RemoveAll(s, pattern)
  {
    var t := pattern + s;
    assert t[..|pattern|] == pattern;
    assert t[|pattern|..] == s;
  }

  /** Characters before the first occurrence are kept as they are. */
  lemma {:induction false} RemoveAllKeepsPrefix(s: string, pattern: string, k: nat)
    requires pattern != [] && k <= |s|
    requires forall i: nat :: i < k ==> !OccursAt(s, pattern, i)
    ensures RemoveAll(s, pattern) == s[..k] + RemoveAll(s[k..], pattern)
    decreases k
  {
    if k > 0 {
      assert !OccursAt(s, pattern, 0);
      assert RemoveAll(s, pattern) == [s[0]] + RemoveAll(s[1..], pattern);
      forall i: nat | i < k - 1 ensures !OccursAt(s[1..], pattern, i) {
        assert !OccursAt(s, pattern, i + 1);
        if i + |pattern| <= |s| - 1 {
          assert s[1..][i..i + |pattern|] == s[i + 1..i + 1 + |pattern|];
        }
      }
      RemoveAllKeepsPrefix(s[1..], pattern, k - 1);
      assert s[1..][k - 1..] == s[k..];
      assert [s[0]] + s[1..][..k - 1] == s[..k];
    }
  }
}
