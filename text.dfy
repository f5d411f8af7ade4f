/**
 * The string operations the cron codec and the job ids rely on: decimal
 * formatting of integers (C# interpolation of an int or a long), joining
 * fields with a separator, `string.Split(sep, RemoveEmptyEntries)` and
 * `string.Contains`.
 */
module Text {

  predicate IsDigit(c: char) {
    '0' <= c <= '9'
  }

  predicate AllDigits(s: string) {
    forall i :: 0 <= i < |s| ==> IsDigit(s[i])
  }

  function DigitChar(d: nat): (c: char)
    requires d < 10
    ensures IsDigit(c)
  {
    "0123456789"[d]
  }

  lemma DigitCharInjective(a: nat, b: nat)
    requires a < 10 && b < 10
    ensures DigitChar(a) == DigitChar(b) ==> a == b
  {
  }

  /** Decimal representation of a natural number, without leading zeros. */
  function NatToString(n: nat): (s: string)
    ensures |s| > 0 && AllDigits(s)
    ensures n < 10 <==> |s| == 1
    decreases n
  {
    if n < 10 then [DigitChar(n)] else NatToString(n / 10) + [DigitChar(n % 10)]
  }

  /** Decimal representation of an integer, with a leading '-' when negative. */
  function IntToString(i: int): (s: string)
    ensures |s| > 0
    ensures i >= 0 <==> AllDigits(s)
  {
    if i < 0 then
      var s := "-" + NatToString(-i);
      assert !IsDigit(s[0]);
      s
    else NatToString(i)
  }

  /** Different numbers print differently. */
  lemma {:induction false} NatToStringInjective(a: nat, b: nat)
    ensures NatToString(a) == NatToString(b) ==> a == b
    decreases a
  {
    if NatToString(a) == NatToString(b) {
      var s := NatToString(a);
      if a >= 10 && b >= 10 {
        assert s[|s| - 1] == DigitChar(a % 10) == DigitChar(b % 10);
        DigitCharInjective(a % 10, b % 10);
        assert NatToString(a / 10) == s[..|s| - 1] == NatToString(b / 10);
        NatToStringInjective(a / 10, b / 10);
      } else if a < 10 && b < 10 {
        DigitCharInjective(a, b);
      }
    }
  }

  lemma IntToStringInjective(a: int, b: int)
    ensures IntToString(a) == IntToString(b) ==> a == b
  {
    if IntToString(a) == IntToString(b) {
      if a < 0 && b < 0 {
        assert NatToString(-a) == IntToString(a)[1..] == NatToString(-b);
        NatToStringInjective(-a, -b);
      } else if a >= 0 && b >= 0 {
        NatToStringInjective(a, b);
      }
    }
  }

  /** A field of a separated list: non-empty and free of the separator. */
  predicate IsField(w: string, sep: char) {
    |w| > 0 && sep !in w
  }

  /** A number printed in decimal is a field of a space-separated list. */
  lemma DigitsAreField(s: string)
    requires |s| > 0 && AllDigits(s)
    ensures IsField(s, ' ')
  {
  }

  /** The fields joined with one separator between neighbours. */
  function Join(ws: seq<string>, sep: char): string {
    if ws == [] then ""
    else if |ws| == 1 then ws[0]
    else ws[0] + [sep] + Join(ws[1..], sep)
  }

  /** The longest prefix of `s` that holds no separator. */
  function TakeField(s: string, sep: char): (w: string)
    ensures |w| <= |s| && w == s[..|w|]
    ensures sep !in w
    ensures |w| == |s| || s[|w|] == sep
    ensures |s| > 0 && s[0] != sep ==> |w| > 0
  {
    if s == [] || s[0] == sep then [] else [s[0]] + TakeField(s[1..], sep)
  }

  /**
   * `s.Split(sep, StringSplitOptions.RemoveEmptyEntries)`: the maximal runs of
   * non-separator characters, in order.
   */
  function Split(s: string, sep: char): (parts: seq<string>)
    ensures forall i :: 0 <= i < |parts| ==> IsField(parts[i], sep)
    decreases |s|
  {
    if s == [] then []
    else if s[0] == sep then Split(s[1..], sep)
    else
      var w := TakeField(s, sep);
      [w] + Split(s[|w|..], sep)
  }

  lemma {:induction false} TakeFieldOf(w: string, rest: string, sep: char)
    requires IsField(w, sep)
    requires rest == [] || rest[0] == sep
    ensures TakeField(w + rest, sep) == w
    decreases |w|
  {
    if |w| > 1 {
      assert (w + rest)[1..] == w[1..] + rest;
      TakeFieldOf(w[1..], rest, sep);
    } else {
      assert (w + rest)[1..] == rest;
    }
  }

  /** Splitting a join of separator-free fields gives the fields back. */
  lemma {:induction false} SplitJoin(ws: seq<string>, sep: char)
    requires forall i :: 0 <= i < |ws| ==> IsField(ws[i], sep)
    ensures Split(Join(ws, sep), sep) == ws
    decreases |ws|
  {
    if |ws| == 1 {
      assert ws[0] + [] == ws[0];
      TakeFieldOf(ws[0], [], sep);
      assert ws[0][|ws[0]|..] == [];
    } else if |ws| > 1 {
      var w, tail := ws[0], Join(ws[1..], sep);
      var s := w + ([sep] + tail);
      assert Join(ws, sep) == s;
      TakeFieldOf(w, [sep] + tail, sep);
      assert s[|w|..] == [sep] + tail;
      assert ([sep] + tail)[1..] == tail;
      SplitJoin(ws[1..], sep);
      assert Split(s, sep) == [w] + ws[1..];
    }
  }

  /** `sub` occurs in `s` starting at index `i`. */
  predicate OccursAt(s: string, sub: string, i: int) {
    0 <= i && i + |sub| <= |s| && s[i..i + |sub|] == sub
  }

  /** `s.Contains(sub)`. */
  predicate Contains(s: string, sub: string) {
    exists i | 0 <= i <= |s| :: OccursAt(s, sub, i)
  }

  /** A string of digits holds no '/', so it never contains a "/..." pattern. */
  lemma DigitsContainNoSlash(s: string, sub: string)
    requires AllDigits(s) && |sub| > 0 && sub[0] == '/'
    ensures !Contains(s, sub)
  {
    forall i | 0 <= i && i + |sub| <= |s|
      ensures !OccursAt(s, sub, i)
    {
      assert s[i..i + |sub|][0] == s[i];
    }
  }

  lemma ContainsSuffix(s: string, sub: string)
    ensures Contains(s + sub, sub)
  {
    var t := s + sub;
    assert t[|s|..|s| + |sub|] == sub;
    assert OccursAt(t, sub, |s|);
  }
}
