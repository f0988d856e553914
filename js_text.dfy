/**
 * The JavaScript string operations the source relies on, with their JavaScript
 * meaning: `split` on a one-character separator, `join`, the decimal text that a
 * template string produces for an integer, and `Number(text)` on decimal digits.
 */
module JsText {
  import opened Wrappers

  /** `s.split(c)` for a one-character separator `c`: the pieces between the separators. */
  function Split(s: string, c: char): (parts: seq<string>)
    ensures |parts| >= 1
    ensures forall i :: 0 <= i < |parts| ==> c !in parts[i]
  {
    if |s| == 0 then [""]
    else
      var rest := Split(s[1..], c);
      if s[0] == c then [""] + rest
      else [[s[0]] + rest[0]] + rest[1..]
  }

  /** `parts.join(sep)`. */
  function Join(parts: seq<string>, sep: string): string
  {
    if |parts| == 0 then ""
    else if |parts| == 1 then parts[0]
    else parts[0] + sep + Join(parts[1..], sep)
  }

  lemma JoinCons(parts: seq<string>, sep: string)
    requires |parts| >= 2
    ensures Join(parts, sep) == parts[0] + sep + Join(parts[1..], sep)
  {
  }

  /** Joining the pieces of a split with the same separator gives the text back. */
  lemma {:induction false} JoinSplit(s: string, c: char)
    ensures Join(Split(s, c), [c]) == s
  {
    if |s| > 0 {
      var rest := Split(s[1..], c);
      JoinSplit(s[1..], c);
      if s[0] == c {
        assert Split(s, c) == [""] + rest;
        JoinCons([""] + rest, [c]);
        assert ([""] + rest)[1..] == rest;
      } else {
        var parts := [[s[0]] + rest[0]] + rest[1..];
        assert Split(s, c) == parts;
        if |rest| == 1 {
          assert Join(parts, [c]) == [s[0]] + rest[0];
        } else {
          JoinCons(rest, [c]);
          JoinCons(parts, [c]);
          assert parts[1..] == rest[1..];
        }
        assert s == [s[0]] + s[1..];
      }
    }
  }

  /** A separator-free text is a single piece. */
  lemma {:induction false} SplitWithoutSeparator(a: string, c: char)
    requires c !in a
    ensures Split(a, c) == [a]
  {
    if |a| > 0 {
      SplitWithoutSeparator(a[1..], c);
      assert [a[0]] + a[1..] == a;
    }
  }

  /** Splitting stops at the first separator. */
  lemma {:induction false} SplitAtFirst(a: string, c: char, b: string)
    requires c !in a
    ensures Split(a + [c] + b, c) == [a] + Split(b, c)
  {
    if |a| == 0 {
      assert a + [c] + b == [c] + b;
      assert ([c] + b)[1..] == b;
    } else {
      var s := a + [c] + b;
      assert s[1..] == a[1..] + [c] + b;
      SplitAtFirst(a[1..], c, b);
      assert [s[0]] + a[1..] == a;
    }
  }

  /** Splitting a join of separator-free pieces gives the pieces back. */
  lemma {:induction false} SplitJoin(parts: seq<string>, c: char)
    requires |parts| >= 1
    requires forall i :: 0 <= i < |parts| ==> c !in parts[i]
    ensures Split(Join(parts, [c]), c) == parts
  {
    if |parts| == 1 {
      SplitWithoutSeparator(parts[0], c);
    } else {
      JoinCons(parts, [c]);
      SplitJoin(parts[1..], c);
      SplitAtFirst(parts[0], c, Join(parts[1..], [c]));
      assert [parts[0]] + parts[1..] == parts;
    }
  }

  /** Joining the first `k` pieces gives a prefix of joining them all. */
  lemma {:induction false} JoinPrefix(parts: seq<string>, sep: string, k: nat)
    requires k <= |parts|
    ensures Join(parts[..k], sep) <= Join(parts, sep)
  {
    if k == |parts| {
      assert parts[..k] == parts;
    } else if k == 0 {
    } else if k == 1 {
      assert parts[..k] == [parts[0]];
      JoinCons(parts, sep);
    } else {
      JoinPrefix(parts[1..], sep, k - 1);
      JoinCons(parts[..k], sep);
      JoinCons(parts, sep);
      assert parts[..k][1..] == parts[1..][..k - 1];
    }
  }

  /** A leading text without the separator only lengthens the first piece of a split. */
  lemma {:induction false} SplitCountPrefix(b: string, x: string, c: char)
    requires c !in b
    ensures Split(b + x, c) == [b + Split(x, c)[0]] + Split(x, c)[1..]
    ensures |Split(b + x, c)| == |Split(x, c)|
  {
    if b == [] {
      assert b + x == x;
      assert b + Split(x, c)[0] == Split(x, c)[0];
      assert [Split(x, c)[0]] + Split(x, c)[1..] == Split(x, c);
    } else {
      assert (b + x)[1..] == b[1..] + x;
      SplitCountPrefix(b[1..], x, c);
      assert [b[0]] + (b[1..] + Split(x, c)[0]) == b + Split(x, c)[0];
    }
  }

  /**
   * Piece `i` of joining `parts` with `a + [c] + b`, split again at `c`: the part with
   * the separator's `b` before it (unless it is the first) and its `a` after it (unless
   * it is the last).
   */
  function Framed(parts: seq<string>, a: string, b: string, i: nat): string
    requires i < |parts|
  {
    (if i > 0 then b else "") + parts[i] + (if i < |parts| - 1 then a else "")
  }

  /** Dropping the first part moves every later framed piece down by one; the new first loses its `b`. */
  lemma FramedTail(parts: seq<string>, a: string, b: string, i: nat)
    requires 1 <= i < |parts|
    ensures i == 1 ==> Framed(parts, a, b, i) == b + Framed(parts[1..], a, b, 0)
    ensures i > 1 ==> Framed(parts, a, b, i) == Framed(parts[1..], a, b, i - 1)
  {
    assert parts[1..][i - 1] == parts[i];
  }

  /**
   * Splitting the join of `n` pieces at a character that occurs once in the separator
   * and never in the pieces gives `n` pieces, each framed by the rest of the separator.
   */
  lemma {:induction false} SplitJoinCount(parts: seq<string>, a: string, c: char, b: string)
    requires |parts| >= 1
    requires forall i :: 0 <= i < |parts| ==> c !in parts[i]
    requires c !in a && c !in b
    ensures |Split(Join(parts, a + [c] + b), c)| == |parts|
    ensures forall i :: 0 <= i < |parts| ==> Split(Join(parts, a + [c] + b), c)[i] == Framed(parts, a, b, i)
  {
    var sep := a + [c] + b;
    if |parts| == 1 {
      SplitWithoutSeparator(parts[0], c);
      assert Framed(parts, a, b, 0) == parts[0];
    } else {
      var rest := Join(parts[1..], sep);
      assert Join(parts, sep) == (parts[0] + a) + [c] + (b + rest);
      SplitAtFirst(parts[0] + a, c, b + rest);
      SplitCountPrefix(b, rest, c);
      SplitJoinCount(parts[1..], a, c, b);
      var r := Split(rest, c);
      var q := Split(b + rest, c);
      var pieces := Split(Join(parts, sep), c);
      assert pieces == [parts[0] + a] + q;
      assert q == [b + r[0]] + r[1..];
      forall i | 0 <= i < |parts|
        ensures pieces[i] == Framed(parts, a, b, i)
      {
        if i == 0 {
          assert pieces[0] == parts[0] + a;
        } else {
          FramedTail(parts, a, b, i);
          assert pieces[i] == q[i - 1];
        }
      }
    }
  }

  predicate IsDigit(ch: char) {
    '0' <= ch <= '9'
  }

  predicate AllDigits(s: string) {
    forall i :: 0 <= i < |s| ==> IsDigit(s[i])
  }

  function DigitChar(d: nat): char
    requires d < 10
  {
    ('0' as int + d) as char
  }

  /** The decimal text of `n`, as `${n}` renders a non-negative integer. */
  function NatToString(n: nat): (s: string)
    ensures |s| >= 1 && AllDigits(s)
  {
    if n < 10 then [DigitChar(n)] else NatToString(n / 10) + [DigitChar(n % 10)]
  }

  /** `${i}` for any integer. */
  function IntToString(i: int): string {
    if i < 0 then "-" + NatToString(-i) else NatToString(i)
  }

  /** The value of a string of decimal digits; the empty string is 0. */
  function DigitsValue(s: string): nat
    requires AllDigits(s)
  {
    if |s| == 0 then 0 else 10 * DigitsValue(s[..|s| - 1]) + (s[|s| - 1] as int - '0' as int)
  }

  /** Reading the decimal text of `n` gives `n` back. */
  lemma {:induction false} DigitsValueOfNatToString(n: nat)
    ensures DigitsValue(NatToString(n)) == n
  {
    var s := NatToString(n);
    if n >= 10 {
      DigitsValueOfNatToString(n / 10);
      assert s[..|s| - 1] == NatToString(n / 10);
    }
  }

  /** Different numbers render to different texts. */
  lemma NatToStringInjective(a: nat, b: nat)
    ensures NatToString(a) == NatToString(b) ==> a == b
  {
    DigitsValueOfNatToString(a);
    DigitsValueOfNatToString(b);
  }

  /**
   * `Number(text)` for the texts the source feeds it: a string of decimal digits
   * (the empty string reads as 0) has its value; anything else is NaN (`None`).
   */
  function NumberOf(s: string): (r: Option<nat>)
    ensures r.Some? <==> AllDigits(s)
  {
    if AllDigits(s) then Some(DigitsValue(s)) else None
  }

  /** `Number(`${n}`)` is `n`. */
  lemma NumberOfNatToString(n: nat)
    ensures NumberOf(NatToString(n)) == Some(n)
  {
    DigitsValueOfNatToString(n);
  }
}
