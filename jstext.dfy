/**
 * The pieces of JavaScript's string semantics the cache relies on:
 * `String.prototype.split` with a one-character separator (with and without a
 * limit), the decimal text of an integer, and `Number(text)` on the texts an
 * expiry header can hold.
 */
module JsText {
  import opened Wrappers

  /** Position of the first occurrence of `c` in `s`. */
  function IndexOf(s: string, c: char): (i: nat)
    requires c in s
    ensures i < |s| && s[i] == c
    ensures c !in s[..i]
  {
    if s[0] == c then 0
    else
      assert s == [s[0]] + s[1..];
      var j := IndexOf(s[1..], c);
      assert s[..j + 1] == [s[0]] + s[1..][..j];
      j + 1
  }

  /** The first occurrence is the one right after a prefix free of `c`. */
  lemma IndexOfAfterPrefix(a: string, c: char, b: string)
    requires c !in a
    ensures IndexOf(a + [c] + b, c) == |a|
  {
    var s := a + [c] + b;
    assert s[..|a|] == a;
    assert s[|a|] == c;
  }

  /** `s.split(c)`: every piece of `s` between occurrences of `c`. */
  function Split(s: string, c: char): (pieces: seq<string>)
    ensures |pieces| >= 1
    ensures forall k | 0 <= k < |pieces| :: c !in pieces[k]
    decreases |s|
  {
    if c !in s then [s]
    else
      var i := IndexOf(s, c);
      [s[..i]] + Split(s[i + 1..], c)
  }

  /** `pieces.join(c)`. */
  function Join(pieces: seq<string>, c: char): string
  {
    if pieces == [] then ""
    else if |pieces| == 1 then pieces[0]
    else pieces[0] + [c] + Join(pieces[1..], c)
  }

  /** Splitting loses nothing: joining the pieces gives the text back. */
  lemma {:induction false} SplitThenJoin(s: string, c: char)
    ensures Join(Split(s, c), c) == s
    decreases |s|
  {
    if c in s {
      var i := IndexOf(s, c);
      var rest := s[i + 1..];
      var pieces := [s[..i]] + Split(rest, c);
      assert Split(s, c) == pieces;
      assert pieces[1..] == Split(rest, c);
      assert Join(pieces, c) == s[..i] + [c] + Join(Split(rest, c), c);
      SplitThenJoin(rest, c);
      assert s == s[..i] + [c] + rest;
    }
  }

  /** Splitting at the first separator. */
  lemma SplitAfterFirst(a: string, c: char, b: string)
    requires c !in a
    ensures Split(a + [c] + b, c) == [a] + Split(b, c)
  {
    var s := a + [c] + b;
    IndexOfAfterPrefix(a, c, b);
    assert s[..|a|] == a;
    assert s[|a| + 1..] == b;
  }

  /** Joining pieces free of the separator and splitting again gives the pieces back. */
  lemma {:induction false} JoinThenSplit(pieces: seq<string>, c: char)
    requires |pieces| >= 1
    requires forall k | 0 <= k < |pieces| :: c !in pieces[k]
    ensures Split(Join(pieces, c), c) == pieces
    decreases |pieces|
  {
    if |pieces| > 1 {
      JoinThenSplit(pieces[1..], c);
      SplitAfterFirst(pieces[0], c, Join(pieces[1..], c));
      assert pieces == [pieces[0]] + pieces[1..];
    }
  }

  /** `s.split(c, limit)`: the first `limit` pieces of `s.split(c)`. */
  function SplitLimit(s: string, c: char, limit: nat): (pieces: seq<string>)
    ensures |pieces| <= limit
    ensures |pieces| <= |Split(s, c)| && pieces == Split(s, c)[..|pieces|]
    ensures |pieces| == limit || pieces == Split(s, c)
  {
    var all := Split(s, c);
    if limit < |all| then all[..limit] else all
  }

  /** The first piece of a split: everything before the first separator. */
  lemma FirstPiece(s: string, c: char)
    ensures c !in s ==> Split(s, c)[0] == s
    ensures c in s ==> Split(s, c)[0] == s[..IndexOf(s, c)]
  {
  }

  /** A two-piece split exists exactly when the separator occurs, and then
      it is the text before the first separator and the text after it up to
      the next one. */
  lemma SplitLimitTwo(s: string, c: char)
    ensures |SplitLimit(s, c, 2)| == 2 <==> c in s
    ensures c in s ==> SplitLimit(s, c, 2) == [s[..IndexOf(s, c)], Split(s[IndexOf(s, c) + 1..], c)[0]]
  {
    var all := Split(s, c);
    if c in s {
      var i := IndexOf(s, c);
      var rest := Split(s[i + 1..], c);
      assert all == [s[..i]] + rest;
      assert |all| >= 2;
      assert SplitLimit(s, c, 2) == all[..2];
      assert all[..2] == [s[..i], rest[0]];
    } else {
      assert all == [s];
      assert SplitLimit(s, c, 2) == all;
    }
  }

  /** The two-piece split of `a + c + b` when `a` has no separator. */
  lemma SplitLimitTwoAfter(a: string, c: char, b: string)
    requires c !in a
    ensures SplitLimit(a + [c] + b, c, 2) == [a, Split(b, c)[0]]
  {
    SplitAfterFirst(a, c, b);
    var rest := Split(b, c);
    assert ([a] + rest)[..2] == [a, rest[0]];
  }

  predicate IsDigit(ch: char) {
    '0' <= ch <= '9'
  }

  predicate AllDigits(s: string) {
    forall k | 0 <= k < |s| :: IsDigit(s[k])
  }

  /** Decimal text of a natural number, no leading zeros. */
  function NatToString(n: nat): (s: string)
    ensures |s| >= 1 && AllDigits(s)
    decreases n
  {
    var last := [(('0' as int) + n % 10) as char];
    if n < 10 then last else NatToString(n / 10) + last
  }

  /** `String(i)` for an integer `i`. */
  function IntToString(i: int): (s: string)
    ensures |s| >= 1
    ensures ':' !in s && '\n' !in s
  {
    if i < 0 then "-" + NatToString(-i) else NatToString(i)
  }

  /** The value of a text of decimal digits. */
  function DigitsValue(s: string): nat
    requires AllDigits(s)
  {
    if s == [] then 0
    else DigitsValue(s[..|s| - 1]) * 10 + (s[|s| - 1] as int - '0' as int)
  }

  /** The digits of a natural number read back as that number. */
  lemma {:induction false} DigitsValueOfNat(n: nat)
    ensures DigitsValue(NatToString(n)) == n
    decreases n
  {
    var s := NatToString(n);
    if n >= 10 {
      DigitsValueOfNat(n / 10);
      assert s[..|s| - 1] == NatToString(n / 10);
    }
  }

  /**
   * `Number(s)` on integer texts: the empty text is 0, an optional sign followed
   * by decimal digits is that integer, and every other text is NaN (None).
   */
  function ToNumber(s: string): (r: Option<int>)
    ensures s == "" ==> r == Some(0)
    ensures AllDigits(s) ==> r == Some(DigitsValue(s))
    ensures r.Some? && s != "" ==> forall k | 0 < k < |s| :: IsDigit(s[k])
    ensures r.Some? && s != "" ==> IsDigit(s[0]) || ((s[0] == '-' || s[0] == '+') && |s| > 1)
    ensures |s| > 1 && s[0] == '-' && AllDigits(s[1..]) ==> r == Some(-(DigitsValue(s[1..]) as int))
    ensures |s| > 1 && s[0] == '+' && AllDigits(s[1..]) ==> r == Some(DigitsValue(s[1..]))
  {
    if s == "" then Some(0)
    else if (s[0] == '-' || s[0] == '+') && |s| > 1 && AllDigits(s[1..]) then
      var magnitude: int := DigitsValue(s[1..]);
      Some(if s[0] == '-' then -magnitude else magnitude)
    else if AllDigits(s) then Some(DigitsValue(s))
    else None
  }

  /** Reading back the decimal text of an integer gives the integer. */
  lemma ToNumberOfIntToString(i: int)
    ensures ToNumber(IntToString(i)) == Some(i)
  {
    var s := IntToString(i);
    if i < 0 {
      var t := NatToString(-i);
      assert s == "-" + t;
      assert s[0] == '-' && s[1..] == t && AllDigits(t);
      DigitsValueOfNat(-i);
    } else {
      assert s == NatToString(i) && AllDigits(s);
      assert IsDigit(s[0]);
      DigitsValueOfNat(i);
    }
  }
}
