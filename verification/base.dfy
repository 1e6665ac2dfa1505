/** Value types and string helpers shared by every layer of the model:
    Rust's `Option` and `Result`, decimal rendering of integers (Rust's
    `Display` for `i32`/`i64`), `join`, `split` and `contains` on strings. */
module Base {

  datatype Option<+T> = None | Some(value: T) {

    /** Rust's `Option::unwrap_or`. */
    function UnwrapOr(default: T): T {
      match this
      case Some(v) => v
      case None => default
    }
  }

  datatype Result<+T, +E> = Ok(value: T) | Err(error: E)

  // ---------------------------------------------------------------------
  // Decimal rendering of integers and its inverse
  // ---------------------------------------------------------------------

  predicate IsDigit(c: char) {
    '0' <= c <= '9'
  }

  predicate AllDigits(s: string) {
    forall i :: 0 <= i < |s| ==> IsDigit(s[i])
  }

  function DigitValue(c: char): nat
    requires IsDigit(c)
  {
    c as int - '0' as int
  }

  function DigitChar(d: nat): (c: char)
    requires d < 10
    ensures IsDigit(c) && DigitValue(c) == d
  {
    ('0' as int + d) as char
  }

  /** The decimal digits of `n`, most significant first, without leading zeros. */
  function NatToString(n: nat): (s: string)
    ensures |s| >= 1 && AllDigits(s)
  {
    if n < 10 then [DigitChar(n)] else NatToString(n / 10) + [DigitChar(n % 10)]
  }

  /** Reads a string of decimal digits back as a number. */
  function ParseNat(s: string): nat
    requires AllDigits(s)
  {
    if |s| == 0 then 0 else 10 * ParseNat(s[..|s| - 1]) + DigitValue(s[|s| - 1])
  }

  lemma {:induction false} ParseNatOfNatToString(n: nat)
    ensures ParseNat(NatToString(n)) == n
  {
    if n >= 10 {
      var s := NatToString(n);
      assert s[..|s| - 1] == NatToString(n / 10);
      ParseNatOfNatToString(n / 10);
    }
  }

  /** How `format!("{}", i)` prints a signed integer: a minus sign for negatives. */
  function IntToString(i: int): (s: string)
    ensures |s| >= 1
    ensures forall k :: 0 <= k < |s| ==> IsDigit(s[k]) || s[k] == '-'
  {
    if i < 0 then "-" + NatToString(-i) else NatToString(i)
  }

  /** Reads an optionally signed decimal integer; `None` for anything else. */
  function ParseInt(s: string): Option<int> {
    if |s| >= 2 && s[0] == '-' && AllDigits(s[1..]) then Some(0 - ParseNat(s[1..]) as int)
    else if |s| >= 1 && AllDigits(s) then Some(ParseNat(s))
    else None
  }

  /** Printing an integer loses nothing: the text reads back as the same number. */
  lemma IntToStringRoundTrip(i: int)
    ensures ParseInt(IntToString(i)) == Some(i)
  {
    if i < 0 {
      var s := IntToString(i);
      assert s[1..] == NatToString(-i);
      ParseNatOfNatToString(-i);
    } else {
      ParseNatOfNatToString(i);
    }
  }

  /** Two different integers never print the same. */
  lemma IntToStringInjective(i: int, j: int)
    ensures IntToString(i) == IntToString(j) ==> i == j
  {
    IntToStringRoundTrip(i);
    IntToStringRoundTrip(j);
  }

  // ---------------------------------------------------------------------
  // join / split / contains
  // ---------------------------------------------------------------------

  /** Rust's `[&str]::join(sep)`. */
  function Join(parts: seq<string>, sep: string): string {
    if |parts| == 0 then ""
    else if |parts| == 1 then parts[0]
    else parts[0] + sep + Join(parts[1..], sep)
  }

  /** The position of the first `c` in `s`. */
  function IndexOf(s: string, c: char): (i: nat)
    requires c in s
    ensures i < |s| && s[i] == c && c !in s[..i]
  {
    if s[0] == c then 0 else 1 + IndexOf(s[1..], c)
  }

  /** Rust's `str::split(c)`: the pieces between occurrences of `c`; a string
      without `c` is one piece, and a trailing `c` leaves an empty last piece. */
  function Split(s: string, c: char): (parts: seq<string>)
    ensures |parts| >= 1
    ensures forall k :: 0 <= k < |parts| ==> c !in parts[k]
    ensures Join(parts, [c]) == s
    decreases |s|
  {
    if c !in s then [s]
    else
      var i := IndexOf(s, c);
      var rest := Split(s[i + 1..], c);
      assert s == s[..i] + [c] + s[i + 1..];
      assert ([s[..i]] + rest)[1..] == rest;
      [s[..i]] + rest
  }

  /** The first `c` after a `c`-free head is the one right after the head. */
  lemma IndexOfAfterHead(head: string, c: char, tail: string)
    requires c !in head
    ensures IndexOf(head + [c] + tail, c) == |head|
    ensures (head + [c] + tail)[..|head|] == head && (head + [c] + tail)[|head| + 1..] == tail
  {
    var s := head + [c] + tail;
    assert s[|head|] == c;
    assert s[..|head|] == head;
  }

  /** Splitting at `c` after a `c`-free head gives the head, then the split of the tail. */
  lemma SplitAfterHead(head: string, c: char, tail: string)
    requires c !in head
    ensures Split(head + [c] + tail, c) == [head] + Split(tail, c)
  {
    IndexOfAfterHead(head, c, tail);
  }

  /** The first piece is everything before the first `c`, which `rest` starts with (if anything). */
  lemma FirstPiece(head: string, c: char, rest: string)
    requires c !in head
    requires rest == [] || rest[0] == c
    ensures Split(head + rest, c)[0] == head
  {
    if rest == [] {
      assert head + rest == head;
    } else {
      assert head + rest == head + [c] + rest[1..];
      SplitAfterHead(head, c, rest[1..]);
    }
  }

  /** `Split` undoes `Join` when no piece contains the separator. */
  lemma {:induction false} SplitJoin(parts: seq<string>, c: char)
    requires |parts| >= 1
    requires forall k :: 0 <= k < |parts| ==> c !in parts[k]
    ensures Split(Join(parts, [c]), c) == parts
  {
    if |parts| > 1 {
      SplitJoin(parts[1..], c);
      SplitAfterHead(parts[0], c, Join(parts[1..], [c]));
    }
  }

  /** The text before and after the first `c`; all of `s` and nothing when there is none. */
  function SplitOnce(s: string, c: char): (string, string) {
    if c in s then (s[..IndexOf(s, c)], s[IndexOf(s, c) + 1..]) else (s, "")
  }

  lemma SplitOnceAfterHead(head: string, c: char, tail: string)
    requires c !in head
    ensures SplitOnce(head + [c] + tail, c) == (head, tail)
  {
    IndexOfAfterHead(head, c, tail);
  }

  predicate StartsWith(s: string, prefix: string) {
    |prefix| <= |s| && s[..|prefix|] == prefix
  }

  /** Rust's `str::contains` for a string pattern. */
  predicate Contains(s: string, sub: string)
    decreases |s|
  {
    StartsWith(s, sub) || (|s| > 0 && Contains(s[1..], sub))
  }

  /** Whatever surrounds an occurrence, the occurrence is found. */
  lemma {:induction false} ContainsInfix(a: string, sub: string, b: string)
    ensures Contains(a + sub + b, sub)
  {
    if |a| == 0 {
      assert (a + sub + b)[..|sub|] == sub;
    } else {
      assert (a + sub + b)[1..] == a[1..] + sub + b;
      ContainsInfix(a[1..], sub, b);
    }
  }

  /** `sub` occurs in `s` starting at position `i`. */
  predicate OccursAt(s: string, sub: string, i: int) {
    0 <= i && i + |sub| <= |s| && s[i..i + |sub|] == sub
  }

  /** Conversely, `Contains` only holds when the pattern occurs somewhere. */
  lemma {:induction false} ContainsHasOccurrence(s: string, sub: string)
    requires Contains(s, sub)
    ensures exists i :: OccursAt(s, sub, i)
  {
    if StartsWith(s, sub) {
      assert OccursAt(s, sub, 0);
    } else {
      ContainsHasOccurrence(s[1..], sub);
      var i :| OccursAt(s[1..], sub, i);
      assert s[i + 1..i + 1 + |sub|] == s[1..][i..i + |sub|];
      assert OccursAt(s, sub, i + 1);
    }
  }
}
