/** Characters and strings: the white space of three languages, trimming, decimal numerals. */
module Text {

  /** Unicode `White_Space`, which Rust's `str::trim` removes. */
  predicate RustWhitespace(c: char) {
    var n := c as int;
    || 0x09 <= n <= 0x0D || n == 0x20 || n == 0x85 || n == 0xA0 || n == 0x1680
    || 0x2000 <= n <= 0x200A || n == 0x2028 || n == 0x2029 || n == 0x202F || n == 0x205F || n == 0x3000
  }

  /** What JavaScript's `String.prototype.trim` removes. */
  predicate JsWhitespace(c: char) {
    c as int == 0xFEFF || (c as int != 0x85 && RustWhitespace(c))
  }

  /** What Python's `str.strip` removes. */
  predicate PyWhitespace(c: char) {
    0x1C <= c as int <= 0x1F || RustWhitespace(c)
  }

  predicate Blank(s: string, space: char -> bool) {
    forall i :: 0 <= i < |s| ==> space(s[i])
  }

  function TrimLeft(s: string, space: char -> bool): (t: string)
    ensures |t| <= |s|
  {
    if s != [] && space(s[0]) then TrimLeft(s[1..], space) else s
  }

  function TrimRight(s: string, space: char -> bool): (t: string)
    ensures |t| <= |s|
  {
    if s != [] && space(s[|s| - 1]) then TrimRight(s[..|s| - 1], space) else s
  }

  function Trim(s: string, space: char -> bool): string {
    TrimRight(TrimLeft(s, space), space)
  }

  /** Trimming keeps what starts and ends without blanks, and drops blanks around it. */
  lemma {:induction false} TrimPadded(before: string, s: string, after: string, space: char -> bool)
    requires Blank(before, space) && Blank(after, space)
    requires s != [] && !space(s[0]) && !space(s[|s| - 1])
    ensures Trim(before + s + after, space) == s
    decreases |before| + |after|
  {
    var all := before + s + after;
    if before != [] {
      assert all[0] == before[0] && all[1..] == before[1..] + s + after;
      TrimPadded(before[1..], s, after, space);
    } else if after != [] {
      assert all == s + after && all[0] == s[0];
      assert all[|all| - 1] == after[|after| - 1] && all[..|all| - 1] == [] + s + after[..|after| - 1];
      assert (s + after[..|after| - 1])[0] == s[0];
      TrimPadded([], s, after[..|after| - 1], space);
    } else {
      assert all == s;
    }
  }

  // ---------------------------------------------------------------- runs and fields

  /** The end of the run of `p` characters that starts at `from`. */
  function RunEnd(s: string, from: nat, p: char -> bool): (k: nat)
    requires from <= |s|
    ensures from <= k <= |s| && (k < |s| ==> !p(s[k]))
    ensures forall i :: from <= i < k ==> p(s[i])
    decreases |s| - from
  {
    if from < |s| && p(s[from]) then RunEnd(s, from + 1, p) else from
  }

  lemma {:induction false} RunEndIs(s: string, from: nat, k: nat, p: char -> bool)
    requires from <= k <= |s| && (k < |s| ==> !p(s[k])) && forall i :: from <= i < k ==> p(s[i])
    ensures RunEnd(s, from, p) == k
    decreases |s| - from
  {
    if from < k {
      RunEndIs(s, from + 1, k, p);
    }
  }

  /** The first `c` in `s`, or the length of `s`. */
  function IndexOf(s: string, c: char): (k: nat)
    ensures k <= |s| && (k < |s| ==> s[k] == c) && c !in s[..k]
    ensures c in s <==> k < |s|
  {
    if s == [] || s[0] == c then 0
    else
      var k := IndexOf(s[1..], c);
      assert forall i :: 1 <= i < k + 1 ==> s[i] == s[1..][i - 1] && s[1..][i - 1] in s[1..][..k];
      k + 1
  }

  /** JavaScript's `split` at one character. */
  function Split(s: string, c: char): (fields: seq<string>)
    ensures fields != [] && forall i :: 0 <= i < |fields| ==> c !in fields[i]
    decreases |s|
  {
    var k := IndexOf(s, c);
    if k == |s| then
      assert s[..k] == s;
      [s]
    else [s[..k]] + Split(s[k + 1..], c)
  }

  function Join(fields: seq<string>, c: char): string {
    if fields == [] then []
    else if |fields| == 1 then fields[0]
    else fields[0] + [c] + Join(fields[1..], c)
  }

  lemma {:induction false} FirstField(field: string, rest: string, c: char)
    requires c !in field
    ensures IndexOf(field + [c] + rest, c) == |field|
  {
    var s := field + [c] + rest;
    if field != [] {
      assert s[0] == field[0] && s[0] in field;
      assert s[1..] == field[1..] + [c] + rest;
      FirstField(field[1..], rest, c);
    }
  }

  lemma JoinCons(field: string, rest: seq<string>, c: char)
    requires rest != []
    ensures Join([field] + rest, c) == field + [c] + Join(rest, c)
  {
    assert ([field] + rest)[1..] == rest;
  }

  /** A text cut at a character. */
  lemma CutAt(s: string, k: nat)
    requires k < |s|
    ensures s == s[..k] + [s[k]] + s[k + 1..]
  {
  }

  lemma SplitCons(field: string, rest: string, c: char)
    requires c !in field
    ensures Split(field + [c] + rest, c) == [field] + Split(rest, c)
  {
    FirstField(field, rest, c);
    var s := field + [c] + rest;
    assert s[..|field|] == field && s[|field| + 1..] == rest;
  }

  lemma {:induction false} SplitUndoesJoin(fields: seq<string>, c: char)
    requires fields != [] && forall i :: 0 <= i < |fields| ==> c !in fields[i]
    ensures Split(Join(fields, c), c) == fields
  {
    if |fields| == 1 {
      assert Join(fields, c) == fields[0];
    } else {
      SplitUndoesJoin(fields[1..], c);
      SplitCons(fields[0], Join(fields[1..], c), c);
      assert fields == [fields[0]] + fields[1..];
    }
  }

  lemma {:induction false} JoinUndoesSplit(s: string, c: char)
    ensures Join(Split(s, c), c) == s
    decreases |s|
  {
    var k := IndexOf(s, c);
    if k < |s| {
      JoinUndoesSplit(s[k + 1..], c);
      JoinCons(s[..k], Split(s[k + 1..], c), c);
      CutAt(s, k);
    }
  }

  // ---------------------------------------------------------------- decimal numerals

  function Digit(n: nat): char
    requires n < 10
  {
    ('0' as int + n) as char
  }

  predicate IsDigit(c: char) {
    '0' <= c <= '9'
  }

  function DigitValue(c: char): nat
    requires IsDigit(c)
  {
    c as int - '0' as int
  }

  /** The decimal numeral of a natural number, without leading zeros. */
  function Decimal(n: nat): (s: string)
    ensures s != [] && forall i :: 0 <= i < |s| ==> IsDigit(s[i])
  {
    if n < 10 then [Digit(n)] else Decimal(n / 10) + [Digit(n % 10)]
  }

  predicate AllDigits(s: string) {
    forall i :: 0 <= i < |s| ==> IsDigit(s[i])
  }

  /** The number a string of digits spells; leading zeros do not matter. */
  function Number(s: string): nat
    requires AllDigits(s)
  {
    if s == [] then 0 else 10 * Number(s[..|s| - 1]) + DigitValue(s[|s| - 1])
  }

  lemma {:induction false} NumberOfDecimal(n: nat)
    ensures Number(Decimal(n)) == n
  {
    if n >= 10 {
      NumberOfDecimal(n / 10);
      assert Decimal(n)[..|Decimal(n)| - 1] == Decimal(n / 10);
    } else {
      assert Decimal(n)[..0] == [];
    }
  }

  lemma {:induction false} NumberOfZeros(zeros: string, s: string)
    requires AllDigits(zeros + s) && forall i :: 0 <= i < |zeros| ==> zeros[i] == '0'
    ensures AllDigits(zeros) && AllDigits(s) && Number(zeros + s) == Number(s)
    decreases |s|, |zeros|
  {
    var all := zeros + s;
    assert forall i :: 0 <= i < |zeros| ==> zeros[i] == all[i];
    assert forall i :: 0 <= i < |s| ==> s[i] == all[|zeros| + i];
    if s != [] {
      assert all[..|all| - 1] == zeros + s[..|s| - 1];
      NumberOfZeros(zeros, s[..|s| - 1]);
    } else if zeros != [] {
      assert all == zeros && all[..|all| - 1] == zeros[..|zeros| - 1] + [];
      NumberOfZeros(zeros[..|zeros| - 1], []);
    }
  }
}
