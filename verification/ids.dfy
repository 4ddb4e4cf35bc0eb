/** The replacement identifiers minted by `detect_entities`: `<PREFIX_k>` with `k`
    written in decimal, as Python's f-string formats a positive int. */
module Ids {
  import opened Wrappers

  function Digit(d: nat): (c: char)
    requires d < 10
    ensures '0' <= c <= '9'
  {
    (48 + d) as char
  }

  /** `n` in decimal, without leading zeros. */
  function Decimal(n: nat): (s: string)
    ensures |s| > 0
    ensures forall i :: 0 <= i < |s| ==> '0' <= s[i] <= '9'
  {
    if n < 10 then [Digit(n)] else Decimal(n / 10) + [Digit(n % 10)]
  }

  /** The number a string of decimal digits denotes. */
  function DecimalValue(s: string): nat
    requires forall i :: 0 <= i < |s| ==> '0' <= s[i] <= '9'
  {
    if s == [] then 0 else 10 * DecimalValue(s[..|s| - 1]) + (s[|s| - 1] as int - 48)
  }

  /** Reading a number's decimal form gives the number back. */
  lemma {:induction false} DecimalRoundTrip(n: nat)
    ensures DecimalValue(Decimal(n)) == n
  {
    var s := Decimal(n);
    if n >= 10 {
      DecimalRoundTrip(n / 10);
      assert s[..|s| - 1] == Decimal(n / 10);
    }
  }

  /** The identifier of the `k`-th entity of a category. With an underscore-free
      prefix, the prefix and the number can be read back from it. */
  function Id(prefix: string, k: nat): (r: string)
    ensures '_' !in prefix ==> ParseId(r) == Some((prefix, k))
  {
    ParseBuilt(prefix, k);
    "<" + prefix + "_" + Decimal(k) + ">"
  }

  /** Reads an identifier: the text between `<` and the first `_`, and the number
      the digits between that `_` and the closing `>` denote. */
  function ParseId(s: string): Option<(string, nat)> {
    var i := FirstIndex(s, '_');
    if 1 <= i && i + 2 < |s| && s[0] == '<' && s[|s| - 1] == '>' &&
       forall j :: i + 1 <= j < |s| - 1 ==> '0' <= s[j] <= '9'
    then Some((s[1..i], DecimalValue(s[i + 1..|s| - 1])))
    else None
  }

  lemma ParseBuilt(prefix: string, k: nat)
    ensures '_' !in prefix ==> ParseId("<" + prefix + "_" + Decimal(k) + ">") == Some((prefix, k))
  {
    if '_' in prefix {
      return;
    }
    var d := Decimal(k);
    var s := "<" + prefix + "_" + d + ">";
    assert s == ("<" + prefix) + ['_'] + (d + ">");
    FirstIndexAfter("<" + prefix, '_', d + ">");
    assert s[1..|prefix| + 1] == prefix;
    assert s[|prefix| + 2..|s| - 1] == d;
    DecimalRoundTrip(k);
  }

  /** The position of the first `c` in `s` (`|s|` when there is none). */
  function FirstIndex(s: string, c: char): (i: nat)
    ensures i <= |s|
  {
    if s == [] || s[0] == c then 0 else 1 + FirstIndex(s[1..], c)
  }

  lemma {:induction false} FirstIndexAfter(pre: string, c: char, rest: string)
    requires c !in pre
    ensures FirstIndex(pre + [c] + rest, c) == |pre|
  {
    if pre != [] {
      assert (pre + [c] + rest)[1..] == pre[1..] + [c] + rest;
      FirstIndexAfter(pre[1..], c, rest);
    }
  }

  /** Distinct categories (with underscore-free prefixes) and distinct numbers
      give distinct identifiers. */
  lemma IdInjective(p: string, j: nat, q: string, k: nat)
    requires '_' !in p && '_' !in q
    ensures Id(p, j) == Id(q, k) ==> p == q && j == k
  {
  }
}
