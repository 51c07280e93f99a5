/** String helpers the fingerprint key is built from: path base names and decimal numbers. */
module Text {

  /** The path separator of the systems modelled (filepath.Separator on Unix). */
  const Separator: char := '/'

  /** Index of the last occurrence of `c` in `s`, or -1 when there is none. */
  function LastIndex(s: string, c: char): (i: int)
    ensures -1 <= i < |s|
    ensures i >= 0 ==> s[i] == c
    ensures forall j :: i < j < |s| ==> s[j] != c
  {
    if s == [] then -1
    else if s[|s| - 1] == c then |s| - 1
    else LastIndex(s[..|s| - 1], c)
  }

  /** `p` with every trailing separator removed. */
  function TrimTrailingSeparators(p: string): (t: string)
    ensures t <= p
    ensures t == [] || t[|t| - 1] != Separator
    ensures forall j :: |t| <= j < |p| ==> p[j] == Separator
  {
    if p != [] && p[|p| - 1] == Separator then TrimTrailingSeparators(p[..|p| - 1]) else p
  }

  /** filepath.Base: "." for the empty path, the separator for a path made only of
      separators, otherwise the last element once trailing separators are dropped. */
  function Base(path: string): (b: string)
    ensures b != []
    ensures b == [Separator] || Separator !in b
  {
    if path == [] then "."
    else
      var t := TrimTrailingSeparators(path);
      if t == [] then [Separator] else t[LastIndex(t, Separator) + 1..]
  }

  /** For a path that does not end in a separator (every file path a walk produces),
      the base name is the text after the last separator. */
  lemma BaseOfFilePath(path: string)
    requires path != [] && path[|path| - 1] != Separator
    ensures var b := Base(path);
      && |b| <= |path|
      && path[|path| - |b|..] == b
      && (|b| == |path| || path[|path| - |b| - 1] == Separator)
  {
    assert TrimTrailingSeparators(path) == path;
  }

  function Digit(d: nat): (c: char)
    requires d < 10
    ensures '0' <= c <= '9'
  {
    (d + '0' as int) as char
  }

  predicate IsDigits(s: string) {
    forall i :: 0 <= i < |s| ==> '0' <= s[i] <= '9'
  }

  /** The decimal numeral of `n`, most significant digit first, without leading zeros. */
  function Decimal(n: nat): (s: string)
    ensures s != [] && IsDigits(s)
    ensures s[0] == '0' ==> n == 0
  {
    if n < 10 then [Digit(n)] else Decimal(n / 10) + [Digit(n % 10)]
  }

  /** The value of a numeral; the inverse of Decimal. */
  function ParseDecimal(s: string): nat
    requires IsDigits(s)
  {
    if s == [] then 0 else ParseDecimal(s[..|s| - 1]) * 10 + (s[|s| - 1] as int - '0' as int)
  }

  lemma {:induction false} ParseDecimalOfDecimal(n: nat)
    ensures ParseDecimal(Decimal(n)) == n
  {
    if n >= 10 {
      ParseDecimalOfDecimal(n / 10);
      var s := Decimal(n);
      assert s[..|s| - 1] == Decimal(n / 10);
    }
  }

  /** fmt's %d verb on a signed integer. */
  function FormatInt(n: int): string {
    if n < 0 then "-" + Decimal(-n) else Decimal(n)
  }
}
