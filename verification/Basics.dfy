/**
 What several modules need: optional values, bounds, numbers as text, regrouping of sequences.
 */
module Basics {

  datatype Option<T> = None | Some(value: T)

  function Max(a: int, b: int): (r: int)
    ensures r >= a && r >= b
  {
    if a >= b then a else b
  }

  function Min(a: int, b: int): (r: int)
    ensures r <= a && r <= b
  {
    if a <= b then a else b
  }

  lemma Assoc<T>(a: seq<T>, b: seq<T>, c: seq<T>)
    ensures (a + b) + c == a + (b + c)
  {
  }

  lemma JoinSlices<T>(s: seq<T>, a: nat, b: nat, c: nat)
    requires a <= b <= c <= |s|
    ensures s[a..b] + s[b..c] == s[a..c] && s[..a] + s[a..b] == s[..b]
  {
  }

  lemma SubSlice<T>(s: seq<T>, a: nat, b: nat, i: nat, j: nat)
    requires a <= b <= |s| && i <= j <= b - a
    ensures s[a..b][i..j] == s[a + i..a + j]
  {
    assert forall k | 0 <= k < j - i :: s[a..b][i..j][k] == s[a..b][i + k] == s[a + i..a + j][k];
  }

  /** The three parts of a sequence. */
  lemma Parts<T>(x: seq<T>, y: seq<T>, z: seq<T>)
    ensures (x + y + z)[..|x|] == x && (x + y + z)[|x|..|x| + |y|] == y && (x + y + z)[|x| + |y|..] == z
  {
  }

  lemma TakeSnoc<T>(s: seq<T>, k: nat)
    requires k < |s|
    ensures s[..k] + [s[k]] == s[..k + 1] && s[..k + 1] + s[k + 1..] == s
  {
  }

  // ---- Numbers as text ----

  predicate IsDigits(s: string) {
    forall i | 0 <= i < |s| :: '0' <= s[i] <= '9'
  }

  function Value(s: string): nat
    requires IsDigits(s)
  {
    if s == "" then 0 else 10 * Value(s[..|s| - 1]) + (s[|s| - 1] as int - '0' as int)
  }

  /** `Number.parseInt`, with -1 for NaN. */
  function ParseInt(s: string): int {
    if s == "" || !IsDigits(s) then -1 else Value(s)
  }

  /** `String(n)` */
  function Decimal(n: nat): (s: string)
    ensures s != "" && IsDigits(s)
  {
    var digit := [('0' as int + n % 10) as char];
    if n < 10 then digit else Decimal(n / 10) + digit
  }

  lemma ValueSnoc(s: string, c: char)
    requires IsDigits(s) && '0' <= c <= '9'
    ensures IsDigits(s + [c]) && Value(s + [c]) == 10 * Value(s) + (c as int - '0' as int)
  {
    assert (s + [c])[..|s + [c]| - 1] == s;
  }

  lemma {:induction false} DecimalRoundTrip(n: nat)
    ensures ParseInt(Decimal(n)) == n
  {
    hide Decimal, Value, IsDigits;
    DecimalStep(n);
    NoDigits();
    var digit := ('0' as int + n % 10) as char;
    if n < 10 {
      ValueSnoc("", digit);
      assert "" + [digit] == [digit];
    } else {
      DecimalRoundTrip(n / 10);
      ValueSnoc(Decimal(n / 10), digit);
    }
  }

  lemma DecimalStep(n: nat)
    ensures Decimal(n) == (if n < 10 then "" else Decimal(n / 10)) + [('0' as int + n % 10) as char]
  {
    assert "" + [('0' as int + n % 10) as char] == [('0' as int + n % 10) as char];
  }

  lemma NoDigits()
    ensures IsDigits("") && Value("") == 0
  {
  }
}
