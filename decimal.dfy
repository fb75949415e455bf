/** Unsigned 16-bit slide numbers, their decimal rendering (Rust's `{}` for an
    unsigned integer) and the asset path every slide is stored under. */
module Decimal {

  /** The source's `u16`. */
  type u16 = x: int | 0 <= x < 0x1_0000
  const U16_MAX: u16 := 0xFFFF

  predicate IsDigit(c: char) {
    '0' <= c <= '9'
  }

  predicate AllDigits(s: string) {
    forall i :: 0 <= i < |s| ==> IsDigit(s[i])
  }

  function DigitChar(d: nat): (c: char)
    requires d < 10
    ensures IsDigit(c) && c as int - '0' as int == d
  {
    ('0' as int + d) as char
  }

  function DigitValue(c: char): (d: nat)
    requires IsDigit(c)
    ensures d < 10
  {
    c as int - '0' as int
  }

  /** The shortest decimal form of `n`: digits only, never a leading zero. */
  function Digits(n: nat): (s: string)
    ensures |s| >= 1 && AllDigits(s)
    ensures |s| > 1 ==> s[0] != '0'
    ensures n < 10 <==> |s| == 1
    decreases n
  {
    if n < 10 then [DigitChar(n)] else Digits(n / 10) + [DigitChar(n % 10)]
  }

  /** The number a string of decimal digits denotes, most significant digit first. */
  function ValueOf(s: string): nat
    requires AllDigits(s)
  {
    if s == [] then 0 else ValueOf(s[..|s| - 1]) * 10 + DigitValue(s[|s| - 1])
  }

  lemma {:induction false} ValueOfDigits(n: nat)
    ensures ValueOf(Digits(n)) == n
    decreases n
  {
    if n >= 10 {
      ValueOfDigits(n / 10);
      var d := Digits(n / 10);
      assert (d + [DigitChar(n % 10)])[..|d|] == d;
    }
  }

  /** Distinct numbers are rendered distinctly. */
  lemma DigitsInjective(a: nat, b: nat)
    ensures Digits(a) == Digits(b) <==> a == b
  {
    ValueOfDigits(a);
    ValueOfDigits(b);
  }

  /** `PathBuf::from("assets").join(format!("slide{}.png", n))`, the target of a
      capture (server.rs) and of a deletion (commands.rs). */
  function AssetPath(n: u16): string {
    "assets/slide" + Digits(n) + ".png"
  }

  /** Two slide numbers never share an asset path, so a capture never
      overwrites the asset of another slide. */
  lemma AssetPathInjective(a: u16, b: u16)
    ensures AssetPath(a) == AssetPath(b) <==> a == b
  {
    if AssetPath(a) == AssetPath(b) {
      var p := AssetPath(a);
      assert Digits(a) == p[12..|p| - 4];
      assert Digits(b) == p[12..|p| - 4];
      DigitsInjective(a, b);
    }
  }
}
