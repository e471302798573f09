/**
  Generated resource names: a base name, a dash, and a 64-bit hash in lower-case
  hexadecimal. The hash function itself is not modelled; nothing here needs to
  know it.
 */
module Naming {

  const DIGITS := "0123456789abcdef"

  /** Go's %x of an unsigned number: no leading zeros, "0" for zero. */
  function Hex(n: nat): string {
    if n < 16 then [DIGITS[n]] else Hex(n / 16) + [DIGITS[n % 16]]
  }

  function ShortName(name: string, hash: nat): string {
    name + "-" + Hex(hash)
  }

  /** What comes before the last dash of a name; everything is lost if there is none. */
  function BeforeLastDash(s: string): string {
    if s == "" then ""
    else if s[|s| - 1] == '-' then s[..|s| - 1]
    else BeforeLastDash(s[..|s| - 1])
  }

  function DigitValue(c: char): nat {
    if '0' <= c <= '9' then (c - '0') as nat else if 'a' <= c <= 'f' then (c - 'a') as nat + 10 else 0
  }

  function HexValue(s: string): nat {
    if s == "" then 0 else 16 * HexValue(s[..|s| - 1]) + DigitValue(s[|s| - 1])
  }

  lemma {:induction false} HexFacts(n: nat)
    ensures Hex(n) != "" && forall c <- Hex(n) :: c in DIGITS
    ensures HexValue(Hex(n)) == n
  {
    assert forall d :: 0 <= d < 16 ==> DigitValue(DIGITS[d]) == d;
    if n >= 16 {
      HexFacts(n / 16);
      assert Hex(n)[..|Hex(n)| - 1] == Hex(n / 16);
    } else {
      assert HexValue("") == 0 && Hex(n)[..0] == "";
    }
  }

  /** A hash is written in base sixteen, most significant digit first, in lower case, without leading zeros. */
  lemma {:induction false} HexForm(n: nat)
    ensures n < 16 ==> Hex(n) == ["0123456789abcdef"[n]]
    ensures n >= 16 ==> Hex(n) == Hex(n / 16) + ["0123456789abcdef"[n % 16]] && Hex(n)[0] != '0'
  {
    if n >= 16 {
      HexForm(n / 16);
      assert Hex(n)[0] == Hex(n / 16)[0];
    }
  }

  lemma {:induction false} DigitsPlain(s: string)
    requires forall c <- s :: c in DIGITS
    ensures '-' !in s && '/' !in s
  {
  }

  lemma {:induction false} BeforeLastDashOf(name: string, tail: string)
    requires '-' !in tail
    ensures BeforeLastDash(name + "-" + tail) == name
    decreases |tail|
  {
    var s := name + "-" + tail;
    if tail == "" {
      assert s[..|s| - 1] == name;
    } else {
      var shorter := tail[..|tail| - 1];
      assert s[..|s| - 1] == name + "-" + shorter;
      BeforeLastDashOf(name, shorter);
    }
  }

  /** Splitting a generated name at its last dash gives the base name back, whatever the hash. */
  lemma {:induction false} BaseNameRecovered(name: string, hash: nat)
    ensures BeforeLastDash(ShortName(name, hash)) == name
  {
    HexFacts(hash);
    DigitsPlain(Hex(hash));
    BeforeLastDashOf(name, Hex(hash));
  }

  /** Generated names are equal exactly when both their base names and their hashes are. */
  lemma {:induction false} ShortNameInjective(name: string, hash: nat, name2: string, hash2: nat)
    ensures ShortName(name, hash) == ShortName(name2, hash2) <==> name == name2 && hash == hash2
  {
    BaseNameRecovered(name, hash);
    BaseNameRecovered(name2, hash2);
    HexFacts(hash);
    HexFacts(hash2);
    if ShortName(name, hash) == ShortName(name2, hash2) {
      assert ShortName(name, hash)[|name| + 1..] == Hex(hash);
      assert ShortName(name2, hash2)[|name2| + 1..] == Hex(hash2);
    }
  }

  /** A name generated from a base name without slash has none either, and is not empty. */
  lemma {:induction false} ShortNameSlashFree(name: string, hash: nat)
    requires '/' !in name
    ensures ShortName(name, hash) != "" && '/' !in ShortName(name, hash)
  {
    HexFacts(hash);
    DigitsPlain(Hex(hash));
  }
}
