/**
 * Shared vocabulary of the firmware model: optional values, the ESP-IDF
 * error codes the modelled code returns, the 8- and 32-bit unsigned
 * integer ranges of the ESP32 target, and unsigned decimal text, which
 * several handlers print with `%u`, `%lu` or `String(n)`.
 */
module Common {

  datatype Option<T> = None | Some(value: T)

  /** `esp_err_t` values (esp_err.h). */
  type EspErr = int
  const ESP_OK: EspErr := 0
  const ESP_FAIL: EspErr := -1
  const ESP_ERR_NO_MEM: EspErr := 0x101

  /** `uint8_t` */
  type byte = x: int | 0 <= x < 0x100
  /** `uint32_t`; `unsigned long` and `size_t` are 32 bits wide on the ESP32 */
  type u32 = x: int | 0 <= x < 0x1_0000_0000

  const ULONG_MAX: u32 := 0xFFFF_FFFF

  /** Unsigned 32-bit subtraction `a - b`, which wraps around modulo 2^32. */
  function SubU32(a: u32, b: u32): (r: u32)
    ensures (b + r) % 0x1_0000_0000 == a
    ensures b <= a ==> r == a - b
    ensures a < b ==> r == a - b + 0x1_0000_0000
  {
    (a - b) % 0x1_0000_0000
  }

  /** Conversion of an arithmetic result to `unsigned long` (modulo 2^32). */
  function ToU32(x: int): (r: u32)
    ensures 0 <= x < 0x1_0000_0000 ==> r == x
  {
    x % 0x1_0000_0000
  }

  predicate IsDigit(c: char) { '0' <= c <= '9' }

  function DigitChar(d: nat): (c: char)
    requires d < 10
    ensures IsDigit(c) && (c as int) - ('0' as int) == d
  {
    (('0' as int) + d) as char
  }

  /** Decimal text of an unsigned number, as `%u` and `String(n)` print it. */
  function NatToString(n: nat): (s: string)
    ensures |s| >= 1
    ensures forall i :: 0 <= i < |s| ==> IsDigit(s[i])
    decreases n
  {
    if n < 10 then [DigitChar(n)] else NatToString(n / 10) + [DigitChar(n % 10)]
  }

  /** Decimal text of a signed number: a '-' sign before the magnitude. */
  function IntToString(x: int): (s: string)
    ensures |s| >= 1
  {
    if x < 0 then "-" + NatToString(-x) else NatToString(x)
  }

  /** Value of a string of decimal digits (the reference reading of NatToString). */
  function DigitsValue(s: string): nat
    requires forall i :: 0 <= i < |s| ==> IsDigit(s[i])
  {
    if s == [] then 0
    else
      assert IsDigit(s[|s| - 1]);
      10 * DigitsValue(s[..|s| - 1]) + ((s[|s| - 1] as int) - ('0' as int))
  }

  lemma {:induction false} NatToStringRoundTrip(n: nat)
    ensures DigitsValue(NatToString(n)) == n
    decreases n
  {
    var s := NatToString(n);
    if n >= 10 {
      NatToStringRoundTrip(n / 10);
      assert s[..|s| - 1] == NatToString(n / 10);
    }
  }

  /** Distinct numbers print as distinct text. */
  lemma NatToStringInjective(m: nat, n: nat)
    requires NatToString(m) == NatToString(n)
    ensures m == n
  {
    NatToStringRoundTrip(m);
    NatToStringRoundTrip(n);
  }

  function Pow10(k: nat): (p: nat)
    ensures p >= 1
  {
    if k == 0 then 1 else 10 * Pow10(k - 1)
  }

  /** A number below 10^k prints with at most k digits. */
  lemma {:induction false} NatToStringLength(n: nat, k: nat)
    requires 1 <= k && n < Pow10(k)
    ensures |NatToString(n)| <= k
    decreases k
  {
    if n >= 10 {
      NatToStringLength(n / 10, k - 1);
    }
  }
}
