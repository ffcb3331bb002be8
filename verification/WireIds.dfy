/** Wire-level tool-call ids: the turn id, a colon, the raw id. */
module WireIds {
  function Digit(d: nat): char
    requires d < 10
  {
    ['0', '1', '2', '3', '4', '5', '6', '7', '8', '9'][d]
  }

  function Decimal(n: nat): string {
    if n < 10 then [Digit(n)] else Decimal(n / 10) + [Digit(n % 10)]
  }

  function AcpToolCallId(turnId: nat, toolCallId: string): string {
    Decimal(turnId) + ":" + toolCallId
  }

  lemma {:induction false} DecimalIsDigits(n: nat)
    ensures Decimal(n) != [] && ':' !in Decimal(n)
  {
    if n >= 10 {
      DecimalIsDigits(n / 10);
    }
  }

  lemma DigitInjective(a: nat, b: nat)
    requires a < 10 && b < 10 && Digit(a) == Digit(b)
    ensures a == b
  {
  }

  /** A number's last character is that of its last digit, and the rest is the number without it. */
  lemma DecimalSplits(n: nat)
    ensures Decimal(n) != [] && Decimal(n)[|Decimal(n)| - 1] == Digit(n % 10)
    ensures Decimal(n)[..|Decimal(n)| - 1] == if n < 10 then "" else Decimal(n / 10)
  {
  }

  lemma {:induction false} DecimalInjective(m: nat, n: nat)
    requires Decimal(m) == Decimal(n)
    ensures m == n
  {
    hide Decimal, Digit;
    DecimalSplits(m);
    DecimalSplits(n);
    DigitInjective(m % 10, n % 10);
    DecimalSplits(m / 10);
    DecimalSplits(n / 10);
    if m >= 10 && n >= 10 {
      DecimalInjective(m / 10, n / 10);
    }
  }

  /** Calls of different turns, or with different raw ids, never share a wire id. */
  lemma WireIdsAreDistinct(t: nat, id: string, u: nat, other: string)
    requires AcpToolCallId(t, id) == AcpToolCallId(u, other)
    ensures t == u && id == other
  {
    var w := AcpToolCallId(t, id);
    DecimalIsDigits(t);
    DecimalIsDigits(u);
    var a, b := |Decimal(t)|, |Decimal(u)|;
    assert w[a] == ':' && w[b] == ':';
    assert forall k :: 0 <= k < a ==> w[k] == Decimal(t)[k];
    assert forall k :: 0 <= k < b ==> w[k] == Decimal(u)[k];
    assert a == b;
    assert w[..a] == Decimal(t) && w[..b] == Decimal(u);
    DecimalInjective(t, u);
    assert w[a + 1..] == id && w[b + 1..] == other;
  }

  /** The number a string of digits stands for. */
  function ValueOf(digits: string): int {
    if digits == "" then 0
    else 10 * ValueOf(digits[..|digits| - 1]) + (digits[|digits| - 1] as int - '0' as int)
  }

  lemma {:induction false} DecimalReads(n: nat)
    ensures ValueOf(Decimal(n)) == n && Decimal(n) != []
    ensures forall c :: c in Decimal(n) ==> '0' <= c <= '9'
    ensures Decimal(n)[0] == '0' ==> n == 0
  {
    if n >= 10 {
      DecimalReads(n / 10);
      assert Decimal(n)[..|Decimal(n)| - 1] == Decimal(n / 10);
    }
  }

  /** Up to its first colon a wire id reads as the turn, without leading zeros; what follows is the raw id. */
  lemma WireIdReads(turnId: nat, toolCallId: string) returns (k: nat)
    ensures var w := AcpToolCallId(turnId, toolCallId);
      && 0 < k < |w| && w[k] == ':' && (forall c :: c in w[..k] ==> '0' <= c <= '9')
      && ValueOf(w[..k]) == turnId && (w[0] == '0' ==> turnId == 0)
      && w[k + 1..] == toolCallId
  {
    DecimalReads(turnId);
    k := |Decimal(turnId)|;
    assert AcpToolCallId(turnId, toolCallId)[..k] == Decimal(turnId);
  }
}
