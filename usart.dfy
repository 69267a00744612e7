/** The busy-wait half of `USART_Transmit`: polling the status register
    UCSR0A until its "data register empty" flag UDRE0 reads 1. */
module Usart {
  import PortBits

  /** Bit position of UDRE0 in UCSR0A (ATmega328P data sheet). */
  const Udre0: PortBits.Pin := 5

  /** One reading of UCSR0A lets the loop `while (!(UCSR0A & (1 << UDRE0)))`
      exit. */
  predicate Ready(ucsr0a: bv8) {
    PortBits.IsSet(ucsr0a, Udre0)
  }

  /** How many of the successive readings `polls` of UCSR0A have UDRE0 set. */
  function ReadyCount(polls: seq<bv8>): (n: nat)
    ensures n <= |polls|
    ensures n == 0 <==> forall j :: 0 <= j < |polls| ==> !Ready(polls[j])
  {
    if polls == [] then 0
    else (if Ready(polls[0]) then 1 else 0) + ReadyCount(polls[1..])
  }

  /** Skipping readings that are not ready leaves the count of ready ones as
      it was; skipping one more, a ready one, lowers it by one. */
  lemma {:induction false} ReadyCountAfter(polls: seq<bv8>, k: nat)
    requires k < |polls|
    requires forall j :: 0 <= j < k ==> !Ready(polls[j])
    ensures ReadyCount(polls[k..]) == ReadyCount(polls)
    ensures Ready(polls[k]) ==> ReadyCount(polls[k + 1..]) == ReadyCount(polls) - 1
  {
    assert polls[k..][1..] == polls[k + 1..];
    if k > 0 {
      assert polls[1..][k - 1..] == polls[k..];
      ReadyCountAfter(polls[1..], k - 1);
    }
  }

  /** The polling loop: under the condition that some reading eventually has
      UDRE0 set, it returns the index of the first such reading, having looked
      at no reading after it. */
  method AwaitReady(polls: seq<bv8>) returns (k: nat)
    requires ReadyCount(polls) > 0
    ensures k < |polls| && Ready(polls[k])
    ensures forall j :: 0 <= j < k ==> !Ready(polls[j])
  {
    k := 0;
    while !Ready(polls[k])
      invariant k < |polls|
      invariant forall j :: 0 <= j < k ==> !Ready(polls[j])
      invariant ReadyCount(polls[k..]) > 0
      decreases |polls| - k
    {
      assert polls[k..][1..] == polls[k + 1..];
      k := k + 1;
    }
  }
}
