/** The firmware's run-time state and its interrupt handler: the global
    `ADC_SPL_COUNT`, the serial data register UDR0 (as the sequence of bytes
    written to it) and the output register PORTB. */
module Acquisition {
  import PortBits
  import Usart
  import Framing

  /** PORTB bit toggled around each handler run for oscilloscope tracing. */
  const TracePin: PortBits.Pin := 4

  class AdcController {
    /** `volatile uint8_t ADC_SPL_COUNT`. */
    var count: Framing.Count
    /** Every byte written to UDR0, oldest first. */
    var output: seq<bv8>
    /** The PORTB register. */
    var portB: bv8

    /** The counter stays inside one frame. */
    ghost predicate Valid()
      reads this
    {
      Framing.Valid(State())
    }

    /** The abstract framing state these fields hold. */
    function State(): Framing.State
      reads this
    {
      Framing.State(count, output)
    }

    /** Power-on: `ADC_SPL_COUNT = 0`, nothing sent, PORTB at its reset
        value 0. */
    constructor ()
      ensures Valid()
      ensures State() == Framing.Init && portB == 0
    {
      count := 0;
      output := [];
      portB := 0;
    }

    /** `USART_Transmit(data)`: wait until a reading of UCSR0A (from the
        successive readings `polls`) shows UDRE0 set, then write `data` to UDR0
        once. Returns the index of the reading that ended the wait. */
    method Transmit(data: bv8, polls: seq<bv8>) returns (k: nat)
      requires Usart.ReadyCount(polls) > 0
      modifies this`output
      ensures output == old(output) + [data]
      ensures k < |polls| && Usart.Ready(polls[k])
      ensures forall j :: 0 <= j < k ==> !Usart.Ready(polls[j])
      ensures Usart.ReadyCount(polls[k + 1..]) == Usart.ReadyCount(polls) - 1
    {
      k := Usart.AwaitReady(polls);
      Usart.ReadyCountAfter(polls, k);
      output := output + [data];
    }

    /** `ISR(ADC_vect)` with `ADCH == sample`; `polls` are the readings of
        UCSR0A the transmissions of this invocation see. The framing state
        advances by one `Framing.Step`, and the trace pin ends low with the
        rest of PORTB untouched. */
    method HandleAdc(sample: bv8, polls: seq<bv8>)
      requires Usart.ReadyCount(polls) >= Framing.BytesSent(count)
      modifies this
      ensures State() == Framing.Step(old(State()), sample)
      ensures old(Valid()) ==> Valid()
      ensures portB == PortBits.Clr(old(portB), TracePin)
      ensures !PortBits.IsSet(portB, TracePin)
      ensures forall j: PortBits.Pin :: j != TracePin ==> PortBits.IsSet(portB, j) == PortBits.IsSet(old(portB), j)
    {
      count := Framing.Increment(count);
      portB := PortBits.Set(portB, TracePin);
      var k := Transmit(sample, polls);
      if count >= Framing.Threshold {
        var _ := Transmit(Framing.Terminator, polls[k + 1..]);
        count := 0;
      }
      portB := PortBits.Clr(portB, TracePin);
      PortBits.PulseLeavesPinLow(old(portB), TracePin);
    }
  }

  /** Power-on followed by one `ISR(ADC_vect)` per sample, in order;
      `polls[i]` are the UCSR0A readings seen during invocation i, enough for
      the bytes that invocation sends. The controller ends with the counter at
      N mod 128, the reference framing of the N samples on the line, and
      PORTB at 0. */
  method Acquire(samples: seq<bv8>, polls: seq<seq<bv8>>) returns (c: AdcController)
    requires |polls| == |samples|
    requires forall i :: 0 <= i < |samples| ==> Usart.ReadyCount(polls[i]) >= Framing.BytesSent(i % 128)
    ensures c.Valid()
    ensures c.count == |samples| % 128
    ensures c.output == Framing.Framed(samples)
    ensures c.portB == 0
  {
    c := new AdcController();
    var i := 0;
    while i < |samples|
      invariant 0 <= i <= |samples|
      invariant c.State() == Framing.Run(Framing.Init, samples[..i])
      invariant c.portB == 0
      modifies c
    {
      Framing.RunFromInit(samples[..i]);
      Framing.RunOneMore(Framing.Init, samples, i);
      assert Usart.ReadyCount(polls[i]) >= Framing.BytesSent(i % 128);
      c.HandleAdc(samples[i], polls[i]);
      i := i + 1;
    }
    assert samples[..i] == samples;
    Framing.RunFromInit(samples);
  }
}
