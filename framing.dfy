/** What `ISR(ADC_vect)` does to the frame counter `ADC_SPL_COUNT` and to the
    serial line, as functions on values, and what that means after any number
    of conversions. */
module Framing {

  /** A value of the 8-bit counter. */
  type Count = c: nat | c < 256

  /** `ADC_SPL_TH`: samples per frame. */
  const Threshold: nat := 128
  /** The terminator `'\n'` sent after each frame. */
  const Terminator: bv8 := 0x0A

  /** The handler's view of the system: the counter `ADC_SPL_COUNT`
      (`uint8_t`) and every byte written to UDR0 so far. */
  datatype State = State(count: Count, output: seq<bv8>)

  /** Power-on state: `ADC_SPL_COUNT = 0`, nothing sent. */
  const Init: State := State(0, [])

  /** The counter stays inside one frame. */
  predicate Valid(s: State) {
    s.count < Threshold
  }

  /** `ADC_SPL_COUNT++` on an 8-bit counter wraps at 256. */
  function Increment(count: Count): Count {
    (count + 1) % 256
  }

  /** Whether the invocation that starts at `count` closes a frame. */
  predicate TerminatorDue(count: Count) {
    Increment(count) >= Threshold
  }

  /** Number of bytes one invocation transmits. */
  function BytesSent(count: Count): nat {
    if TerminatorDue(count) then 2 else 1
  }

  /** One invocation of the conversion-complete handler with sample `ADCH`:
      increment, send the sample, and when the threshold is reached send the
      terminator and reset the counter. */
  function Step(s: State, sample: bv8): (r: State)
    ensures |r.output| == |s.output| + BytesSent(s.count)
    ensures r.output[..|s.output|] == s.output && r.output[|s.output|] == sample
    ensures TerminatorDue(s.count) ==> r.output[|s.output| + 1] == Terminator
    ensures Valid(s) ==> Valid(r)
    ensures Valid(s) ==> r.count == (s.count + 1) % 128
    ensures Valid(s) ==> (r.count == 0 <==> |r.output| == |s.output| + 2)
    ensures Valid(s) ==> (TerminatorDue(s.count) <==> s.count == 127)
  {
    var c := Increment(s.count);
    if c >= Threshold then State(0, s.output + [sample, Terminator])
    else State(c, s.output + [sample])
  }

  /** The state after the handler has run once per sample, in order. */
  function Run(s: State, samples: seq<bv8>): (r: State)
    ensures Valid(s) ==> Valid(r)
    ensures |s.output| + |samples| <= |r.output| <= |s.output| + 2 * |samples|
    decreases |samples|
  {
    if samples == [] then s
    else Step(Run(s, samples[..|samples| - 1]), samples[|samples| - 1])
  }

  /** Running one more sample of a sequence is one more step. */
  lemma RunOneMore(s: State, samples: seq<bv8>, i: nat)
    requires i < |samples|
    ensures Run(s, samples[..i + 1]) == Step(Run(s, samples[..i]), samples[i])
  {
    assert samples[..i + 1][..i] == samples[..i];
  }

  /** Reference framing: the samples in blocks of 128, each complete block
      followed by one terminator. */
  function Framed(samples: seq<bv8>): seq<bv8>
    decreases |samples|
  {
    if |samples| < 128 then samples
    else samples[..128] + [Terminator] + Framed(samples[128..])
  }

  /** Appending a sample to the reference framing appends it to the output,
      followed by a terminator exactly when it is a 128th sample. */
  lemma {:induction false} FramedSnoc(samples: seq<bv8>, x: bv8)
    ensures Framed(samples + [x]) ==
      Framed(samples) + [x] + (if (|samples| + 1) % 128 == 0 then [Terminator] else [])
    decreases |samples|
  {
    var t := samples + [x];
    if |samples| + 1 < 128 {
      assert Framed(t) == t && Framed(samples) == samples;
    } else if |samples| + 1 == 128 {
      assert t[..128] == t && t[128..] == [];
      assert Framed(t) == t + [Terminator] && Framed(samples) == samples;
    } else {
      var rest := samples[128..];
      assert t[..128] == samples[..128];
      assert t[128..] == rest + [x];
      assert Framed(t) == samples[..128] + [Terminator] + Framed(rest + [x]);
      assert Framed(samples) == samples[..128] + [Terminator] + Framed(rest);
      FramedSnoc(rest, x);
      assert (|rest| + 1) % 128 == (|samples| + 1) % 128;
    }
  }

  /** After N invocations from power-on, the counter is N mod 128 and the line
      carries exactly the reference framing of the N samples. */
  lemma {:induction false} RunFromInit(samples: seq<bv8>)
    ensures Run(Init, samples).count == |samples| % 128
    ensures Run(Init, samples).output == Framed(samples)
    decreases |samples|
  {
    if samples != [] {
      var n := |samples| - 1;
      var prefix, x := samples[..n], samples[n];
      assert samples == prefix + [x];
      RunFromInit(prefix);
      FramedSnoc(prefix, x);
      StepAfter(n, Run(Init, prefix), x);
    }
  }

  /** One step from a state whose counter is n mod 128: the counter becomes
      (n + 1) mod 128, and a terminator follows the sample exactly when that
      is 0. */
  lemma StepAfter(n: nat, before: State, x: bv8)
    requires before.count == n % 128
    ensures Step(before, x).count == (n + 1) % 128
    ensures Step(before, x).output ==
      before.output + [x] + (if (n + 1) % 128 == 0 then [Terminator] else [])
  {
    ModSucc(n);
  }

  /** (n mod 128 + 1) mod 128 is (n + 1) mod 128, which is 0 exactly when
      n mod 128 is 127. */
  lemma ModSucc(n: nat)
    ensures (n % 128 + 1) % 128 == (n + 1) % 128
    ensures n % 128 == 127 <==> (n + 1) % 128 == 0
  {
    var q, m := n / 128, n % 128;
    assert n + 1 == 128 * q + (m + 1);
    if m + 1 == 128 {
      assert n + 1 == 128 * (q + 1);
    }
  }

  /** The reference framing holds N + N/128 bytes: one terminator per
      complete frame. */
  lemma {:induction false} FramedLength(samples: seq<bv8>)
    ensures |Framed(samples)| == |samples| + |samples| / 128
    decreases |samples|
  {
    if |samples| >= 128 {
      FramedLength(samples[128..]);
    }
  }

  /** Every byte of the reference framing, by position alone: position p is a
      terminator when p mod 129 is 128, and otherwise the sample at index
      p - p/129, whatever that sample's value (a sample equal to the terminator
      included). */
  lemma {:induction false} FramedAt(samples: seq<bv8>, p: nat)
    requires p < |Framed(samples)|
    ensures p % 129 == 128 ==> Framed(samples)[p] == Terminator
    ensures p % 129 != 128 ==> p - p / 129 < |samples| && Framed(samples)[p] == samples[p - p / 129]
    decreases |samples|
  {
    if |samples| >= 128 && p > 128 {
      var rest := samples[128..];
      var p' := p - 129;
      assert Framed(samples)[p] == Framed(rest)[p'];
      FramedAt(rest, p');
      assert p' % 129 == p % 129 && p' / 129 == p / 129 - 1;
    }
  }

  /** Framing depends on the number of samples only: runs over equally long
      sample sequences end with the same counter and the same output length. */
  lemma {:induction false} CountIgnoresContent(s: State, a: seq<bv8>, b: seq<bv8>)
    requires |a| == |b|
    ensures Run(s, a).count == Run(s, b).count
    ensures |Run(s, a).output| == |Run(s, b).output|
    decreases |a|
  {
    if a != [] {
      CountIgnoresContent(s, a[..|a| - 1], b[..|b| - 1]);
    }
  }

  /** 128 conversions of the same value: 128 copies of it, then one
      terminator, and the counter back at 0. */
  lemma OneFullFrame(v: bv8)
    ensures Run(Init, seq(128, _ => v)).output == seq(128, _ => v) + [Terminator]
    ensures Run(Init, seq(128, _ => v)).count == 0
  {
    var samples := seq(128, _ => v);
    RunFromInit(samples);
    assert samples[..128] == samples && samples[128..] == [];
  }

  /** 130 conversions (for example the values 1 to 130): the first 128, a
      terminator, the last two, and the counter at 2 with no second
      terminator. */
  lemma FrameAndTwoMore(samples: seq<bv8>)
    requires |samples| == 130
    ensures Run(Init, samples).output == samples[..128] + [Terminator] + samples[128..]
    ensures Run(Init, samples).count == 2
  {
    var rest := samples[128..];
    assert Framed(rest) == rest;
    assert Framed(samples) == samples[..128] + [Terminator] + rest;
    RunFromInit(samples);
  }
}
