/** The baud-rate divisor `BRC` and its split across the two 8-bit registers
    UBRR0H and UBRR0L. */
module BaudRate {

  /** `F_CPU`: the CPU clock in Hz. */
  const CpuHz: nat := 16000000
  /** `BAUD`: the requested serial rate in bit/s. */
  const Baud: nat := 1000000

  /** `(F_CPU/16/BAUD) - 1` in C integer arithmetic; every operand is
      non-negative, so C's truncating division agrees with Dafny's. */
  function Divisor(cpuHz: nat, baud: nat): (r: int)
    requires baud > 0
    ensures r + 1 == cpuHz / (16 * baud)
    ensures r >= -1
  {
    NestedDivision(cpuHz, 16, baud);
    cpuHz / 16 / baud - 1
  }

  /** The value held by one 8-bit register. */
  type Byte = b: nat | b < 256

  /** `BRC`, the divisor configured by the firmware. */
  const Brc: int := Divisor(CpuHz, Baud)

  /** `UBRR0H = (BRC >> 8)`: an arithmetic right shift (a floor division by
      256) truncated to the 8-bit register. */
  function High(d: int): Byte {
    (d / 256) % 256
  }

  /** `UBRR0L = (BRC)`: the divisor truncated to the 8-bit register. */
  function Low(d: int): Byte {
    d % 256
  }

  /** The 16-bit value the register pair UBRR0H:UBRR0L holds. */
  function Combine(high: Byte, low: Byte): nat {
    high * 256 + low
  }

  /** Division is unique: a quotient and remainder in range are the ones `/`
      and `%` give. */
  lemma DivisionUnique(a: int, b: int, q: int, rem: int)
    requires b > 0 && a == b * q + rem && 0 <= rem < b
    ensures a / b == q && a % b == rem
  {
    var q0, r0 := a / b, a % b;
    assert a == b * q0 + r0 && 0 <= r0 < b;
    var k := q - q0;
    assert b * k == r0 - rem by {
      assert b * q - b * q0 == r0 - rem;
      assert b * q - b * q0 == b * k;
    }
    if k > 0 {
      MultipleAtLeast(b, k);
    } else if k < 0 {
      assert b * (-k) == -(b * k);
      MultipleAtLeast(b, -k);
    }
  }

  /** A positive multiple of `b` is at least `b`. */
  lemma MultipleAtLeast(b: nat, k: nat)
    requires k >= 1
    ensures b * k >= b
  {
  }

  /** Dividing by `b` and then by `c` is dividing by `b * c`. */
  lemma NestedDivision(a: nat, b: nat, c: nat)
    requires b > 0 && c > 0
    ensures a / b / c == a / (b * c)
  {
    var q1, r1 := a / b, a % b;
    var q2, r2 := q1 / c, q1 % c;
    assert a == b * q1 + r1;
    assert q1 == c * q2 + r2;
    assert b * q1 == (b * c) * q2 + b * r2 by {
      Distribute(b, c * q2, r2);
      assert b * (c * q2) == (b * c) * q2;
    }
    assert b * r2 + r1 < b * c by {
      assert r2 <= c - 1;
      MulLeftMono(b, r2, c - 1);
      Distribute(b, c - 1, 1);
    }
    DivisionUnique(a, b * c, q2, b * r2 + r1);
  }

  /** Multiplication distributes over addition. */
  lemma Distribute(b: int, x: int, y: int)
    ensures b * (x + y) == b * x + b * y
  {
  }

  /** Multiplying by a non-negative factor preserves order. */
  lemma MulLeftMono(b: nat, x: nat, y: nat)
    requires x <= y
    ensures b * x <= b * y
  {
  }

  /** Writing the high and the low byte and reading the pair back gives the
      divisor modulo 2^16; a divisor in [0, 65536) survives unchanged. */
  lemma SplitRoundTrip(d: int)
    ensures Combine(High(d), Low(d)) == d % 65536
    ensures 0 <= d < 65536 ==> Combine(High(d), Low(d)) == d
  {
    var q, l := d / 256, d % 256;
    var h, t := q % 256, q / 256;
    assert d == 256 * q + l;
    assert q == 256 * t + h;
    assert d == 65536 * t + (256 * h + l) by {
      assert 256 * q == 256 * (256 * t + h) == 65536 * t + 256 * h;
    }
    DivisionUnique(d, 65536, t, 256 * h + l);
  }

  /** With a 16 MHz clock and 1 Mbit/s, BRC is 0 and both register bytes are 0. */
  lemma BrcIsZero()
    ensures Brc == 0
    ensures High(Brc) == 0 && Low(Brc) == 0
    ensures Combine(High(Brc), Low(Brc)) == Brc
  {
    assert CpuHz / 16 == 1000000;
    assert 1000000 / Baud == 1;
    assert Brc == 0;
  }
}
