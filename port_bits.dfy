/** The port output macros CLR, SET and TOGGLE of the firmware, as functions on
    an 8-bit I/O register. */
module PortBits {

  /** A bit position inside an 8-bit port register. */
  type Pin = p: nat | p < 8

  /** The single-bit mask `1 << pin`, truncated to the register's width. */
  function Mask(pin: Pin): bv8 {
    1 << pin
  }

  /** Whether bit `pin` of `x` is 1. */
  predicate IsSet(x: bv8, pin: Pin) {
    x & Mask(pin) != 0
  }

  /** `SET(port, pin)`: `port |= (1 << pin)`. */
  function Set(port: bv8, pin: Pin): (r: bv8)
    ensures IsSet(r, pin)
    ensures forall j: Pin :: j != pin ==> IsSet(r, j) == IsSet(port, j)
  {
    port | Mask(pin)
  }

  /** `CLR(port, pin)`: `port &= ~(1 << pin)`. */
  function Clr(port: bv8, pin: Pin): (r: bv8)
    ensures !IsSet(r, pin)
    ensures forall j: Pin :: j != pin ==> IsSet(r, j) == IsSet(port, j)
  {
    port & !Mask(pin)
  }

  /** `TOGGLE(port, pin)`: `port ^= (1 << pin)`. */
  function Toggle(port: bv8, pin: Pin): (r: bv8)
    ensures IsSet(r, pin) == !IsSet(port, pin)
    ensures forall j: Pin :: j != pin ==> IsSet(r, j) == IsSet(port, j)
  {
    port ^ Mask(pin)
  }

  /** Two registers that agree on every bit are equal, so the bitwise
      contracts above determine each macro's result completely. */
  lemma BitsDetermineValue(x: bv8, y: bv8)
    requires forall j: Pin :: IsSet(x, j) == IsSet(y, j)
    ensures x == y
  {
    assert IsSet(x, 0) == IsSet(y, 0) && IsSet(x, 1) == IsSet(y, 1);
    assert IsSet(x, 2) == IsSet(y, 2) && IsSet(x, 3) == IsSet(y, 3);
    assert IsSet(x, 4) == IsSet(y, 4) && IsSet(x, 5) == IsSet(y, 5);
    assert IsSet(x, 6) == IsSet(y, 6) && IsSet(x, 7) == IsSet(y, 7);
  }

  /** Toggling the same pin twice restores the register. */
  lemma ToggleTwice(port: bv8, pin: Pin)
    ensures Toggle(Toggle(port, pin), pin) == port
  {
    var t := Toggle(Toggle(port, pin), pin);
    forall j: Pin ensures IsSet(t, j) == IsSet(port, j) {
    }
    BitsDetermineValue(t, port);
  }

  /** A SET followed by a CLR of the same pin (the trace pulse) leaves that pin
      low and every other pin as it was: the same register CLR alone gives. */
  lemma PulseLeavesPinLow(port: bv8, pin: Pin)
    ensures Clr(Set(port, pin), pin) == Clr(port, pin)
    ensures !IsSet(Clr(Set(port, pin), pin), pin)
    ensures forall j: Pin :: j != pin ==> IsSet(Clr(Set(port, pin), pin), j) == IsSet(port, j)
  {
    var a, b := Clr(Set(port, pin), pin), Clr(port, pin);
    forall j: Pin ensures IsSet(a, j) == IsSet(b, j) {
    }
    BitsDetermineValue(a, b);
  }
}
