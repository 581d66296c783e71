/** A value that may be missing. */
module Options {
  datatype Option<T> = None | Some(value: T)
}

/** Fallible actions are numbered as they happen; an oracle says which of them fail. */
module Oracles {
  type Oracle = nat -> bool

  /** One of the actions from number `from` up to number `to` failed. */
  ghost predicate FaultIn(faults: Oracle, from: nat, to: nat) {
    exists i :: from <= i < to && faults(i)
  }

  lemma FaultsJoin(faults: Oracle, from: nat, middle: nat, to: nat)
    requires from <= middle <= to
    ensures FaultIn(faults, from, to) <==> FaultIn(faults, from, middle) || FaultIn(faults, middle, to)
  {
  }

  lemma NoFaultYet(faults: Oracle, at: nat)
    ensures !FaultIn(faults, at, at)
  {
  }

  lemma OneFault(faults: Oracle, at: nat)
    ensures FaultIn(faults, at, at + 1) <==> faults(at)
  {
  }

  ghost predicate TwoFaultsIn(faults: Oracle, from: nat, to: nat) {
    exists i, j :: from <= i < j < to && faults(i) && faults(j)
  }

  lemma FaultAfterFault(faults: Oracle, from: nat, start: nat, middle: nat, to: nat)
    requires from <= start && middle <= to
    ensures FaultIn(faults, start, middle) && middle < to && faults(middle) ==> TwoFaultsIn(faults, from, to)
    ensures TwoFaultsIn(faults, start, middle) ==> TwoFaultsIn(faults, from, to)
  {
    if FaultIn(faults, start, middle) && middle < to && faults(middle) {
      var i :| start <= i < middle && faults(i);
      assert from <= i < middle < to;
    }
  }
}

/** Unsigned 64-bit words, with Go's wrap-around written out. */
module Words {
  const U64_LIMIT: int := 0x1_0000_0000_0000_0000
  const U64_MAX: int := U64_LIMIT - 1

  type u64 = x: int | 0 <= x < U64_LIMIT

  function AddWrap(a: u64, b: u64): u64 {
    if a + b < U64_LIMIT then a + b else a + b - U64_LIMIT
  }

  function SubWrap(a: u64, b: u64): u64 {
    if a >= b then a - b else a - b + U64_LIMIT
  }

  function MulWrap(a: u64, b: u64): u64 {
    a * b % U64_LIMIT
  }

  function Min(a: int, b: int): int { if a <= b then a else b }

  function Max(a: int, b: int): int { if a >= b then a else b }
}
