/**
The occupancy a channel endpoint or an observer reports (used_bytes and available_bytes in
include/xproc/ipc/channel.hpp and include/xproc/ipc/observer.hpp). The two positions are loaded
one after the other while the producer and the consumer go on working, so the two values come
from different moments. Positions count bytes since creation and are stored in 64 bits.
*/
module Occupancy {
  import opened Common

  // The ring's true positions, without wrap-around.
  datatype Ring = Ring(write: nat, read: nat)

  // The producer reserves room for n bytes, or the consumer releases n bytes.
  datatype Step = Produce(n: nat) | Consume(n: nat)

  ghost predicate RingOk(r: Ring, capacity: nat) { r.read <= r.write <= r.read + capacity }

  function Occupied(r: Ring): int { r.write - r.read }

  // What the ring allows: the producer never overruns the consumer, nor the consumer the producer.
  predicate Enabled(r: Ring, capacity: nat, a: Step) {
    match a
    case Produce(n) => r.write + n <= r.read + capacity
    case Consume(n) => r.read + n <= r.write
  }

  function Apply(r: Ring, a: Step): Ring {
    match a
    case Produce(n) => r.(write := r.write + n)
    case Consume(n) => r.(read := r.read + n)
  }

  predicate CanRun(r: Ring, capacity: nat, run: seq<Step>)
    decreases |run|
  {
    run == [] || (Enabled(r, capacity, run[0]) && CanRun(Apply(r, run[0]), capacity, run[1..]))
  }

  function After(r: Ring, run: seq<Step>): Ring
    decreases |run|
  {
    if run == [] then r else After(Apply(r, run[0]), run[1..])
  }

  // used_bytes, from the two loaded values.
  function Used(write: nat, read: nat, capacity: nat): nat {
    var used := if write >= read then write - read else 0;
    if used > capacity then capacity else used
  }

  // used_bytes when `between` happens between the loads.
  function Reported(r: Ring, between: seq<Step>, capacity: nat): nat {
    Used(r.write % Wrap64, After(r, between).read % Wrap64, capacity)
  }

  lemma {:induction false} RunKeeps(r: Ring, capacity: nat, run: seq<Step>)
    requires RingOk(r, capacity) && CanRun(r, capacity, run)
    ensures RingOk(After(r, run), capacity)
    ensures r.write <= After(r, run).write && r.read <= After(r, run).read
    decreases |run|
  {
    if run != [] {
      RunKeeps(Apply(r, run[0]), capacity, run[1..]);
    }
  }

  lemma NoWrap(n: nat)
    requires n < Wrap64
    ensures n % Wrap64 == n
  {}

  // Whatever happens between the loads, the bytes reported never exceed the capacity, so that
  // subtracting them from it cannot underflow; and as long as the positions have not wrapped they
  // never exceed what the ring held at either load, and are exact if nothing happened.
  lemma ReportIsBounded(r: Ring, capacity: nat, between: seq<Step>)
    requires RingOk(r, capacity) && CanRun(r, capacity, between)
    ensures 0 <= Reported(r, between, capacity) <= capacity
    ensures After(r, between).write < Wrap64 ==>
              && Reported(r, between, capacity) <= Occupied(r)
              && Reported(r, between, capacity) <= Occupied(After(r, between))
              && (between == [] ==> Reported(r, between, capacity) == Occupied(r))
  {
    RunKeeps(r, capacity, between);
    if After(r, between).write < Wrap64 {
      NoWrap(r.write);
      NoWrap(After(r, between).read);
    }
  }

  // The bytes missing from the report are those the consumer released between the loads, as far
  // as they had been written at the first.
  lemma ReportLagsByConsumption(r: Ring, capacity: nat, between: seq<Step>)
    requires RingOk(r, capacity) && CanRun(r, capacity, between) && After(r, between).write < Wrap64
    ensures var released := After(r, between).read - r.read;
            Reported(r, between, capacity) == if released <= Occupied(r) then Occupied(r) - released else 0
  {
    RunKeeps(r, capacity, between);
    NoWrap(r.write);
    NoWrap(After(r, between).read);
  }

  // With wrap-around: the report stays within the bytes that were written by the first load and
  // not yet released at the second exactly unless the read position has entered a later lap of
  // 2 to the 64 and looks smaller than the write position loaded before it.
  lemma WrappedReport(r: Ring, capacity: nat, between: seq<Step>)
    requires RingOk(r, capacity) && CanRun(r, capacity, between) && capacity < Wrap64
    ensures var read := After(r, between).read;
            (Reported(r, between, capacity) <= if read <= r.write then r.write - read else 0) <==>
            read / Wrap64 <= r.write / Wrap64 || r.write % Wrap64 <= read % Wrap64 || capacity == 0
  {
    RunKeeps(r, capacity, between);
    Laps(r.write, After(r, between).read, capacity);
  }

  lemma Laps(write: nat, read: nat, capacity: nat)
    requires capacity < Wrap64 && write <= read + capacity
    ensures read / Wrap64 <= write / Wrap64 ==>
              Used(write % Wrap64, read % Wrap64, capacity) <= if read <= write then write - read else 0
    ensures read / Wrap64 > write / Wrap64 ==> write < read
  {
    var w, r := write / Wrap64, read / Wrap64;
    assert write == w * Wrap64 + write % Wrap64 && read == r * Wrap64 + read % Wrap64;
    if r < w {
      assert (w - r) * Wrap64 >= Wrap64;
    } else if w < r {
      assert (r - w) * Wrap64 >= Wrap64;
    }
  }

  // Once the write position has passed 2 to the 64, a read position that wraps between the loads
  // makes an empty ring look full.
  lemma WrappedReportCanExceed(capacity: nat)
    requires 0 < capacity < Wrap64
    ensures var r := Ring(Wrap64 - 1, Wrap64 - 1);
            var between := [Produce(1), Consume(1)];
            && RingOk(r, capacity) && CanRun(r, capacity, between)
            && Reported(r, between, capacity) == capacity && Occupied(After(r, between)) == 0
  {
    var r := Ring(Wrap64 - 1, Wrap64 - 1);
    var between := [Produce(1), Consume(1)];
    assert between[1..] == [Consume(1)];
    assert After(r, between) == After(Ring(Wrap64, Wrap64 - 1), [Consume(1)]) == Ring(Wrap64, Wrap64);
  }
}
