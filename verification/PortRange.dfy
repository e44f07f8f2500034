/**
 * cmd/gt-pipeline/proxy_lease.go, portRange: a rotating allocator over the ports
 * base..max. The cursor is the position after the last port handed out.
 */
module PortRange {
  import opened Seqs

  datatype Ports = Ports(base: int, max: int, used: set<int>, cursor: int)
  {
    predicate Valid() {
      0 < base <= max && 0 <= cursor < Size() && forall p :: p in used ==> base <= p <= max
    }

    function Size(): int {
      max - base + 1
    }

    /** The port `i` places after the cursor. */
    function Slot(i: nat): int
      requires base <= max
    {
      base + (cursor + i) % Size()
    }
  }

  /** The offset of the first free port at or after `i`, in rotation order. */
  function FirstFree(p: Ports, i: nat): (r: Option<nat>)
    requires p.Valid() && i <= p.Size()
    ensures r.Some? ==> i <= r.value < p.Size() && p.Slot(r.value) !in p.used
    ensures r.Some? ==> forall j :: i <= j < r.value ==> p.Slot(j) in p.used
    ensures r.None? ==> forall j :: i <= j < p.Size() ==> p.Slot(j) in p.used
    decreases p.Size() - i
  {
    if i == p.Size() then None
    else if p.Slot(i) !in p.used then Some(i)
    else FirstFree(p, i + 1)
  }

  function Allocate(p: Ports): (r: (Option<int>, Ports))
    requires p.Valid()
    ensures r.1.Valid()
  {
    var i := FirstFree(p, 0);
    if i.None? then
      (None, p)
    else
      var port := p.Slot(i.value);
      (Some(port), p.(used := p.used + {port}, cursor := (p.cursor + i.value + 1) % p.Size()))
  }

  function Reserve(p: Ports, port: int): (r: (bool, Ports))
    requires p.Valid()
    ensures r.1.Valid()
  {
    if port < p.base || port > p.max || port in p.used then
      (false, p)
    else
      (true, p.(used := p.used + {port}))
  }

  function Release(p: Ports, port: int): (r: Ports)
    requires p.Valid()
    ensures r.Valid()
  {
    p.(used := p.used - {port})
  }

  predicate Full(p: Ports) {
    forall port :: p.base <= port <= p.max ==> port in p.used
  }

  /** Every port of the range is some slot: rotation reaches all of them. */
  lemma SlotOf(p: Ports, port: int) returns (i: nat)
    requires p.Valid() && p.base <= port <= p.max
    ensures i < p.Size() && p.Slot(i) == port
  {
    var off := port - p.base;
    i := if off >= p.cursor then off - p.cursor else off - p.cursor + p.Size();
    SmallMod(p.cursor + i, p.Size());
  }

  /**
   * Allocation fails exactly on a full range. Otherwise it marks one port used, a free one,
   * and every port between the cursor and it, in rotation order, was taken.
   */
  lemma AllocateTakesNextFree(p: Ports)
    requires p.Valid()
    ensures var (port, p') := Allocate(p);
            && (port.None? <==> Full(p))
            && (port.None? ==> p' == p)
            && (port.Some? ==>
                  && p.base <= port.value <= p.max && port.value !in p.used
                  && p'.used == p.used + {port.value}
                  && (forall i: nat :: i < p.Size() && p.Slot(i) == port.value ==>
                        (forall j: nat :: j < i ==> p.Slot(j) in p.used) && p'.cursor == (p.cursor + i + 1) % p.Size()))
  {
    var i := FirstFree(p, 0);
    if i.None? {
      forall port | p.base <= port <= p.max
        ensures port in p.used
      {
        var k := SlotOf(p, port);
      }
    } else {
      forall k: nat | k < p.Size() && p.Slot(k) == p.Slot(i.value)
        ensures k == i.value
      {
        SlotInjective(p, k, i.value);
      }
    }
  }

  lemma SlotInjective(p: Ports, i: nat, j: nat)
    requires p.Valid() && i < p.Size() && j < p.Size() && p.Slot(i) == p.Slot(j)
    ensures i == j
  {
    var n := p.Size();
    SmallMod(p.cursor + i, n);
    SmallMod(p.cursor + j, n);
  }

  lemma SmallMod(x: int, n: int)
    requires 0 < n && 0 <= x < 2 * n
    ensures x % n == if x < n then x else x - n
  {
    if x >= n {
      assert x == n + (x - n);
      assert (n + (x - n)) % n == (x - n) % n;
    }
  }

  class PortRange {
    const base: int
    const max: int
    var used: set<int>
    var cursor: int

    function Value(): Ports
      reads this
    {
      Ports(base, max, used, cursor)
    }

    constructor (lo: int, hi: int)
      requires 0 < lo <= hi
      ensures Value() == Ports(lo, hi, {}, 0) && Value().Valid()
    {
      base, max, used, cursor := lo, hi, {}, 0;
    }

    method TakeNext() returns (port: Option<int>)
      requires Value().Valid()
      modifies this
      ensures (port, Value()) == Allocate(old(Value()))
    {
      var n := max - base + 1;
      for i := 0 to n
        invariant Value() == old(Value())
        invariant FirstFree(Value(), i) == FirstFree(Value(), 0)
      {
        var candidate := base + (cursor + i) % n;
        assert candidate == Value().Slot(i);
        if candidate !in used {
          assert FirstFree(Value(), i) == Some(i);
          used := used + {candidate};
          cursor := (cursor + i + 1) % n;
          return Some(candidate);
        }
      }
      return None;
    }

    method TakeThis(port: int) returns (ok: bool)
      requires Value().Valid()
      modifies this
      ensures (ok, Value()) == Reserve(old(Value()), port)
    {
      if port < base || port > max || port in used {
        return false;
      }
      used := used + {port};
      return true;
    }

    method GiveBack(port: int)
      requires Value().Valid()
      modifies this
      ensures Value() == Release(old(Value()), port)
    {
      used := used - {port};
    }
  }
}
