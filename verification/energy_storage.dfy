/** `EnergyStorageItemStack`: the energy of an item stack, kept in a
    `StoredEnergyAttachment(stored, capacity, in, out)` data component on the
    stack, read with a default built from the item and replaced whole on every
    change. All arithmetic is Java `int` arithmetic. */
module EnergyStorage {
  import opened JavaInt
  import opened Wrappers

  /** The record `StoredEnergyAttachment`; `in` and `out` are the input and
      output rates. */
  datatype Attachment = Attachment(stored: i32, capacity: i32, input: i32, output: i32)

  /** The `EnergyItem` a stack holds: its capacity and rates. */
  datatype EnergyItem = EnergyItem(capacity: i32, input: i32, output: i32)

  /** A stack: its item and the energy component, absent until first saved. */
  datatype EnergyStack = EnergyStack(item: EnergyItem, energy: Option<Attachment>)

  /** The state the rest of the model keeps: stored energy within `[0, capacity]`. */
  predicate InRange(a: Attachment) {
    0 <= a.stored <= a.capacity
  }

  /** Capacity and both rates agree. */
  predicate SameLimits(a: Attachment, b: Attachment) {
    a.capacity == b.capacity && a.input == b.input && a.output == b.output
  }

  /** `new StoredEnergyAttachment(energyItem)`: nothing stored yet. */
  function Initial(item: EnergyItem): (a: Attachment)
    ensures a.stored == 0
    ensures a.capacity == item.capacity && a.input == item.input && a.output == item.output
    ensures item.capacity >= 0 ==> InRange(a)
  {
    Attachment(0, item.capacity, item.input, item.output)
  }

  /** `get()`: the component, or the item's initial attachment without one. */
  function Get(s: EnergyStack): (a: Attachment)
    ensures s.energy.Some? ==> a == s.energy.value
    ensures s.energy.None? ==> a.stored == 0 && a.capacity == s.item.capacity
                               && a.input == s.item.input && a.output == s.item.output
  {
    match s.energy
    case Some(a) => a
    case None => Initial(s.item)
  }

  /** `save(attachment)`: replaces the component. */
  function Save(s: EnergyStack, a: Attachment): (t: EnergyStack)
    ensures Get(t) == a && t.item == s.item
  {
    s.(energy := Some(a))
  }

  predicate CanReceive(s: EnergyStack) { Get(s).input > 0 }
  predicate CanExtract(s: EnergyStack) { Get(s).output > 0 }

  function MinInt(a: int, b: int): int { if a <= b then a else b }

  /** `receiveEnergy(maxReceive, simulate)`: the amount accepted and the stack
      afterwards. The amount is the free room, capped by the input rate and by
      the request; a real call adds it to the stored energy. */
  function Receive(s: EnergyStack, maxReceive: i32, simulate: bool): (r: (i32, EnergyStack))
    ensures !CanReceive(s) ==> r == (0, s)
    ensures simulate || r.0 == 0 ==> r.1 == s
    ensures r.1.item == s.item && SameLimits(Get(r.1), Get(s))
    ensures CanReceive(s) && InRange(Get(s)) ==>
              r.0 as int == MinInt(Get(s).capacity as int - Get(s).stored as int,
                                   MinInt(Get(s).input as int, maxReceive as int))
    ensures InRange(Get(s)) ==> Get(r.1).stored as int == Get(s).stored as int + (if simulate then 0 else r.0 as int)
    ensures InRange(Get(s)) && maxReceive >= 0 ==> 0 <= r.0 && InRange(Get(r.1))
  {
    if !CanReceive(s) then (0, s)
    else
      var a := Get(s);
      var received := Min(Sub(a.capacity, a.stored), Min(a.input, maxReceive));
      if !simulate && received != 0 then
        (received, Save(s, Attachment(Add(a.stored, received), a.capacity, a.input, a.output)))
      else (received, s)
  }

  /** `extractEnergy(maxExtract, simulate)`: the amount given out and the stack
      afterwards. The amount is the stored energy, capped by the output rate
      and by the request; a real call takes it off the stored energy. */
  function Extract(s: EnergyStack, maxExtract: i32, simulate: bool): (r: (i32, EnergyStack))
    ensures !CanExtract(s) ==> r == (0, s)
    ensures simulate || r.0 == 0 ==> r.1 == s
    ensures r.1.item == s.item && SameLimits(Get(r.1), Get(s))
    ensures CanExtract(s) ==>
              r.0 as int == MinInt(Get(s).stored as int, MinInt(Get(s).output as int, maxExtract as int))
    ensures InRange(Get(s)) && maxExtract >= 0 ==>
              0 <= r.0 && InRange(Get(r.1))
              && Get(r.1).stored as int == Get(s).stored as int - (if simulate then 0 else r.0 as int)
  {
    if !CanExtract(s) then (0, s)
    else
      var a := Get(s);
      var extracted := Min(a.stored, Min(a.output, maxExtract));
      if !simulate && extracted != 0 then
        (extracted, Save(s, Attachment(Sub(a.stored, extracted), a.capacity, a.input, a.output)))
      else (extracted, s)
  }

  /** A simulated call reports exactly what the real call then does. */
  lemma SimulateAgrees(s: EnergyStack, amount: i32)
    ensures Receive(s, amount, true).0 == Receive(s, amount, false).0
    ensures Extract(s, amount, true).0 == Extract(s, amount, false).0
    ensures Receive(s, amount, true).1 == s && Extract(s, amount, true).1 == s
  {
  }

  /** Energy received and then extracted at the same rate comes back out:
      with both rates positive and the amount within the free room, the
      stack ends where it started, apart from a component now being present. */
  lemma ReceiveThenExtract(s: EnergyStack, amount: i32)
    requires InRange(Get(s)) && CanReceive(s) && CanExtract(s)
    requires 0 <= amount <= Get(s).input && amount <= Get(s).output
    requires Get(s).stored as int + amount as int <= Get(s).capacity as int
    ensures Receive(s, amount, false).0 == amount
    ensures Extract(Receive(s, amount, false).1, amount, false).0 == amount
    ensures Get(Extract(Receive(s, amount, false).1, amount, false).1) == Get(s)
  {
    var t := Receive(s, amount, false).1;
    assert Get(t).stored as int == Get(s).stored as int + amount as int;
  }

  /** `putInternal(energy)` as written: `Math.min(stored + energy, capacity)`
      with the addition in `int`, saved unconditionally. */
  function PutInternal(s: EnergyStack, energy: i32): (t: EnergyStack)
    ensures t.item == s.item && SameLimits(Get(t), Get(s))
    ensures Get(t).stored <= Get(s).capacity
    ensures InInt(Get(s).stored as int + energy as int) ==>
              Get(t).stored as int == MinInt(Get(s).stored as int + energy as int, Get(s).capacity as int)
  {
    var a := Get(s);
    Save(s, Attachment(Min(Add(a.stored, energy), a.capacity), a.capacity, a.input, a.output))
  }

  /** A full stack given `Integer.MAX_VALUE` more: the sum wraps to a large
      negative number, which the `min` then keeps. */
  lemma PutInternalOverflows()
    ensures var s := EnergyStack(EnergyItem(1000, 100, 100), Some(Attachment(1000, 1000, 100, 100)));
            Get(PutInternal(s, INT_MAX as i32)).stored < 0
  {
    var s := EnergyStack(EnergyItem(1000, 100, 100), Some(Attachment(1000, 1000, 100, 100)));
    assert Add(1000, INT_MAX as i32) as int == 1000 + INT_MAX - TWO_32;
  }

  /** `putInternal` with the sum taken in `long` and saturated to the `int`
      range before the `min`, so that it never wraps. */
  function PutInternalClamped(s: EnergyStack, energy: i32): (t: EnergyStack)
    ensures t.item == s.item && SameLimits(Get(t), Get(s))
    ensures Get(t).stored <= Get(s).capacity
    ensures Get(s).stored as int + energy as int >= INT_MIN ==>
              Get(t).stored as int == MinInt(Get(s).stored as int + energy as int, Get(s).capacity as int)
    ensures InRange(Get(s)) && energy >= 0 ==> InRange(Get(t)) && Get(t).stored >= Get(s).stored
  {
    var a := Get(s);
    var sum := a.stored as int + energy as int;
    var clamped := if sum < INT_MIN then INT_MIN else MinInt(sum, a.capacity as int);
    Save(s, Attachment(clamped as i32, a.capacity, a.input, a.output))
  }

  /** The clamped form agrees with the written one whenever the written sum
      does not overflow. */
  lemma ClampedAgreesWithoutOverflow(s: EnergyStack, energy: i32)
    requires InInt(Get(s).stored as int + energy as int)
    ensures PutInternalClamped(s, energy) == PutInternal(s, energy)
  {
  }
}
