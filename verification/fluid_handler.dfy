/** The fluid handlers a sided tank moves fluid between, taken to be plain
    single-slot tanks: the component's own tank and every neighbour's. Empty
    stacks of any fluid are treated as one and the same. */
module FluidHandler {
  import opened GameTypes

  /** A tank: its contents and its capacity. */
  datatype Tank = Tank(stack: FluidStack, capacity: int)

  /** The states the model keeps: the amount within `[0, capacity]`, and the
      empty fluid never with an amount. */
  predicate TankOk(t: Tank) {
    0 <= t.stack.amount <= t.capacity
    && (t.stack.fluid == EMPTY_FLUID ==> t.stack.amount == 0)
  }

  /** `drain(maxDrain, action)`: up to `maxDrain` of whatever the tank holds;
      only an executed drain of a positive amount changes the tank. */
  function Drain(t: Tank, maxDrain: int, execute: bool): (r: (FluidStack, Tank))
    ensures r.0.fluid == t.stack.fluid
    ensures r.0.amount <= maxDrain && r.0.amount <= t.stack.amount
    ensures maxDrain >= 0 && t.stack.amount >= 0 ==> r.0.amount >= 0
    ensures r.0.amount == maxDrain || r.0.amount == t.stack.amount
    ensures !execute || r.0.amount <= 0 ==> r.1 == t
    ensures r.1.capacity == t.capacity && r.1.stack.fluid == t.stack.fluid
    ensures r.1.stack.amount + (if execute && r.0.amount > 0 then r.0.amount else 0) == t.stack.amount
  {
    var drained := if t.stack.amount < maxDrain then t.stack.amount else maxDrain;
    var out := FluidStack(t.stack.fluid, drained);
    if execute && drained > 0 then (out, t.(stack := FluidStack(t.stack.fluid, t.stack.amount - drained)))
    else (out, t)
  }

  /** `fill(resource, action)`: an empty tank takes any fluid up to its
      capacity, a tank of the same fluid takes up to its free room, any other
      tank takes nothing. The amount taken is returned. */
  function Fill(t: Tank, resource: FluidStack, execute: bool): (r: (int, Tank))
    ensures FluidIsEmpty(resource) ==> r == (0, t)
    ensures TankOk(t) ==> 0 <= r.0 && (FluidIsEmpty(resource) || r.0 <= resource.amount)
    ensures TankOk(t) ==> r.0 + t.stack.amount <= t.capacity
    ensures !execute || r.0 == 0 ==> r.1 == t
    ensures TankOk(t) && execute && r.0 > 0 ==>
              r.1 == Tank(FluidStack(resource.fluid, t.stack.amount + r.0), t.capacity)
    ensures TankOk(t) ==> TankOk(r.1)
  {
    if FluidIsEmpty(resource) then (0, t)
    else
      var filled :=
        if FluidIsEmpty(t.stack) then (if t.capacity < resource.amount then t.capacity else resource.amount)
        else if t.stack.fluid != resource.fluid then 0
        else if t.capacity - t.stack.amount < resource.amount then t.capacity - t.stack.amount
        else resource.amount;
      if execute && filled > 0 then (filled, Tank(FluidStack(resource.fluid, t.stack.amount + filled), t.capacity))
      else (filled, t)
  }
}
