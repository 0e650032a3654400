/** `FluidTankReferenceHolder`: the two container-data slots that mirror a
    fluid tank to the client. Slot 0 carries the fluid's registry id, slot 1
    its amount; the client caches both and rebuilds the tank after each
    update. The values are Java `int`s that are only copied, never combined. */
module FluidTankReference {
  import opened GameTypes

  /** The tank the holder reads and writes, and the two cached slot values. */
  datatype Holder = Holder(tank: FluidStack, fluidAmount: int, fluidId: int)

  /** `getCount()`: the number of slots. */
  const SLOT_COUNT: nat := 2

  /** A fresh holder over a tank: both cached values start at -1. */
  function NewHolder(tank: FluidStack): (h: Holder)
    ensures h.tank == tank && h.fluidAmount < 0 && h.fluidId < 0
  {
    Holder(tank, -1, -1)
  }

  /** `get(index)`: -1 for an empty tank, else the id for slot 0 and the
      amount for any other slot. */
  function Get(h: Holder, index: int): (v: int)
    ensures FluidIsEmpty(h.tank) ==> v == -1
    ensures !FluidIsEmpty(h.tank) && index == 0 ==> v == h.tank.fluid && v >= 0
    ensures !FluidIsEmpty(h.tank) && index != 0 ==> v == h.tank.amount && v > 0
  {
    if FluidIsEmpty(h.tank) then -1
    else if index == 0 then h.tank.fluid
    else h.tank.amount
  }

  /** The tank rebuilt from the cached values: that fluid and amount when both
      are non-negative, the empty stack otherwise. */
  function Rebuilt(fluidId: int, fluidAmount: int): (t: FluidStack)
    ensures fluidId >= 0 && fluidAmount >= 0 ==> t.fluid == fluidId && t.amount == fluidAmount
    ensures fluidId < 0 || fluidAmount < 0 ==> t == EMPTY_FLUID_STACK
  {
    if fluidAmount >= 0 && fluidId >= 0 then FluidStack(fluidId, fluidAmount) else EMPTY_FLUID_STACK
  }

  /** `set(index, value)`: slot 0 updates the cached id, any other slot the
      cached amount; then the tank is rebuilt from both. */
  function Set(h: Holder, index: int, value: int): (h': Holder)
    ensures index == 0 ==> h'.fluidId == value && h'.fluidAmount == h.fluidAmount
    ensures index != 0 ==> h'.fluidAmount == value && h'.fluidId == h.fluidId
    ensures h'.fluidId >= 0 && h'.fluidAmount >= 0 ==> h'.tank == FluidStack(h'.fluidId, h'.fluidAmount)
    ensures h'.fluidId < 0 || h'.fluidAmount < 0 ==> h'.tank == EMPTY_FLUID_STACK
  {
    var id := if index == 0 then value else h.fluidId;
    var amount := if index == 0 then h.fluidAmount else value;
    Holder(Rebuilt(id, amount), amount, id)
  }

  /** Setting slot 0 and then slot 1 to non-negative values leaves the tank
      holding that fluid and amount, whatever was cached before. */
  lemma SetIdThenAmount(h: Holder, id: nat, amount: nat)
    ensures Set(Set(h, 0, id), 1, amount).tank == FluidStack(id, amount)
  {
  }

  /** One synchronisation: every slot the server reads is set on the client,
      in slot order. */
  function Sync(server: Holder, client: Holder): (c: Holder)
  {
    Set(Set(client, 0, Get(server, 0)), 1, Get(server, 1))
  }

  /** After a synchronisation the client's tank holds the server's fluid and
      amount when the server's is non-empty, and is the empty stack when it
      is empty. Only the id and the amount travel, so nothing else about the
      server's stack reaches the client. */
  lemma SyncMirrorsTank(server: Holder, client: Holder)
    ensures !FluidIsEmpty(server.tank) ==>
              Sync(server, client).tank.fluid == server.tank.fluid
              && Sync(server, client).tank.amount == server.tank.amount
    ensures FluidIsEmpty(server.tank) ==> Sync(server, client).tank == EMPTY_FLUID_STACK
  {
  }

  /** A synchronised client reports exactly what the server reports, slot by
      slot, even though an empty server tank arrives as the canonical empty
      stack rather than as a copy. */
  lemma SyncReadsBack(server: Holder, client: Holder, index: int)
    ensures Get(Sync(server, client), index) == Get(server, index)
  {
    SyncMirrorsTank(server, client);
  }
}
