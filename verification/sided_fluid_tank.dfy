/** `SidedFluidTankComponent`: a fluid tank with a face mode per side of its
    block. A side in PUSH mode sends fluid to the neighbour on that side, a
    side in PULL mode takes fluid from it; the modes are saved in the block's
    NBT under "FacingModes". */
module SidedFluidTank {
  import opened Wrappers
  import opened JavaInt
  import opened GameTypes
  import opened FluidHandler

  /** `FacingUtil.Sideness`, in declaration order: the sides of a block
      relative to the way it faces. */
  datatype Sideness = BOTTOM | TOP | LEFT | RIGHT | FRONT | BACK

  /** `IFacingComponent.FaceMode`, in declaration order. */
  datatype FaceMode = NONE | ENABLED | PUSH | PULL

  /** `Sideness.values()`: also the iteration order of an `EnumMap` keyed by it. */
  const SIDES: seq<Sideness> := [BOTTOM, TOP, LEFT, RIGHT, FRONT, BACK]
  const SIDE_SET: set<Sideness> := {BOTTOM, TOP, LEFT, RIGHT, FRONT, BACK}

  /** `FaceMode.values()`. */
  const FACE_MODES: seq<FaceMode> := [NONE, ENABLED, PUSH, PULL]

  /** `DyeColor.WHITE.getFireworkColor()`. */
  const WHITE_FIREWORK_COLOR: int := 15790320

  const DEFAULT_HANDLER_X: int := 8
  const DEFAULT_HANDLER_Y: int := 84

  const MODES_KEY: string := "FacingModes"

  datatype ComponentError =
    | IndexOutOfBounds      // `validFaceModes[0]` of an empty array
    | IllegalArgument       // `valueOf` of a name no constant has

  /** The component's own state; the tank is the one it extends. */
  datatype TankComponent = TankComponent(
    tank: Tank,
    color: int,
    handlerX: int,
    handlerY: int,
    modes: map<Sideness, FaceMode>,
    pos: int,
    hasFacingAddon: bool,
    validModes: seq<FaceMode>)

  /** Every side has a mode. */
  predicate Total(modes: map<Sideness, FaceMode>) {
    modes.Keys == SIDE_SET
  }

  /** The side and mode lists name every constant. */
  lemma Listed(s: Sideness, m: FaceMode)
    ensures s in SIDES && s in SIDE_SET && m in FACE_MODES
  {
  }

  lemma AllSidesListed()
    ensures forall s: Sideness :: s in SIDE_SET
  {
    forall s: Sideness
      ensures s in SIDE_SET
    {
      Listed(s, NONE);
    }
  }

  lemma AllModesListed()
    ensures forall m: FaceMode :: m in FACE_MODES
  {
    forall m: FaceMode
      ensures m in FACE_MODES
    {
      Listed(BOTTOM, m);
    }
  }

  /** `new SidedFluidTankComponent(name, amount, posX, posY, pos)`: an empty
      tank of capacity `amount`, every side ENABLED, every mode valid, the
      facing addon on. */
  function NewComponent(amount: int, pos: int): (c: TankComponent)
    ensures Total(c.modes) && forall s :: s in c.modes ==> c.modes[s] == ENABLED
    ensures forall m: FaceMode :: m in c.validModes
    ensures c.hasFacingAddon && c.pos == pos
    ensures c.tank.capacity == amount && FluidIsEmpty(c.tank.stack)
    ensures amount >= 0 ==> TankOk(c.tank)
    ensures c.handlerX == DEFAULT_HANDLER_X && c.handlerY == DEFAULT_HANDLER_Y
  {
    AllModesListed();
    TankComponent(Tank(EMPTY_FLUID_STACK, amount), WHITE_FIREWORK_COLOR, DEFAULT_HANDLER_X, DEFAULT_HANDLER_Y,
              map s | s in SIDE_SET :: ENABLED, pos, true, FACE_MODES)
  }

  /** `disableFacingAddon()`. */
  function DisableFacingAddon(c: TankComponent): (d: TankComponent)
    ensures !d.hasFacingAddon
    ensures d.(hasFacingAddon := c.hasFacingAddon) == c
  {
    c.(hasFacingAddon := false)
  }

  /** `setFacingHandlerPos(x, y)`. */
  function SetFacingHandlerPos(c: TankComponent, x: int, y: int): (d: TankComponent)
    ensures d.handlerX == x && d.handlerY == y
    ensures d.(handlerX := c.handlerX, handlerY := c.handlerY) == c
  {
    c.(handlerX := x, handlerY := y)
  }

  /** `setValidFaceModes(ms)`: the valid list becomes `ms` and every side is
      set to its first mode. For an empty `ms` the list is replaced and then
      the first access throws, leaving the sides as they were. */
  function SetValidFaceModes(c: TankComponent, ms: seq<FaceMode>): (r: (TankComponent, Option<ComponentError>))
    ensures r.0.validModes == ms
    ensures |ms| > 0 ==> r.1 == None && Total(r.0.modes) && forall s :: s in r.0.modes ==> r.0.modes[s] == ms[0]
    ensures |ms| == 0 ==> r.1 == Some(IndexOutOfBounds) && r.0.modes == c.modes
    ensures r.0.(modes := c.modes, validModes := c.validModes) == c
  {
    var d := c.(validModes := ms);
    if |ms| == 0 then (d, Some(IndexOutOfBounds))
    else (d.(modes := map s | s in SIDE_SET :: ms[0]), None)
  }

  // -----------------------------------------------------------------------
  // NBT.

  /** `Sideness.name()`. */
  function SideName(s: Sideness): string {
    match s
    case BOTTOM => "BOTTOM"
    case TOP => "TOP"
    case LEFT => "LEFT"
    case RIGHT => "RIGHT"
    case FRONT => "FRONT"
    case BACK => "BACK"
  }

  /** `Sideness.valueOf(name)`: the constant of that exact name. */
  function ParseSide(name: string): (r: Option<Sideness>)
    ensures r.Some? ==> SideName(r.value) == name
  {
    if name == "BOTTOM" then Some(BOTTOM)
    else if name == "TOP" then Some(TOP)
    else if name == "LEFT" then Some(LEFT)
    else if name == "RIGHT" then Some(RIGHT)
    else if name == "FRONT" then Some(FRONT)
    else if name == "BACK" then Some(BACK)
    else None
  }

  /** `FaceMode.name()`. */
  function ModeName(m: FaceMode): string {
    match m
    case NONE => "NONE"
    case ENABLED => "ENABLED"
    case PUSH => "PUSH"
    case PULL => "PULL"
  }

  /** `FaceMode.valueOf(name)`. */
  function ParseMode(name: string): (r: Option<FaceMode>)
    ensures r.Some? ==> ModeName(r.value) == name
  {
    if name == "NONE" then Some(NONE)
    else if name == "ENABLED" then Some(ENABLED)
    else if name == "PUSH" then Some(PUSH)
    else if name == "PULL" then Some(PULL)
    else None
  }

  /** Every name reads back as the constant it names. */
  lemma NamesParse(s: Sideness, m: FaceMode)
    ensures ParseSide(SideName(s)) == Some(s)
    ensures ParseMode(ModeName(m)) == Some(m)
  {
  }

  /** Distinct sides have distinct names. */
  lemma SideNamesDistinct()
    ensures forall s, t :: SideName(s) == SideName(t) ==> s == t
  {
    forall s, t | SideName(s) == SideName(t)
      ensures s == t
    {
      NamesParse(s, NONE);
      NamesParse(t, NONE);
    }
  }

  /** The "FacingModes" compound: each side's name mapped to its mode's name. */
  function ModesTag(modes: map<Sideness, FaceMode>): (t: Tag)
    ensures t.CompoundTag?
    ensures forall s :: s in modes ==> SideName(s) in t.entries && t.entries[SideName(s)] == StringTag(ModeName(modes[s]))
    ensures forall k :: k in t.entries ==> exists s :: s in modes && k == SideName(s)
  {
    SideNamesDistinct();
    CompoundTag(map s | s in modes :: SideName(s) := StringTag(ModeName(modes[s])))
  }

  /** `writeToNBT`: the compound the tank wrote, with "FacingModes" put in. */
  function WriteToNBT(c: TankComponent, tankNbt: map<string, Tag>): (t: Tag)
    ensures t.CompoundTag? && t.entries.Keys == tankNbt.Keys + {MODES_KEY}
    ensures t.entries[MODES_KEY] == ModesTag(c.modes)
    ensures forall k :: k in tankNbt && k != MODES_KEY ==> t.entries[k] == tankNbt[k]
  {
    CompoundTag(tankNbt[MODES_KEY := ModesTag(c.modes)])
  }

  /** Every key of the compound names a side and every value names a mode. */
  predicate Readable(modesTag: Tag) {
    modesTag.CompoundTag? &&
    forall k :: k in modesTag.entries ==> ParseSide(k).Some? && ParseMode(GetString(modesTag, k)).Some?
  }

  /** The modes a readable compound holds. */
  function ModesIn(modesTag: Tag): (m: map<Sideness, FaceMode>)
    requires Readable(modesTag)
    ensures forall s :: s in m <==> SideName(s) in modesTag.entries
    ensures forall s :: s in m ==> Some(m[s]) == ParseMode(GetString(modesTag, SideName(s)))
  {
    AllSidesListed();
    map s | s in SIDE_SET && SideName(s) in modesTag.entries :: ParseMode(GetString(modesTag, SideName(s))).value
  }

  /** `readFromNBT`: when "FacingModes" is present, every side it names is
      set to the mode it names and the other sides keep theirs; a name that is
      no constant throws. The tank's own part is not modelled. */
  function ReadFromNBT(c: TankComponent, nbt: Tag): (r: Result<TankComponent, ComponentError>)
    ensures !TagContains(nbt, MODES_KEY) ==> r == Ok(c)
    ensures r.Ok? ==> r.value.(modes := c.modes) == c
    ensures r.Ok? ==> forall s :: s in r.value.modes <==> s in c.modes || SideName(s) in GetCompound(nbt, MODES_KEY).entries
    ensures r.Ok? ==> forall s :: s in c.modes && SideName(s) !in GetCompound(nbt, MODES_KEY).entries ==>
                        r.value.modes[s] == c.modes[s]
    ensures r.Ok? ==> forall s :: SideName(s) in GetCompound(nbt, MODES_KEY).entries ==>
                        Some(r.value.modes[s]) == ParseMode(GetString(GetCompound(nbt, MODES_KEY), SideName(s)))
    ensures r.Err? <==> TagContains(nbt, MODES_KEY) && !Readable(GetCompound(nbt, MODES_KEY))
  {
    if !TagContains(nbt, MODES_KEY) then Ok(c)
    else
      var compound := GetCompound(nbt, MODES_KEY);
      if !Readable(compound) then Err(IllegalArgument)
      else Ok(c.(modes := c.modes + ModesIn(compound)))
  }

  /** The compound written for a mode map reads back as that map. */
  lemma ModesTagReads(modes: map<Sideness, FaceMode>)
    ensures Readable(ModesTag(modes))
    ensures ModesIn(ModesTag(modes)) == modes
  {
    ModesTagReadable(modes);
    var m := ModesIn(ModesTag(modes));
    forall s | s in m
      ensures s in modes && m[s] == modes[s]
    {
      ModeEntryReads(modes, s);
    }
  }

  /** Each key of the written compound is a side's name, each value a mode's. */
  lemma ModesTagReadable(modes: map<Sideness, FaceMode>)
    ensures Readable(ModesTag(modes))
  {
    var compound := ModesTag(modes);
    forall k | k in compound.entries
      ensures ParseSide(k).Some? && ParseMode(GetString(compound, k)).Some?
    {
      var s :| s in modes && k == SideName(s);
      NamesParse(s, modes[s]);
    }
  }

  /** The entry written under a side's name holds that side's mode. */
  lemma ModeEntryReads(modes: map<Sideness, FaceMode>, s: Sideness)
    requires SideName(s) in ModesTag(modes).entries
    ensures s in modes
    ensures ParseMode(GetString(ModesTag(modes), SideName(s))) == Some(modes[s])
  {
    SideNamesDistinct();
    NamesParse(s, NONE);
    var t :| t in modes && SideName(s) == SideName(t);
    NamesParse(s, modes[s]);
  }

  /** Writing the modes and reading them back into any component restores
      them, given that every side had a mode. */
  lemma {:induction false} NbtRoundTrip(c: TankComponent, into: TankComponent, tankNbt: map<string, Tag>)
    requires Total(c.modes)
    ensures ReadFromNBT(into, WriteToNBT(c, tankNbt)) == Ok(into.(modes := c.modes))
  {
    var nbt := WriteToNBT(c, tankNbt);
    assert GetCompound(nbt, MODES_KEY) == ModesTag(c.modes);
    ModesTagReads(c.modes);
    AllSidesListed();
    assert into.modes + c.modes == c.modes;
  }

  // -----------------------------------------------------------------------
  // Moving fluid.

  /** `transfer(from, to, workAmount)`: a simulated drain of
      `workAmount * 100`; if that is empty nothing happens, otherwise the
      target is filled with it and exactly the amount it took is drained. The
      answer is whether that drain was non-empty. */
  function Transfer(from: Tank, to: Tank, workAmount: i32): (r: (bool, Tank, Tank))
    ensures FluidIsEmpty(Drain(from, Mul(workAmount, 100) as int, false).0) ==> r == (false, from, to)
    ensures TankOk(from) && TankOk(to) ==> TankOk(r.1) && TankOk(r.2)
    ensures TankOk(from) && TankOk(to) ==>
              r.2.stack.amount - to.stack.amount == from.stack.amount - r.1.stack.amount >= 0
    ensures TankOk(from) && TankOk(to) ==> (r.0 <==> r.2.stack.amount > to.stack.amount)
    ensures TankOk(from) && TankOk(to) && !r.0 ==> r.1 == from && r.2 == to
    ensures TankOk(from) && TankOk(to) && r.0 ==> from.stack.amount - r.1.stack.amount <= Mul(workAmount, 100) as int
  {
    var offered := Drain(from, Mul(workAmount, 100) as int, false).0;
    if FluidIsEmpty(offered) then (false, from, to)
    else
      var (accepted, to') := Fill(to, offered, true);
      var (drained, from') := Drain(from, accepted, true);
      (!FluidIsEmpty(drained), from', to')
  }

  /** The component's tank and the handler found on each side of the block
      (the world lookup through the block's facing is left to the caller). */
  datatype Site = Site(tank: Tank, neighbours: map<Sideness, Tank>)

  predicate SiteOk(st: Site) {
    TankOk(st.tank) && forall s :: s in st.neighbours ==> TankOk(st.neighbours[s])
  }

  /** The transfer a side in `mode` makes: PUSH sends from the component to
      the neighbour, anything else takes from the neighbour. */
  function SideTransfer(st: Site, s: Sideness, mode: FaceMode, workAmount: i32): (r: (bool, Site))
    requires s in st.neighbours
    ensures r.1.neighbours.Keys == st.neighbours.Keys
    ensures forall t :: t in st.neighbours && t != s ==> r.1.neighbours[t] == st.neighbours[t]
    ensures SiteOk(st) ==> SiteOk(r.1)
    ensures SiteOk(st) && !r.0 ==> r.1 == st
  {
    if mode == PUSH then
      var (ok, self', other') := Transfer(st.tank, st.neighbours[s], workAmount);
      (ok, Site(self', st.neighbours[s := other']))
    else
      var (ok, other', self') := Transfer(st.neighbours[s], st.tank, workAmount);
      (ok, Site(self', st.neighbours[s := other']))
  }

  /** A side that would move fluid: in the requested mode, with a handler,
      and a transfer from the current state succeeds. */
  predicate CanWork(st: Site, modes: map<Sideness, FaceMode>, s: Sideness, mode: FaceMode, workAmount: i32) {
    s in modes && modes[s] == mode && s in st.neighbours && SideTransfer(st, s, mode, workAmount).0
  }

  /** The position of the first side in `sides` that can work, or `|sides|`. */
  function FirstWorking(st: Site, modes: map<Sideness, FaceMode>, sides: seq<Sideness>, mode: FaceMode, workAmount: i32)
    : (i: nat)
    ensures i <= |sides|
    ensures forall j :: 0 <= j < i ==> !CanWork(st, modes, sides[j], mode, workAmount)
    ensures i < |sides| ==> CanWork(st, modes, sides[i], mode, workAmount)
  {
    if |sides| == 0 then 0
    else if CanWork(st, modes, sides[0], mode, workAmount) then 0
    else 1 + FirstWorking(st, modes, sides[1..], mode, workAmount)
  }

  /** `workSides` over the sides still to visit, in order: every side in the
      requested mode with a handler is tried, and the first transfer that
      moves fluid ends the walk. */
  function WorkSides(st: Site, modes: map<Sideness, FaceMode>, sides: seq<Sideness>, mode: FaceMode, workAmount: i32)
    : (r: (bool, Site))
    requires SiteOk(st)
    ensures SiteOk(r.1)
    ensures r.0 <==> FirstWorking(st, modes, sides, mode, workAmount) < |sides|
    ensures !r.0 ==> r.1 == st
    ensures r.0 ==> r.1 == SideTransfer(st, sides[FirstWorking(st, modes, sides, mode, workAmount)], mode, workAmount).1
  {
    if |sides| == 0 then (false, st)
    else
      var s := sides[0];
      if s in modes && modes[s] == mode && s in st.neighbours then
        var (ok, st') := SideTransfer(st, s, mode, workAmount);
        if ok then (true, st') else WorkSides(st', modes, sides[1..], mode, workAmount)
      else WorkSides(st, modes, sides[1..], mode, workAmount)
  }

  /** `work`: every PUSH side is tried before any PULL side. */
  function Work(c: TankComponent, neighbours: map<Sideness, Tank>, workAmount: i32): (r: (bool, TankComponent, map<Sideness, Tank>))
    requires SiteOk(Site(c.tank, neighbours))
    ensures r.1.(tank := c.tank) == c && r.2.Keys == neighbours.Keys
    ensures !r.0 ==> r.1 == c && r.2 == neighbours
  {
    var st := Site(c.tank, neighbours);
    var (pushed, st') := WorkSides(st, c.modes, SIDES, PUSH, workAmount);
    var (done, st'') := if pushed then (true, st') else WorkSides(st', c.modes, SIDES, PULL, workAmount);
    (done, c.(tank := st''.tank), st''.neighbours)
  }

  /** Some side can work exactly when the walk over all sides finds one. */
  lemma SomeSideWorks(st: Site, modes: map<Sideness, FaceMode>, mode: FaceMode, workAmount: i32)
    ensures FirstWorking(st, modes, SIDES, mode, workAmount) < |SIDES| <==>
              exists s :: CanWork(st, modes, s, mode, workAmount)
  {
    var i := FirstWorking(st, modes, SIDES, mode, workAmount);
    if s :| CanWork(st, modes, s, mode, workAmount) {
      Listed(s, mode);
      var j :| 0 <= j < |SIDES| && SIDES[j] == s;
      assert i <= j;
    }
  }

  /** The component works exactly when some side can, and a side that can
      push always wins over every side that could pull. */
  lemma PushBeforePull(c: TankComponent, neighbours: map<Sideness, Tank>, workAmount: i32)
    requires SiteOk(Site(c.tank, neighbours))
    ensures var st := Site(c.tank, neighbours);
            Work(c, neighbours, workAmount).0 <==>
              exists s :: CanWork(st, c.modes, s, PUSH, workAmount) || CanWork(st, c.modes, s, PULL, workAmount)
    ensures var st := Site(c.tank, neighbours);
            (exists s :: CanWork(st, c.modes, s, PUSH, workAmount)) ==>
              var pushed := WorkSides(st, c.modes, SIDES, PUSH, workAmount).1;
              Work(c, neighbours, workAmount) == (true, c.(tank := pushed.tank), pushed.neighbours)
  {
    var st := Site(c.tank, neighbours);
    SomeSideWorks(st, c.modes, PUSH, workAmount);
    SomeSideWorks(st, c.modes, PULL, workAmount);
  }

  /** A side in another mode than the one requested, or without a handler,
      is never touched by the walk. */
  lemma OtherSidesUntouched(st: Site, modes: map<Sideness, FaceMode>, sides: seq<Sideness>,
                            mode: FaceMode, workAmount: i32, t: Sideness)
    requires SiteOk(st) && t in st.neighbours && !(t in modes && modes[t] == mode)
    ensures t in WorkSides(st, modes, sides, mode, workAmount).1.neighbours
    ensures WorkSides(st, modes, sides, mode, workAmount).1.neighbours[t] == st.neighbours[t]
  {
    var r := WorkSides(st, modes, sides, mode, workAmount);
    if r.0 {
      var i := FirstWorking(st, modes, sides, mode, workAmount);
      assert sides[i] != t;
    }
  }
}
