/** `AugmentWrapper`: the augment data component of an item stack, a map from
    augment type name to a `float` amount. Amounts are opaque bit patterns. */
module Augment {
  import opened Wrappers
  import opened GameTypes

  /** A stack and its augment component, absent when never set. */
  datatype AugStack = AugStack(stack: ItemStack, augment: Option<map<string, FloatBits>>)

  datatype AugmentError = NullPointer   // unboxing the `null` of a missing key

  /** `isAugment`: a non-empty stack that carries the component. */
  function IsAugment(s: AugStack): (b: bool)
    ensures b <==> !StackIsEmpty(s.stack) && s.augment.Some?
  {
    if !StackIsEmpty(s.stack) then s.augment.Some? else false
  }

  /** `getAugment`: the component of a non-empty stack, else the empty map. */
  function GetAugment(s: AugStack): (m: map<string, FloatBits>)
    ensures StackIsEmpty(s.stack) || s.augment.None? ==> m == map[]
    ensures IsAugment(s) ==> m == s.augment.value
  {
    if !StackIsEmpty(s.stack) then
      match s.augment
      case Some(m) => m
      case None => map[]
    else map[]
  }

  /** `hasType`: the type's name is a key of the augment map. */
  function HasType(s: AugStack, typeName: string): (b: bool)
    ensures b ==> IsAugment(s) && typeName in s.augment.value
    ensures IsAugment(s) && typeName in s.augment.value ==> b
  {
    typeName in GetAugment(s)
  }

  /** `getType`: the amount stored for the type; unboxing the `null` that a
      missing key looks up throws. */
  function GetType(s: AugStack, typeName: string): (r: Result<FloatBits, AugmentError>)
    ensures r.Ok? <==> HasType(s, typeName)
    ensures r.Ok? ==> r.value == s.augment.value[typeName]
  {
    var m := GetAugment(s);
    if typeName in m then Ok(m[typeName]) else Err(NullPointer)
  }

  /** `setType`: a copy of the current map with the type's amount put in,
      stored as the component. */
  function SetType(s: AugStack, typeName: string, amount: FloatBits): (t: AugStack)
    ensures t.stack == s.stack && t.augment.Some?
    ensures t.augment.value.Keys == GetAugment(s).Keys + {typeName}
    ensures t.augment.value[typeName] == amount
    ensures forall k :: k in GetAugment(s) && k != typeName ==> t.augment.value[k] == GetAugment(s)[k]
  {
    AugStack(s.stack, Some(GetAugment(s)[typeName := amount]))
  }

  /** On a non-empty stack, the type just set is present with its amount. */
  lemma SetThenGet(s: AugStack, typeName: string, amount: FloatBits)
    requires !StackIsEmpty(s.stack)
    ensures IsAugment(SetType(s, typeName, amount))
    ensures HasType(SetType(s, typeName, amount), typeName)
    ensures GetType(SetType(s, typeName, amount), typeName) == Ok(amount)
  {
  }

  /** Setting one type leaves every other type's presence and amount alone. */
  lemma SetKeepsOthers(s: AugStack, typeName: string, other: string, amount: FloatBits)
    requires other != typeName
    ensures HasType(SetType(s, typeName, amount), other) <==> HasType(s, other)
    ensures GetType(SetType(s, typeName, amount), other) == GetType(s, other)
  {
    var t := SetType(s, typeName, amount);
    if StackIsEmpty(s.stack) {
      assert GetAugment(t) == map[] && GetAugment(s) == map[];
    } else {
      assert GetAugment(t) == GetAugment(s)[typeName := amount];
    }
  }

  /** An empty stack hides the component: a `setType` on it is never read back. */
  lemma SetOnEmptyUnseen(s: AugStack, typeName: string, amount: FloatBits)
    requires StackIsEmpty(s.stack)
    ensures !IsAugment(SetType(s, typeName, amount))
    ensures GetType(SetType(s, typeName, amount), typeName) == Err(NullPointer)
  {
  }

  /** Setting the same amount twice is setting it once. */
  lemma SetTwice(s: AugStack, typeName: string, amount: FloatBits)
    ensures SetType(SetType(s, typeName, amount), typeName, amount) == SetType(s, typeName, amount)
  {
    var m := GetAugment(s)[typeName := amount];
    if !StackIsEmpty(s.stack) {
      assert GetAugment(SetType(s, typeName, amount)) == m;
      assert m[typeName := amount] == m;
    }
  }
}
