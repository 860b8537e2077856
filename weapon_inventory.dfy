/**
 * The player's weapon slots: a default melee weapon, a fixed row of ranged
 * weapon slots (some possibly empty) with an unlock flag each, and the index
 * of the equipped weapon (-1 for melee).  Weapons are plain data; the
 * weapon manager is reduced to the record of what it was asked to equip.
 */
module Weapons {
  import opened Optional
  import opened Player

  /** The fields of a weapon the inventory and the shop read. */
  datatype Weapon = Weapon(weaponName: string, shopPrice: int, availableFromStart: bool)

  /** A weapon handed to the weapon manager: the default melee weapon or the ranged weapon of a slot. */
  datatype Equipped = Melee | Ranged(slot: nat)

  /** A slot holding a weapon that is unlocked from the start. */
  predicate StartsUnlocked(w: Option<Weapon>)
  {
    w.Some? && w.value.availableFromStart
  }

  /** The weapon equipped for index k: melee for -1, the ranged weapon of slot k otherwise. */
  function SlotWeapon(k: int): (e: Equipped)
    requires k >= -1
    ensures e.Melee? <==> k == -1
    ensures e.Ranged? ==> e.slot == k
  {
    if k == -1 then Melee else Ranged(k)
  }

  /** Distinct indices equip distinct weapons, so the equipped weapon determines the index. */
  lemma SlotWeaponInjective(j: int, k: int)
    requires j >= -1 && k >= -1
    ensures SlotWeapon(j) == SlotWeapon(k) <==> j == k
  {
  }

  /*
   * SwitchToNextWeapon walks the slots in the cyclic order melee, 0, 1, ...,
   * n - 1: at step i it examines index (nextIndex + i) % (n + 1) - 1, where -1
   * stands for melee.  With non-negative operands C#'s % agrees with Dafny's.
   */

  lemma ModSmall(a: int, m: int)
    requires m > 0 && 0 <= a < 2 * m
    ensures a % m == if a < m then a else a - m
  {
    if a < m {
      assert a == 0 * m + a;
    } else {
      assert a == 1 * m + (a - m);
    }
  }

  /** The index examined at step i of the search; past the last slot it wraps round to melee. */
  function CheckIndex(nextIndex: nat, i: nat, n: nat): (k: int)
    requires nextIndex <= n + 1 && i <= n
    ensures -1 <= k < n
    ensures k == if nextIndex + i <= n then nextIndex + i - 1 else nextIndex + i - n - 2
  {
    ModSmall(nextIndex + i, n + 1);
    (nextIndex + i) % (n + 1) - 1
  }

  /** The search stops at melee, and at a ranged slot whose weapon is unlocked. */
  predicate Stops(unlocked: seq<bool>, k: int)
  {
    k == -1 || (0 <= k < |unlocked| && unlocked[k])
  }

  /** The first step, from step i on, at which the search stops; |unlocked| + 1 when none does. */
  function FirstStop(unlocked: seq<bool>, nextIndex: nat, i: nat): (r: nat)
    requires nextIndex <= |unlocked| + 1 && i <= |unlocked| + 1
    ensures i <= r <= |unlocked| + 1
    ensures r <= |unlocked| ==> Stops(unlocked, CheckIndex(nextIndex, r, |unlocked|))
    ensures forall j :: i <= j < r ==> !Stops(unlocked, CheckIndex(nextIndex, j, |unlocked|))
    decreases |unlocked| + 1 - i
  {
    if i == |unlocked| + 1 then i
    else if Stops(unlocked, CheckIndex(nextIndex, i, |unlocked|)) then i
    else FirstStop(unlocked, nextIndex, i + 1)
  }

  /**
   * Among the n + 1 steps one examines melee, so the search always stops
   * and the "no more weapons" fall-through after the loop is never reached.
   */
  lemma SearchStops(unlocked: seq<bool>, nextIndex: nat)
    requires nextIndex <= |unlocked| + 1
    ensures FirstStop(unlocked, nextIndex, 0) <= |unlocked|
  {
    var n := |unlocked|;
    var j := if nextIndex == 0 then 0 else n + 1 - nextIndex;
    if nextIndex == n + 1 {
      assert CheckIndex(nextIndex, 0, n) == -1;
    } else {
      assert CheckIndex(nextIndex, j, n) == -1;
    }
  }

  /**
   * The index the search equips when it starts at nextIndex: the first
   * stop, which always exists and is melee or an unlocked slot.
   */
  function SwitchTarget(unlocked: seq<bool>, nextIndex: nat): (k: int)
    requires nextIndex <= |unlocked| + 1
    ensures -1 <= k < |unlocked| && Stops(unlocked, k)
  {
    SearchStops(unlocked, nextIndex);
    CheckIndex(nextIndex, FirstStop(unlocked, nextIndex, 0), |unlocked|)
  }

  /**
   * As written, SwitchToNextWeapon starts its search at current + 1, whose
   * first examined index is the current one; since the current weapon is
   * melee or an unlocked ranged weapon, the search stops there at once and
   * re-equips it.
   */
  lemma SwitchStaysOnCurrent(unlocked: seq<bool>, current: int)
    requires -1 <= current < |unlocked| && Stops(unlocked, current)
    ensures CheckIndex(current + 1, 0, |unlocked|) == current
    ensures SwitchTarget(unlocked, current + 1) == current
  {
  }

  /** With Sniper (slot 0) equipped and both ranged weapons unlocked, the as-written switch picks Sniper again. */
  lemma SwitchStaysOnSniper()
    ensures SwitchTarget([true, true], 1) == 0
  {
    SwitchStaysOnCurrent([true, true], 0);
  }

  /**
   * Starting one slot further, at current + 2, the search examines the
   * other slots in cyclic order first and the current one last: it lands on
   * the first selectable slot after the current one, which differs from it
   * whenever any other slot can be selected (melee always can).
   */
  lemma {:induction false} NextSwitchMoves(unlocked: seq<bool>, current: int, other: int)
    requires -1 <= current < |unlocked|
    requires -1 <= other < |unlocked| && other != current && Stops(unlocked, other)
    ensures SwitchTarget(unlocked, current + 2) != current
  {
    var n := |unlocked|;
    var j := if other > current then other - current - 1 else n + other - current;
    assert CheckIndex(current + 2, j, n) == other;
    var r := FirstStop(unlocked, current + 2, 0);
    assert r <= j;
  }

  /** From a ranged weapon the switch always leaves it, since melee can be selected. */
  lemma SwitchLeavesRanged(unlocked: seq<bool>, current: nat)
    requires current < |unlocked|
    ensures SwitchTarget(unlocked, current + 2) != current
  {
    NextSwitchMoves(unlocked, current, -1);
  }

  class WeaponInventory {
    const availableWeapons: seq<Option<Weapon>>
    const weaponUnlocked: array<bool>
    var currentWeaponIndex: int
    /** Whether a default melee weapon is assigned. */
    const hasDefaultMelee: bool
    /** Whether the object carries a WeaponManager. */
    const hasWeaponManager: bool
    const playerInventory: PlayerInventory?
    var currentEquippedWeapon: Option<Equipped>
    /** The weapons handed to the weapon manager, in order. */
    var equipped: seq<Equipped>

    /**
     * One unlock flag per slot, and the equipped index is melee or an
     * unlocked slot.
     */
    ghost predicate Valid()
      reads this, weaponUnlocked
    {
      && weaponUnlocked.Length == |availableWeapons|
      && -1 <= currentWeaponIndex < |availableWeapons|
      && (currentWeaponIndex >= 0 ==> weaponUnlocked[currentWeaponIndex])
    }

    /** Whether equipping index k (-1 for melee) goes through. */
    predicate CanEquip(k: int)
      reads this, weaponUnlocked
    {
      if k == -1 then hasDefaultMelee && hasWeaponManager
      else
        && 0 <= k < |availableWeapons| && k < weaponUnlocked.Length
        && weaponUnlocked[k] && availableWeapons[k].Some? && hasWeaponManager
    }

    /** The equipment is as before. */
    twostate predicate SameEquipment()
      reads this
    {
      && equipped == old(equipped)
      && currentEquippedWeapon == old(currentEquippedWeapon)
      && currentWeaponIndex == old(currentWeaponIndex)
    }

    /** Index k (-1 for melee) was equipped if it could be, and otherwise nothing changed. */
    twostate predicate EquippedIndex(k: int)
      requires k >= -1
      reads this, weaponUnlocked
    {
      if CanEquip(k) then
        && equipped == old(equipped) + [SlotWeapon(k)]
        && currentEquippedWeapon == Some(SlotWeapon(k))
        && currentWeaponIndex == k
      else
        SameEquipment()
    }

    /**
     * Awake and Start: melee is equipped when a default melee weapon is
     * assigned, then the slots marked as available from the start are
     * unlocked.
     */
    constructor (availableWeapons: seq<Option<Weapon>>, initialUnlocked: seq<bool>,
                 hasDefaultMelee: bool, hasWeaponManager: bool, playerInventory: PlayerInventory?)
      requires |initialUnlocked| == |availableWeapons|
      ensures Valid() && fresh(weaponUnlocked)
      ensures this.availableWeapons == availableWeapons && this.playerInventory == playerInventory
      ensures this.hasDefaultMelee == hasDefaultMelee && this.hasWeaponManager == hasWeaponManager
      ensures forall i :: 0 <= i < weaponUnlocked.Length ==>
                weaponUnlocked[i] == (initialUnlocked[i] || StartsUnlocked(availableWeapons[i]))
      ensures currentWeaponIndex == -1
      ensures equipped == (if hasDefaultMelee && hasWeaponManager then [Melee] else [])
      ensures currentEquippedWeapon == (if hasDefaultMelee && hasWeaponManager then Some(Melee) else None)
    {
      this.availableWeapons := availableWeapons;
      this.hasDefaultMelee := hasDefaultMelee;
      this.hasWeaponManager := hasWeaponManager;
      this.playerInventory := playerInventory;
      weaponUnlocked := new bool[|initialUnlocked|](i requires 0 <= i < |initialUnlocked| => initialUnlocked[i]);
      currentWeaponIndex := -1;
      currentEquippedWeapon := None;
      equipped := [];
      new;
      if hasDefaultMelee {
        EquipMeleeWeapon();
      }
      CheckInitialUnlockedWeapons();
    }

    /** Every slot whose weapon is available from the start gets unlocked; no flag is cleared. */
    method CheckInitialUnlockedWeapons()
      requires Valid()
      modifies weaponUnlocked
      ensures Valid()
      ensures forall i :: 0 <= i < weaponUnlocked.Length ==>
                weaponUnlocked[i] == (old(weaponUnlocked[i]) || StartsUnlocked(availableWeapons[i]))
    {
      for i := 0 to |availableWeapons|
        invariant Valid()
        invariant forall j :: 0 <= j < i ==>
                    weaponUnlocked[j] == (old(weaponUnlocked[j]) || StartsUnlocked(availableWeapons[j]))
        invariant forall j :: i <= j < weaponUnlocked.Length ==> weaponUnlocked[j] == old(weaponUnlocked[j])
      {
        if availableWeapons[i] != None && availableWeapons[i].value.availableFromStart {
          weaponUnlocked[i] := true;
        }
      }
    }

    /** EquipMeleeWeapon: melee is equipped when there is a melee weapon and a weapon manager. */
    method EquipMeleeWeapon()
      requires Valid()
      modifies this`equipped, this`currentEquippedWeapon, this`currentWeaponIndex
      ensures Valid()
      ensures EquippedIndex(-1)
    {
      if hasDefaultMelee && hasWeaponManager {
        equipped := equipped + [Melee];
        currentEquippedWeapon := Some(Melee);
        currentWeaponIndex := -1;
      }
    }

    /**
     * EquipRangedWeapon: refused, changing nothing, for an index outside the
     * slots, a locked slot, an empty slot or a missing weapon manager;
     * otherwise that slot's weapon is equipped and its index recorded.
     */
    method EquipRangedWeapon(weaponIndex: int) returns (success: bool)
      requires Valid()
      modifies this`equipped, this`currentEquippedWeapon, this`currentWeaponIndex
      ensures Valid()
      ensures success <==> 0 <= weaponIndex && CanEquip(weaponIndex)
      ensures success ==> EquippedIndex(weaponIndex) && currentWeaponIndex == weaponIndex
      ensures !success ==> SameEquipment()
    {
      if weaponIndex < 0 || weaponIndex >= |availableWeapons| {
        return false;
      }
      if !weaponUnlocked[weaponIndex] {
        return false;
      }
      var weapon := availableWeapons[weaponIndex];
      if weapon == None {
        return false;
      }
      if hasWeaponManager {
        equipped := equipped + [Ranged(weaponIndex)];
        currentEquippedWeapon := Some(Ranged(weaponIndex));
        currentWeaponIndex := weaponIndex;
        return true;
      }
      return false;
    }

    /**
     * SwitchToNextWeapon, with the search starting one slot after the
     * current one (current + 2 rather than the source's current + 1, see
     * SwitchStaysOnCurrent): the slots are examined in cyclic order and the
     * first one that is melee or unlocked is equipped.
     */
    method SwitchToNextWeapon()
      requires Valid()
      modifies this`equipped, this`currentEquippedWeapon, this`currentWeaponIndex
      ensures Valid()
      ensures EquippedIndex(SwitchTarget(weaponUnlocked[..], old(currentWeaponIndex) + 2))
    {
      ghost var unlocked := weaponUnlocked[..];
      var nextIndex := currentWeaponIndex + 2;
      SearchStops(unlocked, nextIndex);
      var i := 0;
      while i < |availableWeapons| + 1
        invariant 0 <= i <= FirstStop(unlocked, nextIndex, 0)
        invariant SameEquipment()
        invariant Valid() && unlocked == weaponUnlocked[..]
      {
        var checkIndex := (nextIndex + i) % (|availableWeapons| + 1) - 1;
        assert checkIndex == CheckIndex(nextIndex, i, |availableWeapons|);
        if checkIndex == -1 {
          EquipMeleeWeapon();
          return;
        } else if checkIndex >= 0 && checkIndex < |availableWeapons| && weaponUnlocked[checkIndex] {
          var _ := EquipRangedWeapon(checkIndex);
          return;
        }
        i := i + 1;
      }
    }

    /** SwitchToWeaponSlot: slot 0 is melee, slots 1..n the ranged slots 0..n-1; any other slot changes nothing. */
    method SwitchToWeaponSlot(slotIndex: int)
      requires Valid()
      modifies this`equipped, this`currentEquippedWeapon, this`currentWeaponIndex
      ensures Valid()
      ensures 0 <= slotIndex <= |availableWeapons| ==> EquippedIndex(slotIndex - 1)
      ensures !(0 <= slotIndex <= |availableWeapons|) ==> SameEquipment()
    {
      if slotIndex == 0 {
        EquipMeleeWeapon();
      } else if slotIndex >= 1 && slotIndex <= |availableWeapons| {
        var _ := EquipRangedWeapon(slotIndex - 1);
      }
    }

    /**
     * HasEnoughCoins, reading the balance directly: never without a player
     * inventory, otherwise exactly when its balance covers the amount, which
     * for a positive amount is when PlayerInventory.SpendCoins succeeds.
     */
    function HasEnoughCoins(requiredCoins: int): (enough: bool)
      reads this, playerInventory
      ensures playerInventory == null ==> !enough
      ensures playerInventory != null ==> (enough <==> playerInventory.GetCoins() >= requiredCoins)
    {
      playerInventory != null && playerInventory.coins >= requiredCoins
    }

    /** SpendCoins, calling PlayerInventory.SpendCoins directly; its result is ignored. */
    method SpendCoins(amount: int)
      modifies playerInventory
      ensures playerInventory != null && amount > 0 && old(playerInventory.coins) >= amount ==>
                playerInventory.coins == old(playerInventory.coins) - amount
                && playerInventory.notified == old(playerInventory.notified) + [playerInventory.coins]
      ensures playerInventory != null && !(amount > 0 && old(playerInventory.coins) >= amount) ==>
                unchanged(playerInventory)
    {
      if playerInventory == null {
        return;
      }
      var _ := playerInventory.SpendCoins(amount);
    }

    /** Whether unlocking slot i with the given spending flag is refused for lack of coins. */
    predicate CannotAfford(weaponIndex: int, spendCoins: bool)
      requires 0 <= weaponIndex < |availableWeapons| && availableWeapons[weaponIndex].Some?
      reads this, playerInventory
    {
      spendCoins && playerInventory != null
      && playerInventory.coins < availableWeapons[weaponIndex].value.shopPrice
    }

    /**
     * UnlockWeapon: false for an index outside the slots or an empty slot;
     * true, spending nothing, for a slot already unlocked; false, changing
     * nothing, when coins are to be spent and the balance is short;
     * otherwise the price is spent (when asked to and there is an inventory)
     * and the slot is unlocked.  No other flag changes and none is cleared.
     */
    method UnlockWeapon(weaponIndex: int, spendCoins: bool) returns (success: bool)
      requires Valid()
      modifies weaponUnlocked, playerInventory
      ensures Valid()
      ensures success <==>
                && 0 <= weaponIndex < |availableWeapons|
                && (old(weaponUnlocked[weaponIndex])
                    || (availableWeapons[weaponIndex].Some? && !old(CannotAfford(weaponIndex, spendCoins))))
      ensures forall j :: 0 <= j < weaponUnlocked.Length ==>
                weaponUnlocked[j] == (old(weaponUnlocked[j]) || (success && j == weaponIndex))
      ensures !success ==> unchanged(weaponUnlocked)
      ensures var charged := success && !old(weaponUnlocked[weaponIndex]) && spendCoins
                             && playerInventory != null && availableWeapons[weaponIndex].value.shopPrice > 0;
              && (charged ==>
                    && playerInventory.coins == old(playerInventory.coins) - availableWeapons[weaponIndex].value.shopPrice
                    && playerInventory.notified == old(playerInventory.notified) + [playerInventory.coins])
              && (!charged && playerInventory != null ==> unchanged(playerInventory))
    {
      if weaponIndex < 0 || weaponIndex >= |availableWeapons| {
        return false;
      }
      if weaponUnlocked[weaponIndex] {
        return true;
      }
      var weapon := availableWeapons[weaponIndex];
      if weapon == None {
        return false;
      }
      if spendCoins && playerInventory != null {
        if !HasEnoughCoins(weapon.value.shopPrice) {
          return false;
        }
        SpendCoins(weapon.value.shopPrice);
      }
      weaponUnlocked[weaponIndex] := true;
      return true;
    }

    /** IsWeaponUnlocked: false outside the flags, the slot's flag inside. */
    function IsWeaponUnlocked(weaponIndex: int): (unlocked: bool)
      reads this, weaponUnlocked
      ensures unlocked ==> 0 <= weaponIndex < weaponUnlocked.Length
      ensures 0 <= weaponIndex < weaponUnlocked.Length ==> unlocked == weaponUnlocked[weaponIndex]
    {
      if weaponIndex < 0 || weaponIndex >= weaponUnlocked.Length then false
      else weaponUnlocked[weaponIndex]
    }

    /** GetWeaponByIndex: the slot's weapon, none outside the slots. */
    function GetWeaponByIndex(weaponIndex: int): (w: Option<Weapon>)
      reads this
      ensures w.Some? ==> 0 <= weaponIndex < |availableWeapons| && w == availableWeapons[weaponIndex]
      ensures 0 <= weaponIndex < |availableWeapons| ==> w == availableWeapons[weaponIndex]
    {
      if weaponIndex < 0 || weaponIndex >= |availableWeapons| then None
      else availableWeapons[weaponIndex]
    }

    /** GetUnlockStatus: a new array holding the flags, not the inventory's own. */
    method GetUnlockStatus() returns (status: array<bool>)
      ensures fresh(status)
      ensures status[..] == weaponUnlocked[..]
    {
      status := new bool[weaponUnlocked.Length];
      for i := 0 to weaponUnlocked.Length
        invariant status[..i] == weaponUnlocked[..i]
      {
        status[i] := weaponUnlocked[i];
        assert status[..i + 1] == status[..i] + [status[i]];
        assert weaponUnlocked[..i + 1] == weaponUnlocked[..i] + [weaponUnlocked[i]];
      }
      assert status[..] == status[..weaponUnlocked.Length];
      assert weaponUnlocked[..] == weaponUnlocked[..weaponUnlocked.Length];
    }
  }
}
