/**
 * The weapon shop: an open/closed flag (mirrored by an optional UI panel)
 * and the purchase checks run before an unlock is handed to the weapon
 * inventory.  The shop and the inventory each hold their own reference to a
 * player inventory, which may be the same object or none.
 */
module Shop {
  import opened Optional
  import opened Player
  import opened Weapons

  /** One entry of the shop's listing. */
  datatype WeaponShopInfo = WeaponShopInfo(weapon: Option<Weapon>, isUnlocked: bool, canAfford: bool, weaponIndex: int)

  /** ASCII letters folded to lower case. */
  function FoldCase(c: char): (f: char)
    ensures !('A' <= f <= 'Z')
    ensures 'A' <= c <= 'Z' ==> 'a' <= f <= 'z' && f as int - c as int == 'a' as int - 'A' as int
    ensures !('A' <= c <= 'Z') ==> f == c
  {
    if 'A' <= c <= 'Z' then c - 'A' + 'a' else c
  }

  /** Folding twice is folding once, and a letter and its capital fold alike. */
  lemma FoldCaseProperties(c: char)
    ensures FoldCase(FoldCase(c)) == FoldCase(c)
    ensures 'a' <= c <= 'z' ==> FoldCase((c as int - 32) as char) == c
  {
  }

  /** Equal names up to the case of letters. */
  predicate SameNameIgnoringCase(a: string, b: string)
  {
    |a| == |b| && forall i :: 0 <= i < |a| ==> FoldCase(a[i]) == FoldCase(b[i])
  }

  /** Matching names ignoring case is an equivalence: reflexive, symmetric and transitive. */
  lemma SameNameEquivalence(a: string, b: string, c: string)
    ensures SameNameIgnoringCase(a, a)
    ensures SameNameIgnoringCase(a, b) ==> SameNameIgnoringCase(b, a)
    ensures SameNameIgnoringCase(a, b) && SameNameIgnoringCase(b, c) ==> SameNameIgnoringCase(a, c)
  {
  }

  /** A slot holding a weapon with the given name. */
  predicate NamedSlot(weapons: seq<Option<Weapon>>, i: int, name: string)
  {
    0 <= i < |weapons| && weapons[i].Some? && SameNameIgnoringCase(weapons[i].value.weaponName, name)
  }

  /** The first slot, from slot i on, holding a weapon with the given name. */
  function FindByName(weapons: seq<Option<Weapon>>, name: string, i: nat): (r: Option<nat>)
    requires i <= |weapons|
    ensures r.Some? ==> i <= r.value && NamedSlot(weapons, r.value, name)
    ensures forall j :: i <= j < |weapons| && (r.None? || j < r.value) ==> !NamedSlot(weapons, j, name)
    decreases |weapons| - i
  {
    if i == |weapons| then None
    else if NamedSlot(weapons, i, name) then Some(i)
    else FindByName(weapons, name, i + 1)
  }

  class WeaponShop {
    const weaponInventory: WeaponInventory?
    const playerInventory: PlayerInventory?
    /** Whether a shop UI panel is assigned, and whether it is shown. */
    const hasShopUI: bool
    var shopUIActive: bool
    var shopOpen: bool

    /** Awake and Start: the shop starts closed with its panel hidden. */
    constructor (weaponInventory: WeaponInventory?, playerInventory: PlayerInventory?, hasShopUI: bool)
      ensures this.weaponInventory == weaponInventory && this.playerInventory == playerInventory
      ensures this.hasShopUI == hasShopUI && !shopOpen && !shopUIActive
    {
      this.weaponInventory := weaponInventory;
      this.playerInventory := playerInventory;
      this.hasShopUI := hasShopUI;
      shopOpen := false;
      shopUIActive := false;
    }

    /** ToggleShop: the flag flips and a panel, if any, follows it. */
    method ToggleShop()
      modifies this`shopOpen, this`shopUIActive
      ensures shopOpen == !old(shopOpen)
      ensures shopUIActive == if hasShopUI then shopOpen else old(shopUIActive)
    {
      shopOpen := !shopOpen;
      if hasShopUI {
        shopUIActive := shopOpen;
      }
    }

    /** OpenShop: the shop is open afterwards; an open shop is left as it is. */
    method OpenShop()
      modifies this`shopOpen, this`shopUIActive
      ensures shopOpen
      ensures shopUIActive == if !old(shopOpen) && hasShopUI then true else old(shopUIActive)
    {
      if !shopOpen {
        ToggleShop();
      }
    }

    /** CloseShop: the shop is closed afterwards; a closed shop is left as it is. */
    method CloseShop()
      modifies this`shopOpen, this`shopUIActive
      ensures !shopOpen
      ensures shopUIActive == if old(shopOpen) && hasShopUI then false else old(shopUIActive)
    {
      if shopOpen {
        ToggleShop();
      }
    }

    /** OnTriggerExit2D: the player walking away closes the shop; anything else changes nothing. */
    method OnTriggerExit2D(isPlayer: bool)
      modifies this`shopOpen, this`shopUIActive
      ensures shopOpen == (old(shopOpen) && !isPlayer)
      ensures shopUIActive == if isPlayer && old(shopOpen) && hasShopUI then false else old(shopUIActive)
    {
      if isPlayer {
        if shopOpen {
          CloseShop();
        }
      }
    }

    /**
     * GetCurrentCoins: zero without a player inventory, its balance
     * otherwise.  The balance is read directly, so the fallback for an
     * unreadable balance never applies.
     */
    function GetCurrentCoins(): (coins: int)
      reads this, playerInventory
      ensures playerInventory == null ==> coins == 0
      ensures playerInventory != null ==> coins == playerInventory.coins
    {
      if playerInventory == null then 0 else playerInventory.coins
    }

    /**
     * A purchase of slot i goes through: there is an inventory, the slot
     * holds a weapon not yet unlocked, the shop's balance covers its price,
     * and so does the inventory's own player inventory, when it has one.
     */
    predicate Purchasable(weaponIndex: int)
      reads this, playerInventory, weaponInventory
      reads if weaponInventory != null then {weaponInventory.weaponUnlocked, weaponInventory.playerInventory} else {}
    {
      && weaponInventory != null
      && 0 <= weaponIndex < |weaponInventory.availableWeapons|
      && weaponIndex < weaponInventory.weaponUnlocked.Length
      && weaponInventory.availableWeapons[weaponIndex].Some?
      && !weaponInventory.weaponUnlocked[weaponIndex]
      && GetCurrentCoins() >= weaponInventory.availableWeapons[weaponIndex].value.shopPrice
      && !weaponInventory.CannotAfford(weaponIndex, true)
    }

    /** Nothing the shop can reach has changed. */
    twostate predicate Untouched()
      reads this, weaponInventory
      reads if weaponInventory != null then {weaponInventory.weaponUnlocked, weaponInventory.playerInventory} else {}
    {
      weaponInventory != null ==>
        && unchanged(weaponInventory, weaponInventory.weaponUnlocked)
        && (weaponInventory.playerInventory != null ==> unchanged(weaponInventory.playerInventory))
    }

    /**
     * What a purchase of slot i did.  On success the slot is unlocked and no
     * other flag changes, the weapon is equipped when there is a weapon
     * manager, and its price (when positive) is charged to the inventory's
     * player inventory.  On refusal nothing the shop can reach has changed.
     */
    twostate predicate PurchaseOutcome(weaponIndex: int, success: bool)
      reads this, weaponInventory
      reads if weaponInventory != null then {weaponInventory.weaponUnlocked, weaponInventory.playerInventory} else {}
    {
      if !success then Untouched()
      else
        && weaponInventory != null
        && 0 <= weaponIndex < |weaponInventory.availableWeapons|
        && weaponInventory.availableWeapons[weaponIndex].Some?
        && (forall j :: 0 <= j < weaponInventory.weaponUnlocked.Length ==>
              weaponInventory.weaponUnlocked[j] == (old(weaponInventory.weaponUnlocked[j]) || j == weaponIndex))
        && weaponInventory.EquippedIndex(weaponIndex)
        && weaponInventory.currentWeaponIndex
           == (if weaponInventory.hasWeaponManager then weaponIndex else old(weaponInventory.currentWeaponIndex))
        && (weaponInventory.playerInventory != null ==>
              var price := weaponInventory.availableWeapons[weaponIndex].value.shopPrice;
              weaponInventory.playerInventory.coins
              == old(weaponInventory.playerInventory.coins) - (if price > 0 then price else 0))
    }

    /**
     * TryPurchaseWeapon: false, changing nothing, without an inventory, for
     * an empty slot, an unlocked weapon, a short balance, or an unlock the
     * inventory refuses; otherwise the weapon is unlocked and paid for
     * (UnlockWeapon with spending) and then equipped, and the answer is true.
     */
    method TryPurchaseWeapon(weaponIndex: int) returns (success: bool)
      requires weaponInventory != null ==> weaponInventory.Valid()
      modifies if weaponInventory != null
               then {weaponInventory, weaponInventory.weaponUnlocked, weaponInventory.playerInventory} else {}
      ensures weaponInventory != null ==> weaponInventory.Valid()
      ensures success <==> old(Purchasable(weaponIndex))
      ensures PurchaseOutcome(weaponIndex, success)
    {
      if weaponInventory == null {
        return false;
      }
      var weapon := weaponInventory.GetWeaponByIndex(weaponIndex);
      if weapon == None {
        return false;
      }
      if weaponInventory.IsWeaponUnlocked(weaponIndex) {
        return false;
      }
      var currentCoins := GetCurrentCoins();
      if currentCoins < weapon.value.shopPrice {
        return false;
      }
      var purchaseSuccess := weaponInventory.UnlockWeapon(weaponIndex, true);
      if purchaseSuccess {
        var _ := weaponInventory.EquipRangedWeapon(weaponIndex);
        return true;
      } else {
        return false;
      }
    }

    /**
     * PurchaseWeaponByName: the purchase of the first slot whose weapon has
     * the name, ignoring case; false, changing nothing, when no slot has it.
     */
    method PurchaseWeaponByName(weaponName: string) returns (success: bool)
      requires weaponInventory != null ==> weaponInventory.Valid()
      modifies if weaponInventory != null
               then {weaponInventory, weaponInventory.weaponUnlocked, weaponInventory.playerInventory} else {}
      ensures weaponInventory != null ==> weaponInventory.Valid()
      ensures weaponInventory == null ==> !success
      ensures weaponInventory != null ==>
                match FindByName(weaponInventory.availableWeapons, weaponName, 0)
                case None => !success && Untouched()
                case Some(i) => success == old(Purchasable(i)) && PurchaseOutcome(i, success)
    {
      if weaponInventory == null {
        return false;
      }
      var weapons := weaponInventory.availableWeapons;
      for i := 0 to |weapons|
        invariant FindByName(weapons, weaponName, 0) == FindByName(weapons, weaponName, i)
      {
        if weapons[i] != None && SameNameIgnoringCase(weapons[i].value.weaponName, weaponName) {
          success := TryPurchaseWeapon(i);
          return;
        }
      }
      return false;
    }

    /**
     * GetShopInfo: one entry per slot with its index, its weapon, whether it
     * is unlocked, and whether the balance covers its price (never for an
     * empty slot); no entries without an inventory.
     */
    method GetShopInfo() returns (shopInfo: seq<WeaponShopInfo>)
      requires weaponInventory != null ==> weaponInventory.Valid()
      ensures weaponInventory == null ==> shopInfo == []
      ensures weaponInventory != null ==>
                && |shopInfo| == |weaponInventory.availableWeapons|
                && forall i :: 0 <= i < |shopInfo| ==>
                     var w := weaponInventory.availableWeapons[i];
                     && shopInfo[i].weaponIndex == i
                     && shopInfo[i].weapon == w
                     && shopInfo[i].isUnlocked == weaponInventory.weaponUnlocked[i]
                     && (shopInfo[i].canAfford <==> w.Some? && GetCurrentCoins() >= w.value.shopPrice)
    {
      if weaponInventory == null {
        return [];
      }
      var weapons := weaponInventory.availableWeapons;
      var unlockStatus := weaponInventory.GetUnlockStatus();
      shopInfo := [];
      for i := 0 to |weapons|
        invariant |shopInfo| == i
        invariant forall j :: 0 <= j < i ==>
                    var w := weapons[j];
                    && shopInfo[j].weaponIndex == j
                    && shopInfo[j].weapon == w
                    && shopInfo[j].isUnlocked == weaponInventory.weaponUnlocked[j]
                    && (shopInfo[j].canAfford <==> w.Some? && GetCurrentCoins() >= w.value.shopPrice)
      {
        var canAfford := if weapons[i] != None then GetCurrentCoins() >= weapons[i].value.shopPrice else false;
        shopInfo := shopInfo + [WeaponShopInfo(weapons[i], unlockStatus[i], canAfford, i)];
      }
    }
  }
}
