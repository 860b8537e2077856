/**
 * The player's coin balance.  The values passed to onCoinsChanged are kept,
 * in order, in `notified`.
 */
module Player {

  class PlayerInventory {
    const initialCoins: int
    var coins: int
    var notified: seq<int>

    /** The component with its serialized initial balance, after Start. */
    constructor (initialCoins: int)
      ensures this.initialCoins == initialCoins && coins == initialCoins && notified == [initialCoins]
    {
      this.initialCoins := initialCoins;
      coins := initialCoins;
      notified := [initialCoins];
    }

    /** AddCoins: a positive amount is added and announced; any other amount is ignored. */
    method AddCoins(amount: int)
      modifies this`coins, this`notified
      ensures amount > 0 ==> coins == old(coins) + amount && notified == old(notified) + [coins]
      ensures amount <= 0 ==> coins == old(coins) && notified == old(notified)
      ensures old(coins) >= 0 ==> coins >= old(coins) >= 0
    {
      if amount > 0 {
        coins := coins + amount;
        notified := notified + [coins];
      }
    }

    /**
     * SpendCoins: an amount of zero or less succeeds without spending;
     * otherwise the amount is taken exactly when the balance covers it, and a
     * refused purchase changes nothing.
     */
    method SpendCoins(amount: int) returns (success: bool)
      modifies this`coins, this`notified
      ensures success <==> amount <= 0 || old(coins) >= amount
      ensures amount > 0 && success ==> coins == old(coins) - amount && notified == old(notified) + [coins]
      ensures amount <= 0 || !success ==> coins == old(coins) && notified == old(notified)
      ensures old(coins) >= 0 ==> coins >= 0
    {
      if amount <= 0 {
        return true;
      }
      if coins >= amount {
        coins := coins - amount;
        notified := notified + [coins];
        return true;
      }
      return false;
    }

    function GetCoins(): (balance: int)
      reads this`coins
      ensures balance == coins
    {
      coins
    }
  }
}
