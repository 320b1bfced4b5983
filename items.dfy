/** An item stack held in an inventory; its amount is updated in place. */
module Items {
  import opened Common

  class ItemInstance {
    var Id: Guid
    var Amount: short
    /** The item template the stack is an instance of. */
    const ItemVNum: int

    constructor (id: Guid, itemVNum: int, amount: short)
      ensures Id == id && ItemVNum == itemVNum && Amount == amount
    {
      Id := id;
      ItemVNum := itemVNum;
      Amount := amount;
    }

    /** `Clone()`: a new stack with the same fields as this one. */
    method Clone() returns (c: ItemInstance)
      ensures fresh(c)
      ensures c.Id == Id && c.ItemVNum == ItemVNum && c.Amount == Amount
    {
      c := new ItemInstance(Id, ItemVNum, Amount);
    }
  }
}
