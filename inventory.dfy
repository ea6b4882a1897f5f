/**
 * Stock movements (challenge 2): a list of stock records keyed by product
 * code and an append-only log of movements. A movement names a product, a
 * direction (inbound or outbound) and a positive quantity; it is refused
 * for an unknown product, a non-positive quantity or an outbound larger
 * than the stock, and otherwise logged and applied to that one product.
 *
 * The source's `int` fields are 32-bit; `Int32` makes that width explicit.
 */
module Inventory {
  import opened Wrappers

  newtype Int32 = x: int | -0x8000_0000 <= x < 0x8000_0000

  const MaxInt32: int := 0x7FFF_FFFF

  /** One stock record: product code, description and quantity on hand. */
  datatype StockItem = StockItem(code: Int32, description: string, quantity: Int32)

  /**
   * One logged movement. `id` is the movement's position in the log, which
   * stands in for the random identifier of the source.
   */
  datatype Movement = Movement(id: nat, code: Int32, description: string, quantity: Int32, inbound: bool)

  /** Why a movement was refused. */
  datatype MoveError = ProductNotFound | InvalidQuantity | InsufficientStock | StockOverflow

  /** What an accepted movement reports back: the record and the product's new quantity. */
  datatype Receipt = Receipt(movement: Movement, newQuantity: Int32)

  /** The state after an accepted movement, with its receipt. */
  datatype Step = Step(items: seq<StockItem>, log: seq<Movement>, receipt: Receipt)

  // ---------------------------------------------------------------------
  // Lookup
  // ---------------------------------------------------------------------

  /** The position of the first record whose code is `code`, if any. */
  function FindProduct(items: seq<StockItem>, code: Int32): (r: Option<nat>)
    ensures r.Some? ==> r.value < |items| && items[r.value].code == code
    ensures r.Some? ==> forall j :: 0 <= j < r.value ==> items[j].code != code
    ensures r.None? ==> forall j :: 0 <= j < |items| ==> items[j].code != code
  {
    if items == [] then None
    else if items[0].code == code then Some(0)
    else
      match FindProduct(items[1..], code)
      case None => None
      case Some(i) => Some(i + 1)
  }

  /** Two record lists with the same codes position by position. */
  predicate SameCodes(a: seq<StockItem>, b: seq<StockItem>)
  {
    |a| == |b| && forall j :: 0 <= j < |a| ==> a[j].code == b[j].code
  }

  /** The lookup depends on the codes alone, so changing quantities does not move it. */
  lemma FindProductSameCodes(a: seq<StockItem>, b: seq<StockItem>, code: Int32)
    requires SameCodes(a, b)
    ensures FindProduct(a, code) == FindProduct(b, code)
  {
  }

  // ---------------------------------------------------------------------
  // Applying one movement
  // ---------------------------------------------------------------------

  /** The signed change a movement makes to its product's stock. */
  function Delta(m: Movement): int
  {
    if m.inbound then m.quantity as int else -(m.quantity as int)
  }

  /** Two's-complement wrap-around of an unchecked 32-bit `int` result. */
  function Wrap(x: int): (r: Int32)
    ensures (r as int - x) % 0x1_0000_0000 == 0
  {
    ((x + 0x8000_0000) % 0x1_0000_0000 - 0x8000_0000) as Int32
  }

  /**
   * The stock update as the source writes it: `+=` or `-=` on a 32-bit
   * `int`, which wraps around on overflow.
   */
  function NewQuantityAsWritten(current: Int32, quantity: Int32, inbound: bool): (r: Int32)
    ensures MaxInt32 < current as int + quantity as int && inbound ==> r < 0
    ensures inbound && -0x8000_0000 <= current as int + quantity as int <= MaxInt32
            ==> r as int == current as int + quantity as int
    ensures 0 < quantity <= current && !inbound ==> r as int == current as int - quantity as int
  {
    if inbound then Wrap(current as int + quantity as int)
    else Wrap(current as int - quantity as int)
  }

  /**
   * A movement as the source checks and applies it: the product must exist,
   * the quantity must be positive, an outbound must not exceed the stock,
   * and then the stock is updated with unchecked 32-bit arithmetic. The
   * result is the product's new quantity.
   */
  function MoveAsWritten(items: seq<StockItem>, code: Int32, inbound: bool, quantity: Int32): (r: Result<Int32, MoveError>)
    ensures r == Failure(ProductNotFound) <==> FindProduct(items, code).None?
    ensures r.Success? <==>
      && FindProduct(items, code).Some? && 0 < quantity
      && (inbound || quantity <= items[FindProduct(items, code).value].quantity)
    ensures r.Success? && inbound
            && items[FindProduct(items, code).value].quantity as int + quantity as int > MaxInt32
            ==> r.value < 0
  {
    match FindProduct(items, code)
    case None => Failure(ProductNotFound)
    case Some(i) =>
      if quantity <= 0 then Failure(InvalidQuantity)
      else if !inbound && quantity > items[i].quantity then Failure(InsufficientStock)
      else Success(NewQuantityAsWritten(items[i].quantity, quantity, inbound))
  }

  /**
   * An inbound movement of 2147483647 units passes every check of the
   * source and turns the 150 units of product 101 into a negative stock.
   */
  lemma InboundOverflowAsWritten()
    ensures NewQuantityAsWritten(150, 2147483647, true) == -2147483499
    ensures MoveAsWritten([StockItem(101, "Caneta Azul", 150)], 101, true, 2147483647) == Success(-2147483499)
  {
  }

  /**
   * One movement against the stock records `items` and the log `log`.
   * The checks run in the order of the source: the product must exist,
   * the quantity must be positive, an outbound must not exceed the stock.
   * An inbound that would take the stock past the 32-bit range is refused
   * too, where the source would wrap around.
   */
  function Move(items: seq<StockItem>, log: seq<Movement>, code: Int32, inbound: bool,
                quantity: Int32, description: string): (r: Result<Step, MoveError>)
    ensures r == Failure(ProductNotFound) <==> FindProduct(items, code).None?
    ensures r == Failure(InvalidQuantity) <==> FindProduct(items, code).Some? && quantity <= 0
    ensures r == Failure(InsufficientStock) <==>
      && FindProduct(items, code).Some? && 0 < quantity && !inbound
      && quantity > items[FindProduct(items, code).value].quantity
    ensures r == Failure(StockOverflow) <==>
      && FindProduct(items, code).Some? && 0 < quantity && inbound
      && items[FindProduct(items, code).value].quantity as int + quantity as int > MaxInt32
    ensures r.Success? ==>
      var i := FindProduct(items, code).value;
      var step := r.value;
      && step.log == log + [step.receipt.movement]
      && step.receipt.movement == Movement(|log|, code, description, quantity, inbound)
      && SameCodes(step.items, items)
      && step.items[i] == items[i].(quantity := step.receipt.newQuantity)
      && step.receipt.newQuantity as int == items[i].quantity as int + Delta(step.receipt.movement)
      && forall j :: 0 <= j < |items| && j != i ==> step.items[j] == items[j]
  {
    match FindProduct(items, code)
    case None => Failure(ProductNotFound)
    case Some(i) =>
      var product := items[i];
      if quantity <= 0 then Failure(InvalidQuantity)
      else if !inbound && quantity > product.quantity then Failure(InsufficientStock)
      else if inbound && product.quantity as int + quantity as int > MaxInt32 then Failure(StockOverflow)
      else
        var movement := Movement(|log|, product.code, description, quantity, inbound);
        var newQuantity := (product.quantity as int + Delta(movement)) as Int32;
        Success(Step(items[i := product.(quantity := newQuantity)], log + [movement],
                     Receipt(movement, newQuantity)))
  }

  // ---------------------------------------------------------------------
  // What movements preserve
  // ---------------------------------------------------------------------

  predicate NonNegative(items: seq<StockItem>)
  {
    forall j :: 0 <= j < |items| ==> items[j].quantity >= 0
  }

  /** Stock that starts non-negative stays non-negative after any accepted movement. */
  lemma MoveKeepsStockNonNegative(items: seq<StockItem>, log: seq<Movement>, code: Int32,
                                  inbound: bool, quantity: Int32, description: string)
    requires NonNegative(items)
    requires Move(items, log, code, inbound, quantity, description).Success?
    ensures NonNegative(Move(items, log, code, inbound, quantity, description).value.items)
  {
  }

  /** An inbound of q followed by an outbound of q restores every stock record. */
  lemma InboundThenOutboundRestores(items: seq<StockItem>, log: seq<Movement>, code: Int32,
                                    quantity: Int32, inDescription: string, outDescription: string)
    requires NonNegative(items)
    requires Move(items, log, code, true, quantity, inDescription).Success?
    ensures var first := Move(items, log, code, true, quantity, inDescription).value;
      var second := Move(first.items, first.log, code, false, quantity, outDescription);
      && second.Success?
      && second.value.items == items
      && second.value.log == log + [first.receipt.movement, second.value.receipt.movement]
  {
  }

  /** An outbound of q followed by an inbound of q restores every stock record. */
  lemma OutboundThenInboundRestores(items: seq<StockItem>, log: seq<Movement>, code: Int32,
                                    quantity: Int32, outDescription: string, inDescription: string)
    requires Move(items, log, code, false, quantity, outDescription).Success?
    ensures var first := Move(items, log, code, false, quantity, outDescription).value;
      var second := Move(first.items, first.log, code, true, quantity, inDescription);
      && second.Success?
      && second.value.items == items
      && second.value.log == log + [first.receipt.movement, second.value.receipt.movement]
  {
  }

  // ---------------------------------------------------------------------
  // The log accounts for the stock
  // ---------------------------------------------------------------------

  /**
   * The net quantity the log has moved into (positive) or out of
   * (negative) record `j` of `opening`: every movement acts on the first
   * record that carries its code.
   */
  function Flow(opening: seq<StockItem>, log: seq<Movement>, j: nat): int
  {
    if log == [] then 0
    else
      var last := log[|log| - 1];
      Flow(opening, log[..|log| - 1], j) + (if FindProduct(opening, last.code) == Some(j) then Delta(last) else 0)
  }

  /**
   * Every record keeps its code and description, and its quantity is its
   * opening quantity plus the net flow the log records into it.
   */
  predicate Balanced(opening: seq<StockItem>, items: seq<StockItem>, log: seq<Movement>)
  {
    && |items| == |opening|
    && forall j :: 0 <= j < |items| ==>
         && items[j].code == opening[j].code
         && items[j].description == opening[j].description
         && items[j].quantity as int == opening[j].quantity as int + Flow(opening, log, j)
  }

  /** An accepted movement keeps the stock and the log in agreement. */
  lemma MovePreservesBalance(opening: seq<StockItem>, items: seq<StockItem>, log: seq<Movement>,
                             code: Int32, inbound: bool, quantity: Int32, description: string)
    requires Balanced(opening, items, log)
    requires Move(items, log, code, inbound, quantity, description).Success?
    ensures var step := Move(items, log, code, inbound, quantity, description).value;
      Balanced(opening, step.items, step.log)
  {
  }

  /**
   * The invariant of a session: the log numbers its movements by position,
   * names only products that exist, and accounts for every change of stock
   * since the opening.
   */
  predicate LedgerInvariant(opening: seq<StockItem>, items: seq<StockItem>, log: seq<Movement>)
  {
    && Balanced(opening, items, log)
    && forall k :: 0 <= k < |log| ==> log[k].id == k && FindProduct(items, log[k].code).Some?
  }

  /** An accepted movement keeps the session invariant. */
  lemma MovePreservesInvariant(opening: seq<StockItem>, items: seq<StockItem>, log: seq<Movement>,
                               code: Int32, inbound: bool, quantity: Int32, description: string)
    requires LedgerInvariant(opening, items, log)
    requires Move(items, log, code, inbound, quantity, description).Success?
    ensures var step := Move(items, log, code, inbound, quantity, description).value;
      LedgerInvariant(opening, step.items, step.log)
  {
  }

  // ---------------------------------------------------------------------
  // The ledger object of the session
  // ---------------------------------------------------------------------

  /**
   * The stock records and the movement log of one session, updated in
   * place by each accepted movement.
   */
  class StockLedger {
    var items: seq<StockItem>
    var log: seq<Movement>
    ghost const opening: seq<StockItem>

    /** The session invariant over the current stock and log. */
    ghost predicate Valid()
      reads this
    {
      LedgerInvariant(opening, items, log)
    }

    constructor (stock: seq<StockItem>)
      ensures Valid()
      ensures items == stock && log == [] && opening == stock
    {
      items := stock;
      log := [];
      opening := stock;
    }

    /** Starts a session, refusing an empty dataset. */
    static method Open(stock: seq<StockItem>) returns (r: Option<StockLedger>)
      ensures r.None? <==> stock == []
      ensures r.Some? ==> fresh(r.value) && r.value.Valid()
      ensures r.Some? ==> r.value.items == stock && r.value.log == []
    {
      if stock == [] {
        r := None;
      } else {
        var ledger := new StockLedger(stock);
        r := Some(ledger);
      }
    }

    /** The record a movement for `code` would act on: the first with that code. */
    method Lookup(code: Int32) returns (r: Option<StockItem>)
      ensures r.None? <==> forall j :: 0 <= j < |items| ==> items[j].code != code
      ensures r.Some? ==> exists i :: 0 <= i < |items| && items[i] == r.value && r.value.code == code
                            && forall j :: 0 <= j < i ==> items[j].code != code
    {
      match FindProduct(items, code)
      case None =>
        r := None;
      case Some(i) =>
        r := Some(items[i]);
    }

    /**
     * Records a movement: refused with no change at all, or logged and
     * applied to the one product it names.
     */
    method Record(code: Int32, inbound: bool, quantity: Int32, description: string)
      returns (r: Result<Receipt, MoveError>)
      requires Valid()
      modifies this
      ensures Valid()
      ensures NonNegative(old(items)) ==> NonNegative(items)
      ensures match Move(old(items), old(log), code, inbound, quantity, description)
        case Success(step) => r == Success(step.receipt) && items == step.items && log == step.log
        case Failure(e) => r == Failure(e) && items == old(items) && log == old(log)
    {
      ghost var expected := Move(items, log, code, inbound, quantity, description);
      var found := FindProduct(items, code);
      if found.None? {
        return Failure(ProductNotFound);
      }
      var i := found.value;
      if quantity <= 0 {
        return Failure(InvalidQuantity);
      }
      var product := items[i];
      if !inbound && quantity > product.quantity {
        return Failure(InsufficientStock);
      }
      if inbound && product.quantity as int + quantity as int > MaxInt32 {
        return Failure(StockOverflow);
      }
      assert expected.Success?;
      MovePreservesInvariant(opening, items, log, code, inbound, quantity, description);
      if NonNegative(items) {
        MoveKeepsStockNonNegative(items, log, code, inbound, quantity, description);
      }
      var movement := Movement(|log|, product.code, description, quantity, inbound);
      log := log + [movement];
      var newQuantity: Int32;
      if inbound {
        newQuantity := product.quantity + quantity;
      } else {
        newQuantity := product.quantity - quantity;
      }
      items := items[i := product.(quantity := newQuantity)];
      r := Success(Receipt(movement, newQuantity));
      assert r == Success(expected.value.receipt);
      assert items == expected.value.items && log == expected.value.log;
    }
  }
}
