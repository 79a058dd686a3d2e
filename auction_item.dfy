/**
 * One item on offer at an auction house, and the rule by which a bid on it
 * is accepted: the item must be unsold and the amount must be strictly
 * above the current bid and at least the minimum. A bid that fails the rule
 * is ignored without a trace.
 */
module AuctionItems {

  /** The part of an item that bidding and selling change. */
  datatype BidState = BidState(currentBid: int, currentBidderId: int, sold: bool)

  /** State of an item nobody has bid on: no bid, bidder -1, not sold. */
  const Unbid: BidState := BidState(0, -1, false)

  /** The acceptance rule of `placeBid`. */
  predicate Accepts(b: BidState, minimumBid: int, amount: int) {
    !b.sold && amount > b.currentBid && amount >= minimumBid
  }

  /** Effect of `placeBid(agentId, amount)`. */
  function AfterBid(b: BidState, minimumBid: int, agentId: int, amount: int): (r: BidState)
    ensures Accepts(b, minimumBid, amount) ==> r == BidState(amount, agentId, b.sold)
    ensures !Accepts(b, minimumBid, amount) <==> r == b
  {
    if Accepts(b, minimumBid, amount) then b.(currentBid := amount, currentBidderId := agentId) else b
  }

  /** Effect of `markAsSold()`. */
  function AfterSale(b: BidState): (r: BidState)
    ensures r.sold && r.currentBid == b.currentBid && r.currentBidderId == b.currentBidderId
  {
    b.(sold := true)
  }

  /** A call on an item, as a sequence of calls can be replayed. */
  datatype ItemCall = PlaceBid(agentId: int, amount: int) | MarkAsSold

  function Apply(b: BidState, minimumBid: int, call: ItemCall): BidState {
    match call
    case PlaceBid(agentId, amount) => AfterBid(b, minimumBid, agentId, amount)
    case MarkAsSold => AfterSale(b)
  }

  /** The state after a sequence of calls, in order. */
  function Replay(b: BidState, minimumBid: int, calls: seq<ItemCall>): (r: BidState)
    ensures r.sold <==> b.sold || MarkAsSold in calls
    decreases |calls|
  {
    if calls == [] then b else Replay(Apply(b, minimumBid, calls[0]), minimumBid, calls[1..])
  }

  /**
   * What every item satisfies: the current bid is never negative; it is 0
   * only while nobody has bid, and otherwise it is at least the minimum.
   */
  predicate BidInvariant(b: BidState, minimumBid: int) {
    b.currentBid >= 0
    && (b.currentBid == 0 || b.currentBid >= minimumBid)
    && (b.currentBid == 0 ==> b.currentBidderId == -1)
  }

  lemma UnbidSatisfiesInvariant(minimumBid: int)
    ensures BidInvariant(Unbid, minimumBid)
  {
  }

  /** The current bid never goes down, whatever calls are made. */
  lemma {:induction false} ReplayNeverLowersBid(b: BidState, minimumBid: int, calls: seq<ItemCall>)
    ensures Replay(b, minimumBid, calls).currentBid >= b.currentBid
    decreases |calls|
  {
    if calls != [] {
      ReplayNeverLowersBid(Apply(b, minimumBid, calls[0]), minimumBid, calls[1..]);
    }
  }

  /** Every sequence of calls keeps the invariant. */
  lemma {:induction false} ReplayKeepsInvariant(b: BidState, minimumBid: int, calls: seq<ItemCall>)
    requires BidInvariant(b, minimumBid)
    ensures BidInvariant(Replay(b, minimumBid, calls), minimumBid)
    decreases |calls|
  {
    if calls != [] {
      ReplayKeepsInvariant(Apply(b, minimumBid, calls[0]), minimumBid, calls[1..]);
    }
  }

  /** Once sold, an item ignores every further call: no more bids, and selling again changes nothing. */
  lemma {:induction false} SoldIsFinal(b: BidState, minimumBid: int, calls: seq<ItemCall>)
    requires b.sold
    ensures Replay(b, minimumBid, calls) == b
    decreases |calls|
  {
    if calls != [] {
      SoldIsFinal(Apply(b, minimumBid, calls[0]), minimumBid, calls[1..]);
    }
  }

  /** Selling twice is selling once. */
  lemma SaleIsIdempotent(b: BidState)
    ensures AfterSale(AfterSale(b)) == AfterSale(b)
  {
  }

  /** Nothing stops the current high bidder from outbidding themselves. */
  lemma HighBidderMayRaise(b: BidState, minimumBid: int, amount: int)
    requires !b.sold && amount > b.currentBid && amount >= minimumBid
    ensures AfterBid(b, minimumBid, b.currentBidderId, amount) == BidState(amount, b.currentBidderId, false)
  {
  }

  /** The item itself: identity, description and minimum are fixed; bid state changes in place. */
  class AuctionItem {
    const itemId: int
    const description: string
    const minimumBid: int
    var currentBid: int
    var currentBidderId: int
    var sold: bool
    var active: bool

    function Bidding(): BidState
      reads this
    {
      BidState(currentBid, currentBidderId, sold)
    }

    ghost predicate Valid()
      reads this
    {
      BidInvariant(Bidding(), minimumBid)
    }

    constructor (itemId: int, description: string, minimumBid: int)
      ensures this.itemId == itemId && this.description == description && this.minimumBid == minimumBid
      ensures Bidding() == Unbid && !active
      ensures Valid()
    {
      this.itemId := itemId;
      this.description := description;
      this.minimumBid := minimumBid;
      currentBid := 0;
      currentBidderId := -1;
      sold := false;
      active := false;
    }

    method PlaceBid(agentId: int, bidAmount: int)
      modifies this`currentBid, this`currentBidderId
      ensures Bidding() == AfterBid(old(Bidding()), minimumBid, agentId, bidAmount)
      ensures old(Valid()) ==> Valid()
    {
      if sold || bidAmount <= currentBid || bidAmount < minimumBid {
        return;
      }
      currentBid := bidAmount;
      currentBidderId := agentId;
    }

    method MarkAsSold()
      modifies this`sold
      ensures Bidding() == AfterSale(old(Bidding()))
      ensures old(Valid()) ==> Valid()
    {
      sold := true;
    }

    method SetActive(active: bool)
      modifies this`active
      ensures this.active == active
    {
      this.active := active;
    }
  }
}
