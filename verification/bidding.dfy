/** Bid placement: the input checks, the read-validate-write on the product
    and its ledger, and the choice of who receives the "outbid" notice.
    The transaction is one atomic step here; its retry loop is not modelled. */
module Bidding {
  import opened Domain

  /** What a committed bid leaves behind: the product, the ledger, and the
      previous leader to tell they were outbid, if any. */
  datatype BidOutcome = BidOutcome(product: Product, ledger: seq<Bid>, outbid: Option<UserId>)

  /** `productId` is truthy and `bidAmount` is a positive number. */
  predicate ValidBidInput(productId: ProductId, bidAmount: Option<int>) {
    productId != "" && bidAmount.Some? && bidAmount.value > 0
  }

  /** Every field a bid does not write is unchanged from `p` to `q`. */
  predicate SameOutsideBidFields(p: Product, q: Product) {
    && p.id == q.id
    && p.saleType == q.saleType
    && p.status == q.status
    && p.startPrice == q.startPrice
    && p.winnerId == q.winnerId
    && p.sellerId == q.sellerId
    && p.buyerId == q.buyerId
    && p.endTime == q.endTime
  }

  /** `placeBid` by `caller` (None: no auth), whose banned flag is `banned`,
      on the product document `stored` read for `productId` with ledger
      `ledger`; `newBidId` is the id the new bid document gets. */
  function PlaceBid(caller: Option<UserId>, banned: bool, productId: ProductId, bidAmount: Option<int>,
                    stored: Option<Product>, ledger: seq<Bid>, newBidId: BidId): (r: Result<BidOutcome>)
    // the checks fail in this order
    ensures caller.None? ==> r == Err(Unauthenticated)
    ensures caller.Some? && banned ==> r == Err(PermissionDenied)
    ensures caller.Some? && !banned && !ValidBidInput(productId, bidAmount) ==> r == Err(InvalidArgument)
    ensures caller.Some? && !banned && ValidBidInput(productId, bidAmount) && stored.None? ==> r == Err(NotFound)
    ensures (caller.Some? && !banned && ValidBidInput(productId, bidAmount) && stored.Some?
             && stored.value.status != Active) ==> r == Err(FailedPrecondition)
    ensures (caller.Some? && !banned && ValidBidInput(productId, bidAmount) && stored.Some?
             && bidAmount.value <= OrZero(stored.value.currentPrice)) ==> r == Err(FailedPrecondition)
    ensures r.Ok? <==>
      && caller.Some? && !banned && ValidBidInput(productId, bidAmount) && stored.Some?
      && stored.value.status == Active && bidAmount.value > OrZero(stored.value.currentPrice)
    // a committed bid
    ensures r.Ok? ==>
      var p, q := stored.value, r.value.product;
      && q.currentPrice == Some(bidAmount.value)
      && OrZero(p.currentPrice) < OrZero(q.currentPrice)
      && q.highestBidderId == Some(caller.value)
      && Members(q.bidderIds) == Members(p.bidderIds) + {caller.value}
      && p.bidderIds <= q.bidderIds
      && |q.bidderIds| <= |p.bidderIds| + 1
      && (caller.value in p.bidderIds ==> q.bidderIds == p.bidderIds)
      && SameOutsideBidFields(p, q)
      && r.value.ledger == ledger + [Bid(newBidId, caller.value, bidAmount.value)]
    // the outbid notice goes to the previous leader only, and only when that is someone else
    ensures r.Ok? ==>
      var previous := stored.value.highestBidderId;
      && (r.value.outbid.Some? <==> Present(previous) && previous.value != caller.value)
      && (r.value.outbid.Some? ==> r.value.outbid == previous)
  {
    if caller.None? then Err(Unauthenticated)
    else if banned then Err(PermissionDenied)
    else if !ValidBidInput(productId, bidAmount) then Err(InvalidArgument)
    else if stored.None? then Err(NotFound)
    else
      var p := stored.value;
      var bidder := caller.value;
      var amount := bidAmount.value;
      var previous := OrNull(p.highestBidderId);
      if p.status != Active then Err(FailedPrecondition)
      else if amount <= OrZero(p.currentPrice) then Err(FailedPrecondition)
      else
        var q := p.(currentPrice := Some(amount),
                    highestBidderId := Some(bidder),
                    bidderIds := ArrayUnion(p.bidderIds, bidder));
        var outbid := if Present(previous) && previous.value != bidder then previous else None;
        Ok(BidOutcome(q, ledger + [Bid(newBidId, bidder, amount)], outbid))
  }

  /** The bid at the boundary: on an active product, any amount at or below
      the current price (a missing price counting as 0) is refused as a failed
      precondition, and one unit above it is accepted. The sale type is
      never consulted. */
  lemma BidBoundary(caller: UserId, productId: ProductId, p: Product, ledger: seq<Bid>, newBidId: BidId, amount: int)
    requires productId != "" && p.status == Active && amount > 0
    ensures amount <= OrZero(p.currentPrice) ==>
              PlaceBid(Some(caller), false, productId, Some(amount), Some(p), ledger, newBidId) == Err(FailedPrecondition)
    ensures amount == OrZero(p.currentPrice) + 1 ==>
              PlaceBid(Some(caller), false, productId, Some(amount), Some(p), ledger, newBidId).Ok?
    ensures amount == OrZero(p.currentPrice) + 1 ==>
              PlaceBid(Some(caller), false, productId, Some(amount), Some(p.(saleType := DirectSale)), ledger, newBidId).Ok?
  {
  }

  /** One bid request against a single product. */
  datatype BidRequest = BidRequest(caller: Option<UserId>, banned: bool, bidAmount: Option<int>, newBidId: BidId)

  /** A product together with its ledger. */
  datatype AuctionState = AuctionState(product: Product, ledger: seq<Bid>)

  /** The state after one request: the committed outcome, or the old state
      when the request fails. */
  function ApplyBid(s: AuctionState, q: BidRequest): AuctionState {
    match PlaceBid(q.caller, q.banned, s.product.id, q.bidAmount, Some(s.product), s.ledger, q.newBidId)
    case Ok(o) => AuctionState(o.product, o.ledger)
    case Err(_) => s
  }

  /** The requests committed one after another, as the transactions serialise them. */
  function RunBids(s: AuctionState, qs: seq<BidRequest>): AuctionState
    decreases |qs|
  {
    if |qs| == 0 then s else RunBids(ApplyBid(s, qs[0]), qs[1..])
  }

  /** Amounts strictly increasing, all above `floor`. */
  predicate IncreasingAbove(bids: seq<Bid>, floor: int) {
    && (forall i :: 0 <= i < |bids| ==> floor < bids[i].amount)
    && (forall i, j :: 0 <= i < j < |bids| ==> bids[i].amount < bids[j].amount)
  }

  /** `t` is `s` after zero or more committed bids: the ledger only grew,
      the bids it gained have strictly increasing amounts all above the old
      price, the status is the same, and the price is the last gained amount
      (or the product is untouched when nothing was gained). */
  predicate Grows(s: AuctionState, t: AuctionState) {
    && s.ledger <= t.ledger
    && IncreasingAbove(t.ledger[|s.ledger|..], OrZero(s.product.currentPrice))
    && t.product.status == s.product.status
    && (|t.ledger| == |s.ledger| ==> t.product == s.product)
    && (|t.ledger| > |s.ledger| ==> t.product.currentPrice == Some(t.ledger[|t.ledger| - 1].amount))
  }

  /** One request either changes nothing or commits one bid. */
  lemma ApplyBidGrows(s: AuctionState, q: BidRequest)
    ensures Grows(s, ApplyBid(s, q))
    ensures |ApplyBid(s, q).ledger| <= |s.ledger| + 1
  {
    var s1 := ApplyBid(s, q);
    if s1 != s {
      assert s1.ledger[|s.ledger|..] == [s1.ledger[|s.ledger|]];
    }
  }

  lemma GrowsTransitive(s: AuctionState, m: AuctionState, t: AuctionState)
    requires Grows(s, m) && Grows(m, t)
    ensures Grows(s, t)
  {
    var n, k := |s.ledger|, |m.ledger|;
    var first, later := m.ledger[n..], t.ledger[k..];
    var added := t.ledger[n..];
    assert added == first + later;
    if |first| > 0 {
      var top := first[|first| - 1].amount;
      assert m.ledger[k - 1].amount == top;
      assert OrZero(m.product.currentPrice) == top;
      forall i, j | 0 <= i < j < |added|
        ensures added[i].amount < added[j].amount
      {
        if j >= |first| {
          assert added[j] == later[j - |first|];
          if i < |first| {
            assert first[i].amount <= top;
          }
        }
      }
    }
  }

  /** Under any serial order of bid requests the ledger only grows, the bids
      it gains have strictly increasing amounts all above the starting price,
      the price never goes down, and it ends at the last committed amount. */
  lemma {:induction false} RunBidsRaisesPrice(s: AuctionState, qs: seq<BidRequest>)
    ensures Grows(s, RunBids(s, qs))
    ensures OrZero(s.product.currentPrice) <= OrZero(RunBids(s, qs).product.currentPrice)
    decreases |qs|
  {
    var t := RunBids(s, qs);
    if |qs| == 0 {
      assert t == s;
      assert t.ledger[|s.ledger|..] == [];
    } else {
      var s1 := ApplyBid(s, qs[0]);
      assert t == RunBids(s1, qs[1..]);
      RunBidsRaisesPrice(s1, qs[1..]);
      ApplyBidGrows(s, qs[0]);
      GrowsTransitive(s, s1, t);
    }
    if |t.ledger| > |s.ledger| {
      assert t.ledger[|t.ledger| - 1] == t.ledger[|s.ledger|..][|t.ledger| - 1 - |s.ledger|];
    }
  }
}
