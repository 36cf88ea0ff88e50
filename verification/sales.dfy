/** The two ways a product becomes sold: a direct purchase of a fixed-price
    listing, and an administrator confirming the winner of a closed auction. */
module Sales {
  import opened Domain
  import Conversations

  /** Every field a direct purchase does not write is unchanged. */
  predicate SameOutsideBuyFields(p: Product, q: Product) {
    && p.id == q.id
    && p.saleType == q.saleType
    && p.startPrice == q.startPrice
    && p.currentPrice == q.currentPrice
    && p.highestBidderId == q.highestBidderId
    && p.winnerId == q.winnerId
    && p.bidderIds == q.bidderIds
    && p.sellerId == q.sellerId
    && p.endTime == q.endTime
  }

  /** `buyNow` by `caller` (None: no auth), whose banned flag is `banned`,
      on the product document `stored` read for `productId`. */
  function BuyNow(caller: Option<UserId>, banned: bool, productId: ProductId, stored: Option<Product>): (r: Result<Product>)
    // the checks fail in this order
    ensures caller.None? ==> r == Err(Unauthenticated)
    ensures caller.Some? && banned ==> r == Err(PermissionDenied)
    ensures caller.Some? && !banned && productId == "" ==> r == Err(InvalidArgument)
    ensures caller.Some? && !banned && productId != "" && stored.None? ==> r == Err(NotFound)
    ensures (caller.Some? && !banned && productId != "" && stored.Some?
             && stored.value.saleType != DirectSale) ==> r == Err(FailedPrecondition)
    ensures (caller.Some? && !banned && productId != "" && stored.Some?
             && stored.value.status != Active) ==> r == Err(FailedPrecondition)
    ensures (caller.Some? && !banned && productId != "" && stored.Some?
             && stored.value.sellerId == caller.value) ==> r == Err(FailedPrecondition)
    ensures r.Ok? <==>
      && caller.Some? && !banned && productId != "" && stored.Some?
      && stored.value.saleType == DirectSale && stored.value.status == Active
      && stored.value.sellerId != caller.value
    // a committed purchase
    ensures r.Ok? ==>
      && r.value.status == Sold
      && r.value.buyerId == Some(caller.value)
      && r.value.buyerId != Some(r.value.sellerId)
      && SameOutsideBuyFields(stored.value, r.value)
  {
    if caller.None? then Err(Unauthenticated)
    else if banned then Err(PermissionDenied)
    else if productId == "" then Err(InvalidArgument)
    else if stored.None? then Err(NotFound)
    else
      var p := stored.value;
      if p.saleType != DirectSale then Err(FailedPrecondition)
      else if p.status != Active then Err(FailedPrecondition)
      else if p.sellerId == caller.value then Err(FailedPrecondition)
      else Ok(p.(status := Sold, buyerId := Some(caller.value)))
  }

  /** A listing can be bought once: a second purchase, by anyone, is refused. */
  lemma BuyNowOnlyOnce(caller: Option<UserId>, other: Option<UserId>, banned: bool, productId: ProductId, stored: Option<Product>)
    ensures var r := BuyNow(caller, banned, productId, stored);
      r.Ok? ==> BuyNow(other, false, productId, Some(r.value)).Err?
  {
  }

  /** A confirmed sale: the product, and the key of the winner's conversation
      that is closed with it. */
  datatype SaleOutcome = SaleOutcome(product: Product, closedConversation: string)

  /** `confirmSale` by a caller whose admin flag is `admin`, for the product
      document `stored` read for `productId`. The product's status is not
      consulted. */
  function ConfirmSale(admin: bool, productId: ProductId, stored: Option<Product>): (r: Result<SaleOutcome>)
    ensures !admin ==> r == Err(PermissionDenied)
    ensures admin && productId == "" ==> r == Err(InvalidArgument)
    ensures admin && productId != "" && stored.None? ==> r == Err(NotFound)
    ensures (admin && productId != "" && stored.Some? && !Present(stored.value.winnerId)) ==> r == Err(FailedPrecondition)
    ensures r.Ok? <==> admin && productId != "" && stored.Some? && Present(stored.value.winnerId)
    ensures r.Ok? ==>
      && r.value.product.status == Sold
      && r.value.product == stored.value.(status := r.value.product.status)
      && r.value.closedConversation == Conversations.ConversationId(productId, stored.value.winnerId.value)
  {
    if !admin then Err(PermissionDenied)
    else if productId == "" then Err(InvalidArgument)
    else if stored.None? then Err(NotFound)
    else
      var p := stored.value;
      if !Present(p.winnerId) then Err(FailedPrecondition)
      else Ok(SaleOutcome(p.(status := Sold), Conversations.ConversationId(productId, p.winnerId.value)))
  }

  /** Confirming twice succeeds twice and leaves the same state as
      confirming once, closing the same conversation again. */
  lemma ConfirmSaleIdempotent(admin: bool, productId: ProductId, stored: Option<Product>)
    ensures var r := ConfirmSale(admin, productId, stored);
      r.Ok? ==> ConfirmSale(admin, productId, Some(r.value.product)) == r
  {
  }
}
