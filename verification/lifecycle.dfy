/** How the operations compose over a product's life: which status changes
    each one can make, and what happens when annulment, new bids and sale
    confirmation interleave. */
module Lifecycle {
  import opened Domain
  import Bidding
  import Annulment
  import Closing
  import Sales
  import Conversations

  /** The status lifecycle of a product: no change, active to pending
      confirmation for an auction, pending confirmation to sold, or active to
      sold for a direct sale. */
  predicate AllowedTransition(p: Product, q: Product) {
    || p.status == q.status
    || (p.status == Active && q.status == PendingConfirmation && p.saleType == Auction)
    || (p.status == PendingConfirmation && q.status == Sold)
    || (p.status == Active && q.status == Sold && p.saleType == DirectSale)
  }

  /** Bids, annulments, the sweep and direct purchases only make allowed
      status changes; a sale confirmation makes one exactly when the product
      is not an active auction, because confirmation never looks at the status. */
  lemma OperationsFollowLifecycle(caller: Option<UserId>, banned: bool, admin: bool, productId: ProductId,
                                  bidAmount: Option<int>, bidId: BidId, annulledUserId: UserId,
                                  stored: Option<Product>, ledger: seq<Bid>, ranked: seq<Bid>,
                                  products: seq<Product>, now: int)
    ensures var r := Bidding.PlaceBid(caller, banned, productId, bidAmount, stored, ledger, bidId);
      r.Ok? ==> AllowedTransition(stored.value, r.value.product)
    ensures var r := Annulment.AnnulBid(admin, productId, bidId, annulledUserId, stored, ledger, ranked);
      r.Ok? ==> AllowedTransition(stored.value, r.value.product)
    ensures var r := Sales.BuyNow(caller, banned, productId, stored);
      r.Ok? ==> AllowedTransition(stored.value, r.value)
    ensures var r := Closing.CloseAuctions(products, now);
      forall i :: 0 <= i < |products| ==> AllowedTransition(products[i], r.products[i])
    ensures var r := Sales.ConfirmSale(admin, productId, stored);
      r.Ok? ==> (AllowedTransition(stored.value, r.value.product)
                 <==> !(stored.value.status == Active && stored.value.saleType == Auction))
  {
  }

  /** Annulment writes `winnerId` even while the auction is still running,
      and confirmation only asks for a winner: an active auction can go
      straight to sold, skipping the close. */
  lemma ConfirmSaleCanSkipClosing(p: Product)
    requires p.saleType == Auction && p.status == Active
    ensures var ranked := [Bid("b2", "B", 200), Bid("a1", "A", 150)];
      var annulled := Annulment.AnnulBid(true, "p", "b2", "B", Some(p), ranked, ranked);
      && annulled.Ok?
      && annulled.value.product.winnerId == Some("A")
      && var sold := Sales.ConfirmSale(true, "p", Some(annulled.value.product));
      && sold.Ok?
      && sold.value.product.status == Sold
      && !AllowedTransition(p, sold.value.product)
  {
    var ranked := [Bid("b2", "B", 200), Bid("a1", "A", 150)];
    Annulment.FindCons(ranked, Annulment.NotBy("B"));
    Annulment.FindCons(ranked[1..], Annulment.NotBy("B"));
  }

  /** Annulment removes one bid and the user from `bidderIds`, but leaves that
      user's other bids in the ledger. A later annulment of someone else can
      then hand the lead back to them: here A ends as leader at 180 while no
      longer listed among the bidders. */
  lemma AnnulledUserCanRegainLead(p: Product)
    requires p.saleType == Auction && p.status == Active
    requires p.bidderIds == ["B", "A"] && p.highestBidderId == Some("A") && p.currentPrice == Some(200)
    ensures
      var b1, a1, a2, c1 := Bid("b1", "B", 150), Bid("a1", "A", 180), Bid("a2", "A", 200), Bid("c1", "C", 160);
      // the administrator annuls A's top bid: B leads at 150
      var first := Annulment.AnnulBid(true, "p", "a2", "A", Some(p), [b1, a1, a2], [a2, a1, b1]);
      && first.Ok?
      && first.value.product.highestBidderId == Some("B")
      && first.value.product.currentPrice == Some(150)
      && first.value.ledger == [b1, a1]
      // C outbids B at 160
      && var bid := Bidding.PlaceBid(Some("C"), false, "p", Some(160), Some(first.value.product), first.value.ledger, "c1");
      && bid.Ok?
      && bid.value.ledger == [b1, a1, c1]
      // the administrator annuls C's bid: A's remaining 180 now leads
      && var second := Annulment.AnnulBid(true, "p", "c1", "C", Some(bid.value.product), bid.value.ledger, [a1, c1, b1]);
      && second.Ok?
      && second.value.product.highestBidderId == Some("A")
      && second.value.product.currentPrice == Some(180)
      && "A" !in second.value.product.bidderIds
  {
    var b1, a1, a2, c1 := Bid("b1", "B", 150), Bid("a1", "A", 180), Bid("a2", "A", 200), Bid("c1", "C", 160);
    var ranked1 := [a2, a1, b1];
    Annulment.FindCons(ranked1, Annulment.NotBy("A"));
    assert ranked1[1..] == [a1, b1];
    Annulment.FindCons([a1, b1], Annulment.NotBy("A"));
    assert [a1, b1][1..] == [b1];
    Annulment.FindCons([b1], Annulment.NotBy("A"));
    assert Annulment.NextLeader(ranked1, "A") == Some(b1);
    assert [b1, a1, a2][1..] == [a1, a2];
    assert [a1, a2][1..] == [a2];
    assert Annulment.DeleteBid([a2], "a2") == [];
    assert Annulment.DeleteBid([a1, a2], "a2") == [a1];
    assert Annulment.DeleteBid([b1, a1, a2], "a2") == [b1, a1];
    var first := Annulment.AnnulBid(true, "p", "a2", "A", Some(p), [b1, a1, a2], ranked1);
    assert first.value.product.highestBidderId == Some("B");
    var bid := Bidding.PlaceBid(Some("C"), false, "p", Some(160), Some(first.value.product), first.value.ledger, "c1");
    assert bid.Ok?;
    Annulment.FindCons([a1, c1, b1], Annulment.NotBy("C"));
  }

  /** After a sale is confirmed, the winner's conversation is closed, so a
      message in it no longer pushes a notification. */
  lemma ConfirmedSaleSilencesWinnerChat(admin: bool, productId: ProductId, stored: Option<Product>,
                                        convos: map<string, Conversations.Conversation>,
                                        message: Option<Conversations.ChatMessage>,
                                        devices: map<UserId, seq<Token>>)
    ensures var r := Sales.ConfirmSale(admin, productId, stored);
      r.Ok? ==>
        var key := Conversations.ConversationId(productId, stored.value.winnerId.value);
        Conversations.ChatNotification(key, Conversations.CloseConversation(convos, r.value.closedConversation), message, devices).None?
  {
  }
}
