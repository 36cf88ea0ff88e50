/** Bid annulment and re-ranking: an administrator deletes one bid and the
    product's leader and price are recomputed by a linear scan of the bids,
    highest amount first, skipping every bid of the annulled user. */
module Annulment {
  import opened Domain
  import Conversations

  /** What a committed annulment leaves behind: the product, the ledger
      without the deleted bid, and the key of the conversation it closes. */
  datatype AnnulOutcome = AnnulOutcome(product: Product, ledger: seq<Bid>, closedConversation: string)

  /** `ranked` is `ledger` in the order the amount-descending query returns
      it; equal amounts may come in any order. */
  predicate IsRanking(ranked: seq<Bid>, ledger: seq<Bid>) {
    && multiset(ranked) == multiset(ledger)
    && forall i, j :: 0 <= i < j < |ranked| ==> ranked[i].amount >= ranked[j].amount
  }

  /** The scan's filter: a bid by anyone but the annulled user. */
  function NotBy(annulledUserId: UserId): Bid -> bool {
    (b: Bid) => b.userId != annulledUserId
  }

  /** The new leading bid: the first bid of the ranked snapshot not placed by
      the annulled user. */
  function NextLeader(ranked: seq<Bid>, annulledUserId: UserId): (r: Option<Bid>)
    ensures r.None? <==> forall i :: 0 <= i < |ranked| ==> ranked[i].userId == annulledUserId
    ensures r.Some? ==>
      exists k :: 0 <= k < |ranked| && ranked[k] == r.value && r.value.userId != annulledUserId
                  && forall j :: 0 <= j < k ==> ranked[j].userId == annulledUserId
  {
    Find(ranked, NotBy(annulledUserId))
  }

  /** The ledger after the batched delete of document `bidId`. */
  function DeleteBid(ledger: seq<Bid>, bidId: BidId): (r: seq<Bid>)
    ensures forall b :: b in r <==> b in ledger && b.bidId != bidId
    ensures |r| <= |ledger|
  {
    if |ledger| == 0 then []
    else if ledger[0].bidId == bidId then DeleteBid(ledger[1..], bidId)
    else [ledger[0]] + DeleteBid(ledger[1..], bidId)
  }

  /** Every product field an annulment does not write is unchanged. */
  predicate SameOutsideAnnulFields(p: Product, q: Product) {
    && p.id == q.id
    && p.saleType == q.saleType
    && p.status == q.status
    && p.startPrice == q.startPrice
    && p.sellerId == q.sellerId
    && p.buyerId == q.buyerId
    && p.endTime == q.endTime
  }

  /** `annulBid` by a caller whose admin flag is `admin`, deleting bid
      `bidId` of product `productId` (document `stored`, ledger `ledger`).
      `ranked` is the amount-descending snapshot of the bids, read before the
      delete commits, so it may still hold the deleted bid. */
  function AnnulBid(admin: bool, productId: ProductId, bidId: BidId, annulledUserId: UserId,
                    stored: Option<Product>, ledger: seq<Bid>, ranked: seq<Bid>): (r: Result<AnnulOutcome>)
    ensures !admin ==> r == Err(PermissionDenied)
    ensures admin && (productId == "" || bidId == "" || annulledUserId == "") ==> r == Err(InvalidArgument)
    ensures (admin && productId != "" && bidId != "" && annulledUserId != "" && stored.None?) ==> r == Err(Internal)
    ensures r.Ok? <==> admin && productId != "" && bidId != "" && annulledUserId != "" && stored.Some?
    // the re-rank
    ensures r.Ok? ==>
      var p, q := stored.value, r.value.product;
      && q.winnerId == q.highestBidderId
      && q.highestBidderId != Some(annulledUserId)
      && (q.highestBidderId.None? <==> forall i :: 0 <= i < |ranked| ==> ranked[i].userId == annulledUserId)
      && (q.highestBidderId.None? ==> q.currentPrice == Some(OrZero(p.startPrice)))
      && (q.highestBidderId.Some? ==>
            exists k :: 0 <= k < |ranked| && ranked[k].userId == q.highestBidderId.value
                        && q.currentPrice == Some(ranked[k].amount)
                        && forall j :: 0 <= j < k ==> ranked[j].userId == annulledUserId)
    // what else changes
    ensures r.Ok? ==>
      var p, q := stored.value, r.value.product;
      && Members(q.bidderIds) == Members(p.bidderIds) - {annulledUserId}
      && SameOutsideAnnulFields(p, q)
      && (forall b :: b in r.value.ledger <==> b in ledger && b.bidId != bidId)
      && r.value.closedConversation == Conversations.ConversationId(productId, annulledUserId)
  {
    if !admin then Err(PermissionDenied)
    else if productId == "" || bidId == "" || annulledUserId == "" then Err(InvalidArgument)
    else if stored.None? then Err(Internal)
    else
      var p := stored.value;
      var k := FirstIndex(ranked, NotBy(annulledUserId));
      var leader := NextLeader(ranked, annulledUserId);
      var newLeader := if leader.Some? then Some(leader.value.userId) else None;
      var newPrice := if leader.Some? then leader.value.amount else OrZero(p.startPrice);
      var q := p.(winnerId := newLeader,
                  highestBidderId := newLeader,
                  currentPrice := Some(newPrice),
                  bidderIds := ArrayRemove(p.bidderIds, annulledUserId));
      assert leader.Some? ==> ranked[k] == leader.value && NotBy(annulledUserId)(ranked[k]);
      assert forall j :: 0 <= j < k ==> !NotBy(annulledUserId)(ranked[j]);
      Ok(AnnulOutcome(q, DeleteBid(ledger, bidId), Conversations.ConversationId(productId, annulledUserId)))
  }

  /** When the snapshot is a true ranking of the ledger, the new price is the
      highest amount any other user has in the ledger, the new leader holds
      such a bid, and the product falls back to its start price exactly when
      the annulled user owns every bid. */
  lemma AnnulPicksBestOtherBid(admin: bool, productId: ProductId, bidId: BidId, annulledUserId: UserId,
                               stored: Option<Product>, ledger: seq<Bid>, ranked: seq<Bid>)
    requires IsRanking(ranked, ledger)
    ensures var r := AnnulBid(admin, productId, bidId, annulledUserId, stored, ledger, ranked);
      r.Ok? ==>
        var q := r.value.product;
        && (forall b :: b in ledger && b.userId != annulledUserId ==> b.amount <= OrZero(q.currentPrice))
        && (q.highestBidderId.Some? ==>
              exists b :: b in ledger && b.userId == q.highestBidderId.value && q.currentPrice == Some(b.amount))
        && (q.highestBidderId.None? <==> forall b :: b in ledger ==> b.userId == annulledUserId)
  {
    var r := AnnulBid(admin, productId, bidId, annulledUserId, stored, ledger, ranked);
    if r.Ok? {
      var q := r.value.product;
      RankingHasLedgerBids(ranked, ledger);
      if q.highestBidderId.Some? {
        var k :| 0 <= k < |ranked| && ranked[k].userId == q.highestBidderId.value
                 && q.currentPrice == Some(ranked[k].amount)
                 && forall j :: 0 <= j < k ==> ranked[j].userId == annulledUserId;
        forall b | b in ledger && b.userId != annulledUserId
          ensures b.amount <= ranked[k].amount
        {
          var m :| 0 <= m < |ranked| && ranked[m] == b;
          assert k <= m;
        }
        assert ranked[k] in ledger;
      }
    }
  }

  /** A ranking holds exactly the ledger's bids. */
  lemma RankingHasLedgerBids(ranked: seq<Bid>, ledger: seq<Bid>)
    requires multiset(ranked) == multiset(ledger)
    ensures forall b :: b in ledger <==> b in ranked
  {
    forall b
      ensures b in ledger <==> b in ranked
    {
      assert b in multiset(ledger) <==> b in multiset(ranked);
    }
  }

  /** Deleting a bid of the annulled user does not change the scan: that bid
      is skipped anyway. */
  lemma {:induction false} NextLeaderIgnoresOwnBid(ranked: seq<Bid>, bidId: BidId, annulledUserId: UserId)
    requires forall i :: 0 <= i < |ranked| && ranked[i].bidId == bidId ==> ranked[i].userId == annulledUserId
    ensures NextLeader(DeleteBid(ranked, bidId), annulledUserId) == NextLeader(ranked, annulledUserId)
  {
    if |ranked| > 0 {
      var rest := DeleteBid(ranked[1..], bidId);
      NextLeaderIgnoresOwnBid(ranked[1..], bidId, annulledUserId);
      FindCons(ranked, NotBy(annulledUserId));
      if ranked[0].bidId != bidId {
        assert DeleteBid(ranked, bidId) == [ranked[0]] + rest;
        FindCons([ranked[0]] + rest, NotBy(annulledUserId));
        assert ([ranked[0]] + rest)[1..] == rest;
      }
    }
  }

  /** `Find` looks at the head, then at the tail. */
  lemma FindCons(s: seq<Bid>, keep: Bid -> bool)
    requires |s| > 0
    ensures Find(s, keep) == if keep(s[0]) then Some(s[0]) else Find(s[1..], keep)
  {
  }

  /** The snapshot is read before the delete commits, yet when the deleted
      bid belongs to the annulled user the annulment commits exactly what a
      scan of the post-delete bids would give. */
  lemma ScanBeforeDeleteIsHarmless(admin: bool, productId: ProductId, bidId: BidId, annulledUserId: UserId,
                                   stored: Option<Product>, ledger: seq<Bid>, ranked: seq<Bid>)
    requires forall i :: 0 <= i < |ranked| && ranked[i].bidId == bidId ==> ranked[i].userId == annulledUserId
    ensures AnnulBid(admin, productId, bidId, annulledUserId, stored, ledger, ranked)
         == AnnulBid(admin, productId, bidId, annulledUserId, stored, ledger, DeleteBid(ranked, bidId))
  {
    NextLeaderIgnoresOwnBid(ranked, bidId, annulledUserId);
  }

  /** The bid id and the annulled user are independent inputs. When the
      deleted bid belongs to someone else, the snapshot read before the
      delete still holds it and the scan promotes it: here B's deleted bid of
      300 leads while the ledger keeps only A's 200. */
  lemma ScanCanPromoteDeletedBid(p: Product)
    ensures var ledger := [Bid("b1", "B", 300), Bid("a1", "A", 200)];
      var r := AnnulBid(true, "p", "b1", "A", Some(p), ledger, ledger);
      && r.Ok?
      && r.value.ledger == [Bid("a1", "A", 200)]
      && r.value.product.highestBidderId == Some("B")
      && r.value.product.currentPrice == Some(300)
      && Bid("b1", "B", 300) !in r.value.ledger
  {
    var ledger := [Bid("b1", "B", 300), Bid("a1", "A", 200)];
    FindCons(ledger, NotBy("A"));
    assert ledger[1..] == [Bid("a1", "A", 200)];
  }

  /** Bids (A,100), (B,150), (A,200): annulling A's 200 makes B the leader at
      150; A's other bid of 100 is skipped along with the annulled one. */
  lemma SkipsEveryBidOfAnnulledUser(p: Product)
    ensures var ledger := [Bid("b1", "A", 100), Bid("b2", "B", 150), Bid("b3", "A", 200)];
      var ranked := [Bid("b3", "A", 200), Bid("b2", "B", 150), Bid("b1", "A", 100)];
      var r := AnnulBid(true, "p", "b3", "A", Some(p), ledger, ranked);
      && r.Ok?
      && r.value.product.highestBidderId == Some("B")
      && r.value.product.winnerId == Some("B")
      && r.value.product.currentPrice == Some(150)
      && r.value.ledger == [Bid("b1", "A", 100), Bid("b2", "B", 150)]
      && r.value.closedConversation == "p_A"
  {
    var ranked := [Bid("b3", "A", 200), Bid("b2", "B", 150), Bid("b1", "A", 100)];
    FindCons(ranked, NotBy("A"));
    FindCons(ranked[1..], NotBy("A"));
  }

  /** Annulling the only bid resets the price to the start price, or to 0
      when the product has none, and leaves no leader. */
  lemma ExhaustedLedgerResets(p: Product, bid: Bid)
    requires bid.bidId != "" && bid.userId != ""
    ensures var r := AnnulBid(true, "p", bid.bidId, bid.userId, Some(p), [bid], [bid]);
      && r.Ok?
      && r.value.product.highestBidderId == None
      && r.value.product.winnerId == None
      && r.value.product.currentPrice == Some(if p.startPrice.Some? then p.startPrice.value else 0)
      && r.value.ledger == []
  {
    FindCons([bid], NotBy(bid.userId));
  }
}
