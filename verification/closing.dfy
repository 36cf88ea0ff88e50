/** The auction closing sweep: every auction still active whose deadline has
    passed moves to pending confirmation with its leader as winner, and a
    win notice is queued for each closed auction that has a winner. */
module Closing {
  import opened Domain

  /** A queued "you won" notification. */
  datatype WinNotice = WinNotice(winnerId: UserId, productId: ProductId)

  /** The products after the sweep's batch, and the notices it queued. */
  datatype SweepOutcome = SweepOutcome(products: seq<Product>, notices: seq<WinNotice>)

  /** The sweep's query: an active auction whose `endTime` is at or before
      `now`. A product without an `endTime` never matches. */
  predicate Expired(p: Product, now: int) {
    p.saleType == Auction && p.status == Active && p.endTime.Some? && p.endTime.value <= now
  }

  /** Every field the sweep does not write is unchanged. */
  predicate SameOutsideCloseFields(p: Product, q: Product) {
    && p.id == q.id
    && p.saleType == q.saleType
    && p.startPrice == q.startPrice
    && p.currentPrice == q.currentPrice
    && p.highestBidderId == q.highestBidderId
    && p.bidderIds == q.bidderIds
    && p.sellerId == q.sellerId
    && p.buyerId == q.buyerId
    && p.endTime == q.endTime
  }

  /** One run of `closeAuctions` at time `now` over the product collection. */
  function CloseAuctions(products: seq<Product>, now: int): (r: SweepOutcome)
    ensures |r.products| == |products|
    ensures forall i :: 0 <= i < |products| && Expired(products[i], now) ==>
      && r.products[i].status == PendingConfirmation
      && r.products[i].winnerId == OrNull(products[i].highestBidderId)
      && SameOutsideCloseFields(products[i], r.products[i])
    ensures forall i :: 0 <= i < |products| && !Expired(products[i], now) ==> r.products[i] == products[i]
    ensures |r.notices| <= |products|
  {
    if |products| == 0 then SweepOutcome([], [])
    else
      var p := products[0];
      var rest := CloseAuctions(products[1..], now);
      assert forall i :: 1 <= i < |products| ==> products[i] == products[1..][i - 1];
      if Expired(p, now) then
        var winner := OrNull(p.highestBidderId);
        var q := p.(status := PendingConfirmation, winnerId := winner);
        var notices := if Present(winner) then [WinNotice(winner.value, p.id)] + rest.notices else rest.notices;
        SweepOutcome([q] + rest.products, notices)
      else
        SweepOutcome([p] + rest.products, rest.notices)
  }

  /** Product `i` is closed by the sweep at `now` with a winner, and `n` is
      the win notice for it. */
  predicate NoticeFor(products: seq<Product>, now: int, i: int, n: WinNotice) {
    && 0 <= i < |products|
    && Expired(products[i], now)
    && Present(products[i].highestBidderId)
    && n == WinNotice(products[i].highestBidderId.value, products[i].id)
  }

  /** The sweep queues a win notice exactly for each product it closes that
      has a winner, addressed to that winner. */
  lemma {:induction false} WinNoticesExact(products: seq<Product>, now: int)
    ensures forall n :: n in CloseAuctions(products, now).notices <==> exists i :: NoticeFor(products, now, i, n)
  {
    if |products| > 0 {
      var r := CloseAuctions(products, now);
      var rest := CloseAuctions(products[1..], now);
      WinNoticesExact(products[1..], now);
      var p := products[0];
      var head := if Expired(p, now) && Present(p.highestBidderId)
                  then [WinNotice(p.highestBidderId.value, p.id)] else [];
      assert r.notices == head + rest.notices;
      forall n
        ensures n in r.notices <==> exists i :: NoticeFor(products, now, i, n)
      {
        if n in head {
          assert NoticeFor(products, now, 0, n);
        }
        if n in rest.notices {
          var i :| NoticeFor(products[1..], now, i, n);
          assert products[1..][i] == products[i + 1];
          assert NoticeFor(products, now, i + 1, n);
        }
        if exists i :: NoticeFor(products, now, i, n) {
          var i :| NoticeFor(products, now, i, n);
          if i > 0 {
            assert products[1..][i - 1] == products[i];
            assert NoticeFor(products[1..], now, i - 1, n);
          } else {
            assert n in head;
          }
        }
      }
    }
  }

  /** `idx` lists, for each notice in turn, the position of the product it
      is for: positions strictly increase, and every product closed with a
      winner is listed. */
  predicate NoticeSources(products: seq<Product>, now: int, notices: seq<WinNotice>, idx: seq<int>) {
    && |idx| == |notices|
    && (forall k :: 0 <= k < |idx| ==> NoticeFor(products, now, idx[k], notices[k]))
    && (forall k, l :: 0 <= k < l < |idx| ==> idx[k] < idx[l])
    && (forall i :: 0 <= i < |products| && Expired(products[i], now) && Present(products[i].highestBidderId) ==> i in idx)
  }

  /** The notices come one per product closed with a winner, in collection
      order: no product gets two, and none is missed. */
  lemma {:induction false} OneNoticePerClosedProduct(products: seq<Product>, now: int)
    ensures exists idx :: NoticeSources(products, now, CloseAuctions(products, now).notices, idx)
  {
    if |products| == 0 {
      assert CloseAuctions(products, now).notices == [];
      assert NoticeSources(products, now, [], []);
    } else {
      var p := products[0];
      var rest := CloseAuctions(products[1..], now);
      OneNoticePerClosedProduct(products[1..], now);
      var idx' :| NoticeSources(products[1..], now, rest.notices, idx');
      var head := if Expired(p, now) && Present(p.highestBidderId)
                  then [WinNotice(p.highestBidderId.value, p.id)] else [];
      assert CloseAuctions(products, now).notices == head + rest.notices;
      var shifted := seq(|idx'|, k requires 0 <= k < |idx'| => idx'[k] + 1);
      ShiftSources(products, now, rest.notices, idx', shifted);
      if head == [] {
        assert head + rest.notices == rest.notices;
        assert NoticeSources(products, now, head + rest.notices, shifted);
      } else {
        ConsFirstSource(products, now, rest.notices, shifted);
      }
    }
  }

  /** Sources for the tail's notices, moved one place on, are sources in the
      whole collection for every product after the first. */
  lemma ShiftSources(products: seq<Product>, now: int, notices: seq<WinNotice>, idx': seq<int>, shifted: seq<int>)
    requires |products| > 0
    requires NoticeSources(products[1..], now, notices, idx')
    requires |shifted| == |idx'| && forall k :: 0 <= k < |idx'| ==> shifted[k] == idx'[k] + 1
    ensures |shifted| == |notices|
    ensures forall k :: 0 <= k < |shifted| ==> NoticeFor(products, now, shifted[k], notices[k]) && shifted[k] >= 1
    ensures forall k, l :: 0 <= k < l < |shifted| ==> shifted[k] < shifted[l]
    ensures forall i :: 1 <= i < |products| && Expired(products[i], now) && Present(products[i].highestBidderId) ==> i in shifted
  {
    forall k | 0 <= k < |shifted|
      ensures NoticeFor(products, now, shifted[k], notices[k])
    {
      assert NoticeFor(products[1..], now, idx'[k], notices[k]);
      assert products[1..][idx'[k]] == products[idx'[k] + 1];
    }
    forall i | 1 <= i < |products| && Expired(products[i], now) && Present(products[i].highestBidderId)
      ensures i in shifted
    {
      assert products[1..][i - 1] == products[i];
      var k :| 0 <= k < |idx'| && idx'[k] == i - 1;
      assert shifted[k] == i;
    }
  }

  /** The first product's notice, followed by the shifted sources of the rest. */
  lemma ConsFirstSource(products: seq<Product>, now: int, notices: seq<WinNotice>, shifted: seq<int>)
    requires |products| > 0 && Expired(products[0], now) && Present(products[0].highestBidderId)
    requires |shifted| == |notices|
    requires forall k :: 0 <= k < |shifted| ==> NoticeFor(products, now, shifted[k], notices[k]) && shifted[k] >= 1
    requires forall k, l :: 0 <= k < l < |shifted| ==> shifted[k] < shifted[l]
    requires forall i :: 1 <= i < |products| && Expired(products[i], now) && Present(products[i].highestBidderId) ==> i in shifted
    ensures NoticeSources(products, now, [WinNotice(products[0].highestBidderId.value, products[0].id)] + notices, [0] + shifted)
  {
    var idx := [0] + shifted;
    var all := [WinNotice(products[0].highestBidderId.value, products[0].id)] + notices;
    forall k | 0 <= k < |idx|
      ensures NoticeFor(products, now, idx[k], all[k])
    {
      if k > 0 {
        assert idx[k] == shifted[k - 1] && all[k] == notices[k - 1];
      }
    }
    forall k, l | 0 <= k < l < |idx|
      ensures idx[k] < idx[l]
    {
      assert idx[l] == shifted[l - 1];
      if k > 0 {
        assert idx[k] == shifted[k - 1];
      }
    }
    forall i | 0 <= i < |products| && Expired(products[i], now) && Present(products[i].highestBidderId)
      ensures i in idx
    {
      if i > 0 {
        var k :| 0 <= k < |shifted| && shifted[k] == i;
        assert idx[k + 1] == i;
      }
    }
  }


  /** A sweep over a collection with nothing expired changes nothing and
      queues nothing. */
  lemma NothingExpiredNothingChanges(products: seq<Product>, now: int)
    requires forall i :: 0 <= i < |products| ==> !Expired(products[i], now)
    ensures CloseAuctions(products, now) == SweepOutcome(products, [])
  {
    var r := CloseAuctions(products, now);
    assert r.products == products;
    WinNoticesExact(products, now);
  }

  /** Running the sweep again at the same time changes nothing and sends no
      second win notice: the products it closed are no longer active. */
  lemma SweepIsIdempotent(products: seq<Product>, now: int)
    ensures var once := CloseAuctions(products, now);
      CloseAuctions(once.products, now) == SweepOutcome(once.products, [])
  {
    var once := CloseAuctions(products, now);
    assert forall i :: 0 <= i < |once.products| ==> !Expired(once.products[i], now);
    NothingExpiredNothingChanges(once.products, now);
  }

  /** A later sweep never reopens or rewrites what an earlier one closed:
      sweeping at `now` and then at a later time `later` closes each product
      exactly when the single sweep at `later` would. */
  lemma LaterSweepSubsumesEarlier(products: seq<Product>, now: int, later: int)
    requires now <= later
    ensures CloseAuctions(CloseAuctions(products, now).products, later).products
         == CloseAuctions(products, later).products
  {
    var a := CloseAuctions(CloseAuctions(products, now).products, later).products;
    var b := CloseAuctions(products, later).products;
    assert |a| == |b|;
    forall i | 0 <= i < |a|
      ensures a[i] == b[i]
    {
    }
  }
}
