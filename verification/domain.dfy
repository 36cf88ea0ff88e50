/** Shared vocabulary of the auction engine: identifiers, the product record,
    bids, typed failures, and the JavaScript and Firestore idioms every
    operation leans on (truthiness of nullable ids, `x || 0`, `Array.find`,
    `arrayUnion` and `arrayRemove`). */
module Domain {

  type UserId = string
  type ProductId = string
  type BidId = string
  type Token = string

  datatype Option<+T> = None | Some(value: T)

  /** The failure kinds a callable operation raises (the `HttpsError` codes). */
  datatype ErrorKind =
    | Unauthenticated
    | PermissionDenied
    | InvalidArgument
    | NotFound
    | FailedPrecondition
    | Internal

  /** Either the new state an operation commits or the failure it raises;
      a failure always means that nothing was written. */
  datatype Result<+T> = Ok(value: T) | Err(error: ErrorKind)

  datatype SaleType = Auction | DirectSale

  datatype Status = Active | PendingConfirmation | Sold

  /** A product document. Optional fields are the ones the documents may lack. */
  datatype Product = Product(
    id: ProductId,
    saleType: SaleType,
    status: Status,
    startPrice: Option<int>,
    currentPrice: Option<int>,
    highestBidderId: Option<UserId>,
    winnerId: Option<UserId>,
    bidderIds: seq<UserId>,
    sellerId: UserId,
    buyerId: Option<UserId>,
    endTime: Option<int>)

  /** One entry of a product's bid ledger; `bidId` is the document id. */
  datatype Bid = Bid(bidId: BidId, userId: UserId, amount: int)

  /** JavaScript truthiness of a nullable id: null, a missing field and the
      empty string are all falsy. */
  predicate Present(id: Option<UserId>) {
    id.Some? && id.value != ""
  }

  /** `id || null` */
  function OrNull(id: Option<UserId>): Option<UserId> {
    if Present(id) then id else None
  }

  /** `n || 0`: a missing number counts as 0 */
  function OrZero(n: Option<int>): int {
    if n.Some? then n.value else 0
  }

  /** The users an array field mentions, ignoring order and repetition. */
  function Members(s: seq<UserId>): set<UserId> {
    set u | u in s
  }

  /** `Array.prototype.findIndex`, returning `|s|` for "not found":
      the position of the first element that `keep` accepts. */
  function FirstIndex<T>(s: seq<T>, keep: T -> bool): (k: nat)
    ensures k <= |s|
    ensures forall j :: 0 <= j < k ==> !keep(s[j])
    ensures k < |s| ==> keep(s[k])
  {
    if |s| == 0 then 0
    else if keep(s[0]) then 0
    else 1 + FirstIndex(s[1..], keep)
  }

  /** `Array.prototype.find`: the first element `keep` accepts, if any. */
  function Find<T>(s: seq<T>, keep: T -> bool): Option<T> {
    var k := FirstIndex(s, keep);
    if k < |s| then Some(s[k]) else None
  }

  /** `FieldValue.arrayUnion(u)` applied to an array field: appends `u`
      unless it is already there. */
  function ArrayUnion(s: seq<UserId>, u: UserId): (r: seq<UserId>)
    ensures Members(r) == Members(s) + {u}
    ensures s <= r
    ensures |r| <= |s| + 1
    ensures u in s ==> r == s
  {
    if u in s then s else s + [u]
  }

  /** `FieldValue.arrayRemove(u)` applied to an array field: drops every
      occurrence of `u`; an array without `u` is left as it is. */
  function ArrayRemove(s: seq<UserId>, u: UserId): (r: seq<UserId>)
    ensures Members(r) == Members(s) - {u}
    ensures |r| <= |s|
    ensures u !in s ==> r == s
  {
    if |s| == 0 then []
    else
      var rest := ArrayRemove(s[1..], u);
      MembersConcat([s[0]], s[1..]);
      assert s == [s[0]] + s[1..];
      if s[0] == u then rest
      else
        MembersConcat([s[0]], rest);
        [s[0]] + rest
  }

  lemma MembersConcat(a: seq<UserId>, b: seq<UserId>)
    ensures Members(a + b) == Members(a) + Members(b)
  {
  }
}
