# Auction bidding and lifecycle engine — a Dafny model

This project models the decision logic of the marketplace's Cloud Functions
(`subasta/functions/index.js`). Each callable operation becomes a pure
transition. It takes the caller's identity and flags, the inputs, and the
documents the function reads. It returns either a typed failure (`Err`, meaning
nothing was written) or the state it commits, together with the side effects
it triggers after commit:

- **Bidding** (`placeBid`): the input checks, the read-validate-write on the
  product and its bid ledger, and who gets the "outbid" notice.
- **Annulment** (`annulBid`): deletes one bid. The new leader is the first bid of
  the amount-descending snapshot whose user is not the annulled user. If there
  is none, the price falls back to `startPrice || 0`.
- **Closing** (`closeAuctions`): the sweep that moves every expired active
  auction to `pending_confirmation` and copies its leader into `winnerId`.
- **Sales** (`buyNow`, `confirmSale`): a direct purchase, and an administrator's
  confirmation of a won auction.
- **Dispatcher**: the pruning of device tokens whose send failed with one of the
  two dead-token codes, both as the code is written (it reads a response field
  that is never there, so nothing is deleted) and as intended (see Findings).
- **Conversations**: the `productId_userId` key and its parsing back, the
  "close" merge write, and the chat trigger's choice of recipient.
- **Lifecycle**: lemmas about how these operations compose.

Modelling choices:
- Amounts and times are integers.
- A nullable id is `Option<string>`. JavaScript truthiness (`x || null`,
  `if (x)`) is `Present`, so an empty string counts as absent.
- `x || 0` on a number is `OrZero`.
- `typeof bidAmount !== "number"` is `bidAmount == None`.
- Authentication, admin membership and the banned flag are inputs.
- Each transaction is one atomic step.

Behaviour of the code worth knowing, which the model follows:
- A bid at or below the current price fails with failed-precondition, not
  invalid-argument (`index.js:471`).
- `placeBid` never looks at `saleType`. `BidBoundary` shows a bid being
  accepted on a direct-sale product.
- `annulBid` queries the bids before its batched delete commits
  (`index.js:227-232`). The scan therefore runs over a snapshot that still holds
  the deleted bid. `ScanBeforeDeleteIsHarmless` proves this changes nothing
  when the deleted bid belongs to the annulled user. The bid id and the
  annulled user are independent inputs, though: when the deleted bid is someone
  else's, the scan promotes the deleted bid itself (`ScanCanPromoteDeletedBid`).
- `annulBid` writes `winnerId` as well as `highestBidderId`, even while the
  auction is still running.
- `confirmSale` has no status check. A second confirmation succeeds again and
  leaves the same state (`ConfirmSaleIdempotent`). An active auction can be
  confirmed straight to sold once an annulment has set its winner
  (`ConfirmSaleCanSkipClosing`).
- Annulment leaves the annulled user's other bids in the ledger. A later
  annulment of someone else can make that user leader again, while they are no
  longer in `bidderIds` (`AnnulledUserCanRegainLead`).

## Model

| member | source | states |
|---|---|---|
| Domain.FirstIndex | subasta/functions/index.js:240 | `Array.find`'s position: every earlier element is rejected, and the one found (if any) is accepted |
| Domain.ArrayUnion | subasta/functions/index.js:479 | `arrayUnion` adds the caller to the set of bidders, keeps the existing array as a prefix, grows it by at most one, and leaves it unchanged when the caller is already there |
| Domain.ArrayRemove | subasta/functions/index.js:256 | `arrayRemove` leaves exactly the old set of bidders minus the annulled user, and an array without that user unchanged |
| Dispatcher.IsDead | subasta/functions/index.js:132-133 | an outcome is dead when it failed with `registration-token-not-registered` or `invalid-registration-token` |
| Dispatcher.FailureCount | subasta/functions/index.js:127 | `failureCount` is zero exactly when no send failed, so its `> 0` guard never hides a dead token |
| Dispatcher.DeadTokens | subasta/functions/index.js:128-136 | the `forEach` deletes a token exactly when some position holding it has a dead outcome; every other token is kept |
| Dispatcher.PruneDeadTokensAsWritten | subasta/functions/index.js:127-137 | as written, nothing is deleted unless the failure count is positive and `response.results` exists, and then exactly the tokens with a dead outcome in `results` |
| Dispatcher.PruneDeadTokens | subasta/functions/index.js:127-137 | as intended, after a send with failures a token is deleted exactly when its own outcome in `responses` is dead; every other token is kept |
| Dispatcher.DeadTokenSurvivesAsWritten | subasta/functions/index.js:119-137 | for every send response without `results`, a token reported dead is kept by the code as written and deleted by the intended pruning |
| Dispatcher.UnregisteredTokenExample | subasta/functions/index.js:493-505 | one unregistered token: the code as written deletes nothing, the intended pruning deletes that token |
| Conversations.ConversationId | subasta/functions/index.js:260 | the key is the product id, one underscore, then the user id |
| Conversations.FirstSegment | subasta/functions/index.js:105 | `split('_')[0]` is the longest prefix without an underscore, ending at the first underscore or at the end of the string |
| Conversations.ProductIdRoundTrip | subasta/functions/index.js:105 | parsing `productId_userId` gives back `productId` if and only if `productId` has no underscore |
| Conversations.Recipient | subasta/functions/index.js:64 | `participants.find(uid => uid !== senderId)`: none exactly when every participant is the sender, otherwise the first participant who is not |
| Conversations.CloseConversation | subasta/functions/index.js:259-269 | the merge write leaves the thread closed, keeps its participants, and changes no other thread |
| Conversations.ChatNotification | subasta/functions/index.js:34-105 | a push goes out exactly when the message and an open thread exist, the first participant other than the sender is truthy, and that user has tokens; it targets that participant and carries the product id parsed from the key |
| Conversations.ClosedThreadIsSilent | subasta/functions/index.js:54-58 | after the engine closes a thread, no message in it triggers a push |
| Bidding.ValidBidInput | subasta/functions/index.js:449 | the input is valid when `productId` is truthy and `bidAmount` is a positive number |
| Bidding.PlaceBid | subasta/functions/index.js:438-481 | the failures come in the order unauthenticated, banned, bad input, not found, inactive, too low (missing price counted as 0), and success holds exactly when none applies; a success sets price and leader, adds the caller to the bidders (growing the array by at most one, and not at all when the caller is already a bidder), appends one bid, changes nothing else, strictly raises the price, and sends the outbid notice only to a different previous leader |
| Bidding.BidBoundary | subasta/functions/index.js:469-471 | on an active product an amount at or below the price fails with failed-precondition, one unit above succeeds, and the sale type does not matter |
| Bidding.ApplyBidGrows | subasta/functions/index.js:470-480 | one bid request either changes nothing or appends exactly one bid, above the old price, which becomes the new price |
| Bidding.RunBidsRaisesPrice | subasta/functions/index.js:461-481 | over any serial order of bid requests the ledger only grows, the added bids have strictly increasing amounts above the starting price, the status is kept, and the price never decreases and ends at the last committed amount |
| Annulment.NextLeader | subasta/functions/index.js:240 | the new leading bid is the first snapshot bid not by the annulled user, and there is none exactly when the annulled user owns every snapshot bid |
| Annulment.DeleteBid | subasta/functions/index.js:227 | the ledger after the delete holds exactly the bids with another document id |
| Annulment.AnnulBid | subasta/functions/index.js:207-273 | fails with permission-denied, then invalid-argument for a missing field, then internal for a missing product; otherwise leader and winner are the user of the first snapshot bid not by the annulled user, at its amount, or both are null at `startPrice || 0` exactly when every bid is the annulled user's; the annulled user leaves `bidderIds`, their conversation is closed, and other fields are unchanged |
| Annulment.AnnulPicksBestOtherBid | subasta/functions/index.js:229-255 | when the snapshot is the ledger sorted by amount, the new price is at least every other user's bid in the ledger and is itself one of the new leader's bids |
| Annulment.NextLeaderIgnoresOwnBid | subasta/functions/index.js:227-240 | deleting a bid of the annulled user does not change the scan's result |
| Annulment.ScanBeforeDeleteIsHarmless | subasta/functions/index.js:224-240 | with the deleted bid owned by the annulled user, the scan of the pre-delete snapshot commits the same outcome as a scan of the post-delete bids |
| Annulment.ScanCanPromoteDeletedBid | subasta/functions/index.js:224-256 | with B's 300 and A's 200, deleting B's bid while annulling A leaves the ledger with A's 200 and B leading at 300 |
| Annulment.SkipsEveryBidOfAnnulledUser | subasta/functions/index.js:239-245 | for bids (A,100), (B,150), (A,200), annulling A's 200 makes B leader at 150 |
| Annulment.ExhaustedLedgerResets | subasta/functions/index.js:246-249 | annulling the only bid leaves no leader and the price at the start price, or 0 without one |
| Closing.Expired | subasta/functions/index.js:326-330 | the query matches an active auction whose `endTime` exists and is at or before `now` |
| Closing.CloseAuctions | subasta/functions/index.js:326-351 | exactly the active auctions with `endTime <= now` become pending confirmation, with winner = truthy leader or null, other fields kept; all other products are untouched; there are never more notices than products |
| Closing.OneNoticePerClosedProduct | subasta/functions/index.js:342-359 | the notices correspond one to one, in collection order, to the products closed with a truthy winner: none gets two and none is missed |
| Closing.WinNoticesExact | subasta/functions/index.js:353-359 | a win notice is queued exactly for each product the sweep closes with a truthy winner, addressed to that winner and product |
| Closing.NothingExpiredNothingChanges | subasta/functions/index.js:334-337 | a sweep with no expired auction changes nothing and queues nothing |
| Closing.SweepIsIdempotent | subasta/functions/index.js:326-351 | sweeping again at the same time changes nothing and queues no second win notice |
| Closing.LaterSweepSubsumesEarlier | subasta/functions/index.js:326-351 | a sweep followed by a later one leaves the same products as the later sweep alone |
| Sales.BuyNow | subasta/functions/index.js:389-425 | the failures come in the order unauthenticated, banned, missing id, not found, not a direct sale, not active, own product, and success holds exactly when none applies; a success sets only status sold and the caller as buyer, who is not the seller |
| Sales.BuyNowOnlyOnce | subasta/functions/index.js:412-424 | after a purchase, every further purchase of the product is refused |
| Sales.ConfirmSale | subasta/functions/index.js:151-193 | fails with permission-denied, invalid-argument, not-found, then failed-precondition exactly when there is no truthy winner; otherwise only the status changes, to sold, and conversation `productId_winnerId` is closed |
| Sales.ConfirmSaleIdempotent | subasta/functions/index.js:172-179 | a second confirmation succeeds with the same state and the same conversation closed |
| Lifecycle.OperationsFollowLifecycle | subasta/functions/index.js:165-179 | bids, annulments, the sweep and direct purchases only make allowed status changes; a confirmation makes an allowed one exactly when the product is not an active auction |
| Lifecycle.ConfirmSaleCanSkipClosing | subasta/functions/index.js:252-257 | an annulment on a running auction sets a winner, after which confirmation moves the auction from active straight to sold |
| Lifecycle.AnnulledUserCanRegainLead | subasta/functions/index.js:226-256 | after A's top bid is annulled and C bids, annulling C's bid makes A leader again at 180, with A absent from `bidderIds` |
| Lifecycle.ConfirmedSaleSilencesWinnerChat | subasta/functions/index.js:181-191 | once a sale is confirmed and the winner's thread closed, no message there triggers a push |

## Left out

- Firestore reads, writes, batches and queries. They are inputs (the stored product, the ledger, the ranked snapshot, the conversation map, the device map) and outputs (the returned state, the tokens to delete, the notices).
- `runTransaction` retries and optimistic concurrency, and overlapping sweep runs. Each operation is one atomic step, and the bid sequence lemma assumes the transactions are serialised.
- `Timestamp.now()`. It is the integer `now`; bid timestamps are not kept.
- Amounts as JavaScript floats (including NaN) and `toFixed(2)`. Amounts are integers.
- Error texts, notification titles and bodies, `click_action`/APNs payload fields, and the `model` title fallback.
- The admin lookup and the user-status lookup. These are boolean inputs.
- `beforeUserCreated`, `listUsers`, `reportIncident` and `banUser`. They are record plumbing over Auth and Firestore with no decision logic of the engine.
- Firestore's order among bids of equal amount. Any amount-descending order of the ledger is accepted as a snapshot.
- The chat trigger's sender-name lookup, which only affects the message text.
- The win notices of the sweep are queued but not pruned. The source sends them without pruning tokens (`index.js:365-386`).
- The catch-all mapping of unexpected exceptions to internal. The exception is a missing product in `annulBid`, which is modelled as internal.
- Dispatcher.DeadTokens: requires one send outcome per token, in token order. The source indexes `tokens` by the outcome's position and never compares the lengths; with fewer tokens than outcomes it would delete `tokens[index]` of an undefined index, which this model does not cover.
- Dispatcher.PruneDeadTokens: requires one outcome in `responses` per token, for the same reason.
- Dispatcher.PruneDeadTokensAsWritten: requires, when `results` is present, one outcome per token, for the same reason.
- Annulment.AnnulPicksBestOtherBid: requires the snapshot to be the ledger sorted by amount. The source takes this from the query and does not check it.

## Findings

| source | as written | input that shows it | evidently intended | confidence | as-written member | corrected member |
|---|---|---|---|---|---|---|
| subasta/functions/index.js:127-137 | token pruning runs only when `response.results` is truthy, and walks `results`; the batch response of `sendEachForMulticast` lists the per-token outcomes under `responses` and has no `results`, so no token is ever deleted (the same guard is at lines 496-505) | a chat message to a user whose only token is unregistered: the send fails with `messaging/registration-token-not-registered`, and the token document stays | walk `response.responses` and delete each token whose outcome has one of the two dead-token codes | medium, not executed: the response shape comes from the Firebase Admin SDK, which is not part of this model | Dispatcher.PruneDeadTokensAsWritten | Dispatcher.PruneDeadTokens |
