/** The notification dispatcher: device-token lookup and the pruning of
    tokens the push provider reports as permanently dead, after one
    multicast send. */
module Dispatcher {
  import opened Domain

  /** The two error codes that mark a token as permanently unusable. */
  const NotRegisteredCode: string := "messaging/registration-token-not-registered"
  const InvalidTokenCode: string := "messaging/invalid-registration-token"

  /** The outcome of one token's send inside a multicast. */
  datatype SendResult = Delivered | Failed(code: string)

  /** The response of one multicast send. `responses` holds one outcome per
      token, in token order. `results` is the field the pruning code reads;
      the batch response of `sendEachForMulticast` does not carry it, so for
      every send the engine makes it is `None`. */
  datatype BatchResponse = BatchResponse(responses: seq<SendResult>, results: Option<seq<SendResult>>)

  /** A send outcome that carries one of the two dead-token codes. */
  predicate IsDead(r: SendResult) {
    r.Failed? && (r.code == NotRegisteredCode || r.code == InvalidTokenCode)
  }

  /** The device tokens registered for a user; none when the user has no
      device records. */
  function DevicesOf(devices: map<UserId, seq<Token>>, u: UserId): seq<Token> {
    if u in devices then devices[u] else []
  }

  /** The response's `failureCount`: zero exactly when no send failed. */
  function FailureCount(results: seq<SendResult>): (n: nat)
    ensures n <= |results|
    ensures n == 0 <==> forall i :: 0 <= i < |results| ==> !results[i].Failed?
  {
    if |results| == 0 then 0
    else
      assert forall i :: 1 <= i < |results| ==> results[i] == results[1..][i - 1];
      (if results[0].Failed? then 1 else 0) + FailureCount(results[1..])
  }

  /** The tokens at positions whose outcome carries a dead-token code, in
      token order: the documents the `forEach` over the outcomes deletes. */
  function DeadTokens(tokens: seq<Token>, results: seq<SendResult>): (r: seq<Token>)
    requires |results| == |tokens|
    ensures forall i :: 0 <= i < |tokens| && IsDead(results[i]) ==> tokens[i] in r
    ensures forall t :: t in r ==> exists i :: 0 <= i < |tokens| && IsDead(results[i]) && tokens[i] == t
    ensures |r| <= |tokens|
  {
    if |tokens| == 0 then []
    else
      var rest := DeadTokens(tokens[1..], results[1..]);
      assert forall i :: 1 <= i < |tokens| ==> tokens[i] == tokens[1..][i - 1] && results[i] == results[1..][i - 1];
      (if IsDead(results[0]) then [tokens[0]] else []) + rest
  }

  /** Pruning as the code is written: the loop runs only when the failure
      count is positive and `response.results` is there, and walks
      `response.results`. */
  function PruneDeadTokensAsWritten(tokens: seq<Token>, response: BatchResponse): (deleted: seq<Token>)
    requires response.results.Some? ==> |response.results.value| == |tokens|
    ensures response.results.None? ==> deleted == []
    ensures FailureCount(response.responses) == 0 ==> deleted == []
    ensures response.results.Some? && FailureCount(response.responses) > 0 ==>
      && (forall i :: 0 <= i < |tokens| && IsDead(response.results.value[i]) ==> tokens[i] in deleted)
      && (forall t :: t in deleted ==>
            exists i :: 0 <= i < |tokens| && IsDead(response.results.value[i]) && tokens[i] == t)
  {
    if FailureCount(response.responses) > 0 && response.results.Some? then
      DeadTokens(tokens, response.results.value)
    else []
  }

  /** Pruning as intended: after a send with failures, a token is deleted
      exactly when its own outcome in `response.responses` carries one of
      the two dead-token codes; every other token is kept. */
  function PruneDeadTokens(tokens: seq<Token>, response: BatchResponse): (deleted: seq<Token>)
    requires |response.responses| == |tokens|
    ensures forall i :: 0 <= i < |tokens| && IsDead(response.responses[i]) ==> tokens[i] in deleted
    ensures forall t :: t in deleted ==>
      exists i :: 0 <= i < |tokens| && IsDead(response.responses[i]) && tokens[i] == t
    ensures |deleted| <= |tokens|
  {
    if FailureCount(response.responses) > 0 then DeadTokens(tokens, response.responses) else []
  }

  /** The pruning as written never deletes a token after a send of the
      engine, whose response has no `results`: a token reported dead
      survives, although the intended pruning deletes it. */
  lemma DeadTokenSurvivesAsWritten(tokens: seq<Token>, responses: seq<SendResult>, i: int)
    requires |responses| == |tokens|
    requires 0 <= i < |tokens| && IsDead(responses[i])
    ensures tokens[i] !in PruneDeadTokensAsWritten(tokens, BatchResponse(responses, None))
    ensures tokens[i] in PruneDeadTokens(tokens, BatchResponse(responses, None))
  {
  }

  /** One unregistered token: the send fails with `NotRegisteredCode`, the
      code as written deletes nothing, and the intended pruning deletes it. */
  lemma UnregisteredTokenExample()
    ensures var response := BatchResponse([Failed(NotRegisteredCode)], None);
      && PruneDeadTokensAsWritten(["t1"], response) == []
      && PruneDeadTokens(["t1"], response) == ["t1"]
  {
    var response := BatchResponse([Failed(NotRegisteredCode)], None);
    assert FailureCount(response.responses) == 1;
  }
}
