/** Conversation threads as far as the engine touches them: the
    `productId_userId` key, reading the product id back out of a key, the
    "close with a system message" write, and the chat-message trigger that
    decides whether and to whom a push goes out. */
module Conversations {
  import opened Domain
  import Dispatcher

  /** Only `'closed'` is tested for; every other status value counts as open. */
  datatype ConvStatus = Open | Closed

  datatype Conversation = Conversation(status: ConvStatus, participants: seq<UserId>)

  datatype ChatMessage = ChatMessage(senderId: UserId, text: string)

  /** The push the chat trigger sends for one new message. */
  datatype ChatPush = ChatPush(recipient: UserId, productId: ProductId, conversationId: string, tokens: seq<Token>)

  /** The key of the thread about `productId` with `userId`. */
  function ConversationId(productId: ProductId, userId: UserId): (r: string)
    ensures |r| == |productId| + 1 + |userId|
    ensures r[..|productId|] == productId && r[|productId|] == '_' && r[|productId| + 1..] == userId
  {
    productId + "_" + userId
  }

  /** `s.split('_')[0]`: the text before the first underscore, or all of `s`. */
  function FirstSegment(s: string): (r: string)
    ensures r <= s
    ensures '_' !in r
    ensures |r| < |s| ==> s[|r|] == '_'
  {
    if |s| == 0 then ""
    else if s[0] == '_' then ""
    else [s[0]] + FirstSegment(s[1..])
  }

  /** Reading the product id back out of a conversation key gives the
      product id exactly when that id has no underscore of its own. */
  lemma ProductIdRoundTrip(productId: ProductId, userId: UserId)
    ensures FirstSegment(ConversationId(productId, userId)) == productId <==> '_' !in productId
  {
    var key := ConversationId(productId, userId);
    var r := FirstSegment(key);
    if '_' !in productId {
      assert key[|productId|] == '_';
      assert |r| == |productId|;
      assert r == key[..|productId|] == productId;
    }
  }

  /** The conversation store after the engine closes thread `id` with a
      merge write: an existing thread keeps its participants, a missing one
      is created closed with none. */
  function CloseConversation(convos: map<string, Conversation>, id: string): (r: map<string, Conversation>)
    ensures id in r && r[id].status == Closed
    ensures id in convos ==> r[id].participants == convos[id].participants
    ensures forall k :: k != id ==> (k in r <==> k in convos)
    ensures forall k :: k in convos && k != id ==> r[k] == convos[k]
  {
    if id in convos then convos[id := convos[id].(status := Closed)]
    else convos[id := Conversation(Closed, [])]
  }

  /** The recipient of a chat message: the first participant who is not the sender. */
  function Recipient(participants: seq<UserId>, senderId: UserId): (r: Option<UserId>)
    ensures r.None? <==> forall i :: 0 <= i < |participants| ==> participants[i] == senderId
    ensures r.Some? ==>
      exists k :: 0 <= k < |participants| && participants[k] == r.value && r.value != senderId
                  && forall j :: 0 <= j < k ==> participants[j] == senderId
  {
    Find(participants, (u: UserId) => u != senderId)
  }

  /** The push sent when `message` is added to thread `conversationId`, if any. */
  function ChatNotification(conversationId: string, convos: map<string, Conversation>,
                            message: Option<ChatMessage>, devices: map<UserId, seq<Token>>): (r: Option<ChatPush>)
    ensures conversationId in convos && convos[conversationId].status == Closed ==> r.None?
    ensures message.None? || conversationId !in convos ==> r.None?
    ensures r.Some? <==>
      && message.Some? && conversationId in convos && convos[conversationId].status == Open
      && Present(Recipient(convos[conversationId].participants, message.value.senderId))
      && |Dispatcher.DevicesOf(devices, Recipient(convos[conversationId].participants, message.value.senderId).value)| > 0
    ensures r.Some? ==>
      var parts := convos[conversationId].participants;
      && r.value.recipient != message.value.senderId
      && r.value.recipient != ""
      && (exists k :: 0 <= k < |parts| && parts[k] == r.value.recipient
                      && forall j :: 0 <= j < k ==> parts[j] == message.value.senderId)
    ensures r.Some? ==> r.value.tokens == Dispatcher.DevicesOf(devices, r.value.recipient) && |r.value.tokens| > 0
    ensures r.Some? ==> r.value.productId == FirstSegment(conversationId) && r.value.conversationId == conversationId
  {
    if message.None? || conversationId !in convos then None
    else
      var convo := convos[conversationId];
      if convo.status == Closed then None
      else
        var keep := (u: UserId) => u != message.value.senderId;
        var k := FirstIndex(convo.participants, keep);
        var recipient := Recipient(convo.participants, message.value.senderId);
        if !Present(recipient) then None
        else
          var tokens := Dispatcher.DevicesOf(devices, recipient.value);
          if |tokens| == 0 then None
          else
            assert convo.participants[k] == recipient.value;
            assert convo.status == Open;
            assert Present(Recipient(convos[conversationId].participants, message.value.senderId));
            Some(ChatPush(recipient.value, FirstSegment(conversationId), conversationId, tokens))
  }

  /** Once the engine has closed a thread, no later message in it pushes anything. */
  lemma ClosedThreadIsSilent(convos: map<string, Conversation>, id: string,
                             message: Option<ChatMessage>, devices: map<UserId, seq<Token>>)
    ensures ChatNotification(id, CloseConversation(convos, id), message, devices).None?
  {
  }
}
