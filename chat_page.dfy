/**
 * The chat screen of the client (client/src/pages/ChatPage.jsx): how a
 * conversation id is built, which pushed messages join the open
 * conversation, which listed conversation a link opens, and the send and
 * receive steps that change the messages on screen.
 */
module ChatPage {
  import opened Wrappers
  import opened Models
  import opened Text
  import ChatController
  import SocketServer

  // ---------------------------------------------------------------------------
  // The conversation id

  /** `[me, other].sort().join('_')` followed by `_<petId>` when a pet is selected. */
  function ChatId(me: Id, other: Id, pet: Option<Id>): string {
    var pair := if LexLeq(me, other) then me + "_" + other else other + "_" + me;
    pair + (if pet.Some? then "_" + pet.value else "")
  }

  /** Both parties build the same id: swapping the users changes nothing. */
  lemma ChatIdSymmetric(a: Id, b: Id, pet: Option<Id>)
    ensures ChatId(a, b, pet) == ChatId(b, a, pet)
  {
    LexTotal(a, b);
    if LexLeq(a, b) && LexLeq(b, a) {
      LexAntisymmetric(a, b);
    }
  }

  /**
   * The id is the two user ids joined by '_', the one that sorts first in
   * front; a selected pet adds `_<petId>` at the end. It is never empty.
   */
  lemma ChatIdShape(me: Id, other: Id, pet: Option<Id>)
    ensures var pair := ChatId(me, other, None);
            || (LexLeq(me, other) && pair == me + "_" + other)
            || (LexLeq(other, me) && pair == other + "_" + me)
    ensures pet.Some? ==> ChatId(me, other, pet) == ChatId(me, other, None) + "_" + pet.value
    ensures |ChatId(me, other, pet)| > 0
  {
    LexTotal(me, other);
  }

  // ---------------------------------------------------------------------------
  // Matching messages and conversations

  /** A pushed message belongs to the open conversation: from the open chat's user, about the same pet or both about none. */
  predicate IsIncoming(m: Message, currentChat: Option<User>, currentPet: Option<ChatController.PetSummary>) {
    && currentChat.Some? && m.sender == currentChat.value.id
    && ((currentPet.Some? && m.pet == Some(currentPet.value.id)) || (currentPet.None? && m.pet.None?))
  }

  /** The id of the selected pet, if any. */
  function PetIdOf(pet: Option<ChatController.PetSummary>): (r: Option<Id>)
    ensures r.Some? <==> pet.Some?
    ensures r.Some? ==> r.value == pet.value.id
  {
    if pet.Some? then Some(pet.value.id) else None
  }

  /** A message is incoming exactly when it comes from the open chat's user and carries the selected pet's id, or none. */
  lemma IncomingIffSameScope(m: Message, currentChat: Option<User>, currentPet: Option<ChatController.PetSummary>)
    ensures IsIncoming(m, currentChat, currentPet) <==>
            currentChat.Some? && m.sender == currentChat.value.id && m.pet == PetIdOf(currentPet)
  {
  }

  /** A listed conversation is the one a link asks for: same user, and the same pet or both no pet. */
  predicate SameConversation(c: ChatController.Conversation, userId: Id, petId: Option<Id>) {
    && c.user.id == userId
    && ((c.pet.Some? && petId.Some? && c.pet.value.id == petId.value) || (c.pet.None? && petId.None?))
  }

  /** `conversations.find(...)`: the first listed conversation matching the link. */
  function FindExistingConversation(conversations: seq<ChatController.Conversation>, userId: Id, petId: Option<Id>)
    : (r: Option<ChatController.Conversation>)
    ensures r.Some? ==> r.value in conversations && SameConversation(r.value, userId, petId)
    ensures r.None? <==> forall c :: c in conversations ==> !SameConversation(c, userId, petId)
    decreases |conversations|
  {
    if conversations == [] then None
    else if SameConversation(conversations[0], userId, petId) then Some(conversations[0])
    else
      var rest := FindExistingConversation(conversations[1..], userId, petId);
      assert forall c :: c in conversations ==> c == conversations[0] || c in conversations[1..];
      rest
  }

  /**
   * In a list built by getConversations, the link to a (user, pet) finds the
   * entry whose key is that user and that pet's scope (a pet still present
   * in the pets directory), and it is the only entry that matches.
   */
  lemma ExistingConversationIsUnique(log: seq<Message>, viewer: Id, users: map<Id, User>,
                                     pets: map<Id, ChatController.PetSummary>,
                                     r: seq<ChatController.Conversation>, i: nat, j: nat)
    requires forall k :: k in users ==> users[k].id == k
    requires forall k :: k in pets ==> pets[k].id == k
    requires forall a, b :: 0 <= a < b < |r| ==>
      ChatController.KeyOf(r[a].lastMessage, viewer, pets) != ChatController.KeyOf(r[b].lastMessage, viewer, pets)
    requires forall a :: 0 <= a < |r| ==>
      var m := r[a].lastMessage;
      && ChatController.Counterparty(m, viewer) in users
      && r[a].user == users[ChatController.Counterparty(m, viewer)]
      && r[a].pet == ChatController.PopulatedPet(m, pets)
    requires i < |r| && j < |r|
    requires SameConversation(r[i], r[j].user.id, PetIdOf(r[j].pet))
    ensures i == j
  {
    var mi, mj := r[i].lastMessage, r[j].lastMessage;
    assert ChatController.KeyOf(mi, viewer, pets) == ChatController.KeyOf(mj, viewer, pets);
  }

  /** The address of the history: `?petId=` is added exactly when a pet is selected. */
  function HistoryUrl(otherId: Id, petId: Option<Id>): (r: string)
    ensures petId.None? ==> r == "/api/chat/" + otherId
    ensures petId.Some? ==> r == "/api/chat/" + otherId + "?petId=" + petId.value
  {
    "/api/chat/" + otherId + (if petId.Some? then "?petId=" + petId.value else "")
  }

  /** With ids free of '?', the address holds a '?' exactly when a pet is selected. */
  lemma HistoryUrlQueryIffPet(otherId: Id, petId: Option<Id>)
    requires forall k :: 0 <= k < |otherId| ==> otherId[k] != '?'
    ensures (exists k :: 0 <= k < |HistoryUrl(otherId, petId)| && HistoryUrl(otherId, petId)[k] == '?') <==> petId.Some?
  {
    var u := HistoryUrl(otherId, petId);
    var base := "/api/chat/" + otherId;
    if petId.Some? {
      assert u[|base|] == '?';
    } else {
      forall k | 0 <= k < |u| ensures u[k] != '?' {
        if k >= 10 {
          assert u[k] == otherId[k - 10];
        }
      }
    }
  }

  // ---------------------------------------------------------------------------
  // The screen's state

  class ChatView {
    /** The signed-in user. */
    const me: User
    var currentChat: Option<User>
    var currentPet: Option<ChatController.PetSummary>
    var messages: seq<Message>
    var input: string
    /** The `new_message` payloads emitted on the socket, oldest first. */
    var sent: seq<SocketServer.NewMessagePayload>

    constructor (me: User)
      ensures this.me == me && currentChat == None && currentPet == None
      ensures messages == [] && input == "" && sent == []
    {
      this.me := me;
      currentChat := None;
      currentPet := None;
      messages := [];
      input := "";
      sent := [];
    }

    /**
     * The selection made when the page is opened with a user (and maybe a
     * pet) to talk to: the matching listed conversation when there is one,
     * otherwise the user and pet passed along, each only when present.
     * Without a user id in the router state nothing is selected.
     */
    method OpenFromLink(conversations: seq<ChatController.Conversation>, userId: Id, petId: Option<Id>,
                        user: Option<User>, pet: Option<ChatController.PetSummary>)
      modifies this
      ensures userId == "" ==> currentChat == old(currentChat) && currentPet == old(currentPet)
      ensures userId != "" ==>
        match FindExistingConversation(conversations, userId, petId)
        case Some(c) => currentChat == Some(c.user) && currentPet == c.pet
        case None =>
          && currentChat == (if user.Some? then user else old(currentChat))
          && currentPet == (if pet.Some? then pet else old(currentPet))
      ensures messages == old(messages) && input == old(input) && sent == old(sent)
    {
      if userId == "" {
        return;
      }
      var existing := FindExistingConversation(conversations, userId, petId);
      if existing.Some? {
        currentChat := Some(existing.value.user);
        currentPet := existing.value.pet;
      } else {
        if user.Some? {
          currentChat := user;
        }
        if pet.Some? {
          currentPet := pet;
        }
      }
    }

    /** The fetched history replaces the messages on screen. */
    method HistoryLoaded(data: seq<Message>)
      modifies this
      ensures messages == data
      ensures currentChat == old(currentChat) && currentPet == old(currentPet) && input == old(input) && sent == old(sent)
    {
      messages := data;
    }

    /** 'message_received': the message is appended only when it belongs to the open conversation. */
    method Receive(m: Message)
      modifies this
      ensures IsIncoming(m, old(currentChat), old(currentPet)) ==> messages == old(messages) + [m]
      ensures !IsIncoming(m, old(currentChat), old(currentPet)) ==> messages == old(messages)
      ensures currentChat == old(currentChat) && currentPet == old(currentPet) && input == old(input) && sent == old(sent)
    {
      if IsIncoming(m, currentChat, currentPet) {
        messages := messages + [m];
      }
    }

    /**
     * sendMessage: nothing happens for blank input or with no open chat.
     * Otherwise the payload (with the untrimmed text) is emitted, one local
     * copy with the own id as sender is appended, and the input is cleared.
     */
    method SendMessage(now: int)
      modifies this
      ensures Trim(old(input)) == "" || old(currentChat).None? ==>
        messages == old(messages) && input == old(input) && sent == old(sent)
      ensures Trim(old(input)) != "" && old(currentChat).Some? ==>
        var other := old(currentChat).value;
        var pet := PetIdOf(old(currentPet));
        var chatId := ChatId(me.id, other.id, pet);
        && sent == old(sent) + [SocketServer.NewMessagePayload(
              Some(SocketServer.UserRef(me.id, me.name)), Some(SocketServer.UserRef(other.id, other.name)),
              pet, old(input), chatId)]
        && messages == old(messages) + [Message("", me.id, other.id, pet, old(input), chatId, false, now)]
        && |messages| == |old(messages)| + 1 && messages[|messages| - 1].sender == me.id
        && input == ""
      ensures currentChat == old(currentChat) && currentPet == old(currentPet)
    {
      if Trim(input) == "" || currentChat.None? {
        return;
      }
      var other := currentChat.value;
      var pet := PetIdOf(currentPet);
      var chatId := ChatId(me.id, other.id, pet);
      sent := sent + [SocketServer.NewMessagePayload(
        Some(SocketServer.UserRef(me.id, me.name)), Some(SocketServer.UserRef(other.id, other.name)),
        pet, input, chatId)];
      messages := messages + [Message("", me.id, other.id, pet, input, chatId, false, now)];
      input := "";
    }
  }

  /**
   * What the page sends, the server stores: with both ids present, a
   * payload built from non-blank text passes the message schema.
   */
  lemma SentPayloadIsStorable(me: User, other: User, pet: Option<Id>, text: string, id: Id, now: int)
    requires me.id != "" && other.id != "" && Trim(text) != ""
    ensures CreateMessage(id, me.id, other.id, pet, text, ChatId(me.id, other.id, pet), now).Some?
  {
    assert |Trim(text)| <= |text|;
    ChatIdShape(me.id, other.id, pet);
  }
}
