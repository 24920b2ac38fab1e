/**
 * The two chat queries of the server (server/controllers/chatController.js):
 * the caller's conversation list, one entry per (counterparty, pet or
 * "general") with its newest message, and the history between two users,
 * optionally about one pet, oldest first.
 *
 * The message store is the sequence `log`; the user directory that
 * `User.findById` reads and the pets that `populate('pet')` resolves are maps.
 */
module ChatController {
  import opened Wrappers
  import opened Models
  import opened Timeline
  import ListOps

  /** The fields `populate('pet', 'name images')` brings into a message. */
  datatype PetSummary = PetSummary(id: Id, name: string, images: seq<string>)

  /** The pet half of a conversation key: a pet, or the literal 'general'. */
  datatype Scope = General | About(pet: Id)

  /**
   * The key `${otherUserId}_${petId}`. Written as a pair: ObjectId text never
   * holds '_' and is never 'general', so two keys are equal as text exactly
   * when they are equal as pairs.
   */
  datatype ConversationKey = ConversationKey(other: Id, scope: Scope)

  /** One entry of the conversation list. */
  datatype Conversation = Conversation(user: User, pet: Option<PetSummary>, lastMessage: Message)

  /** The caller is the sender or the receiver (the `$or` of the query). */
  predicate Involves(m: Message, viewer: Id) {
    m.sender == viewer || m.receiver == viewer
  }

  /** The receiver when the caller sent the message, otherwise the sender. */
  function Counterparty(m: Message, viewer: Id): Id {
    if m.sender == viewer then m.receiver else m.sender
  }

  /** The two parties of a message the caller takes part in are the caller and the counterparty. */
  lemma CounterpartyIsOtherParty(m: Message, viewer: Id)
    requires Involves(m, viewer)
    ensures {m.sender, m.receiver} == {viewer, Counterparty(m, viewer)}
  {
  }

  /** `message.pet` after population: null when the message has no pet or the pet is gone. */
  function PopulatedPet(m: Message, pets: map<Id, PetSummary>): (r: Option<PetSummary>)
    ensures r.Some? ==> m.pet.Some? && m.pet.value in pets && r.value == pets[m.pet.value]
    ensures r.None? ==> m.pet.None? || m.pet.value !in pets
  {
    if m.pet.Some? && m.pet.value in pets then Some(pets[m.pet.value]) else None
  }

  /** The conversation a message belongs to, from the caller's side. */
  function KeyOf(m: Message, viewer: Id, pets: map<Id, PetSummary>): ConversationKey {
    ConversationKey(Counterparty(m, viewer),
                    if PopulatedPet(m, pets).Some? then About(m.pet.value) else General)
  }

  /** The same counterparty about two different (existing) pets gives two conversations. */
  lemma DistinctPetsDistinctKeys(m1: Message, m2: Message, viewer: Id, pets: map<Id, PetSummary>)
    requires Counterparty(m1, viewer) == Counterparty(m2, viewer)
    requires m1.pet.Some? && m1.pet.value in pets && m2.pet.Some? && m2.pet.value in pets
    ensures KeyOf(m1, viewer, pets) == KeyOf(m2, viewer, pets) <==> m1.pet == m2.pet
  {
  }

  /** The caller's messages, in store order. */
  function Involving(log: seq<Message>, viewer: Id): seq<Message> {
    ListOps.Filter(log, m => Involves(m, viewer))
  }

  /** The query of getConversations: the caller's messages, newest first. */
  function TimelineOf(log: seq<Message>, viewer: Id): seq<Message> {
    SortByTime(Involving(log, viewer), true)
  }

  /**
   * The state of the walk after the first `n` messages of `msgs`: entry `k`
   * was made from message `pos[k]`, the first one with key `keys[k]`, and
   * every key seen so far whose counterparty exists has an entry.
   */
  ghost predicate Walked(msgs: seq<Message>, n: nat, viewer: Id, users: map<Id, User>, pets: map<Id, PetSummary>,
                         keys: seq<ConversationKey>, pos: seq<nat>, r: seq<Conversation>)
  {
    && n <= |msgs| && |keys| == |r| == |pos|
    && (forall k :: 0 <= k < |r| ==>
         && pos[k] < n && r[k].lastMessage == msgs[pos[k]]
         && keys[k] == KeyOf(msgs[pos[k]], viewer, pets)
         && Counterparty(msgs[pos[k]], viewer) in users
         && r[k].user == users[Counterparty(msgs[pos[k]], viewer)]
         && r[k].pet == PopulatedPet(msgs[pos[k]], pets))
    && (forall k, l :: 0 <= k < l < |r| ==> pos[k] < pos[l])
    && (forall k, j :: 0 <= k < |r| && 0 <= j < pos[k] ==> KeyOf(msgs[j], viewer, pets) != keys[k])
    && (forall j :: 0 <= j < n && Counterparty(msgs[j], viewer) in users ==> KeyOf(msgs[j], viewer, pets) in keys)
  }

  /**
   * getConversations: walks the caller's messages newest first and keeps, for
   * each key not seen yet whose counterparty still exists, the message with
   * the counterparty's profile. The JavaScript Map is kept as its
   * insertion-ordered keys `keys` and values `r`.
   */
  method GetConversations(log: seq<Message>, viewer: Id, users: map<Id, User>, pets: map<Id, PetSummary>)
    returns (r: seq<Conversation>)
    ensures Involving(log, viewer) == [] ==> r == []
    ensures forall i :: 0 <= i < |r| ==>
      var m := r[i].lastMessage;
      && m in log && Involves(m, viewer)
      && Counterparty(m, viewer) in users && r[i].user == users[Counterparty(m, viewer)]
      && r[i].pet == PopulatedPet(m, pets)
    ensures forall i, j :: 0 <= i < j < |r| ==>
      KeyOf(r[i].lastMessage, viewer, pets) != KeyOf(r[j].lastMessage, viewer, pets)
    ensures forall m :: m in log && Involves(m, viewer) && Counterparty(m, viewer) in users ==>
      exists i :: 0 <= i < |r| && KeyOf(r[i].lastMessage, viewer, pets) == KeyOf(m, viewer, pets)
                  && m.createdAt <= r[i].lastMessage.createdAt
    ensures forall i, j :: 0 <= i < j < |r| ==> r[i].lastMessage.createdAt >= r[j].lastMessage.createdAt
  {
    var msgs := TimelineOf(log, viewer);
    var keys: seq<ConversationKey> := [];
    ghost var pos: seq<nat> := [];
    r := [];
    for i := 0 to |msgs|
      invariant Walked(msgs, i, viewer, users, pets, keys, pos, r)
    {
      var m := msgs[i];
      var other := Counterparty(m, viewer);
      var key := KeyOf(m, viewer, pets);
      if key !in keys && other in users {
        WalkAdds(msgs, i, viewer, users, pets, keys, pos, r);
        keys := keys + [key];
        pos := pos + [i];
        r := r + [Conversation(users[other], PopulatedPet(m, pets), m)];
      } else {
        WalkSkips(msgs, i, viewer, users, pets, keys, pos, r);
      }
    }
    WalkEntries(log, msgs, viewer, users, pets, keys, pos, r);
    WalkDistinct(msgs, viewer, users, pets, keys, pos, r);
    WalkComplete(log, msgs, viewer, users, pets, keys, pos, r);
    WalkNewestFirst(log, msgs, viewer, users, pets, keys, pos, r);
  }

  /** A message whose key is new and whose counterparty exists extends the walk by one entry. */
  lemma WalkAdds(msgs: seq<Message>, i: nat, viewer: Id, users: map<Id, User>, pets: map<Id, PetSummary>,
                 keys: seq<ConversationKey>, pos: seq<nat>, r: seq<Conversation>)
    requires Walked(msgs, i, viewer, users, pets, keys, pos, r) && i < |msgs|
    requires KeyOf(msgs[i], viewer, pets) !in keys && Counterparty(msgs[i], viewer) in users
    ensures
      var m := msgs[i];
      Walked(msgs, i + 1, viewer, users, pets, keys + [KeyOf(m, viewer, pets)], pos + [i],
             r + [Conversation(users[Counterparty(m, viewer)], PopulatedPet(m, pets), m)])
  {
    var m := msgs[i];
    var keys', pos' := keys + [KeyOf(m, viewer, pets)], pos + [i];
    forall j | 0 <= j < i ensures KeyOf(msgs[j], viewer, pets) != KeyOf(m, viewer, pets) {
      if Counterparty(msgs[j], viewer) in users {
        assert KeyOf(msgs[j], viewer, pets) in keys;
      }
    }
  }

  /** A message whose key was seen, or whose counterparty is gone, leaves the walk as it is. */
  lemma WalkSkips(msgs: seq<Message>, i: nat, viewer: Id, users: map<Id, User>, pets: map<Id, PetSummary>,
                  keys: seq<ConversationKey>, pos: seq<nat>, r: seq<Conversation>)
    requires Walked(msgs, i, viewer, users, pets, keys, pos, r) && i < |msgs|
    requires KeyOf(msgs[i], viewer, pets) in keys || Counterparty(msgs[i], viewer) !in users
    ensures Walked(msgs, i + 1, viewer, users, pets, keys, pos, r)
  {
  }

  /** The finished walk lists only the caller's messages with a known counterparty; none when there are none. */
  lemma WalkEntries(log: seq<Message>, msgs: seq<Message>, viewer: Id, users: map<Id, User>, pets: map<Id, PetSummary>,
                     keys: seq<ConversationKey>, pos: seq<nat>, r: seq<Conversation>)
    requires msgs == TimelineOf(log, viewer)
    requires Walked(msgs, |msgs|, viewer, users, pets, keys, pos, r)
    ensures Involving(log, viewer) == [] ==> r == []
    ensures forall i :: 0 <= i < |r| ==>
      var m := r[i].lastMessage;
      && m in log && Involves(m, viewer)
      && Counterparty(m, viewer) in users && r[i].user == users[Counterparty(m, viewer)]
      && r[i].pet == PopulatedPet(m, pets)
  {
    var mine := Involving(log, viewer);
    SortByTimeCorrect(mine, true);
    assert |r| > 0 ==> pos[0] < |msgs|;
    if mine == [] {
      assert |multiset(msgs)| == 0;
    }
    forall k | 0 <= k < |r| ensures r[k].lastMessage in log && Involves(r[k].lastMessage, viewer) {
      assert msgs[pos[k]] in multiset(msgs);
      assert r[k].lastMessage in mine;
    }
  }

  /** The finished walk has at most one entry per key. */
  lemma WalkDistinct(msgs: seq<Message>, viewer: Id, users: map<Id, User>, pets: map<Id, PetSummary>,
                     keys: seq<ConversationKey>, pos: seq<nat>, r: seq<Conversation>)
    requires Walked(msgs, |msgs|, viewer, users, pets, keys, pos, r)
    ensures forall i, j :: 0 <= i < j < |r| ==>
      KeyOf(r[i].lastMessage, viewer, pets) != KeyOf(r[j].lastMessage, viewer, pets)
  {
    forall k, l | 0 <= k < l < |r|
      ensures KeyOf(r[k].lastMessage, viewer, pets) != KeyOf(r[l].lastMessage, viewer, pets)
    {
      assert pos[k] < pos[l];
    }
  }

  /** Every conversation with a known counterparty has an entry holding its newest message. */
  lemma WalkComplete(log: seq<Message>, msgs: seq<Message>, viewer: Id, users: map<Id, User>, pets: map<Id, PetSummary>,
                     keys: seq<ConversationKey>, pos: seq<nat>, r: seq<Conversation>)
    requires msgs == TimelineOf(log, viewer)
    requires Walked(msgs, |msgs|, viewer, users, pets, keys, pos, r)
    ensures forall m :: m in log && Involves(m, viewer) && Counterparty(m, viewer) in users ==>
      exists i :: 0 <= i < |r| && KeyOf(r[i].lastMessage, viewer, pets) == KeyOf(m, viewer, pets)
                  && m.createdAt <= r[i].lastMessage.createdAt
  {
    var mine := Involving(log, viewer);
    SortByTimeCorrect(mine, true);
    forall m | m in log && Involves(m, viewer) && Counterparty(m, viewer) in users
      ensures exists i :: 0 <= i < |r| && KeyOf(r[i].lastMessage, viewer, pets) == KeyOf(m, viewer, pets)
                          && m.createdAt <= r[i].lastMessage.createdAt
    {
      assert m in mine;
      assert m in multiset(mine);
      assert m in msgs;
      var j :| 0 <= j < |msgs| && msgs[j] == m;
      assert KeyOf(msgs[j], viewer, pets) in keys;
      var k :| 0 <= k < |keys| && keys[k] == KeyOf(m, viewer, pets);
      assert pos[k] <= j;
      assert pos[k] == j || Precedes(msgs[pos[k]], msgs[j], true);
    }
  }

  /** The entries come newest first. */
  lemma WalkNewestFirst(log: seq<Message>, msgs: seq<Message>, viewer: Id, users: map<Id, User>, pets: map<Id, PetSummary>,
                     keys: seq<ConversationKey>, pos: seq<nat>, r: seq<Conversation>)
    requires msgs == TimelineOf(log, viewer)
    requires Walked(msgs, |msgs|, viewer, users, pets, keys, pos, r)
    ensures forall i, j :: 0 <= i < j < |r| ==> r[i].lastMessage.createdAt >= r[j].lastMessage.createdAt
  {
    SortByTimeCorrect(Involving(log, viewer), true);
    forall k, l | 0 <= k < l < |r| ensures r[k].lastMessage.createdAt >= r[l].lastMessage.createdAt {
      assert pos[k] < pos[l];
      assert Precedes(msgs[pos[k]], msgs[pos[l]], true);
    }
  }

  // ---------------------------------------------------------------------------
  // getMessages

  /** `{sender: me, receiver: other}` or `{sender: other, receiver: me}`. */
  predicate Between(m: Message, me: Id, other: Id) {
    (m.sender == me && m.receiver == other) || (m.sender == other && m.receiver == me)
  }

  /** `if (petId) query.pet = petId`: an empty or absent `petId` selects every pet and none. */
  predicate InPetScope(m: Message, petId: string) {
    petId == "" || m.pet == Some(petId)
  }

  predicate InHistory(m: Message, me: Id, other: Id, petId: string) {
    Between(m, me, other) && InPetScope(m, petId)
  }

  /** getMessages: the two-party history, optionally about one pet, oldest first. */
  function GetMessages(log: seq<Message>, me: Id, other: Id, petId: string): seq<Message> {
    SortByTime(ListOps.Filter(log, m => InHistory(m, me, other, petId)), false)
  }

  /**
   * The history holds every stored message between the two users (in both
   * directions, within the pet scope) as often as the store does, and nothing
   * else, in non-decreasing creation time.
   */
  lemma GetMessagesSpec(log: seq<Message>, me: Id, other: Id, petId: string)
    ensures forall m :: multiset(GetMessages(log, me, other, petId))[m] ==
                        if InHistory(m, me, other, petId) then multiset(log)[m] else 0
    ensures forall m :: m in GetMessages(log, me, other, petId) <==> m in log && InHistory(m, me, other, petId)
    ensures Sorted(GetMessages(log, me, other, petId), false)
  {
    var selected := ListOps.Filter(log, m => InHistory(m, me, other, petId));
    ListOps.FilterMultiset(log, m => InHistory(m, me, other, petId));
    SortByTimeCorrect(selected, false);
    forall m ensures m in GetMessages(log, me, other, petId) <==> m in log && InHistory(m, me, other, petId) {
      SortByTimeMembers(selected, false, m);
    }
  }

  /** Asking from either side gives the same history. */
  lemma GetMessagesSymmetric(log: seq<Message>, me: Id, other: Id, petId: string)
    ensures GetMessages(log, me, other, petId) == GetMessages(log, other, me, petId)
  {
    ListOps.FilterAgree(log, m => InHistory(m, me, other, petId), m => InHistory(m, other, me, petId));
  }

  /** A pet's history is part of the unscoped history, which includes every pet and none. */
  lemma PetHistoryWithinFullHistory(log: seq<Message>, me: Id, other: Id, petId: string, m: Message)
    ensures m in GetMessages(log, me, other, petId) ==> m in GetMessages(log, me, other, "")
    ensures m in log && Between(m, me, other) ==> m in GetMessages(log, me, other, "")
  {
    GetMessagesSpec(log, me, other, petId);
    GetMessagesSpec(log, me, other, "");
  }
}
