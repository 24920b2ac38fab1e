/**
 * The server's database as one in-memory object: each Mongoose collection the
 * modelled handlers touch is a sequence in insertion order, and the users
 * (only read here) are a map from id to profile. The handlers are methods
 * that change this object in place.
 */
module Store {
  import opened Models

  /**
   * Why a handler fails: the explicit `res.status(...)` errors (404 not found,
   * 400 already applied, 401 not authorized, 403 forbidden), a schema
   * validation error raised by `create` or `save`, and a TypeError from
   * reading a field of a missing document.
   */
  datatype Failure = NotFound | AlreadyApplied | NotAuthorized | Forbidden | Invalid | ServerError

  /** No two applications share a (pet, adopter) pair. */
  predicate OnePerPair(apps: seq<Application>) {
    forall i, j :: 0 <= i < j < |apps| ==>
      apps[i].pet != apps[j].pet || apps[i].adopter != apps[j].adopter
  }

  /** Appending an application for a fresh pair keeps one application per pair. */
  lemma OnePerPairAppend(apps: seq<Application>, a: Application)
    requires OnePerPair(apps)
    requires forall i :: 0 <= i < |apps| ==> apps[i].pet != a.pet || apps[i].adopter != a.adopter
    ensures OnePerPair(apps + [a])
  {
  }

  class Db {
    var users: map<Id, User>
    var pets: seq<Pet>
    var applications: seq<Application>
    var messages: seq<Message>
    var notifications: seq<Notification>

    /**
     * What the schemas guarantee of every stored document, one application
     * per pair, each user filed under its own id, every pet with an id, and
     * no two documents of a collection sharing an `_id`.
     */
    ghost predicate Valid()
      reads this
    {
      && (forall k :: k in users ==> users[k].id == k)
      && (forall p :: p in pets ==> ValidPet(p) && p.id != "")
      && (forall i :: 0 <= i < |applications| ==> ValidApplication(applications[i]))
      && (forall i :: 0 <= i < |messages| ==> ValidMessage(messages[i]))
      && (forall i :: 0 <= i < |notifications| ==> ValidNotification(notifications[i]))
      && OnePerPair(applications)
      && (forall i, j :: 0 <= i < j < |pets| ==> pets[i].id != pets[j].id)
      && (forall i, j :: 0 <= i < j < |applications| ==> applications[i].id != applications[j].id)
      && (forall i, j :: 0 <= i < j < |messages| ==> messages[i].id != messages[j].id)
      && (forall i, j :: 0 <= i < j < |notifications| ==> notifications[i].id != notifications[j].id)
    }

    /** A database holding the given users and no documents. */
    constructor (users: map<Id, User>)
      requires forall k :: k in users ==> users[k].id == k
      ensures Valid()
      ensures this.users == users && pets == [] && applications == [] && messages == [] && notifications == []
    {
      this.users := users;
      pets := [];
      applications := [];
      messages := [];
      notifications := [];
    }
  }
}
