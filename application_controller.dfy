/**
 * The adoption-application handlers (server/controllers/applicationController.js):
 * an adopter applies for a pet, and the pet's shelter decides. Each handler
 * is a method over the database object; the ids and the time the database
 * assigns to new documents are parameters.
 */
module ApplicationController {
  import opened Wrappers
  import opened Models
  import opened Store
  import ListOps

  /** Whether `apps` already holds an application by `adopter` for `pet` (the `findOne`). */
  predicate HasApplied(apps: seq<Application>, pet: Id, adopter: Id) {
    exists i :: 0 <= i < |apps| && apps[i].pet == pet && apps[i].adopter == adopter
  }

  /** The text of the notification a shelter gets for a new application. */
  function NewApplicationText(petName: string, adopterName: string): string {
    "New adoption application for " + petName + " from " + adopterName
  }

  /** The text of the notification an adopter gets for a decision. */
  function StatusText(petName: string, status: string): string {
    "Your application for " + petName + " has been " + status
  }

  /**
   * createApplication. Fails with NotFound for an unknown pet and with
   * AlreadyApplied when the caller already applied for it, changing nothing.
   * A pet whose shelter user is gone fails when `pet.shelter._id` is read.
   * An application failing validation (no message) is not stored. Otherwise
   * the Pending application by the caller for the pet's shelter is stored,
   * followed by one 'new_application' notification to that shelter.
   */
  method Create(db: Db, caller: User, petId: Id, message: string, appId: Id, noteId: Id, now: int)
    returns (r: Result<Application, Failure>)
    requires db.Valid()
    requires forall a :: a in db.applications ==> a.id != appId
    requires forall n :: n in db.notifications ==> n.id != noteId
    modifies db
    ensures db.Valid()
    ensures db.users == old(db.users) && db.pets == old(db.pets) && db.messages == old(db.messages)
    ensures ListOps.FindIndex(db.pets, (p: Pet) => p.id, petId).None? ==> r == Err(NotFound)
    ensures r.Err? ==> db.applications == old(db.applications) && db.notifications == old(db.notifications)
    ensures r.Err? && r.error == AlreadyApplied <==>
      ListOps.FindIndex(db.pets, (p: Pet) => p.id, petId).Some? && HasApplied(old(db.applications), petId, caller.id)
    ensures r.Ok? <==>
      && ListOps.FindIndex(db.pets, (p: Pet) => p.id, petId).Some?
      && !HasApplied(old(db.applications), petId, caller.id)
      && db.pets[ListOps.FindIndex(db.pets, (p: Pet) => p.id, petId).value].shelter in db.users
      && caller.id != "" && message != ""
    ensures r == Err(ServerError) <==>
      && ListOps.FindIndex(db.pets, (p: Pet) => p.id, petId).Some?
      && !HasApplied(old(db.applications), petId, caller.id)
      && db.pets[ListOps.FindIndex(db.pets, (p: Pet) => p.id, petId).value].shelter !in db.users
    ensures r == Err(Invalid) <==>
      && ListOps.FindIndex(db.pets, (p: Pet) => p.id, petId).Some?
      && !HasApplied(old(db.applications), petId, caller.id)
      && db.pets[ListOps.FindIndex(db.pets, (p: Pet) => p.id, petId).value].shelter in db.users
      && (caller.id == "" || message == "")
    ensures r.Ok? ==>
      var pet := db.pets[ListOps.FindIndex(db.pets, (p: Pet) => p.id, petId).value];
      && r.value == Application(appId, caller.id, petId, pet.shelter, Pending, message)
      && db.applications == old(db.applications) + [r.value]
      && db.notifications == old(db.notifications) +
           [Notification(noteId, pet.shelter, NotificationType.NewApplication,
                         NewApplicationText(pet.name, caller.name), Some(appId), false, now)]
  {
    var found := ListOps.FindIndex(db.pets, (p: Pet) => p.id, petId);
    if found.None? {
      return Err(NotFound);
    }
    var pet := db.pets[found.value];
    if HasApplied(db.applications, petId, caller.id) {
      return Err(AlreadyApplied);
    }
    if pet.shelter !in db.users {
      return Err(ServerError);
    }
    var shelter := db.users[pet.shelter];
    var created := Models.CreateApplication(appId, caller.id, petId, shelter.id, message);
    if created.None? {
      return Err(Invalid);
    }
    var app := created.value;
    OnePerPairAppend(db.applications, app);
    db.applications := db.applications + [app];
    var note := CreateNotification(noteId, shelter.id, NotificationType.NewApplication,
                                   NewApplicationText(pet.name, caller.name), Some(app.id), now);
    match note
    case Some(n) =>
      db.notifications := db.notifications + [n];
    return Ok(app);
  }

  /**
   * updateApplicationStatus. Fails with NotFound for an unknown application
   * and with NotAuthorized when the caller is not its shelter, changing
   * nothing; a status outside the enumeration fails validation in `save`.
   * Otherwise the status is saved; when the pet is gone, reading its name
   * then fails with the status already saved and no notification, else one
   * 'application_status' notification goes to the adopter.
   */
  method UpdateStatus(db: Db, caller: User, appId: Id, status: string, noteId: Id, now: int)
    returns (r: Result<Application, Failure>)
    requires db.Valid()
    requires forall n :: n in db.notifications ==> n.id != noteId
    modifies db
    ensures db.Valid()
    ensures db.users == old(db.users) && db.pets == old(db.pets) && db.messages == old(db.messages)
    ensures |db.applications| == |old(db.applications)|
    ensures var i := ListOps.FindIndex(old(db.applications), (a: Application) => a.id, appId);
      && (i.None? ==> r == Err(NotFound))
      && (i.Some? && old(db.applications)[i.value].shelter != caller.id ==> r == Err(NotAuthorized))
      && (i.Some? && old(db.applications)[i.value].shelter == caller.id && ParseStatus(status).None? ==> r == Err(Invalid))
    ensures r.Err? && r.error != ServerError ==>
      db.applications == old(db.applications) && db.notifications == old(db.notifications)
    ensures r.Ok? || r == Err(ServerError) <==>
      var i := ListOps.FindIndex(old(db.applications), (a: Application) => a.id, appId);
      i.Some? && old(db.applications)[i.value].shelter == caller.id && ParseStatus(status).Some?
    ensures r.Ok? || r == Err(ServerError) ==>
      var i := ListOps.FindIndex(old(db.applications), (a: Application) => a.id, appId).value;
      var updated := old(db.applications)[i].(status := ParseStatus(status).value);
      && db.applications == old(db.applications)[i := updated]
      && (r.Ok? <==> ListOps.FindIndex(db.pets, (p: Pet) => p.id, updated.pet).Some?)
      && (r.Err? ==> db.notifications == old(db.notifications))
      && (r.Ok? ==>
            var pet := db.pets[ListOps.FindIndex(db.pets, (p: Pet) => p.id, updated.pet).value];
            && r.value == updated
            && db.notifications == old(db.notifications) +
                 [Notification(noteId, updated.adopter, ApplicationStatus,
                               StatusText(pet.name, status), Some(appId), false, now)])
  {
    var found := ListOps.FindIndex(db.applications, (a: Application) => a.id, appId);
    if found.None? {
      return Err(NotFound);
    }
    var i := found.value;
    var app := db.applications[i];
    if app.shelter != caller.id {
      return Err(NotAuthorized);
    }
    var parsed := ParseStatus(status);
    if parsed.None? {
      return Err(Invalid);
    }
    app := app.(status := parsed.value);
    db.applications := db.applications[i := app];
    var petAt := ListOps.FindIndex(db.pets, (p: Pet) => p.id, app.pet);
    if petAt.None? {
      return Err(ServerError);
    }
    var pet := db.pets[petAt.value];
    var note := CreateNotification(noteId, app.adopter, ApplicationStatus,
                                   StatusText(pet.name, status), Some(app.id), now);
    match note
    case Some(n) =>
      db.notifications := db.notifications + [n];
    return Ok(app);
  }
}
