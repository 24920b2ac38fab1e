/**
 * The pet details page: which actions a visitor is offered, where the
 * location line comes from, and what the delete button does.
 */
module PetDetailsPage {
  import opened Wrappers
  import opened Models
  import ChatController
  import ChatPage

  /** The shelter as `getPetById` populates it (`name email location`). */
  datatype ShelterInfo = ShelterInfo(user: User, location: string)

  /** The loaded pet; `shelter` is None when the referenced user no longer exists. */
  datatype PetDetails = PetDetails(pet: Pet, shelter: Option<ShelterInfo>)

  /** A populated shelter is the user the pet refers to. */
  predicate Populated(d: PetDetails) {
    d.shelter.Some? ==> d.shelter.value.user.id == d.pet.shelter
  }

  /** The router state handed to the chat page by "Message Shelter": no pet. */
  datatype ChatLink = ChatLink(userId: Id, user: User)

  /** The action panel under the description. */
  datatype Panel =
    | AdopterPanel(applyPath: string, messageShelter: Option<ChatLink>)
    | OwnerPanel(editPath: string)
    | LoginPanel

  const ApplyPrefix := "/adoption-form/"
  const EditPrefix := "/pets/edit/"

  /**
   * The panel shown to `viewer`. An adopter may apply and message the
   * shelter (the click fails when the shelter was not populated, so the
   * link is then None); a shelter owning the pet may edit and delete it;
   * everyone else is sent to log in. A shelter viewing a pet whose shelter
   * is missing makes the render read `_id` of null: None.
   */
  function ActionsFor(viewer: Option<User>, d: PetDetails): (r: Option<Panel>)
    ensures r.None? <==> viewer.Some? && viewer.value.role == Shelter && d.shelter.None?
    ensures (r.Some? && r.value.AdopterPanel?) <==> viewer.Some? && viewer.value.role == Adopter
    ensures (r.Some? && r.value.OwnerPanel?) <==>
      viewer.Some? && viewer.value.role == Shelter && d.shelter.Some? && viewer.value.id == d.shelter.value.user.id
    ensures r.Some? && r.value.AdopterPanel? ==>
      && r.value.applyPath == ApplyPrefix + d.pet.id
      && (r.value.messageShelter.Some? <==> d.shelter.Some?)
      && (d.shelter.Some? ==> r.value.messageShelter.value == ChatLink(d.shelter.value.user.id, d.shelter.value.user))
    ensures r.Some? && r.value.OwnerPanel? ==> r.value.editPath == EditPrefix + d.pet.id
  {
    if viewer.Some? && viewer.value.role == Adopter then
      Some(AdopterPanel(ApplyPrefix + d.pet.id,
                        if d.shelter.Some? then Some(ChatLink(d.shelter.value.user.id, d.shelter.value.user)) else None))
    else if viewer.Some? && viewer.value.role == Shelter then
      if d.shelter.None? then None
      else if viewer.value.id == d.shelter.value.user.id then Some(OwnerPanel(EditPrefix + d.pet.id))
      else Some(LoginPanel)
    else Some(LoginPanel)
  }

  /**
   * The edit and delete buttons appear exactly when the server would let
   * the viewer update or delete the pet (its shelter is the caller), for a
   * shelter viewer of a populated pet.
   */
  lemma OwnerPanelIffServerOwner(viewer: User, d: PetDetails)
    requires Populated(d) && d.shelter.Some? && viewer.role == Shelter
    ensures (var r := ActionsFor(Some(viewer), d); r.Some? && r.value.OwnerPanel?) <==> d.pet.shelter == viewer.id
  {
  }

  /** Administrators and guests see the login link only. */
  lemma NonMembersSeeLogin(viewer: Option<User>, d: PetDetails)
    requires viewer.None? || viewer.value.role == Admin
    ensures ActionsFor(viewer, d) == Some(LoginPanel)
  {
  }

  /**
   * Following "Message Shelter" opens the shelter's general conversation:
   * the chat page looks only for a conversation without a pet, and, when
   * none exists yet, a fresh view stays without a pet. The link carries
   * the populated shelter's `_id`, which is never empty.
   */
  method MessageShelterOpensGeneralChat(view: ChatPage.ChatView, conversations: seq<ChatController.Conversation>,
                                        link: ChatLink)
    requires view.currentPet.None? && link.user.id == link.userId && link.userId != ""
    modifies view
    ensures view.currentPet.None?
    ensures view.currentChat.Some? && view.currentChat.value.id == link.userId
  {
    view.OpenFromLink(conversations, link.userId, None, Some(link.user), None);
  }

  const NoLocation := "Location not available"
  const UnknownShelter := "Unknown Shelter"

  /** The location line: the pet's own, else its shelter's, else a placeholder; never empty. */
  function LocationText(d: PetDetails): (r: string)
    ensures r != ""
    ensures d.pet.location != "" ==> r == d.pet.location
    ensures d.pet.location == "" && d.shelter.Some? && d.shelter.value.location != "" ==> r == d.shelter.value.location
    ensures d.pet.location == "" && (d.shelter.None? || d.shelter.value.location == "") ==> r == NoLocation
  {
    if d.pet.location != "" then d.pet.location
    else if d.shelter.Some? && d.shelter.value.location != "" then d.shelter.value.location
    else NoLocation
  }

  /** "Posted by": the shelter's name, or a placeholder. */
  function PostedBy(d: PetDetails): (r: string)
    ensures r != ""
    ensures d.shelter.Some? && d.shelter.value.user.name != "" ==> r == d.shelter.value.user.name
    ensures d.shelter.None? ==> r == UnknownShelter
  {
    if d.shelter.Some? && d.shelter.value.user.name != "" then d.shelter.value.user.name else UnknownShelter
  }

  /** What a click on Delete does. */
  datatype Effect = DispatchDelete(petId: Id) | Navigate(path: string)

  /**
   * handleDelete: nothing unless the user confirms; then the delete is
   * dispatched and awaited, and the page moves to the dashboard whatever
   * the outcome.
   */
  function HandleDelete(confirmed: bool, d: PetDetails): (r: seq<Effect>)
    ensures !confirmed <==> r == []
    ensures confirmed ==> |r| == 2 && r[0] == DispatchDelete(d.pet.id) && r[1] == Navigate("/dashboard")
  {
    if confirmed then [DispatchDelete(d.pet.id), Navigate("/dashboard")] else []
  }
}
