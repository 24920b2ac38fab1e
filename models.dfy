/**
 * The documents of the server's database (the Mongoose schemas under
 * server/models/): each is a datatype, its enumerations are datatypes, and
 * what the schema checks on save is a `Valid…` predicate. A required value
 * that is missing is written as the empty string "" (Mongoose rejects an
 * empty string for a required String path, and a missing reference id).
 */
module Models {
  import opened Wrappers

  /** A document id (an ObjectId as its hexadecimal text). */
  type Id = string

  // ---------------------------------------------------------------------------
  // Users. The User schema is not part of this model; these are the fields the
  // modelled code reads of a user (`_id`, `name`, `email`, `role`).

  datatype Role = Adopter | Shelter | Admin

  datatype User = User(id: Id, name: string, email: string, role: Role)

  // ---------------------------------------------------------------------------
  // Message

  datatype Message = Message(
    id: Id,
    sender: Id,
    receiver: Id,
    pet: Option<Id>,       // optional reference to the pet the conversation is about
    content: string,
    chatId: string,
    read: bool,
    createdAt: int)        // the `timestamps: true` creation time

  /** The required fields of a message are present. */
  predicate ValidMessage(m: Message) {
    m.sender != "" && m.receiver != "" && m.content != "" && m.chatId != ""
  }

  /**
   * `Message.create({...})`: fails validation unless every required field is
   * present; otherwise stores the fields given, `read: false` and the time.
   */
  function CreateMessage(id: Id, sender: Id, receiver: Id, pet: Option<Id>, content: string, chatId: string, now: int)
    : (r: Option<Message>)
    ensures r.Some? <==> sender != "" && receiver != "" && content != "" && chatId != ""
    ensures r.Some? ==> ValidMessage(r.value) && !r.value.read && r.value.createdAt == now
    ensures r.Some? ==> r.value.sender == sender && r.value.receiver == receiver && r.value.pet == pet
                        && r.value.content == content && r.value.chatId == chatId
  {
    var m := Message(id, sender, receiver, pet, content, chatId, false, now);
    if ValidMessage(m) then Some(m) else None
  }

  // ---------------------------------------------------------------------------
  // Notification

  /** The `type` enumeration of a notification. */
  datatype NotificationType = ApplicationStatus | NewApplication | System | NewMessage

  /** The text the schema stores for each notification type. */
  function TypeName(t: NotificationType): (s: string)
    ensures s in ["application_status", "new_application", "system", "new_message"]
  {
    match t
    case ApplicationStatus => "application_status"
    case NewApplication => "new_application"
    case System => "system"
    case NewMessage => "new_message"
  }

  /** Distinct types are stored as distinct texts. */
  lemma TypeNameInjective(t: NotificationType, u: NotificationType)
    ensures TypeName(t) == TypeName(u) ==> t == u
  {
  }

  datatype Notification = Notification(
    id: Id,
    recipient: Id,
    kind: NotificationType,
    message: string,
    relatedId: Option<string>,   // an application id or a chat id, as text
    read: bool,
    createdAt: int)

  predicate ValidNotification(n: Notification) {
    n.recipient != "" && n.message != ""
  }

  /** `Notification.create({...})`: validation, then `read: false` and the time. */
  function CreateNotification(id: Id, recipient: Id, kind: NotificationType, message: string,
                              relatedId: Option<string>, now: int): (r: Option<Notification>)
    ensures r.Some? <==> recipient != "" && message != ""
    ensures r.Some? ==> ValidNotification(r.value) && !r.value.read && r.value.createdAt == now
    ensures r.Some? ==> r.value.recipient == recipient && r.value.kind == kind
                        && r.value.message == message && r.value.relatedId == relatedId
  {
    var n := Notification(id, recipient, kind, message, relatedId, false, now);
    if ValidNotification(n) then Some(n) else None
  }

  // ---------------------------------------------------------------------------
  // Application

  datatype ApplicationStatus = Pending | Approved | Rejected

  function StatusName(s: ApplicationStatus): string {
    match s
    case Pending => "Pending"
    case Approved => "Approved"
    case Rejected => "Rejected"
  }

  /** The enum validator of `status`: only the three names are accepted. */
  function ParseStatus(text: string): (r: Option<ApplicationStatus>)
    ensures r.Some? <==> text in ["Pending", "Approved", "Rejected"]
    ensures r.Some? ==> StatusName(r.value) == text
  {
    if text == "Pending" then Some(Pending)
    else if text == "Approved" then Some(Approved)
    else if text == "Rejected" then Some(Rejected)
    else None
  }

  lemma StatusRoundTrip(s: ApplicationStatus)
    ensures ParseStatus(StatusName(s)) == Some(s)
  {
  }

  datatype Application = Application(
    id: Id,
    adopter: Id,
    pet: Id,
    shelter: Id,
    status: ApplicationStatus,
    message: string)

  predicate ValidApplication(a: Application) {
    a.adopter != "" && a.pet != "" && a.shelter != "" && a.message != ""
  }

  /** `Application.create({...})`: validation, and `status` defaults to Pending. */
  function CreateApplication(id: Id, adopter: Id, pet: Id, shelter: Id, message: string): (r: Option<Application>)
    ensures r.Some? <==> adopter != "" && pet != "" && shelter != "" && message != ""
    ensures r.Some? ==> ValidApplication(r.value) && r.value.status == Pending
    ensures r.Some? ==> r.value.adopter == adopter && r.value.pet == pet
                        && r.value.shelter == shelter && r.value.message == message
  {
    var a := Application(id, adopter, pet, shelter, Pending, message);
    if ValidApplication(a) then Some(a) else None
  }

  // ---------------------------------------------------------------------------
  // Pet

  datatype Gender = Male | Female
  datatype Size = Small | Medium | Large
  datatype PetStatus = Available | Adopted | PendingAdoption

  function GenderName(g: Gender): string {
    match g
    case Male => "Male"
    case Female => "Female"
  }

  function SizeName(s: Size): string {
    match s
    case Small => "Small"
    case Medium => "Medium"
    case Large => "Large"
  }

  function PetStatusName(s: PetStatus): string {
    match s
    case Available => "Available"
    case Adopted => "Adopted"
    case PendingAdoption => "Pending"
  }

  /** The enum validator of `gender`. */
  function ParseGender(text: string): (r: Option<Gender>)
    ensures r.Some? <==> text in ["Male", "Female"]
    ensures r.Some? ==> GenderName(r.value) == text
  {
    if text == "Male" then Some(Male) else if text == "Female" then Some(Female) else None
  }

  /** The enum validator of `size`. */
  function ParseSize(text: string): (r: Option<Size>)
    ensures r.Some? <==> text in ["Small", "Medium", "Large"]
    ensures r.Some? ==> SizeName(r.value) == text
  {
    if text == "Small" then Some(Small)
    else if text == "Medium" then Some(Medium)
    else if text == "Large" then Some(Large)
    else None
  }

  /** The enum validator of a pet's `status`. */
  function ParsePetStatus(text: string): (r: Option<PetStatus>)
    ensures r.Some? <==> text in ["Available", "Adopted", "Pending"]
    ensures r.Some? ==> PetStatusName(r.value) == text
  {
    if text == "Available" then Some(Available)
    else if text == "Adopted" then Some(Adopted)
    else if text == "Pending" then Some(PendingAdoption)
    else None
  }

  /** Every enumeration value is stored as a text its validator accepts back. */
  lemma PetEnumsRoundTrip(g: Gender, z: Size, s: PetStatus)
    ensures ParseGender(GenderName(g)) == Some(g)
    ensures ParseSize(SizeName(z)) == Some(z)
    ensures ParsePetStatus(PetStatusName(s)) == Some(s)
  {
  }

  datatype Pet = Pet(
    id: Id,
    name: string,
    age: int,
    breed: string,
    category: string,
    gender: Gender,
    size: Size,
    description: string,
    location: string,
    images: seq<string>,
    status: PetStatus,
    shelter: Id)

  /** The required text fields and the owning shelter are present. */
  predicate ValidPet(p: Pet) {
    && p.name != "" && p.breed != "" && p.category != "" && p.description != ""
    && p.location != "" && p.shelter != ""
  }
}
