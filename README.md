# Pet-Paal in Dafny

A model of the core of Pet-Paal, a pet-adoption web application. Shelters list pets, adopters
browse the listing, apply to adopt and chat with shelters, and both sides receive notifications.
The project covers:

- the Express/Mongoose server:
  - the pet, application and chat handlers;
  - the Socket.IO `new_message` relay;
  - the four document schemas.
- the React client:
  - the Redux slices that hold the client state;
  - the pages and widgets whose logic decides what is sent, shown or navigated to (chat, pet
    details, create/edit pet, browse, login, register, notifications, hero carousel, assistant
    widget).

Each part takes the form its source has:

- Handlers and reducers change state in place. They are classes or methods over a database
  object (`Store.Db`) or a slice object, with `modifies` clauses.
- The conversation list of `getConversations` is a loop. It is modelled as a method with loop
  invariants, proved against a specification.
- Queries, validators and render decisions are functions, and lemmas state what they promise.

Modelling conventions:

- Ids are strings (an ObjectId's hexadecimal text). `""` stands for an absent required field.
- Multipart request bodies are text, so an empty field means "not sent".
- Document ids, the current time and the case-insensitive regular-expression test of `$regex`
  are parameters.

Modules:

- `Wrappers`: `Option` and `Result`.
- `Text`: the JavaScript string semantics relied on: `trim`, string sort order, decimal number
  text, and the `^\S+@\S+$` e-mail pattern.
- `ListOps`: `find`, `findIndex`, `filter`, `map`-replace.
- `Timeline`: sorting by `createdAt`.
- `Models`: the schemas (`Message`, `Notification`, `Application`, `Pet`) and their validation.
- `Store`: the database and its invariants.
- Server handlers: `ChatController`, `ApplicationController`, `PetController`, `SocketServer`.
- Client slices: `NotificationSlice`, `PetSlice`, `ApplicationSlice`, `AdminSlice`, `AuthSlice`.
- Client pages and widgets: `ChatPage`, `PetDetailsPage`, `CreatePetPage`, `BrowsePetsPage`,
  `LoginPage`, `RegisterPage`, `NotificationList`, `HeroSlider`, `Chatbot`.

## Model

| member | source | states |
|---|---|---|
| Models.CreateMessage | server/models/Message.js:3-36 | A message is stored only with sender, receiver, content and chatId present. The pet is optional. It is stored unread and stamped with the current time. |
| Models.TypeName | server/models/Notification.js:10-14 | Each notification type is stored as one of the four enumeration texts. |
| Models.TypeNameInjective | server/models/Notification.js:10-14 | Distinct notification types are stored as distinct texts. |
| Models.CreateNotification | server/models/Notification.js:3-30 | A notification needs a recipient and a message. It is stored unread, with the given type, related id and time. |
| Models.ParseStatus | server/models/Application.js:20-24 | The status validator accepts exactly 'Pending', 'Approved' and 'Rejected'. |
| Models.StatusRoundTrip | server/models/Application.js:20-24 | Every status is stored as a text that the validator accepts back as the same status. |
| Models.CreateApplication | server/models/Application.js:3-33 | An application needs adopter, pet, shelter and message. Its status defaults to Pending. |
| Models.ParseGender | server/models/Pet.js:21-25 | The gender validator accepts exactly 'Male' and 'Female'. |
| Models.ParseSize | server/models/Pet.js:26-30 | The size validator accepts exactly 'Small', 'Medium' and 'Large'. |
| Models.ParsePetStatus | server/models/Pet.js:44-48 | The pet-status validator accepts exactly 'Available', 'Adopted' and 'Pending'. |
| Models.PetEnumsRoundTrip | server/models/Pet.js:21-48 | Every gender, size and pet status is stored as a text its validator maps back to it. |
| Store.OnePerPairAppend | server/controllers/applicationController.js:19-34 | Storing an application only after the duplicate check finds none keeps at most one application per (pet, adopter). |
| Store.Db.constructor | server/models/Application.js:3-33 | An empty database satisfies the store invariant: users keyed by id, valid documents, one application per pair, and no `_id` shared within a collection. |
| ChatController.CounterpartyIsOtherParty | server/controllers/chatController.js:19-22 | For a message the caller takes part in, its two parties are the caller and the counterparty. |
| ChatController.PopulatedPet | server/controllers/chatController.js:14 | A populated pet is present only when the message names a pet that still exists, and it is that pet. |
| ChatController.DistinctPetsDistinctKeys | server/controllers/chatController.js:24-25 | The same counterparty about two different existing pets gives two conversation keys. |
| ChatController.GetConversations | server/controllers/chatController.js:8-40 | Returns one entry per (counterparty, pet or 'general') key whose counterparty still exists, and no other entries. Each entry holds the newest message of its key, the counterparty and the populated pet. Entries are ordered newest first. An empty message log gives an empty list. |
| ChatController.WalkAdds | server/controllers/chatController.js:27-35 | Adding an entry for an unseen key with an existing counterparty preserves the loop invariant. |
| ChatController.WalkSkips | server/controllers/chatController.js:27-29 | Skipping a seen key, or a missing counterparty, preserves the loop invariant. |
| ChatController.WalkEntries | server/controllers/chatController.js:10-35 | Every entry of the finished walk is a message from the log that involves the caller and has an existing counterparty. |
| ChatController.WalkDistinct | server/controllers/chatController.js:27 | The finished walk holds at most one entry per key. |
| ChatController.WalkComplete | server/controllers/chatController.js:13-35 | Every key with an existing counterparty has an entry, and no message of that key is newer than the entry's. |
| ChatController.WalkNewestFirst | server/controllers/chatController.js:13-35 | The entries come in newest-first order of their messages. |
| ChatController.GetMessagesSpec | server/controllers/chatController.js:45-64 | Specifies `GetMessages`, the model of `getMessages`. The history holds every stored message between the two users (in either direction, within the pet scope), as many times as it is stored, and nothing else. It is ordered oldest first. |
| ChatController.GetMessagesSymmetric | server/controllers/chatController.js:50-55 | Either party asking gets the same history. |
| ChatController.PetHistoryWithinFullHistory | server/controllers/chatController.js:57-59 | A pet's history is contained in the unscoped history, and the unscoped history holds every message between the two. |
| SocketServer.InboxAppend | server/server.js:140-154 | A socket receives the events of later emits after those of earlier ones, in emit order. |
| SocketServer.NewMessageReachesOthers | server/server.js:140-154 | The two 'new_message' emits reach a socket exactly when it is in the receiver's room and is not the sender's socket. Such a socket gets the message, then the notification. The sender's socket gets neither, even when it has joined the receiver's room. |
| SocketServer.Preview | server/server.js:147 | The preview is the content's first 30 characters, followed by "..." when there were more. |
| SocketServer.PreviewBounded | server/server.js:147 | The preview is at most 33 characters long and starts with the content's beginning. |
| SocketServer.PreviewEllipsisIffCut | server/server.js:147 | For content without dots, the preview ends in "..." exactly when the content was cut. |
| SocketServer.NotificationText | server/server.js:147 | Content of up to 30 characters is quoted whole after "New message from <sender>: ". Longer content is cut to its first 30 characters followed by "...". The text always starts with that prefix and is at most 52 characters longer than the sender's name. |
| SocketServer.Router.constructor | server/server.js:111 | A fresh server has no rooms and has emitted nothing. |
| SocketServer.Router.Join | server/server.js:115 | Joining adds the socket to exactly one room. |
| SocketServer.Router.Setup | server/server.js:114-117 | 'setup' joins the room named by the user's id and answers 'connected' to that socket only. |
| SocketServer.Router.JoinChat | server/server.js:119-122 | 'join_chat' joins exactly the given room and emits nothing. |
| SocketServer.Router.OnNewMessage | server/server.js:124-156 | With no receiver, nothing happens. With no sender or an invalid message, nothing is stored or emitted. Otherwise, in order: the message is stored; it is emitted to the receiver's room except the sender; a 'new_message' notification with the preview text and the chat id is stored; that notification is emitted to the same room. Each socket then receives both events exactly when it is in the receiver's room and is not the sender's. The message and notification ids must be fresh, and the store invariant is kept. |
| ApplicationController.Create | server/controllers/applicationController.js:9-45 | An unknown pet fails with NotFound. A repeated (pet, adopter) fails with AlreadyApplied. A missing shelter user fails with ServerError. A missing message fails with Invalid. Each failure stores nothing. Otherwise a Pending application is stored, followed by one 'new_application' notification to the shelter. The new ids must be fresh, and the store invariant is kept, unique ids included. |
| ApplicationController.UpdateStatus | server/controllers/applicationController.js:70-96 | An unknown application fails with NotFound. A caller who is not its shelter fails with NotAuthorized. A status outside the enumeration fails with Invalid. These failures change nothing. Otherwise the status is saved in place. A missing pet then fails with the status kept and no notification. Otherwise one 'application_status' notification goes to the adopter. |
| PetController.PageOf | server/controllers/petController.js:9 | The page is the number given, or 1 when that is absent, not a number, or 0. |
| PetController.PageSlice | server/controllers/petController.js:26-28 | A page holds at most 10 matches, all taken from the matches. |
| PetController.GetPets | server/controllers/petController.js:7-31 | The listing succeeds exactly when the age is absent or numeric and the page is at least 1. It then holds at most 10 pets and echoes the page. |
| PetController.SliceHoldsMatch | server/controllers/petController.js:26-28 | Match j is at position j mod 10 of page j div 10 + 1. |
| PetController.ListedPetsMatch | server/controllers/petController.js:11-26 | Every listed pet is stored, Available, and passes every filter in the query. |
| PetController.PagesIsCeiling | server/controllers/petController.js:25-30 | `pages` is the ceiling of count / 10: the pages cover every match, no page is empty, and it is 0 when nothing matches. |
| PetController.EachMatchOnItsPage | server/controllers/petController.js:25-30 | Asking for page j div 10 + 1 lists match j, so walking the pages meets every match. |
| PetController.NewPet | server/models/Pet.js:3-58 | A new pet is valid, Available, owned by the caller, and holds the form's fields. Creation fails exactly when a required field is missing, the age is not a number, or an enumeration is out of range. |
| PetController.CreatedImages | server/controllers/petController.js:57-64 | The stored images are the uploaded paths when there is an upload field, otherwise the placeholder photo. |
| PetController.Create | server/controllers/petController.js:50-81 | Creation appends exactly the built pet with the caller as shelter, or fails with Invalid and stores nothing. No other collection changes. The database issues a fresh id, and the store invariant is kept, unique pet ids included. |
| PetController.Either | server/controllers/petController.js:97-105 | A non-empty field replaces the value; an empty one keeps it. |
| PetController.MergePet | server/controllers/petController.js:97-111 | The merge succeeds exactly when every given age and enumeration field passes its cast or validator. |
| PetController.MergeEmptyKeeps | server/controllers/petController.js:97-109 | An empty form with no upload leaves the pet unchanged. |
| PetController.MergeTruthyOrKeep | server/controllers/petController.js:97-109 | Each given field lands in the pet and each empty one keeps its value. Images change only on a non-empty upload. The id and the shelter never change. |
| PetController.MergeIdempotent | server/controllers/petController.js:97-109 | Applying the same update twice equals applying it once. |
| PetController.MergeKeepsValid | server/controllers/petController.js:97-111 | A merge cannot make a valid pet invalid. |
| PetController.Update | server/controllers/petController.js:86-117 | An unknown id fails with NotFound. A caller who does not own the pet fails with Forbidden. A rejected merge fails with Invalid. None of these changes anything. Otherwise the merged pet replaces the old one at the same position. |
| PetController.Delete | server/controllers/petController.js:122-137 | An unknown id fails with NotFound, and a non-owner fails with Forbidden, changing nothing. Otherwise that one document is removed (the list without its position), the others stay in order, and the answer is "Pet removed". Because ids are unique, this equals filtering the id out. |
| Timeline.InsertMultiset | server/controllers/chatController.js:61 | Inserting adds exactly one copy of the message. |
| Timeline.InsertSorted | server/controllers/chatController.js:61 | Inserting into a time-ordered list keeps it ordered. |
| Timeline.SortByTimeCorrect | server/controllers/chatController.js:13 | Sorting by `createdAt` is a permutation and ordered in the requested direction. |
| Timeline.SortByTimeMembers | server/controllers/chatController.js:61 | Sorting keeps exactly the messages it was given. |
| ListOps.FindIndex | server/controllers/petController.js:89 | Returns the first position with the id, or None exactly when no element has it. |
| ListOps.ReplaceFirst | client/src/redux/slices/notificationSlice.js:47-52 | Only the first element with the id is replaced; the length and every other element are kept, and the list is unchanged when no element matches. |
| ListOps.ReplaceFirstIdempotent | client/src/redux/slices/notificationSlice.js:47-52 | Marking the same notification read twice equals marking it once. |
| ListOps.Filter | client/src/redux/slices/petSlice.js:180 | Keeps exactly the elements passing the test and is no longer than the input. |
| ListOps.FilterMultiset | server/controllers/chatController.js:61 | Each kept element keeps its number of occurrences. |
| ListOps.FilterAppend | client/src/redux/slices/petSlice.js:180 | Filtering distributes over concatenation, so relative order is kept. |
| ListOps.RemoveId | client/src/redux/slices/adminSlice.js:67 | Removal drops exactly the elements with the id and never lengthens the list. |
| ListOps.RemoveUniqueId | server/controllers/petController.js:131 | When a single element holds the id, filtering the id out removes exactly that element. |
| ListOps.RemoveIdIdempotent | client/src/redux/slices/adminSlice.js:83 | Deleting the same id twice equals deleting it once. |
| Text.TrimEmptyIffBlank | client/src/pages/ChatPage.jsx:106 | `!s.trim()` holds exactly for strings made only of white space. |
| Text.LexAntisymmetric | client/src/pages/ChatPage.jsx:115 | Two strings that each sort at or before the other are equal. |
| Text.LexTotal | client/src/pages/ChatPage.jsx:115 | Of any two strings one sorts first. |
| Text.IntTextRoundTrip | server/controllers/petController.js:9 | `Number` reads back every integer's decimal text as that integer. |
| Text.EmailMatchesSplit | client/src/pages/LoginPage.jsx:50 | A string matches `^\S+@\S+$` exactly when it has no white space and contains '@' with text on both sides. |
| NotificationSlice.NotificationState.constructor | client/src/redux/slices/notificationSlice.js:24-28 | The slice starts empty, not loading, without error. |
| NotificationSlice.NotificationState.AddNotification | client/src/redux/slices/notificationSlice.js:30-32 | A pushed notification is put first and the rest are kept. |
| NotificationSlice.NotificationState.FetchPending | client/src/redux/slices/notificationSlice.js:36-38 | Sets loading and changes nothing else. |
| NotificationSlice.NotificationState.FetchFulfilled | client/src/redux/slices/notificationSlice.js:39-42 | The list becomes the payload and loading ends. |
| NotificationSlice.NotificationState.FetchRejected | client/src/redux/slices/notificationSlice.js:43-46 | Loading ends with the error and the list kept. |
| NotificationSlice.NotificationState.MarkReadFulfilled | client/src/redux/slices/notificationSlice.js:47-52 | The first notification with the payload's id is replaced by the payload, and the flags are kept. |
| NotificationSlice.MarkReadAfterAdd | client/src/redux/slices/notificationSlice.js:30-52 | Marking a just-pushed notification read replaces that first entry and leaves the rest. |
| PetSlice.PetState.constructor | client/src/redux/slices/petSlice.js:4-11 | Starts with no pets, no pet, not loading, page 1 of 1. |
| PetSlice.PetState.FetchPetsPending | client/src/redux/slices/petSlice.js:127-130 | Sets loading and clears the list. |
| PetSlice.PetState.FetchPetsFulfilled | client/src/redux/slices/petSlice.js:131-136 | The list, page and page count come from the payload. |
| PetSlice.PetState.Pending | client/src/redux/slices/petSlice.js:141-143 | The other pending cases set loading only. |
| PetSlice.PetState.Rejected | client/src/redux/slices/petSlice.js:137-195 | Every rejection ends loading with the error and keeps the data. |
| PetSlice.PetState.FetchDetailsFulfilled | client/src/redux/slices/petSlice.js:144-147 | The selected pet becomes the payload. |
| PetSlice.PetState.CreateFulfilled | client/src/redux/slices/petSlice.js:152-155 | The created pet is appended. |
| PetSlice.PetState.UpdateFulfilled | client/src/redux/slices/petSlice.js:166-170 | The selected pet and every listed copy with its id become the payload. |
| PetSlice.PetState.DeleteFulfilled | client/src/redux/slices/petSlice.js:178-181 | Every pet with the deleted id is removed and the order is kept. |
| PetSlice.PetState.FetchShelterPetsFulfilled | client/src/redux/slices/petSlice.js:189-192 | The list becomes the shelter's pets. |
| PetSlice.UpdateLeavesNoStaleCopy | client/src/redux/slices/petSlice.js:166-170 | After an update no listed pet with that id differs from the payload, and the payload is listed exactly when the id was. |
| PetSlice.DeleteUndoesCreate | client/src/redux/slices/petSlice.js:152-181 | Deleting a just-created pet restores the list. |
| ApplicationSlice.ApplicationState.constructor | client/src/redux/slices/applicationSlice.js:4-9 | Starts empty, not loading, no error, no success. |
| ApplicationSlice.ApplicationState.ResetSuccess | client/src/redux/slices/applicationSlice.js:81-83 | Clears success only. |
| ApplicationSlice.ApplicationState.Pending | client/src/redux/slices/applicationSlice.js:87-89 | Sets loading only. |
| ApplicationSlice.ApplicationState.Rejected | client/src/redux/slices/applicationSlice.js:94-97 | Loading ends with the error. |
| ApplicationSlice.ApplicationState.CreateFulfilled | client/src/redux/slices/applicationSlice.js:90-93 | Loading ends with success, and the list is not touched. |
| ApplicationSlice.ApplicationState.FetchFulfilled | client/src/redux/slices/applicationSlice.js:101-115 | The list becomes the payload. |
| ApplicationSlice.ApplicationState.UpdateStatusFulfilled | client/src/redux/slices/applicationSlice.js:120-125 | The first application with the payload's id is replaced by the payload, with no flag changed. |
| AdminSlice.AdminState.constructor | client/src/redux/slices/adminSlice.js:44-49 | Starts empty, not loading, no error. |
| AdminSlice.AdminState.Pending | client/src/redux/slices/adminSlice.js:54-56 | Sets loading only. |
| AdminSlice.AdminState.Rejected | client/src/redux/slices/adminSlice.js:61-64 | Loading ends with the error. |
| AdminSlice.AdminState.FetchUsersFulfilled | client/src/redux/slices/adminSlice.js:57-60 | The user list becomes the payload. |
| AdminSlice.AdminState.FetchPetsFulfilled | client/src/redux/slices/adminSlice.js:73-76 | The pet list becomes the payload. |
| AdminSlice.AdminState.DeleteUserFulfilled | client/src/redux/slices/adminSlice.js:66-68 | Every user with the id is removed, and the flags are kept. |
| AdminSlice.AdminState.DeletePetFulfilled | client/src/redux/slices/adminSlice.js:82-84 | Every pet with the id is removed, and the flags are kept. |
| AuthSlice.AuthState.constructor | client/src/redux/slices/authSlice.js:4-10 | Starts with the stored user, not loading, no error. |
| AuthSlice.AuthState.SetCredentials | client/src/redux/slices/authSlice.js:82-85 | The user becomes the payload. |
| AuthSlice.AuthState.ClearCredentials | client/src/redux/slices/authSlice.js:86-89 | The user is cleared. |
| AuthSlice.AuthState.SignInPending | client/src/redux/slices/authSlice.js:93-96 | Login and register set loading and clear the error. |
| AuthSlice.AuthState.UpdateProfilePending | client/src/redux/slices/authSlice.js:120-122 | A profile update sets loading and keeps the old error. |
| AuthSlice.AuthState.Fulfilled | client/src/redux/slices/authSlice.js:97-125 | Loading ends and the user becomes the payload. |
| AuthSlice.AuthState.Rejected | client/src/redux/slices/authSlice.js:101-130 | Loading ends with the error, and the user is kept. |
| AuthSlice.AuthState.LogoutFulfilled | client/src/redux/slices/authSlice.js:117-119 | The user is cleared, and loading and error are kept. |
| ChatPage.ChatIdSymmetric | client/src/pages/ChatPage.jsx:115 | Specifies `ChatId`, the model of the chat-id expression, together with `ChatIdShape`. Both parties compute the same chat id. |
| ChatPage.ChatIdShape | client/src/pages/ChatPage.jsx:115 | The chat id is the two user ids joined by '_', the one that sorts first in front. A pet adds '_' and its id. The id is never empty. |
| ChatPage.PetIdOf | client/src/pages/ChatPage.jsx:113 | The pet of the payload is the current pet's id, or none. |
| ChatPage.IncomingIffSameScope | client/src/pages/ChatPage.jsx:29-34 | An incoming message is shown exactly when it comes from the open counterparty and has the open pet, or neither has one. |
| ChatPage.FindExistingConversation | client/src/pages/ChatPage.jsx:61-64 | Finds a listed conversation with the linked user and the same pet (or no pet on both sides), or reports that none exists. |
| ChatPage.ExistingConversationIsUnique | client/src/pages/ChatPage.jsx:61-64 | Within a server conversation list, a link matches at most one entry. |
| ChatPage.HistoryUrl | client/src/pages/ChatPage.jsx:83-84 | The history URL is `/api/chat/<id>`, with `?petId=<pet>` appended when a pet is open. |
| ChatPage.HistoryUrlQueryIffPet | client/src/pages/ChatPage.jsx:83-84 | The URL carries a query exactly when a pet is open. |
| ChatPage.ChatView.constructor | client/src/pages/ChatPage.jsx:10-20 | Opens with no conversation, no messages and an empty input. |
| ChatPage.ChatView.OpenFromLink | client/src/pages/ChatPage.jsx:58-75 | Without a user id in the router state nothing changes. Otherwise a matching listed conversation is opened. Failing that, the linked user and pet are taken when given, and the current ones kept when not. |
| ChatPage.ChatView.HistoryLoaded | client/src/pages/ChatPage.jsx:86-87 | The fetched history replaces the messages. |
| ChatPage.ChatView.Receive | client/src/pages/ChatPage.jsx:27-34 | An incoming message is appended exactly when it belongs to the open conversation. |
| ChatPage.ChatView.SendMessage | client/src/pages/ChatPage.jsx:104-128 | A blank input, or no open conversation, changes nothing. Otherwise the payload with the chat id is emitted, the local copy is appended with the own id as sender, and the input is cleared. |
| ChatPage.SentPayloadIsStorable | client/src/pages/ChatPage.jsx:106-116 | A non-blank message between two known users always passes the server's message validation. |
| PetDetailsPage.ActionsFor | client/src/pages/PetDetailsPage.jsx:79-110 | An adopter may apply and message the shelter. Only the owning shelter may edit or delete. Everyone else gets the login link. A shelter viewing a pet whose shelter is gone makes the render fail. |
| PetDetailsPage.OwnerPanelIffServerOwner | client/src/pages/PetDetailsPage.jsx:91 | For a shelter viewer, edit and delete are shown exactly when the server's ownership check would pass. |
| PetDetailsPage.NonMembersSeeLogin | client/src/pages/PetDetailsPage.jsx:106-110 | Guests and administrators see only the login link. |
| PetDetailsPage.MessageShelterOpensGeneralChat | client/src/pages/PetDetailsPage.jsx:85 | "Message Shelter" opens a conversation with the shelter that is about no pet. |
| PetDetailsPage.LocationText | client/src/pages/PetDetailsPage.jsx:46 | The location shown is the pet's own, else the shelter's, else a placeholder. It is never empty. |
| PetDetailsPage.PostedBy | client/src/pages/PetDetailsPage.jsx:115 | Shows the shelter's name, or "Unknown Shelter". It is never empty. |
| PetDetailsPage.HandleDelete | client/src/pages/PetDetailsPage.jsx:18-23 | Without confirmation nothing happens. With confirmation the delete is dispatched, then the page goes to the dashboard. |
| CreatePetPage.AgeValid | client/src/pages/CreatePetPage.jsx:142 | An empty age is refused. A number is accepted exactly when it is not negative. |
| CreatePetPage.FinalCategory | client/src/pages/CreatePetPage.jsx:53 | The category sent is the custom text when "Other" is chosen, otherwise the chosen category. |
| CreatePetPage.FinalLocation | client/src/pages/CreatePetPage.jsx:60 | The location sent is the custom text when "Other" is chosen, otherwise the chosen city. |
| CreatePetPage.FormValid | client/src/pages/CreatePetPage.jsx:97-206 | A form that passes never sends an empty name, breed, description, category or location. "Other" with an empty custom field is refused. |
| CreatePetPage.ValidFormIsStored | client/src/pages/CreatePetPage.jsx:47-77 | A valid form, with gender and size from the selects and number text as its age, is accepted by `createPet`. The stored pet has a non-negative age and the sent category and location. |
| CreatePetPage.TextEntries | client/src/pages/CreatePetPage.jsx:48-61 | The body has one text entry per text field, named as that field. None is named 'images'. |
| CreatePetPage.TextReadsBack | client/src/pages/CreatePetPage.jsx:48-61 | Reading the text entries by name gives back every submitted field, and no status. |
| CreatePetPage.BodyReadsBack | client/src/pages/CreatePetPage.jsx:48-66 | The same holds when the 'images' entries follow them. |
| CreatePetPage.EditLoad | client/src/pages/CreatePetPage.jsx:17-45 | A listed category or city is selected as is. Any other value selects "Other" and fills the custom field. |
| CreatePetPage.LocationRoundTrip | client/src/pages/CreatePetPage.jsx:37-61 | Loading a pet into the form and submitting gives back its location. |
| CreatePetPage.CategoryRoundTrip | client/src/pages/CreatePetPage.jsx:26-54 | The same holds for its category, unless the category is literally "Other". |
| CreatePetPage.OtherCategoryBlocksSubmit | client/src/pages/CreatePetPage.jsx:26-31 | A pet whose category is literally "Other" loads into a form that cannot be submitted until the custom field is filled. |
| CreatePetPage.Submitted | client/src/pages/CreatePetPage.jsx:47-61 | The submitted category and location are the custom text when "Other" is chosen. |
| CreatePetPage.BuildFormData | client/src/pages/CreatePetPage.jsx:47-67 | The body holds the eight text fields in order, then one 'images' entry per chosen file, in order. The server reads the submitted form back from it. |
| CreatePetPage.UntouchedEditKeepsPet | client/src/pages/CreatePetPage.jsx:17-81 | For any category but the literal "Other", opening a pet for edit and submitting it unchanged without files leaves the stored pet as it was. |
| CreatePetPage.SubmitRequest | client/src/pages/CreatePetPage.jsx:69-81 | With an id in the route the form is sent as an update of that id; otherwise as a creation. |
| CreatePetPage.AfterSubmit | client/src/pages/CreatePetPage.jsx:70-80 | On success the page goes to the pet page after an edit, or to the dashboard after a creation. On failure it stays. |
| BrowsePetsPage.Effective | client/src/pages/BrowsePetsPage.jsx:19-20 | "Other" means the custom text; any other selection is used as is. |
| BrowsePetsPage.QueryFor | client/src/pages/BrowsePetsPage.jsx:23 | The listing is asked with the four filters and no keyword or page. |
| BrowsePetsPage.EmptySelectionMeansAll | client/src/pages/BrowsePetsPage.jsx:10-24 | With no location or category chosen, those filters exclude no pet. |
| BrowsePetsPage.BrowseFilters.constructor | client/src/pages/BrowsePetsPage.jsx:10-24 | The page starts with empty filters and fetches once with them. |
| BrowsePetsPage.BrowseFilters.Refetch | client/src/pages/BrowsePetsPage.jsx:22-24 | The listing is fetched again exactly when the effective query changed. |
| BrowsePetsPage.OtherLocationListsEveryCity | client/src/pages/BrowsePetsPage.jsx:16-23 | With the custom location always empty, "Other" requests the same listing as "All Locations". Whether a pet is listed does not depend on its city. |
| BrowsePetsPage.BrowseFilters.SelectLocation | client/src/pages/BrowsePetsPage.jsx:36-59 | The custom location stays empty. Any city is requested as chosen, and "Other" requests no location filter. The last fetched query is always the one on screen. |
| BrowsePetsPage.BrowseFilters.SelectCategory | client/src/pages/BrowsePetsPage.jsx:66-71 | The same for the category. |
| BrowsePetsPage.BrowseFilters.Type | client/src/pages/BrowsePetsPage.jsx:72-113 | Typing into one of the rendered inputs (the custom category, shown only while "Other" is selected; age; breed) changes that field only, and a changed query is fetched. |
| LoginPage.EmailError | client/src/pages/LoginPage.jsx:50 | No error exactly when the e-mail matches `^\S+@\S+$`. An empty field gives "Email is required". |
| LoginPage.Validate | client/src/pages/LoginPage.jsx:50-62 | Checks the e-mail, and the password only for presence. |
| LoginPage.Submit | client/src/pages/LoginPage.jsx:21-23 | The credentials are sent exactly when both fields pass. |
| LoginPage.Redirect | client/src/pages/LoginPage.jsx:14-19 | A signed-in user is sent to the dashboard. |
| RegisterPage.Validate | client/src/pages/RegisterPage.jsx:51-101 | Name required; e-mail checked as on login; password of at least 6 characters; confirmation equal to the password. |
| RegisterPage.AcceptedIff | client/src/pages/RegisterPage.jsx:51-101 | The form is accepted exactly when every one of those checks passes. |
| RegisterPage.RegisteredCanSignIn | client/src/pages/RegisterPage.jsx:51-101 | Every e-mail and password the sign-up form accepts also passes the sign-in form and is sent as typed. A one-character password signs in but cannot register, since only sign-up has a minimum length. |
| NotificationList.Render | client/src/components/common/NotificationList.jsx:17-19 | An empty list shows "No notifications"; otherwise one row per notification, in order. |
| NotificationList.HandleRead | client/src/components/common/NotificationList.jsx:11-15 | Only an unread notification is marked read. |
| NotificationList.Click | client/src/components/common/NotificationList.jsx:21-31 | A click closes the list and marks the row read if it was unread. It then goes to /chat for a message, to /dashboard for an application event, and nowhere for a system notice. |
| NotificationList.ClickedRowBecomesRead | client/src/components/common/NotificationList.jsx:21-31 | Clicking an unread row, and the slice storing the answer, leaves that row read and every other row as it was. |
| HeroSlider.Items | client/src/components/home/HeroSlider.jsx:22-27 | There is one slide per pet, in order, showing that pet's images. With no pets there are seven stock slides, one photo each. There is always at least one slide. |
| HeroSlider.Next | client/src/components/home/HeroSlider.jsx:76-79 | The next slide, wrapping to the first. |
| HeroSlider.Prev | client/src/components/home/HeroSlider.jsx:81-84 | The previous slide, wrapping to the last. |
| HeroSlider.NextPrevInverse | client/src/components/home/HeroSlider.jsx:76-84 | Forward then back, and back then forward, return to the same slide. |
| HeroSlider.DotCount | client/src/components/home/HeroSlider.jsx:154 | At most five dots, one per slide. |
| HeroSlider.ActiveDot | client/src/components/home/HeroSlider.jsx:157 | The highlighted dot is the index modulo 5. |
| HeroSlider.ImageSrc | client/src/components/home/HeroSlider.jsx:87-88 | The image is the slide's first image, or the first stock photo for a pet without images. A slide past the end fails. |
| HeroSlider.ItemsAlwaysHaveImage | client/src/components/home/HeroSlider.jsx:22-27 | Every slide built from the pets has an image to show. |
| HeroSlider.StaleIndexAfterPetsArrive | client/src/components/home/HeroSlider.jsx:17-35 | As written: an index valid for the stock photos is past the end once fewer pets arrive. |
| HeroSlider.Slider.constructor | client/src/components/home/HeroSlider.jsx:17-27 | Starts on the first slide. |
| HeroSlider.Slider.CurrentImage | client/src/components/home/HeroSlider.jsx:87-88 | The image on screen is that of the current slide. |
| HeroSlider.Slider.Forward | client/src/components/home/HeroSlider.jsx:30-35 | The timer tick and handleNext move to the next slide, keeping the index in range. |
| HeroSlider.Slider.Back | client/src/components/home/HeroSlider.jsx:81-84 | handlePrev moves to the previous slide. |
| HeroSlider.Slider.ClickDot | client/src/components/home/HeroSlider.jsx:158 | Clicking dot k shows slide k. |
| HeroSlider.Slider.ReceivePets | client/src/components/home/HeroSlider.jsx:16-35 | Corrected: new pets rebuild the slides and bring the index back into range, so there is always a slide to show. |
| Chatbot.RoleFor | client/src/components/common/Chatbot.jsx:34 | Roles are sent as "user" or "model", and a role is kept exactly when it already is one of those. |
| Chatbot.History | client/src/components/common/Chatbot.jsx:33-36 | One history entry per message, with the mapped role and the text as its only part. |
| Chatbot.HistoryAppend | client/src/components/common/Chatbot.jsx:33-36 | Converting a longer list converts its parts independently, in order. |
| Chatbot.HistoryKeepsRoles | client/src/components/common/Chatbot.jsx:33-36 | For the widget's own messages the history keeps each role. |
| Chatbot.ChatbotWidget.constructor | client/src/components/common/Chatbot.jsx:7-11 | Opens with the greeting only, an empty input, not loading. |
| Chatbot.ChatbotWidget.Type | client/src/components/common/Chatbot.jsx:112 | Typing sets the input only. |
| Chatbot.ChatbotWidget.BeginSubmit | client/src/components/common/Chatbot.jsx:22-41 | A blank input does nothing. Otherwise the line is appended as the user's, the input is cleared and loading starts. The request carries the untrimmed line and the history of the messages before it. |
| Chatbot.ChatbotWidget.FinishSubmit | client/src/components/common/Chatbot.jsx:43-50 | The reply, or the apology on failure, is appended as the model's, and loading ends. |
| Chatbot.RequestThenLineIsHistory | client/src/components/common/Chatbot.jsx:26-36 | The history sent with a line, followed by that line, is the history of the list once the line is shown, so nothing is lost or repeated. |
| Chatbot.HistoryOpensWithGreeting | client/src/components/common/Chatbot.jsx:7-36 | Every request's history, taken from the widget's list, opens with the greeting sent as the model's. |

## Left out

- Transport and infrastructure:
  - HTTP routing, Express middleware (authentication, role guards, error handler), cookies and
    CORS. Handlers receive the authenticated caller as a parameter.
  - The Socket.IO transport and the `disconnect` event. Emits are recorded in an outbox, and room
    membership is a map.
  - Axios requests, `localStorage`, timers, animations and scrolling. The asynchronous thunks are
    split into their pending, fulfilled and rejected reducer cases; the request itself is left
    out.
- Database behaviour:
  - Mongoose regular-expression matching and case folding. The `$regex`/`$options: 'i'` test is
    an abstract parameter `like`.
  - ObjectId generation and timestamps, which are parameters.
  - Database failures other than validation. In particular, an id that is not a well-formed
    ObjectId makes `findById` throw a cast error, which the server answers with status 500. The
    model answers NotFound for it, as for any id that is not stored.
  - The race between the duplicate check and the insert in `createApplication`.
- JavaScript semantics:
  - UTF-16 code units versus characters: `substring(0, 30)`, `minLength` and string sort order
    are modelled on Dafny characters.
  - `Number` on fractions, exponents, surrounding white space and hexadecimal text. Only optional
    '-' followed by digits is modelled, and anything else fails the cast.
- Server handlers not modelled:
  - `getPetById`, `getMyApplications` and `getShelterApplications` (queries with population
    only).
  - The admin, notification, payment and chatbot controllers. The notification controller is not
    part of this model.
- Request-shape edge cases:
  - A 'setup' event without user data, which throws in the handler.
  - A missing `status` in `updateApplicationStatus`. Absent text is treated like any text
    outside the enumeration and fails with Invalid.
- Client behaviour not modelled:
  - ChatPage's `join_chat` emit and its `fetchConversations` refresh calls.
  - ChatPage's optimistic copy of a sent message. It is modelled with the empty id and unread,
    since the client gives it neither.
  - PetDetailsPage's initial fetch and its loading/error screens.
  - Chatbot opening and closing.
  - The assistant widget's submit button, which is disabled while a reply is loading. The
    handler itself checks only for a blank input, and that is what `BeginSubmit` models.
- Browser behaviour not modelled:
  - LoginPage.Submit and RegisterPage.AcceptedIff leave out the browser's own checks on the
    `type="email"` input. The forms do not set `noValidate`, so the browser trims white space
    around the value and blocks a submit whose address it rejects (such as `a@b@c`). Both
    members model only react-hook-form's rules. The browser can therefore block a submit that
    they accept, and a value such as `" a@b"` is sent although they refuse it.
  - The browser's sanitising of `type="number"` inputs. A value that is not a number reaches
    `AgeValid` as text, where the server then rejects it.

## Findings

| source | as written | input that shows it | evidently intended | confidence | as-written member | corrected member |
|---|---|---|---|---|---|---|
| client/src/components/home/HeroSlider.jsx:17-35 | The slide index is kept when the `pets` prop changes, and nothing brings it back into the new range. | The carousel reaches stock slide 4 (of 7), then 2 pets arrive. `items[4]` is undefined, so reading `currentItem.fallback` throws. | The index stays within the current slides, for example by reducing it modulo the new length. | not executed | HeroSlider.StaleIndexAfterPetsArrive | HeroSlider.Slider.ReceivePets |
