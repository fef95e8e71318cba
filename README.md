# Realtime-Canvas: a verified model of the server logic and the canvas sync rules

Realtime-Canvas is a collaborative editor and whiteboard with these parts:

- an Express/Mongoose REST server that keeps documents, comments and user accounts;
- a small socket.io relay that forwards editor changes between the sockets of one document room;
- a React client whose whiteboard keeps a tldraw canvas store and a replicated Yjs document in step.

This project models the decision logic of those parts in Dafny and proves what the code promises.

- **Document table** (`DocumentSchema`, `DocumentRoutes`).
  - `DocumentSchema` pins down a record's fields, defaults and type enum.
  - The class `DocumentTable` holds the map from document id to record.
  - Each route is a method with the route's ordered early-return checks, status codes and messages.
  - Read access depends on collaborator membership only. Every change of ownership-controlled state depends on the `owner` field only.
  - The table invariant: records are stored under their own id, the owner is the first collaborator and no collaborator is listed twice. It is preserved by every method.
- **Comment store** (`CommentSchema`, `CommentRoutes`).
  - Create appends a comment whose author comes from the authenticated principal.
  - The listing is a pure filter by document followed by a stable sort by creation time.
- **Accounts** (`AuthRoutes`).
  - The three register validators follow JavaScript's own semantics: `trim` and the regular-expression class `\s` share one white-space set, and `length` counts UTF-16 code units.
  - `IsValidEmail` is a string predicate proved equivalent to the regular expression `^[^\s@]+@[^\s@]+\.[^\s@]+$`.
  - The user table is the class `UserTable`, changed only by a successful registration.
  - Login is a read-only function whose failures all give one identical reply. No reply carries a password.
- **Realtime relay** (`RealtimeRelay`). The room table maps a room name to its set of sockets.
  - A join adds a socket.
  - A change is delivered, content only, to every member of the named room except the sender.
  - A disconnect changes nothing.
  - The same rules are also given as pure functions over an event trace.
- **Whiteboard sync** (`WhiteboardSync`). The class `YjsTldrawStore` holds the hook's state: the local shapes and bindings, the two shared maps, `didConnect`, the registered listeners and observers, and `isReady`.
  - Seeding on the first connected sync.
  - The local→shared change loop, proved against the pure `ApplyLocalChanges`.
  - The shared→local classification loop `Classify`.

Inputs the code gets from outside are parameters of the model:

- clocks: a `now: nat`;
- fresh ids: a `newId` with a freshness requirement, standing for `uuidV4()` and a new ObjectId;
- the authenticated principal: a `Principal`;
- the user model's password comparison: a function parameter;
- the shared maps' contents when the provider first reports: constructor parameters.

Where the code and its description differ, the model follows the code.

- The documents list and a document are visible to every collaborator. Only the owner may add collaborators, rename or delete.
- The sockets are not authenticated.
- A rename's emptiness check runs before trimming, so a title of white space alone is stored as the empty string.

## Model

| member | source | states |
|---|---|---|
| Common.Trim | server/routes/documents.js:101 | `String.prototype.trim`: the result is a slice of the input with only white space cut from both ends. It has no white space at either end, and it is empty exactly when the input is all white space. |
| Common.TrimUnpadded | server/routes/documents.js:101 | A string with no white space at either end is its own trim. |
| Common.TrimIdempotent | server/routes/documents.js:101 | Trimming a stored, already trimmed title again changes nothing. |
| Common.Utf16Length | server/routes/auth.js:44 | `length` counts UTF-16 code units: between the number of characters and twice that. |
| DocumentSchema.KindName | server/models/Document.js:22-26 | A stored `type` is one of the two enum names. |
| DocumentSchema.ParseKind | server/models/Document.js:22-26 | The enum accepts exactly "document" and "whiteboard", and the accepted kind is the one stored under that name. |
| DocumentSchema.Construct | server/models/Document.js:4-27 | A record is built exactly when `_id` and `owner` are present and `type` is absent or in the enum. An absent title becomes "Untitled" and an absent type "document". The collaborators are kept as given, and both timestamps are the save time. |
| DocumentSchema.SchemaAllowsRepeatedCollaborators | server/models/Document.js:18-21 | For any non-empty id and owner, any title and any user id, the schema builds a record whose collaborator list is that id twice. |
| DocumentRoutes.RecencyPosition | server/routes/documents.js:36 | The insertion point is after every more recent record and at the first record that is not more recent. |
| DocumentRoutes.InsertAtPositionSorted | server/routes/documents.js:36 | Inserting a record at that point keeps the list sorted by `updatedAt` descending. |
| DocumentRoutes.InsertByRecency | server/routes/documents.js:36 | Inserting into a list sorted by `updatedAt` descending keeps it sorted and only adds the one record. |
| DocumentRoutes.InsertKeepsIdsDistinct | server/routes/documents.js:34-36 | Inserting a record with a new id keeps ids distinct and adds exactly that record. |
| DocumentRoutes.CollectOne | server/routes/documents.js:34-36 | One step of the listing query keeps "exactly the caller's documents among those visited, once each, sorted". |
| DocumentRoutes.DocumentTable.Create | server/routes/documents.js:11-27 | 201 with a new record under the fresh id, and no other record changes. The owner is the caller and the collaborators are exactly `[caller]`. A falsy title becomes "Untitled" and a falsy type "document". A type outside the enum or a missing caller id gives 500 "Server Error" with the table unchanged. |
| DocumentRoutes.DocumentTable.List | server/routes/documents.js:32-42 | The result is exactly the stored records that list the caller as a collaborator, each once, sorted by `updatedAt` descending. |
| DocumentRoutes.DocumentTable.Get | server/routes/documents.js:47-64 | 404 "Document not found" for an unknown id. 403 "User not authorized" when the caller is not a collaborator, whoever the owner is. Otherwise 200 with the stored record. Succeeds exactly when the caller is a collaborator. |
| DocumentRoutes.DocumentTable.AddCollaborator | server/routes/documents.js:69-87 | Checks in order: 404 for a missing document; 403 for a non-owner, before any user lookup; 404 for an unknown email; 400 for a user already listed. Every failure leaves the table unchanged. On success exactly one id is appended at the end, `updatedAt` becomes the save time, every other record is unchanged and the new list is returned. |
| DocumentRoutes.DocumentTable.Rename | server/routes/documents.js:92-108 | 400 "Title is required" for a falsy title before any lookup, then 404, then 403 for a non-owner. A truthy title that is not a string gives the owner 500 "Server Error" from `title.trim`, with nothing saved. On success only the title changes, to the trimmed title, so a title of white space alone is stored as "". `updatedAt` moves only when the title differs. |
| DocumentRoutes.DocumentTable.Delete | server/routes/documents.js:113-125 | 404, or 403 for anyone but the owner (collaborators included), with the table unchanged. For the owner, exactly that id is removed. |
| DocumentRoutes.OwnerIsCollaborator | server/routes/documents.js:18 | Under the table invariant the owner is always among the collaborators, so the owner can always open a document that exists. |
| DocumentRoutes.AddGrantsAccess | server/routes/documents.js:80-82 | After an add, the added user and every earlier collaborator pass the collaborator check of GET /:id. |
| CommentSchema.Construct | server/models/Comment.js:5-31 | A comment is built exactly when all six content fields are present, with empty strings counting as missing. All fields are kept as given, whatever the order of the range ends, and both timestamps are the save time. |
| CommentSchema.ReversedRangeAccepted | server/models/Comment.js:23-30 | Any range whose start is greater than its end is stored as given. |
| CommentRoutes.CommentStore.Create | server/routes/comments.js:9-28 | 201 appends exactly the new comment. The author id and name come from the principal; document id, text and range are as supplied. A missing field gives 500 with the store unchanged. Creating at a time no earlier than the stored comments keeps the store in creation order. |
| CommentRoutes.OfDocument | server/routes/comments.js:35-36 | The query never yields more comments than the store holds (what it yields is stated by OfDocumentCounts). |
| CommentRoutes.OfDocumentCounts | server/routes/comments.js:35-36 | The query keeps every comment of the document exactly as often as it is stored, and nothing else. |
| CommentRoutes.InsertByCreation | server/routes/comments.js:37 | The insertion step of the sort adds exactly one entry. |
| CommentRoutes.InsertByCreationCounts | server/routes/comments.js:37 | The insertion is a permutation of the list plus the comment. |
| CommentRoutes.InsertByCreationSorted | server/routes/comments.js:37 | Inserting into a list ordered by `createdAt` keeps it ordered. |
| CommentRoutes.SortByCreation | server/routes/comments.js:37 | The sort keeps the number of comments. |
| CommentRoutes.SortByCreationCorrect | server/routes/comments.js:37 | The sort by `createdAt` ascending yields an ordered permutation of its input. |
| CommentRoutes.ListByDocument | server/routes/comments.js:33-43 | GET /:documentId: ordered by `createdAt`. It contains exactly the comments with that document id, each as often as stored. |
| CommentRoutes.SortKeepsChronological | server/routes/comments.js:37 | The model's stable sort leaves an already ordered list unchanged, ties included. |
| CommentRoutes.OfDocumentKeepsChronological | server/routes/comments.js:35-37 | Selecting one document's comments keeps creation order. |
| CommentRoutes.OfDocumentAppend | server/routes/comments.js:35-36 | The query distributes over concatenation of stores. |
| CommentRoutes.ListIsInsertionOrder | server/routes/comments.js:35-37 | While timestamps never decrease with insertion, the model's list is the document's comments in insertion order. At equal timestamps this is the model's own tie order. |
| CommentRoutes.ListAfterCreate | server/routes/comments.js:9-43 | In the model's list, a comment created no earlier than all the stored ones appears last and unchanged in its document's list. Every other document's list is unchanged. |
| CommentRoutes.OfDocumentKeepsStrict | server/routes/comments.js:35-36 | Selecting one document's comments keeps strictly increasing timestamps strictly increasing. |
| CommentRoutes.OrderedPermutationUnique | server/routes/comments.js:37 | When timestamps are pairwise distinct, a list has exactly one rearrangement ordered by `createdAt`: itself. |
| CommentRoutes.AnyListIsInsertionOrder | server/routes/comments.js:35-37 | If timestamps strictly grow with insertion, every reply the database may give to GET /:documentId is the document's comments in insertion order. Such a reply is any ordered permutation of the query result. |
| CommentRoutes.AnyListAfterCreate | server/routes/comments.js:9-43 | The same for any replies the database may give before and after a create strictly later than every stored comment. The new comment comes last in its document's list, and every other list is unchanged. |
| AuthRoutes.FindByEmail | server/routes/auth.js:48 | A user is found exactly when someone has that email, and the one found has it. |
| AuthRoutes.FindById | server/routes/auth.js:23 | A user is found exactly when someone has that id, and the one found has it. |
| AuthRoutes.FindByEmailUnique | server/routes/auth.js:48 | With unique emails, looking up a user's email finds that very user. |
| AuthRoutes.FindByIdUnique | server/routes/auth.js:23 | With unique ids, looking up a user's id finds that very user. |
| AuthRoutes.IndexOf | server/routes/auth.js:40 | The position of the first occurrence of a character, or the length when there is none. |
| AuthRoutes.EmailMatchesRegex | server/routes/auth.js:40-41 | `IsValidEmail` holds exactly when the regular expression matches. That means no white space; exactly one `@` with text before it; and a `.` after it with text on both sides. |
| AuthRoutes.NameAccepted | server/routes/auth.js:37-39 | A name is accepted exactly when it is present and has a character other than white space. |
| AuthRoutes.EmailAccepted | server/routes/auth.js:40-43 | An email is accepted exactly when it is present and matches the regular expression. |
| AuthRoutes.PasswordAccepted | server/routes/auth.js:44-46 | A password is accepted exactly when it is present and at least 6 UTF-16 code units long. So every password of 6 or more characters passes, and none of fewer than 3 does. |
| AuthRoutes.UserTable.Register | server/routes/auth.js:33-70 | Checks in order: name, email, password, duplicate email, each with its 400 message. A rejection leaves the table unchanged. Success happens exactly when all checks pass. One user is appended, emails and ids stay unique, and the reply carries a token for the new id and the user without the password. |
| AuthRoutes.Login | server/routes/auth.js:74-106 | Login succeeds exactly when both fields are non-empty strings, a user has that email and the password matches. Success yields a token for the very user whose password was checked, and that user without the password. Every failure is the identical 400 "Invalid credentials". |
| AuthRoutes.CurrentUser | server/routes/auth.js:21-29 | GET /user: the user found by the principal's id, without the password, or none when no user has that id. |
| AuthRoutes.FindNewEmail | server/routes/auth.js:48-54 | After a user with an unused email is appended, a search by that email finds that user. |
| AuthRoutes.LoginAfterRegister | server/routes/auth.js:53-99 | Logging in with a just-registered email and a matching password yields a token for the new user. |
| RealtimeRelay.Recipients | server/server.js:29 | The recipients are exactly the room's members other than the sender, whether or not the sender is a member. |
| RealtimeRelay.Step | server/server.js:22-34 | A join adds the socket to exactly the named room. Every other room keeps its members. A change or a disconnect leaves the room map exactly as it was. |
| RealtimeRelay.Emitted | server/server.js:28-34 | A change emits its content alone to each recipient and to no one else. Joins and disconnects emit nothing. |
| RealtimeRelay.ReplayMembers | server/server.js:19-35 | After any trace, a room holds its earlier members plus exactly the sockets the trace joined to it. |
| RealtimeRelay.ScenarioTwoSockets | server/server.js:22-30 | Two sockets join a room and the first sends a change: only the second receives it. |
| RealtimeRelay.RoomTable.JoinDocument | server/server.js:22-25 | The room table after a join is `Step` of the old table. |
| RealtimeRelay.RoomTable.DocumentChange | server/server.js:28-30 | The deliveries are `Emitted` for the change. None goes to the sender, and each carries only the content. |
| RealtimeRelay.RoomTable.Disconnect | server/server.js:32-34 | A disconnect emits nothing and leaves the rooms as they are. |
| WhiteboardSync.LastTouch | client/src/components/Whiteboard.jsx:48-73 | The deciding change for an id is an add, update or remove, and never an update for a binding. |
| WhiteboardSync.ShapeOutcome | client/src/components/Whiteboard.jsx:45-75 | After the listener, the shared shapes map holds, for each id, what the last user change to that shape decides. A remove deletes the id; an add or update stores the current local shape. With no such change the entry is as before. |
| WhiteboardSync.BindingOutcome | client/src/components/Whiteboard.jsx:45-75 | The same for the shared bindings map. Binding updates never decide, so they are dropped. |
| WhiteboardSync.OthersChangesIgnored | client/src/components/Whiteboard.jsx:46 | Changes whose source is not "user" leave both shared maps unchanged. |
| WhiteboardSync.ShapesIgnoreBindings | client/src/components/Whiteboard.jsx:49-72 | The shared shapes after the listener do not depend on the bindings, shared or local. |
| WhiteboardSync.BindingsIgnoreShapes | client/src/components/Whiteboard.jsx:49-72 | The shared bindings after the listener do not depend on the shapes, shared or local. |
| WhiteboardSync.IdsWith | client/src/components/Whiteboard.jsx:88-103 | The ids collected for one action are never more than the key changes (which ids, by ClassifyPartitions and Classify). |
| WhiteboardSync.ValuesAt | client/src/components/Whiteboard.jsx:91-95 | The values read for a list of ids are, position by position, what the map holds for them, or undefined. |
| WhiteboardSync.Classify | client/src/components/Whiteboard.jsx:84-103 | The add and update lists carry, in order, the current shared values of the ids added and updated. The remove list carries the deleted ids. |
| WhiteboardSync.IdsWithStep | client/src/components/Whiteboard.jsx:88-102 | One more key change adds its id to the list of its own action and to no other. |
| WhiteboardSync.ValuesAtAppend | client/src/components/Whiteboard.jsx:91-95 | Reading one more id appends its current value. |
| WhiteboardSync.ClassifyPartitions | client/src/components/Whiteboard.jsx:88-103 | Every key change lands in exactly one list: together the lists hold each id as often as the changes report it. |
| WhiteboardSync.ClassifyCounts | client/src/components/Whiteboard.jsx:88-103 | The three lists together have exactly as many entries as there are key changes. |
| WhiteboardSync.YjsTldrawStore.constructor | client/src/components/Whiteboard.jsx:15-26 | The hook starts with `didConnect` and `isReady` false and nothing registered. |
| WhiteboardSync.YjsTldrawStore.OnSync | client/src/components/Whiteboard.jsx:28-142 | `isReady` becomes the flag received. Only the first connected sync seeds and registers, once. When the shared shapes map is empty, every local shape and binding is copied into the shared maps; otherwise the shared maps are untouched. Other syncs change nothing else. |
| WhiteboardSync.YjsTldrawStore.OnLocalChanges | client/src/components/Whiteboard.jsx:41-80 | The local store becomes the store after the user's edit. With a registered listener, the new shared maps are `ApplyLocalChanges` of the old ones, reading values from the edited store. Without one, the shared maps do not change. |
| WhiteboardSync.YjsTldrawStore.OnSharedShapes | client/src/components/Whiteboard.jsx:82-108 | The shared shapes become the merged map. The lists given to `mergeShapes` and `removeShapes` are the classification of the event against that merged map. |
| WhiteboardSync.YjsTldrawStore.OnSharedBindings | client/src/components/Whiteboard.jsx:110-136 | The same for the bindings, given to `mergeBindings` and `removeBindings`. |
| WhiteboardSync.YjsTldrawStore.Teardown | client/src/components/Whiteboard.jsx:144-147 | The cleanup unsubscribes every registered listener. |
| WhiteboardSync.SeedIntoEmpty | client/src/components/Whiteboard.jsx:30-33 | Copying into an empty shared map yields the copied map itself. |
| WhiteboardSync.CopyEntries | client/src/components/Whiteboard.jsx:32-37 | The seeding loop sets every source entry in the target, overriding the target's entry for that id and keeping the rest. |

## Left out

- JWT signing, expiry and the token itself: a token is represented by the user id it carries. The auth middleware is not part of this model, so the principal is an input.
- Password hashing: `comparePassword` lives in a user model that is not part of this model, so it is a function parameter of `Login`.
- The express-rate-limit window on register and login: it is library behaviour with a clock.
- MongoDB I/O and its exception paths: storage is an in-memory map and a sequence. The 500 results are modelled only where schema validation causes them, or where a non-string title reaches `trim` in PUT /:id. Database and driver failures, and the ObjectId cast error at server/routes/documents.js:59-61, are not modelled.
- `populate('owner', 'name email')` in GET /:id: the model returns the record with the owner as an id, because the user join is I/O formatting.
- DocumentRoutes.DocumentTable.Create: requires a fresh non-empty id, standing for `uuidV4()`. A colliding id is not modelled.
- AuthRoutes.UserTable.Register: requires a fresh id, standing for the ObjectId Mongoose assigns.
- AuthRoutes.UserTable.Register: fields are strings or absent, and the source's handling of other JSON values at server/routes/auth.js:36-44 is not modelled. There, only a truthy non-string `name` fails with a 500, from `name.trim`. A non-string `email` is converted to a string by `emailRegex.test`: it gets the 400 "Please include a valid email.", or passes when its string form matches, as `["a@b.co"]` does. A truthy non-string `password` without a `length`, such as a number, skips the 6-character minimum, because `undefined < 6` is false. Login does model non-string fields.
- AuthRoutes.UserTable.Register: whatever constraints the unshown user model puts on name, email or password beyond the route's checks are not modelled.
- DocumentRoutes.DocumentTable.AddCollaborator: the email is taken as a string. An absent email, which the source passes to `findOne` as `{ email: undefined }`, is not modelled.
- DocumentRoutes.DocumentTable.List and CommentRoutes.ListByDocument: MongoDB leaves the order of equal timestamps unspecified, and the model fixes one such order. The contracts of these two members state only what every order shares. The sort ensures no order at ties beyond that.
- CommentRoutes.SortKeepsChronological: at equal timestamps it states the model's stable tie order, which MongoDB does not promise. The tie-free fact that holds for every order is CommentRoutes.OrderedPermutationUnique.
- CommentRoutes.ListIsInsertionOrder: at equal timestamps it states the model's tie order only. For any order the database may pick, CommentRoutes.AnyListIsInsertionOrder states it under strictly increasing timestamps.
- CommentRoutes.ListAfterCreate: at equal timestamps it states the model's tie order only. For any order the database may pick, CommentRoutes.AnyListAfterCreate states it under strictly increasing timestamps.
- CommentSchema.Construct: the range is an integer. JavaScript numbers are floating point, and fractional or non-finite ranges are not modelled.
- Timestamps are naturals supplied by the caller. Mongoose's clock is not modelled, and `updatedAt` moves only when a record actually changes.
- Socket.io transport, concurrency, each socket's own room and the library's room clean-up on disconnect: events form a sequential trace.
- WhiteboardSync.YjsTldrawStore.OnLocalChanges and OnSharedShapes/OnSharedBindings: the edited store and the merged shared map are inputs. How tldraw applies an edit, and how Yjs merges a remote update, are not modelled.
- Yjs merging, the `WebsocketProvider` transport, `doc.transact` batching and `observeDeep` delivery: the shared maps are plain maps, and each observer call handles one event's key changes.
- WhiteboardSync.YjsTldrawStore.OnSharedShapes and OnSharedBindings: how the canvas store applies the lists it is handed (`mergeShapes`, `removeShapes` and the binding counterparts) is tldraw internals and is not modelled.
- WhiteboardSync.YjsTldrawStore.Teardown: `provider.destroy()` is not modelled. Teardown models only the unsubscribe loop, and the observers stay counted as registered.
- The `console.*` logging in every handler.
- The React UI and `client/src/context/AuthContext.jsx`: these are rendering and HTTP plumbing.
