# Firm membership and tenancy rules, modelled in Dafny

This project models the callable back end of a multi-tenant organisation
service: users belong to at most one firm, firms own workspaces, and
workspaces own projects. Each exported handler of `functions/index.js` reads
a few documents, checks who the caller is and which firm they belong to, and
then writes one document or one atomic batch. With the document store and
the identity provider taken out, every handler becomes a pure transition

    Store × caller × input (× now, generated id, identity-provider answer) → Ok(Store') | Err(MissingParams | Unknown)

over four immutable maps (`users`, `firms`, `workspaces`, `projects`).

Modules, one per part of the source:

- `Common`: `Option`, `Result` and the two error codes. Also JavaScript truthiness of string inputs: an absent field is modelled as `""`, and `!x` holds exactly for `""`.
- `Documents`: the four document kinds and the store. It also states the integrity rules:
  - `Valid`: membership is consistent, and every workspace and project is bound to an existing firm.
  - `ProjectsFollowWorkspaces`: each project's copied `firmID` agrees with its workspace.
- `Users`, `Firms`, `Workspaces`, `Projects`: the ten handlers. Each contract gives:
  - exactly when the handler succeeds;
  - which error code it fails with;
  - the documents it writes, and that nothing else changes.
- `Invariants`: each handler keeps `Valid`. Each handler also keeps `ProjectsFollowWorkspaces`, except `createWorkspace`, which keeps it exactly when no project already filed under the written workspace id belongs to another firm.
- `Api`: one dispatcher over all calls, plus properties of arbitrary call sequences:
  - the invariant holds in every reachable store;
  - no document is ever deleted;
  - `missing-params` is exactly the outcome of the checks before a handler's `try` block.
- `Properties`: relations between calls:
  - the add/remove round trips;
  - exclusive membership;
  - crew order does not matter;
  - the firm takeover and workspace rebinding that the unchecked `set` writes permit;
  - concrete scenarios of creating a firm, a workspace and a project.

A failed call returns `Err`, which carries no store, so a denied call
leaves the store exactly as it was. Successful multi-document writes (the
`createFirm` batch) are applied in full or not at all.

Document store behaviour that the handlers depend on, and that the model
makes explicit:
- `set` creates or replaces a document.
- `update` fails when the document does not exist.
- `update` fails when it names no field.
- The store refuses a field whose value is `undefined`.
- Reading `data()` of a missing document and then destructuring it throws.

Every failure raised inside a handler's `try` block is re-thrown as
`unknown`.

Places where the intended behaviour and the code differ; the model follows
the code:
- `createFirm` does not require the crew to be unattached, and it does not make the caller a member. It also replaces an existing firm with the same id. `Properties.AnyUserCanTakeOverAFirm` shows the consequence.
- `createWorkspace` and `updateWorkspaceInfo` pass `description` through unchanged. The description is meant to be optional, but leaving it out fails with `unknown` (`Properties.CreateWorkspaceWithoutDescriptionScenario`). `createProject` and `updateProject` default it to `""`.
- Authorization failures are detected inside the `try` blocks. They surface as `unknown`, not `missing-params`. There is no separate `Unauthenticated` code: a missing caller makes the handler throw `missing-params`.
- `updateWorkspaceInfo` only compares the two nullable `firmID`s. It does not require the caller to have a firm.
- `updateUser` with only a password passes the input check. Its store write then names no field and fails.
- `createWorkspace` writes with `set`. A member of one firm can therefore rebind another firm's workspace id, and `Properties.CreateWorkspaceCanRebind` shows the consequence.

## Model

| member | source | states |
|---|---|---|
| Common.OrEmpty | functions/index.js:523 | an omitted or empty description is stored as "" and a non-empty one as given |
| Users.CreateUser | functions/index.js:28-80 | succeeds iff all four fields are truthy and the identity provider issues a uid; otherwise missing-params exactly for a falsy field; the new user document at that uid is unattached, carries the given profile and time, equals the returned record, and nothing else changes |
| Users.UpdateUser | functions/index.js:82-122 | missing-params iff unauthenticated or no truthy field at all; succeeds iff the provider accepts, a profile field other than the password is given and the caller's document exists; only truthy email/displayName/photoURL are written, membership and every other document unchanged |
| Firms.AttachCrew | functions/index.js:297-310 | the batch of crew updates attaches every crew member as ADMIN of the firm and leaves every other user and the set of users unchanged |
| Firms.CreateFirm | functions/index.js:255-326 | missing-params iff a required field, the crew or the caller is missing; otherwise succeeds iff every crew id names an existing user; on success the firm is written with createdBy = caller, every crew member is attached as ADMIN, non-crew users, workspaces and projects unchanged |
| Firms.UpdateFirm | functions/index.js:328-363 | any signed-in caller may rename any existing firm; only name and photoURL change; a missing firm gives unknown |
| Firms.AddToFirm | functions/index.js:365-421 | fails with missing-params iff an input or the caller is missing; otherwise fails with unknown iff the target, the firm or the caller's document is missing, the target has a truthy firmID, or the caller's firmID differs; on success only the target's firmID/firmRole change to the firm and ADMIN |
| Firms.RemoveFromFirm | functions/index.js:423-479 | same classification; succeeds iff target and caller both belong to the requested firm; on success only the target's firmID/firmRole become null |
| Workspaces.CreateWorkspace | functions/index.js:150-201 | missing-params iff id, name, photoURL or caller is missing; succeeds iff the caller's document has a truthy firmID and a description is given; the workspace at id (replacing any) is bound to the caller's firm and created by the caller, nothing else changes |
| Workspaces.UpdateWorkspaceInfo | functions/index.js:203-253 | succeeds iff workspace and caller exist, their nullable firmIDs are equal and a description is given; changes only name, photoURL and description, never the firm binding |
| Projects.CreateProject | functions/index.js:481-549 | succeeds iff the caller has a truthy firmID equal to the existing workspace's; the project at the generated id (which is returned) copies the workspace's firmID and records the workspace, inputs, creator and time, with description defaulting to "" |
| Projects.UpdateProject | functions/index.js:551-603 | succeeds iff the caller has a truthy firmID equal to the existing project's; changes only name, description, manager and startDate, never firmID or workspaceID |
| Invariants.CreateUserKeepsInvariants | functions/index.js:57-64 | a new user document is unattached, so the store invariant and project/workspace agreement are kept |
| Invariants.UpdateUserKeepsInvariants | functions/index.js:85-108 | updateUser writes only profile fields and keeps the invariant |
| Invariants.CreateFirmKeepsInvariants | functions/index.js:288-310 | the batch that creates the firm and attaches the crew keeps every membership pointing at an existing firm |
| Invariants.UpdateFirmKeepsInvariants | functions/index.js:340-348 | renaming a firm keeps the invariant |
| Invariants.AddToFirmKeepsInvariants | functions/index.js:396-407 | attaching to a firm checked to exist keeps the invariant |
| Invariants.RemoveFromFirmKeepsInvariants | functions/index.js:454-465 | detaching sets both membership fields to null and keeps the invariant |
| Invariants.CreateWorkspaceKeepsInvariants | functions/index.js:168-184 | the new workspace is bound to an existing firm; projects keep agreeing with their workspace if and only if no project filed under that id belongs to another firm |
| Invariants.UpdateWorkspaceInfoKeepsInvariants | functions/index.js:229-237 | updating a workspace keeps the invariant and project/workspace agreement |
| Invariants.CreateProjectKeepsInvariants | functions/index.js:507-526 | a new project is bound to an existing firm and agrees with its workspace |
| Invariants.UpdateProjectKeepsInvariants | functions/index.js:576-586 | updating a project keeps the invariant and project/workspace agreement |
| Api.ErrorClassification | functions/index.js:28-603 | every handler fails with missing-params exactly when its checks before the try block fail, and with unknown for any other failure |
| Api.HandleKeepsValid | functions/index.js:28-603 | every callable handler keeps the store invariant |
| Api.HandleGrows | functions/index.js:28-603 | no handler deletes a document |
| Api.RunKeepsValid | functions/index.js:28-603 | the invariant holds after any sequence of calls |
| Api.ReachableStoresAreValid | functions/index.js:28-603 | every store reachable from an empty one satisfies the invariant |
| Api.RunGrows | functions/index.js:28-603 | over any sequence of calls, documents only accumulate |
| Properties.AddThenRemoveRestores | functions/index.js:396-465 | addToFirm then removeFromFirm by the same caller succeeds, returns the user to null membership, never touches the caller, and restores the whole store when the user started unattached |
| Properties.RemoveThenAddRestores | functions/index.js:396-465 | a member removed by another member can be added back by that member, restoring the store when the member was an ADMIN |
| Properties.AddedUserCannotBeAddedAgain | functions/index.js:401-407 | after a successful add, adding the same user again fails for every caller and firm |
| Properties.RemoveOnlyFromOwnFirm | functions/index.js:459-465 | an added user cannot be removed from a different firm |
| Properties.CrewOrderIrrelevant | functions/index.js:273-310 | createFirm's outcome depends only on the set of crew ids, not their order or repetition |
| Properties.AnyUserCanTakeOverAFirm | functions/index.js:268-310 | any signed-in user can re-create an existing firm with themselves as crew, becoming its creator and ADMIN, and may then remove its former members |
| Properties.UpdateWorkspaceNeedsMembership | functions/index.js:229-231 | under the invariant, a caller allowed to update a workspace belongs to the existing firm the workspace is bound to |
| Properties.UnattachedCallerMayUpdateUnboundWorkspace | functions/index.js:229-231 | without the invariant, a caller with no firm may update a workspace with no firm: no non-null check is made |
| Properties.CreateWorkspaceCanRebind | functions/index.js:172-184 | createWorkspace can rebind an existing workspace to the caller's other firm, breaking agreement with its projects |
| Properties.CreateProjectDenormalizes | functions/index.js:507-526 | a new project's firmID is its workspace's and its creator's, and is truthy |
| Properties.UpdateProjectKeepsBinding | functions/index.js:576-586 | updateProject keeps firmID and workspaceID, and a later update still needs a member of that firm |
| Properties.CreateFirmScenario | functions/index.js:255-326 | an unattached caller creating "f1" with crew u1, u2: the firm is created by the caller, both become ADMINs and the caller stays unattached |
| Properties.CreateWorkspaceScenario | functions/index.js:150-201 | a member of "f1" creating "w1" gets a workspace bound to "f1" and created by the caller |
| Properties.CreateWorkspaceWithoutDescriptionScenario | functions/index.js:177-184 | the same request without a description fails with unknown, because the undefined field is passed to the store unchanged |
| Properties.CreateProjectScenario | functions/index.js:481-549 | creating a project in a workspace of "f1" gives firmID "f1", the workspace id, description "" and returns the generated id |

## Left out

- The identity provider's calls (`createUser`, `updateUser`, `getUserByEmail`) are opaque I/O. Their answers are parameters: the issued uid, and whether an update was accepted. `searchUserByMail` consists only of such a call and is not modelled.
- Audit logging through `console.info` and `console.error` is left out. It is a side channel with no effect on outcomes.
- The clock and the store's generated project ids are parameters. Freshness of a generated id is not assumed: writing at an existing id would replace that project, as `set` does.
- The concurrent fetches and the check-then-act window between reads and the write are not modelled. Each call runs atomically against one store snapshot.
- The `HttpsError` wrapping and the transport are not modelled. Only the two-valued error outcome is kept.
- MissingParams is the value the handler throws (the bare string `missing-params`), before the callable runtime rewraps any thrown value that is not an `HttpsError`; what the client finally receives for it is not modelled. `Unknown` is the code of the `HttpsError` the handlers throw themselves.
- Store failures other than the ones listed above are not modelled. These include unreachable service, quota and request-size limits, and ids containing `/`.
- Inputs are modelled as strings (or an absent description). Non-string JSON values, and `null` sent for a required field, are not modelled. A falsy required field behaves like `""`.
