/** The exported callable surface as one dispatcher, and what holds of any
    sequence of calls: the invariant is kept, nothing is ever deleted, and
    `missing-params` is exactly the outcome of the checks run before a
    handler's `try` block. */
module Api {
  import opened Common
  import opened Documents
  import Users
  import Firms
  import Workspaces
  import Projects
  import Invariants

  /** The input of one remote call. Inputs the runtime supplies (the identity
      provider's answers, the store's generated project id) travel with it. */
  datatype Call =
    | CreateUser(email: string, password: string, displayName: string, photoURL: string,
                 issued: Option<Id>)
    | UpdateUser(email: string, password: string, displayName: string, photoURL: string,
                 accepted: bool)
    | CreateWorkspace(id: string, name: string, description: Option<string>, photoURL: string)
    | UpdateWorkspaceInfo(id: string, name: string, description: Option<string>, photoURL: string)
    | CreateFirm(id: string, name: string, crew: seq<Id>, photoURL: string)
    | UpdateFirm(id: string, name: string, photoURL: string)
    | AddToFirm(userID: Id, firmID: Id)
    | RemoveFromFirm(userID: Id, firmID: Id)
    | CreateProject(workspaceID: Id, name: string, description: Option<string>, manager: string,
                    startDate: string, newId: Id)
    | UpdateProject(id: string, name: string, description: Option<string>, manager: string,
                    startDate: string)

  /** A call with its authentication context and the time it was handled. */
  datatype Request = Request(caller: Option<Id>, now: int, call: Call)

  /** The checks each handler runs before its `try` block: required fields
      and, for every handler but `createUser`, a signed-in caller. */
  predicate Admissible(req: Request) {
    var c := req.caller;
    match req.call
    case CreateUser(email, password, displayName, photoURL, _) =>
      Truthy(email) && Truthy(password) && Truthy(displayName) && Truthy(photoURL)
    case UpdateUser(email, password, displayName, photoURL, _) =>
      SignedIn(c) && (Truthy(email) || Truthy(password) || Truthy(displayName) || Truthy(photoURL))
    case CreateWorkspace(id, name, _, photoURL) =>
      Truthy(id) && Truthy(name) && Truthy(photoURL) && SignedIn(c)
    case UpdateWorkspaceInfo(id, name, _, photoURL) =>
      Truthy(id) && Truthy(name) && Truthy(photoURL) && SignedIn(c)
    case CreateFirm(id, name, crew, photoURL) =>
      Truthy(id) && Truthy(name) && |crew| > 0 && Truthy(photoURL) && SignedIn(c)
    case UpdateFirm(id, name, photoURL) =>
      Truthy(id) && Truthy(name) && Truthy(photoURL) && SignedIn(c)
    case AddToFirm(userID, firmID) =>
      Truthy(userID) && Truthy(firmID) && SignedIn(c)
    case RemoveFromFirm(userID, firmID) =>
      Truthy(userID) && Truthy(firmID) && SignedIn(c)
    case CreateProject(workspaceID, name, _, manager, startDate, _) =>
      Truthy(workspaceID) && Truthy(name) && Truthy(manager) && Truthy(startDate) && SignedIn(c)
    case UpdateProject(id, name, _, manager, startDate) =>
      Truthy(id) && Truthy(name) && Truthy(manager) && Truthy(startDate) && SignedIn(c)
  }

  /** Runs one request against the store; the value a handler returns to the
      caller (the user record, the project id) is dropped. */
  function Handle(s: Store, req: Request): Result<Store> {
    var c := req.caller;
    match req.call
    case CreateUser(email, password, displayName, photoURL, issued) =>
      (match Users.CreateUser(s, email, password, displayName, photoURL, req.now, issued)
       case Ok((t, _)) => Ok(t)
       case Err(e) => Err(e))
    case UpdateUser(email, password, displayName, photoURL, accepted) =>
      Users.UpdateUser(s, c, email, password, displayName, photoURL, accepted)
    case CreateWorkspace(id, name, description, photoURL) =>
      Workspaces.CreateWorkspace(s, c, id, name, description, photoURL, req.now)
    case UpdateWorkspaceInfo(id, name, description, photoURL) =>
      Workspaces.UpdateWorkspaceInfo(s, c, id, name, description, photoURL)
    case CreateFirm(id, name, crew, photoURL) =>
      Firms.CreateFirm(s, c, id, name, crew, photoURL, req.now)
    case UpdateFirm(id, name, photoURL) =>
      Firms.UpdateFirm(s, c, id, name, photoURL)
    case AddToFirm(userID, firmID) =>
      Firms.AddToFirm(s, c, userID, firmID)
    case RemoveFromFirm(userID, firmID) =>
      Firms.RemoveFromFirm(s, c, userID, firmID)
    case CreateProject(workspaceID, name, description, manager, startDate, newId) =>
      (match Projects.CreateProject(s, c, workspaceID, name, description, manager, startDate, req.now, newId)
       case Ok((t, _)) => Ok(t)
       case Err(e) => Err(e))
    case UpdateProject(id, name, description, manager, startDate) =>
      Projects.UpdateProject(s, c, id, name, description, manager, startDate)
  }

  /** The store after the requests are handled one after another, each
      against the store the previous one left; a failed request leaves it. */
  function Run(s: Store, reqs: seq<Request>): Store
    decreases |reqs|
  {
    if reqs == [] then s
    else
      var next := match Handle(s, reqs[0]) case Ok(t) => t case Err(_) => s;
      Run(next, reqs[1..])
  }

  /** `missing-params` is reported exactly when a check before the `try`
      block fails; a request that passes them fails, if at all, with
      `unknown`. */
  lemma ErrorClassification(s: Store, req: Request)
    ensures Handle(s, req) == Err(MissingParams) <==> !Admissible(req)
    ensures Admissible(req) && Handle(s, req).Err? ==> Handle(s, req).error == Unknown
  {
  }

  /** Every handler keeps the store invariant. */
  lemma HandleKeepsValid(s: Store, req: Request)
    requires Valid(s)
    ensures Handle(s, req).Ok? ==> Valid(Handle(s, req).value)
  {
    var c := req.caller;
    match req.call
    case CreateUser(email, password, displayName, photoURL, issued) =>
      Invariants.CreateUserKeepsInvariants(s, email, password, displayName, photoURL, req.now, issued);
    case UpdateUser(email, password, displayName, photoURL, accepted) =>
      Invariants.UpdateUserKeepsInvariants(s, c, email, password, displayName, photoURL, accepted);
    case CreateWorkspace(id, name, description, photoURL) =>
      Invariants.CreateWorkspaceKeepsInvariants(s, c, id, name, description, photoURL, req.now);
    case UpdateWorkspaceInfo(id, name, description, photoURL) =>
      Invariants.UpdateWorkspaceInfoKeepsInvariants(s, c, id, name, description, photoURL);
    case CreateFirm(id, name, crew, photoURL) =>
      Invariants.CreateFirmKeepsInvariants(s, c, id, name, crew, photoURL, req.now);
    case UpdateFirm(id, name, photoURL) =>
      Invariants.UpdateFirmKeepsInvariants(s, c, id, name, photoURL);
    case AddToFirm(userID, firmID) =>
      Invariants.AddToFirmKeepsInvariants(s, c, userID, firmID);
    case RemoveFromFirm(userID, firmID) =>
      Invariants.RemoveFromFirmKeepsInvariants(s, c, userID, firmID);
    case CreateProject(workspaceID, name, description, manager, startDate, newId) =>
      Invariants.CreateProjectKeepsInvariants(s, c, workspaceID, name, description, manager, startDate, req.now, newId);
    case UpdateProject(id, name, description, manager, startDate) =>
      Invariants.UpdateProjectKeepsInvariants(s, c, id, name, description, manager, startDate);
  }

  /** No handler deletes a document. */
  lemma HandleGrows(s: Store, req: Request)
    ensures Handle(s, req).Ok? ==> Grows(s, Handle(s, req).value)
  {
  }

  /** The invariant holds after any sequence of requests. */
  lemma {:induction false} RunKeepsValid(s: Store, reqs: seq<Request>)
    requires Valid(s)
    ensures Valid(Run(s, reqs))
    decreases |reqs|
  {
    if reqs != [] {
      HandleKeepsValid(s, reqs[0]);
      var next := match Handle(s, reqs[0]) case Ok(t) => t case Err(_) => s;
      RunKeepsValid(next, reqs[1..]);
    }
  }

  /** Every store the callable surface can produce from an empty one is valid. */
  lemma ReachableStoresAreValid(reqs: seq<Request>)
    ensures Valid(Run(EmptyStore, reqs))
  {
    Invariants.EmptyStoreIsValid();
    RunKeepsValid(EmptyStore, reqs);
  }

  /** Documents are never deleted: users, firms, workspaces and projects
      only accumulate over any sequence of requests. */
  lemma {:induction false} RunGrows(s: Store, reqs: seq<Request>)
    ensures Grows(s, Run(s, reqs))
    decreases |reqs|
  {
    if reqs != [] {
      HandleGrows(s, reqs[0]);
      var next := match Handle(s, reqs[0]) case Ok(t) => t case Err(_) => s;
      RunGrows(next, reqs[1..]);
    }
  }
}
