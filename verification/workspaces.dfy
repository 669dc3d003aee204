/** `createWorkspace` and `updateWorkspaceInfo`. */
module Workspaces {
  import opened Common
  import opened Documents

  /** createWorkspace: id, name and photoURL are required and the caller must
      be signed in (else `missing-params`). The caller's user document must
      exist and carry a truthy firmID (else `unknown`). The workspace is
      written with `set`, so an existing workspace with this id is replaced
      whichever firm it belonged to. The description is passed through
      unchanged; the store refuses an undefined field value, so leaving it
      out fails with `unknown`. */
  function CreateWorkspace(s: Store, caller: Option<Id>, id: string, name: string,
                           description: Option<string>, photoURL: string, now: int): (r: Result<Store>)
    ensures r.Ok? <==>
      && Truthy(id) && Truthy(name) && Truthy(photoURL) && SignedIn(caller)
      && caller.value in s.users && Present(s.users[caller.value].firmID)
      && description.Some?
    ensures r.Err? ==>
      (r.error == MissingParams <==> !(Truthy(id) && Truthy(name) && Truthy(photoURL) && SignedIn(caller)))
    ensures r.Ok? ==>
      var t := r.value;
      && OnlyAt(s.workspaces, t.workspaces, id)
      && t.workspaces[id] ==
           Workspace(name, description.value, photoURL, s.users[caller.value].firmID, caller.value, now)
      && t.users == s.users && t.firms == s.firms && t.projects == s.projects
  {
    if !Truthy(id) || !Truthy(name) || !Truthy(photoURL) || !SignedIn(caller) then
      Err(MissingParams)
    else if caller.value !in s.users || !Present(s.users[caller.value].firmID) then
      Err(Unknown)
    else if description.None? then
      Err(Unknown)
    else
      var uid := caller.value;
      var ws := Workspace(name, description.value, photoURL, s.users[uid].firmID, uid, now);
      Ok(s.(workspaces := s.workspaces[id := ws]))
  }

  /** updateWorkspaceInfo: the same required inputs as `createWorkspace`.
      The workspace and the caller's user document must exist and their
      firmIDs must be equal (`!==` on two nullable values, so two nulls are
      equal); else `unknown`. Only name, photoURL and description are
      written; the firm binding never changes. */
  function UpdateWorkspaceInfo(s: Store, caller: Option<Id>, id: string, name: string,
                               description: Option<string>, photoURL: string): (r: Result<Store>)
    ensures r.Ok? <==>
      && Truthy(id) && Truthy(name) && Truthy(photoURL) && SignedIn(caller)
      && id in s.workspaces && caller.value in s.users
      && s.workspaces[id].firmID == s.users[caller.value].firmID
      && description.Some?
    ensures r.Err? ==>
      (r.error == MissingParams <==> !(Truthy(id) && Truthy(name) && Truthy(photoURL) && SignedIn(caller)))
    ensures r.Ok? ==>
      var t := r.value;
      && OnlyAt(s.workspaces, t.workspaces, id)
      && t.workspaces[id].name == name
      && t.workspaces[id].photoURL == photoURL
      && t.workspaces[id].description == description.value
      && t.workspaces[id].firmID == s.workspaces[id].firmID
      && t.workspaces[id].createdBy == s.workspaces[id].createdBy
      && t.workspaces[id].createdAt == s.workspaces[id].createdAt
      && t.users == s.users && t.firms == s.firms && t.projects == s.projects
  {
    if !Truthy(id) || !Truthy(name) || !Truthy(photoURL) || !SignedIn(caller) then
      Err(MissingParams)
    else if id !in s.workspaces || caller.value !in s.users then
      Err(Unknown)
    else if s.workspaces[id].firmID != s.users[caller.value].firmID then
      Err(Unknown)
    else if description.None? then
      Err(Unknown)
    else
      var ws := s.workspaces[id].(name := name, photoURL := photoURL, description := description.value);
      Ok(s.(workspaces := s.workspaces[id := ws]))
  }
}
