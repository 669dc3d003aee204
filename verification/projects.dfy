/** `createProject` and `updateProject`. */
module Projects {
  import opened Common
  import opened Documents

  /** createProject: workspaceID, name, manager and startDate are required
      and the caller must be signed in (else `missing-params`). The caller's
      user document must exist with a truthy firmID, and the workspace must
      exist with that same firmID (else `unknown`). The project is written at
      the id the store generates (`newId`) and that id is returned; its firmID
      is copied from the workspace and a missing description becomes "".
      The manager is not checked to be a user. */
  function CreateProject(s: Store, caller: Option<Id>, workspaceID: Id, name: string,
                         description: Option<string>, manager: string, startDate: string,
                         now: int, newId: Id): (r: Result<(Store, Id)>)
    ensures r.Ok? <==>
      && Truthy(workspaceID) && Truthy(name) && Truthy(manager) && Truthy(startDate)
      && SignedIn(caller)
      && caller.value in s.users && Present(s.users[caller.value].firmID)
      && workspaceID in s.workspaces
      && s.workspaces[workspaceID].firmID == s.users[caller.value].firmID
    ensures r.Err? ==>
      (r.error == MissingParams <==>
        !(Truthy(workspaceID) && Truthy(name) && Truthy(manager) && Truthy(startDate) && SignedIn(caller)))
    ensures r.Ok? ==>
      var (t, returned) := r.value;
      && returned == newId
      && OnlyAt(s.projects, t.projects, newId)
      && t.projects[newId].firmID == s.workspaces[workspaceID].firmID
      && t.projects[newId].workspaceID == workspaceID
      && t.projects[newId].name == name
      && t.projects[newId].description == OrEmpty(description)
      && t.projects[newId].manager == manager
      && t.projects[newId].startDate == startDate
      && t.projects[newId].createdBy == caller.value
      && t.projects[newId].createdAt == now
      && t.users == s.users && t.firms == s.firms && t.workspaces == s.workspaces
  {
    if !Truthy(workspaceID) || !Truthy(name) || !Truthy(manager) || !Truthy(startDate)
      || !SignedIn(caller) then
      Err(MissingParams)
    else if caller.value !in s.users then
      Err(Unknown)
    else
      var uid := caller.value;
      var firmID := s.users[uid].firmID;
      if !Present(firmID) || workspaceID !in s.workspaces || firmID != s.workspaces[workspaceID].firmID then
        Err(Unknown)
      else
        var p := Project(name, OrEmpty(description), manager, startDate, firmID, workspaceID, uid, now);
        Ok((s.(projects := s.projects[newId := p]), newId))
  }

  /** updateProject: id, name, manager and startDate are required and the
      caller must be signed in (else `missing-params`). The caller's user
      document must exist with a truthy firmID and the project must exist
      with that same firmID (else `unknown`). Only manager, description,
      startDate and name are written; a missing description becomes "". */
  function UpdateProject(s: Store, caller: Option<Id>, id: string, name: string,
                         description: Option<string>, manager: string, startDate: string): (r: Result<Store>)
    ensures r.Ok? <==>
      && Truthy(id) && Truthy(name) && Truthy(manager) && Truthy(startDate) && SignedIn(caller)
      && caller.value in s.users && Present(s.users[caller.value].firmID)
      && id in s.projects
      && s.projects[id].firmID == s.users[caller.value].firmID
    ensures r.Err? ==>
      (r.error == MissingParams <==>
        !(Truthy(id) && Truthy(name) && Truthy(manager) && Truthy(startDate) && SignedIn(caller)))
    ensures r.Ok? ==>
      var t := r.value;
      && OnlyAt(s.projects, t.projects, id)
      && t.projects[id].name == name
      && t.projects[id].description == OrEmpty(description)
      && t.projects[id].manager == manager
      && t.projects[id].startDate == startDate
      && t.projects[id].firmID == s.projects[id].firmID
      && t.projects[id].workspaceID == s.projects[id].workspaceID
      && t.projects[id].createdBy == s.projects[id].createdBy
      && t.projects[id].createdAt == s.projects[id].createdAt
      && t.users == s.users && t.firms == s.firms && t.workspaces == s.workspaces
  {
    if !Truthy(id) || !Truthy(name) || !Truthy(manager) || !Truthy(startDate) || !SignedIn(caller) then
      Err(MissingParams)
    else if caller.value !in s.users then
      Err(Unknown)
    else
      var firmID := s.users[caller.value].firmID;
      if !Present(firmID) || id !in s.projects || firmID != s.projects[id].firmID then
        Err(Unknown)
      else
        var p := s.projects[id].(manager := manager, description := OrEmpty(description),
                                 startDate := startDate, name := name);
        Ok(s.(projects := s.projects[id := p]))
  }
}
