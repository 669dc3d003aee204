/** Each handler keeps the store invariant `Valid` (membership consistency
    and firm bindings), and every handler but `createWorkspace` keeps each
    project's copied firmID in agreement with its workspace. */
module Invariants {
  import opened Common
  import opened Documents
  import opened Users
  import opened Firms
  import opened Workspaces
  import opened Projects

  lemma EmptyStoreIsValid()
    ensures Valid(EmptyStore) && ProjectsFollowWorkspaces(EmptyStore)
  {
  }

  /** A new user document is unattached, so it satisfies the membership rule. */
  lemma CreateUserKeepsInvariants(s: Store, email: string, password: string, displayName: string,
                                  photoURL: string, now: int, issued: Option<Id>)
    requires Valid(s)
    ensures var r := CreateUser(s, email, password, displayName, photoURL, now, issued);
            r.Ok? ==> Valid(r.value.0) && (ProjectsFollowWorkspaces(s) ==> ProjectsFollowWorkspaces(r.value.0))
  {
  }

  /** Only profile fields are written, so membership is untouched. */
  lemma UpdateUserKeepsInvariants(s: Store, caller: Option<Id>, email: string, password: string,
                                  displayName: string, photoURL: string, accepted: bool)
    requires Valid(s)
    ensures var r := UpdateUser(s, caller, email, password, displayName, photoURL, accepted);
            r.Ok? ==> Valid(r.value) && (ProjectsFollowWorkspaces(s) ==> ProjectsFollowWorkspaces(r.value))
  {
  }

  /** The firm is written in the same batch that attaches the crew to it, and
      no firm disappears, so every firm reference still resolves. */
  lemma CreateFirmKeepsInvariants(s: Store, caller: Option<Id>, id: string, name: string,
                                  crew: seq<Id>, photoURL: string, now: int)
    requires Valid(s)
    ensures var r := CreateFirm(s, caller, id, name, crew, photoURL, now);
            r.Ok? ==> Valid(r.value) && (ProjectsFollowWorkspaces(s) ==> ProjectsFollowWorkspaces(r.value))
  {
  }

  lemma UpdateFirmKeepsInvariants(s: Store, caller: Option<Id>, id: string, name: string,
                                  photoURL: string)
    requires Valid(s)
    ensures var r := UpdateFirm(s, caller, id, name, photoURL);
            r.Ok? ==> Valid(r.value) && (ProjectsFollowWorkspaces(s) ==> ProjectsFollowWorkspaces(r.value))
  {
  }

  /** The firm an added user is attached to was checked to exist. */
  lemma AddToFirmKeepsInvariants(s: Store, caller: Option<Id>, userID: Id, firmID: Id)
    requires Valid(s)
    ensures var r := AddToFirm(s, caller, userID, firmID);
            r.Ok? ==> Valid(r.value) && (ProjectsFollowWorkspaces(s) ==> ProjectsFollowWorkspaces(r.value))
  {
  }

  lemma RemoveFromFirmKeepsInvariants(s: Store, caller: Option<Id>, userID: Id, firmID: Id)
    requires Valid(s)
    ensures var r := RemoveFromFirm(s, caller, userID, firmID);
            r.Ok? ==> Valid(r.value) && (ProjectsFollowWorkspaces(s) ==> ProjectsFollowWorkspaces(r.value))
  {
  }

  /** The new workspace is bound to the caller's firm, which exists because
      the caller's membership is consistent. Projects keep agreeing with
      their workspace only when no project already filed under this
      workspace id belongs to another firm: `set` rebinds whatever was
      there. */
  lemma CreateWorkspaceKeepsInvariants(s: Store, caller: Option<Id>, id: string, name: string,
                                       description: Option<string>, photoURL: string, now: int)
    requires Valid(s)
    ensures var r := CreateWorkspace(s, caller, id, name, description, photoURL, now);
            r.Ok? ==> Valid(r.value)
    ensures var r := CreateWorkspace(s, caller, id, name, description, photoURL, now);
            r.Ok? && ProjectsFollowWorkspaces(s)
            && (forall p :: p in s.projects && s.projects[p].workspaceID == id ==>
                  s.projects[p].firmID == s.users[caller.value].firmID)
            ==> ProjectsFollowWorkspaces(r.value)
    ensures var r := CreateWorkspace(s, caller, id, name, description, photoURL, now);
            r.Ok? && ProjectsFollowWorkspaces(r.value) ==>
              forall p :: p in s.projects && s.projects[p].workspaceID == id ==>
                s.projects[p].firmID == s.users[caller.value].firmID
  {
  }

  lemma UpdateWorkspaceInfoKeepsInvariants(s: Store, caller: Option<Id>, id: string, name: string,
                                           description: Option<string>, photoURL: string)
    requires Valid(s)
    ensures var r := UpdateWorkspaceInfo(s, caller, id, name, description, photoURL);
            r.Ok? ==> Valid(r.value) && (ProjectsFollowWorkspaces(s) ==> ProjectsFollowWorkspaces(r.value))
  {
  }

  /** The new project's firmID is the workspace's, which is the caller's
      firm, which exists. */
  lemma CreateProjectKeepsInvariants(s: Store, caller: Option<Id>, workspaceID: Id, name: string,
                                     description: Option<string>, manager: string, startDate: string,
                                     now: int, newId: Id)
    requires Valid(s)
    ensures var r := CreateProject(s, caller, workspaceID, name, description, manager, startDate, now, newId);
            r.Ok? ==> Valid(r.value.0) && (ProjectsFollowWorkspaces(s) ==> ProjectsFollowWorkspaces(r.value.0))
  {
  }

  lemma UpdateProjectKeepsInvariants(s: Store, caller: Option<Id>, id: string, name: string,
                                     description: Option<string>, manager: string, startDate: string)
    requires Valid(s)
    ensures var r := UpdateProject(s, caller, id, name, description, manager, startDate);
            r.Ok? ==> Valid(r.value) && (ProjectsFollowWorkspaces(s) ==> ProjectsFollowWorkspaces(r.value))
  {
  }
}
