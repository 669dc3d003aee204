/** Relations between calls: the membership round trips, exclusive
    attachment, what `createFirm` and `createWorkspace` let a caller do
    because of what they leave unchecked, and concrete scenarios of the
    three creation calls. */
module Properties {
  import opened Common
  import opened Documents
  import opened Firms
  import opened Workspaces
  import opened Projects

  /** `addToFirm` followed by `removeFromFirm` of the same user and firm by
      the same caller succeeds and gives the user null membership again.
      The caller is not the user and the add leaves the caller alone; when
      the user started with null firmID and firmRole the store is back where
      it started. */
  lemma AddThenRemoveRestores(s: Store, caller: Option<Id>, userID: Id, firmID: Id)
    requires AddToFirm(s, caller, userID, firmID).Ok?
    ensures var s1 := AddToFirm(s, caller, userID, firmID).value;
      && caller.value != userID
      && s1.users[caller.value] == s.users[caller.value]
      && RemoveFromFirm(s1, caller, userID, firmID).Ok?
      && RemoveFromFirm(s1, caller, userID, firmID).value.users[userID] == Detached(s.users[userID])
    ensures s.users[userID].firmID == None && s.users[userID].firmRole == None ==>
      RemoveFromFirm(AddToFirm(s, caller, userID, firmID).value, caller, userID, firmID).value == s
  {
  }

  /** The other direction: a member removed by another member of the firm
      can be added back by that member, and an ADMIN comes back unchanged. */
  lemma RemoveThenAddRestores(s: Store, caller: Option<Id>, userID: Id, firmID: Id)
    requires RemoveFromFirm(s, caller, userID, firmID).Ok?
    requires caller.value != userID
    ensures var s1 := RemoveFromFirm(s, caller, userID, firmID).value;
      && AddToFirm(s1, caller, userID, firmID).Ok?
      && AddToFirm(s1, caller, userID, firmID).value.users[userID] == Attached(s.users[userID], firmID)
    ensures s.users[userID].firmRole == Some(Admin) ==>
      AddToFirm(RemoveFromFirm(s, caller, userID, firmID).value, caller, userID, firmID).value == s
  {
  }

  /** Membership is exclusive: once added, a user cannot be added again, to
      any firm and by any caller, until removed. */
  lemma AddedUserCannotBeAddedAgain(s: Store, caller: Option<Id>, userID: Id, firmID: Id,
                                    other: Option<Id>, otherFirm: Id)
    requires AddToFirm(s, caller, userID, firmID).Ok?
    ensures AddToFirm(AddToFirm(s, caller, userID, firmID).value, other, userID, otherFirm).Err?
  {
  }

  /** A member can be removed only from the firm it belongs to. */
  lemma RemoveOnlyFromOwnFirm(s: Store, caller: Option<Id>, userID: Id, firmID: Id, otherFirm: Id)
    requires AddToFirm(s, caller, userID, firmID).Ok?
    requires otherFirm != firmID
    ensures RemoveFromFirm(AddToFirm(s, caller, userID, firmID).value, caller, userID, otherFirm).Err?
  {
  }

  /** `createFirm` depends on its crew only as a set of ids: order and
      repetition in the batch do not matter. */
  lemma CrewOrderIrrelevant(s: Store, caller: Option<Id>, id: string, name: string,
                            crew1: seq<Id>, crew2: seq<Id>, photoURL: string, now: int)
    requires forall u :: u in crew1 <==> u in crew2
    ensures CreateFirm(s, caller, id, name, crew1, photoURL, now)
         == CreateFirm(s, caller, id, name, crew2, photoURL, now)
  {
    var r1 := CreateFirm(s, caller, id, name, crew1, photoURL, now);
    var r2 := CreateFirm(s, caller, id, name, crew2, photoURL, now);
    assert |crew1| > 0 <==> |crew2| > 0 by {
      if |crew1| > 0 { assert crew1[0] in crew2; }
      if |crew2| > 0 { assert crew2[0] in crew1; }
    }
    assert CrewExists(s, crew1) <==> CrewExists(s, crew2) by {
      if CrewExists(s, crew1) {
        forall i | 0 <= i < |crew2| ensures Truthy(crew2[i]) && crew2[i] in s.users {
          assert crew2[i] in crew1;
          var j :| 0 <= j < |crew1| && crew1[j] == crew2[i];
        }
      }
      if CrewExists(s, crew2) {
        forall i | 0 <= i < |crew1| ensures Truthy(crew1[i]) && crew1[i] in s.users {
          assert crew1[i] in crew2;
          var j :| 0 <= j < |crew2| && crew2[j] == crew1[i];
        }
      }
    }
    if r1.Ok? {
      assert r1.value.users == r2.value.users;
      assert r1.value.firms == r2.value.firms;
    }
  }

  /** `createFirm` checks neither that the id is unused nor that the crew is
      unattached: any signed-in user with a user document can re-create an
      existing firm with themselves as crew, becoming its creator and an
      ADMIN of it, and may then remove every former member. */
  lemma AnyUserCanTakeOverAFirm(s: Store, caller: Option<Id>, id: Id, name: string,
                                photoURL: string, now: int)
    requires SignedIn(caller) && caller.value in s.users
    requires id in s.firms && Truthy(id) && Truthy(name) && Truthy(photoURL)
    ensures var r := CreateFirm(s, caller, id, name, [caller.value], photoURL, now);
      && r.Ok?
      && r.value.firms[id].createdBy == caller.value
      && r.value.users[caller.value].firmID == Some(id)
      && r.value.users[caller.value].firmRole == Some(Admin)
      && forall v :: Truthy(v) && v in s.users && s.users[v].firmID == Some(id) ==>
           RemoveFromFirm(r.value, caller, v, id).Ok?
  {
  }

  /** Under the store invariant, a caller that may update a workspace is a
      member of the existing firm the workspace is bound to. */
  lemma UpdateWorkspaceNeedsMembership(s: Store, caller: Option<Id>, id: string, name: string,
                                       description: Option<string>, photoURL: string)
    requires Valid(s)
    requires UpdateWorkspaceInfo(s, caller, id, name, description, photoURL).Ok?
    ensures s.users[caller.value].firmID == s.workspaces[id].firmID
    ensures NamesFirm(s.users[caller.value].firmID, s.firms)
  {
  }

  /** Without the invariant nothing stops a caller with no firm from updating
      a workspace with no firm: the comparison is the only check. */
  lemma UnattachedCallerMayUpdateUnboundWorkspace(s: Store, caller: Option<Id>, id: string,
                                                  name: string, description: string, photoURL: string)
    requires Truthy(id) && Truthy(name) && Truthy(photoURL) && SignedIn(caller)
    requires id in s.workspaces && s.workspaces[id].firmID == None
    requires caller.value in s.users && s.users[caller.value].firmID == None
    ensures UpdateWorkspaceInfo(s, caller, id, name, Some(description), photoURL).Ok?
  {
  }

  /** `createWorkspace` writes with `set`: a member of another firm can
      re-create an existing workspace under its own firm, after which the
      projects filed under it no longer carry their workspace's firmID. */
  lemma CreateWorkspaceCanRebind(s: Store, caller: Option<Id>, id: string, name: string,
                                 description: string, photoURL: string, now: int, p: Id)
    requires ProjectsFollowWorkspaces(s)
    requires Truthy(id) && Truthy(name) && Truthy(photoURL) && SignedIn(caller)
    requires caller.value in s.users && Present(s.users[caller.value].firmID)
    requires id in s.workspaces && s.workspaces[id].firmID != s.users[caller.value].firmID
    requires p in s.projects && s.projects[p].workspaceID == id
    ensures var r := CreateWorkspace(s, caller, id, name, Some(description), photoURL, now);
      && r.Ok?
      && r.value.workspaces[id].firmID == s.users[caller.value].firmID
      && !ProjectsFollowWorkspaces(r.value)
  {
  }

  /** A new project is bound to the same firm as its workspace and as its
      creator, and agrees with its workspace from the start. */
  lemma CreateProjectDenormalizes(s: Store, caller: Option<Id>, workspaceID: Id, name: string,
                                  description: Option<string>, manager: string, startDate: string,
                                  now: int, newId: Id)
    requires CreateProject(s, caller, workspaceID, name, description, manager, startDate, now, newId).Ok?
    ensures var t := CreateProject(s, caller, workspaceID, name, description, manager, startDate, now, newId).value.0;
      && t.projects[newId].firmID == t.workspaces[workspaceID].firmID
      && t.projects[newId].firmID == t.users[caller.value].firmID
      && Present(t.projects[newId].firmID)
  {
  }

  /** A project never leaves its firm or workspace through `updateProject`,
      and every later update needs a member of that same firm. */
  lemma UpdateProjectKeepsBinding(s: Store, caller: Option<Id>, id: string, name: string,
                                  description: Option<string>, manager: string, startDate: string,
                                  other: Option<Id>, name2: string, description2: Option<string>,
                                  manager2: string, startDate2: string)
    requires UpdateProject(s, caller, id, name, description, manager, startDate).Ok?
    ensures var t := UpdateProject(s, caller, id, name, description, manager, startDate).value;
      && t.projects[id].firmID == s.projects[id].firmID
      && t.projects[id].workspaceID == s.projects[id].workspaceID
      && (UpdateProject(t, other, id, name2, description2, manager2, startDate2).Ok? ==>
            t.users[other.value].firmID == s.projects[id].firmID)
  {
  }

  /** Caller C, unattached, creates firm "f1" named "Acme" with crew u1 and
      u2, both unattached: the firm is created by C and both become ADMINs
      of it, while C's own membership does not change. */
  lemma CreateFirmScenario()
    ensures
      var u := User("u@x", "U", "p", None, None, 0);
      var s := Store(map["C" := u, "u1" := u, "u2" := u], map[], map[], map[]);
      var r := CreateFirm(s, Some("C"), "f1", "Acme", ["u1", "u2"], "x", 7);
      && r.Ok?
      && r.value.firms["f1"].createdBy == "C"
      && r.value.users["u1"].firmID == Some("f1") && r.value.users["u1"].firmRole == Some(Admin)
      && r.value.users["u2"].firmID == Some("f1") && r.value.users["u2"].firmRole == Some(Admin)
      && r.value.users["C"].firmID == None
  {
  }

  /** A member of "f1" creates workspace "w1": it is bound to "f1" and
      created by the caller. */
  lemma CreateWorkspaceScenario()
    ensures
      var c := User("c@x", "C", "p", Some("f1"), Some(Admin), 0);
      var s := Store(map["C" := c], map["f1" := Firm("Acme", "x", "C", 0)], map[], map[]);
      var r := CreateWorkspace(s, Some("C"), "w1", "Ops", Some(""), "y", 9);
      && r.Ok?
      && r.value.workspaces["w1"].firmID == Some("f1")
      && r.value.workspaces["w1"].createdBy == "C"
  {
  }

  /** The same request with the description left out: the store refuses the
      undefined field, so the call fails with `unknown` and no workspace is
      written. */
  lemma CreateWorkspaceWithoutDescriptionScenario()
    ensures
      var c := User("c@x", "C", "p", Some("f1"), Some(Admin), 0);
      var s := Store(map["C" := c], map["f1" := Firm("Acme", "x", "C", 0)], map[], map[]);
      CreateWorkspace(s, Some("C"), "w1", "Ops", None, "y", 9) == Err(Unknown)
  {
  }

  /** A member of "f1" creates project "Launch" in "w1" (bound to "f1"):
      the project carries firmID "f1" and workspaceID "w1", and the
      generated id is returned. */
  lemma CreateProjectScenario()
    ensures
      var c := User("c@x", "C", "p", Some("f1"), Some(Admin), 0);
      var w := Workspace("Ops", "", "y", Some("f1"), "C", 0);
      var s := Store(map["C" := c], map["f1" := Firm("Acme", "x", "C", 0)], map["w1" := w], map[]);
      var r := CreateProject(s, Some("C"), "w1", "Launch", None, "u1", "T", 11, "p1");
      && r.Ok?
      && r.value.1 == "p1"
      && r.value.0.projects["p1"].firmID == Some("f1")
      && r.value.0.projects["p1"].workspaceID == "w1"
      && r.value.0.projects["p1"].description == ""
  {
  }
}
