/** Firm documents and user-firm membership: `createFirm`, `updateFirm`,
    `addToFirm` and `removeFromFirm`. */
module Firms {
  import opened Common
  import opened Documents

  /** Every crew id is a truthy id of an existing user document. An empty id
      makes the store reject the document path; a missing document makes
      `data()` undefined. */
  predicate CrewExists(s: Store, crew: seq<Id>) {
    forall i :: 0 <= i < |crew| ==> Truthy(crew[i]) && crew[i] in s.users
  }

  /** The user documents after the batch's `update({firmID, firmRole: ADMIN})`
      for every crew id, in crew order. A crew id listed twice is written
      twice with the same fields. */
  function AttachCrew(users: map<Id, User>, crew: seq<Id>, firmID: Id): (r: map<Id, User>)
    requires forall i :: 0 <= i < |crew| ==> crew[i] in users
    ensures r.Keys == users.Keys
    ensures forall u :: u in users && u in crew ==> r[u] == Attached(users[u], firmID)
    ensures forall u :: u in users && u !in crew ==> r[u] == users[u]
    decreases |crew|
  {
    if crew == [] then users
    else
      var head := crew[0];
      AttachCrew(users[head := Attached(users[head], firmID)], crew[1..], firmID)
  }

  /** createFirm: id, name, a non-empty crew and photoURL are required, and
      the caller must be signed in (else `missing-params`). Inside the `try`,
      every crew id must name an existing user (else `unknown`). Nothing else
      is checked: crew members may already belong to a firm, the caller need
      not be in the crew, and an existing firm with this id is replaced. One
      atomic batch then sets the firm document and attaches every crew
      member as ADMIN. */
  function CreateFirm(s: Store, caller: Option<Id>, id: string, name: string,
                      crew: seq<Id>, photoURL: string, now: int): (r: Result<Store>)
    ensures r.Ok? <==>
      Truthy(id) && Truthy(name) && |crew| > 0 && Truthy(photoURL) && SignedIn(caller)
      && CrewExists(s, crew)
    ensures r.Err? ==>
      (r.error == MissingParams <==>
        !(Truthy(id) && Truthy(name) && |crew| > 0 && Truthy(photoURL) && SignedIn(caller)))
    ensures r.Ok? ==>
      var t := r.value;
      && OnlyAt(s.firms, t.firms, id)
      && t.firms[id] == Firm(name, photoURL, caller.value, now)
      && t.users.Keys == s.users.Keys
      && (forall u :: u in s.users && u in crew ==> t.users[u] == Attached(s.users[u], id))
      && (forall u :: u in s.users && u !in crew ==> t.users[u] == s.users[u])
      && t.workspaces == s.workspaces && t.projects == s.projects
  {
    if !Truthy(id) || !Truthy(name) || |crew| == 0 || !Truthy(photoURL) || !SignedIn(caller) then
      Err(MissingParams)
    else if !CrewExists(s, crew) then
      Err(Unknown)
    else
      var firm := Firm(name, photoURL, caller.value, now);
      Ok(s.(firms := s.firms[id := firm], users := AttachCrew(s.users, crew, id)))
  }

  /** updateFirm: id, name and photoURL are required and the caller must be
      signed in (else `missing-params`). No membership is checked: any
      signed-in caller may rename any firm. `update` fails when the firm
      document does not exist. */
  function UpdateFirm(s: Store, caller: Option<Id>, id: string, name: string,
                      photoURL: string): (r: Result<Store>)
    ensures r.Ok? <==>
      Truthy(id) && Truthy(name) && Truthy(photoURL) && SignedIn(caller) && id in s.firms
    ensures r.Err? ==>
      (r.error == MissingParams <==>
        !(Truthy(id) && Truthy(name) && Truthy(photoURL) && SignedIn(caller)))
    ensures r.Ok? ==>
      var t := r.value;
      && OnlyAt(s.firms, t.firms, id)
      && t.firms[id].name == name && t.firms[id].photoURL == photoURL
      && t.firms[id].createdBy == s.firms[id].createdBy
      && t.firms[id].createdAt == s.firms[id].createdAt
      && t.users == s.users && t.workspaces == s.workspaces && t.projects == s.projects
  {
    if !Truthy(id) || !Truthy(name) || !Truthy(photoURL) || !SignedIn(caller) then
      Err(MissingParams)
    else if id !in s.firms then
      Err(Unknown)
    else
      Ok(s.(firms := s.firms[id := s.firms[id].(name := name, photoURL := photoURL)]))
  }

  /** addToFirm: userID and firmID are required and the caller must be signed
      in (else `missing-params`). The target user, the firm and the caller's
      own user document must exist, the target must not already have a truthy
      firmID, and the caller's firmID must be the requested one (else
      `unknown`). Only the target's membership fields change. */
  function AddToFirm(s: Store, caller: Option<Id>, userID: Id, firmID: Id): (r: Result<Store>)
    ensures r.Ok? <==>
      && Truthy(userID) && Truthy(firmID) && SignedIn(caller)
      && userID in s.users && firmID in s.firms && caller.value in s.users
      && !Present(s.users[userID].firmID)
      && s.users[caller.value].firmID == Some(firmID)
    ensures r.Err? ==>
      (r.error == MissingParams <==> !(Truthy(userID) && Truthy(firmID) && SignedIn(caller)))
    ensures r.Ok? ==>
      var t := r.value;
      && OnlyAt(s.users, t.users, userID)
      && t.users[userID] == Attached(s.users[userID], firmID)
      && t.firms == s.firms && t.workspaces == s.workspaces && t.projects == s.projects
  {
    if !Truthy(userID) || !Truthy(firmID) || !SignedIn(caller) then
      Err(MissingParams)
    else if userID !in s.users || firmID !in s.firms || caller.value !in s.users then
      Err(Unknown)
    else if Present(s.users[userID].firmID) then
      Err(Unknown)
    else if s.users[caller.value].firmID != Some(firmID) then
      Err(Unknown)
    else
      Ok(s.(users := s.users[userID := Attached(s.users[userID], firmID)]))
  }

  /** removeFromFirm: the same required inputs and existence checks as
      `addToFirm`; both the target's and the caller's firmID must equal the
      requested firm (else `unknown`). The target's firmID and firmRole become
      null; a member may remove themselves. */
  function RemoveFromFirm(s: Store, caller: Option<Id>, userID: Id, firmID: Id): (r: Result<Store>)
    ensures r.Ok? <==>
      && Truthy(userID) && Truthy(firmID) && SignedIn(caller)
      && userID in s.users && firmID in s.firms && caller.value in s.users
      && s.users[userID].firmID == Some(firmID)
      && s.users[caller.value].firmID == Some(firmID)
    ensures r.Err? ==>
      (r.error == MissingParams <==> !(Truthy(userID) && Truthy(firmID) && SignedIn(caller)))
    ensures r.Ok? ==>
      var t := r.value;
      && OnlyAt(s.users, t.users, userID)
      && t.users[userID] == Detached(s.users[userID])
      && t.firms == s.firms && t.workspaces == s.workspaces && t.projects == s.projects
  {
    if !Truthy(userID) || !Truthy(firmID) || !SignedIn(caller) then
      Err(MissingParams)
    else if userID !in s.users || firmID !in s.firms || caller.value !in s.users then
      Err(Unknown)
    else if s.users[userID].firmID != Some(firmID) then
      Err(Unknown)
    else if s.users[caller.value].firmID != Some(firmID) then
      Err(Unknown)
    else
      Ok(s.(users := s.users[userID := Detached(s.users[userID])]))
  }
}
