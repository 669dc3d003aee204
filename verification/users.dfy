/** `createUser` and the store part of `updateUser`. The identity provider's
    calls are parameters: its answer is an input, not something modelled. */
module Users {
  import opened Common
  import opened Documents

  /** createUser: every field must be truthy (else `missing-params`, before
      any I/O). The identity provider then creates the account and issues a
      uid (`issued`, None when it refuses, e.g. for an email already in use);
      the user document is written with `set` at that uid, unattached. The
      document and the returned record are the same; the password is never
      stored. */
  function CreateUser(s: Store, email: string, password: string, displayName: string,
                      photoURL: string, now: int, issued: Option<Id>): (r: Result<(Store, User)>)
    ensures r.Ok? <==>
      Truthy(email) && Truthy(password) && Truthy(displayName) && Truthy(photoURL) && Present(issued)
    ensures r.Err? ==>
      (r.error == MissingParams <==>
        !(Truthy(email) && Truthy(password) && Truthy(displayName) && Truthy(photoURL)))
    ensures r.Ok? ==>
      var (t, created) := r.value;
      && OnlyAt(s.users, t.users, issued.value)
      && t.users[issued.value] == created
      && created.firmID == None && created.firmRole == None
      && created.email == email && created.displayName == displayName
      && created.photoURL == photoURL && created.createdAt == now
      && t.firms == s.firms && t.workspaces == s.workspaces && t.projects == s.projects
  {
    if !Truthy(email) || !Truthy(password) || !Truthy(displayName) || !Truthy(photoURL) then
      Err(MissingParams)
    else if !Present(issued) then
      Err(Unknown)
    else
      var created := User(email, displayName, photoURL, None, None, now);
      Ok((s.(users := s.users[issued.value := created]), created))
  }

  /** The value a profile field takes under `update(keys)`: only the truthy
      inputs are among the keys. */
  function Updated(input: string, current: string): string {
    if Truthy(input) then input else current
  }

  /** updateUser: the caller must be signed in and name at least one truthy
      field among email, password, displayName and photoURL (else
      `missing-params`). The identity provider must accept the change
      (`accepted`). The password is then dropped from the keys and the rest
      is written with `update` into the caller's own document, which fails
      when that document does not exist or when no key is left (a
      password-only change). Membership fields are never written. */
  function UpdateUser(s: Store, caller: Option<Id>, email: string, password: string,
                      displayName: string, photoURL: string, accepted: bool): (r: Result<Store>)
    ensures r.Ok? <==>
      && SignedIn(caller)
      && accepted
      && (Truthy(email) || Truthy(displayName) || Truthy(photoURL))
      && caller.value in s.users
    ensures r.Err? ==>
      (r.error == MissingParams <==>
        !(SignedIn(caller) && (Truthy(email) || Truthy(password) || Truthy(displayName) || Truthy(photoURL))))
    ensures r.Ok? ==>
      var t := r.value;
      var before := s.users[caller.value];
      && OnlyAt(s.users, t.users, caller.value)
      && var after := t.users[caller.value];
      && after.firmID == before.firmID
      && after.firmRole == before.firmRole
      && after.createdAt == before.createdAt
      && (Truthy(email) ==> after.email == email)
      && (!Truthy(email) ==> after.email == before.email)
      && (Truthy(displayName) ==> after.displayName == displayName)
      && (!Truthy(displayName) ==> after.displayName == before.displayName)
      && (Truthy(photoURL) ==> after.photoURL == photoURL)
      && (!Truthy(photoURL) ==> after.photoURL == before.photoURL)
      && t.firms == s.firms && t.workspaces == s.workspaces && t.projects == s.projects
  {
    if !SignedIn(caller)
      || !(Truthy(email) || Truthy(password) || Truthy(displayName) || Truthy(photoURL)) then
      Err(MissingParams)
    else if !accepted then
      Err(Unknown)
    else if !(Truthy(email) || Truthy(displayName) || Truthy(photoURL)) then
      Err(Unknown)
    else if caller.value !in s.users then
      Err(Unknown)
    else
      var uid := caller.value;
      var before := s.users[uid];
      var after := before.(
        email := Updated(email, before.email),
        displayName := Updated(displayName, before.displayName),
        photoURL := Updated(photoURL, before.photoURL));
      Ok(s.(users := s.users[uid := after]))
  }
}
