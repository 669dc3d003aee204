/** The four document collections the handlers read and write, and the
    integrity rules of the tenancy model stated over them. */
module Documents {
  import opened Common

  /** `firmRole` values; `ADMIN` is the only role the handlers assign. */
  datatype Role = Admin

  /** A document of the `users` collection, keyed by the identity provider's uid. */
  datatype User = User(
    email: string,
    displayName: string,
    photoURL: string,
    firmID: Option<Id>,
    firmRole: Option<Role>,
    createdAt: int)

  /** A document of the `firms` collection. */
  datatype Firm = Firm(name: string, photoURL: string, createdBy: Id, createdAt: int)

  /** A document of the `workspaces` collection. `firmID` is nullable in the
      store even though every handler that writes it writes a non-empty id. */
  datatype Workspace = Workspace(
    name: string,
    description: string,
    photoURL: string,
    firmID: Option<Id>,
    createdBy: Id,
    createdAt: int)

  /** A document of the `projects` collection; `firmID` is copied from the
      owning workspace when the project is created. */
  datatype Project = Project(
    name: string,
    description: string,
    manager: string,
    startDate: string,
    firmID: Option<Id>,
    workspaceID: Id,
    createdBy: Id,
    createdAt: int)

  /** One snapshot of the document store. */
  datatype Store = Store(
    users: map<Id, User>,
    firms: map<Id, Firm>,
    workspaces: map<Id, Workspace>,
    projects: map<Id, Project>)

  const EmptyStore := Store(map[], map[], map[], map[])

  /** `auth && auth.uid`: the request carries a verified caller id. */
  predicate SignedIn(caller: Option<Id>) {
    Present(caller)
  }

  /** The fields `addToFirm` and `createFirm` write into a member's document. */
  function Attached(u: User, firmID: Id): User {
    u.(firmID := Some(firmID), firmRole := Some(Admin))
  }

  /** The fields `removeFromFirm` writes into a member's document. */
  function Detached(u: User): User {
    u.(firmID := None, firmRole := None)
  }

  /** `m2` is `m` with at most the document `k` written (created or replaced)
      and every other document left as it was. */
  predicate OnlyAt<V(==)>(m: map<Id, V>, m2: map<Id, V>, k: Id) {
    && m2.Keys == m.Keys + {k}
    && forall x :: x in m && x != k ==> m2[x] == m[x]
  }

  /** A nullable firm reference names an existing firm. */
  predicate NamesFirm(f: Option<Id>, firms: map<Id, Firm>) {
    f.Some? && f.value in firms
  }

  /** A user has a role exactly when it has a firm, and that firm exists. */
  predicate MemberConsistent(u: User, firms: map<Id, Firm>) {
    && (u.firmID.Some? <==> u.firmRole.Some?)
    && (u.firmID.Some? ==> NamesFirm(u.firmID, firms))
  }

  /** Every user's membership is consistent. */
  predicate MembershipConsistent(s: Store) {
    forall u :: u in s.users ==> MemberConsistent(s.users[u], s.firms)
  }

  /** Every workspace and every project is bound to an existing firm. */
  predicate BindingsResolve(s: Store) {
    && (forall w :: w in s.workspaces ==> NamesFirm(s.workspaces[w].firmID, s.firms))
    && (forall p :: p in s.projects ==> NamesFirm(s.projects[p].firmID, s.firms))
  }

  /** The store invariant every handler keeps. */
  predicate Valid(s: Store) {
    MembershipConsistent(s) && BindingsResolve(s)
  }

  /** The denormalized `firmID` of every project agrees with its workspace. */
  predicate ProjectsFollowWorkspaces(s: Store) {
    forall p :: p in s.projects && s.projects[p].workspaceID in s.workspaces ==>
      s.workspaces[s.projects[p].workspaceID].firmID == s.projects[p].firmID
  }

  /** No collection lost a document between `s` and `t`. */
  predicate Grows(s: Store, t: Store) {
    && s.users.Keys <= t.users.Keys
    && s.firms.Keys <= t.firms.Keys
    && s.workspaces.Keys <= t.workspaces.Keys
    && s.projects.Keys <= t.projects.Keys
  }
}
