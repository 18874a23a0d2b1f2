/**
 User, group and role rows plus the session cache, changed by one handler at a time. The id lists of a user row
 are kept as sets here: the handlers rewrite them in an arbitrary order.
 */
module AuthStore {
  import opened Wrappers
  import opened Authorization
  import opened UserAuthority
  import C = AesCodec

  type Password = seq<C.Byte>

  const ADMIN: string := "admin"

  /** "linkingthing.com" */
  const AES_KEY: seq<C.Byte> :=
    [0x6c, 0x69, 0x6e, 0x6b, 0x69, 0x6e, 0x67, 0x74, 0x68, 0x69, 0x6e, 0x67, 0x2e, 0x63, 0x6f, 0x6d]

  datatype UserRow = UserRow(password: string, super: bool, groupIds: set<string>, roleIds: set<string>)

  datatype Session = Session(super: bool, roleIds: set<string>, views: set<string>)

  datatype Store = Store(
    users: map<string, UserRow>, groups: GroupTable, roles: RoleTable, cache: map<string, Session>)

  datatype Step =
    | UserCreate(name: string, password: Password, groupIds: set<string>, roleIds: set<string>)
    | UserUpdate(caller: string, id: string, name: string, super: bool, groupIds: set<string>, roleIds: set<string>)
    | UserDelete(id: string)
    | Login(name: string, password: Password)
    | Logout(caller: string)
    | ChangePassword(caller: string, name: string, password: Password)
    | ResetPassword(caller: string, name: string, password: Password)
    | GroupCreate(id: string, groupRoles: seq<string>, userIds: set<string>)
    | GroupUpdate(id: string, groupRoles: seq<string>, userIds: set<string>)
    | GroupDelete(id: string)
    | RoleCreate(id: string, row: RoleRow)
    | RoleUpdate(id: string, row: RoleRow)
    | RoleDelete(id: string)

  /** A handler call; `commits` tells whether its transaction went through. */
  datatype Event = Event(step: Step, commits: bool)

  // ---------- the handlers ----------

  /** How stored passwords are written and compared. */
  datatype Vault = Vault(seal: Password -> string, matches: (string, Password) -> bool)

  /** A stored password matches exactly the password it was made from. */
  ghost predicate Faithful(vault: Vault) {
    forall p, q :: vault.matches(vault.seal(p), q) <==> p == q
  }

  /** The vault in use: encrypt with the fixed key, decrypt and compare. */
  function AesVault(aes: C.Family): Vault {
    Vault(p => Seal(aes, p), (text, q) => C.DecryptText(aes, AES_KEY, text) == Ok(q))
  }

  function Seal(aes: C.Family, password: Password): string {
    match C.EncryptText(aes, AES_KEY, password)
    case Ok(text) => text
    case _ => ""
  }

  /** The AES vault is faithful, because decryption undoes encryption. */
  lemma {:induction false} AesVaultIsFaithful(aes: C.Family)
    requires C.IsCipher(aes)
    ensures Faithful(AesVault(aes))
  {
    var vault := AesVault(aes);
    forall p, q ensures vault.matches(vault.seal(p), q) <==> p == q {
      C.DecryptUndoesEncrypt(aes, AES_KEY, p);
    }
  }

  predicate CheckPassword(vault: Vault, users: map<string, UserRow>, name: string, password: Password) {
    name in users && vault.matches(users[name].password, password)
  }

  /** The role ids after a reload. */
  function Reloaded(groups: GroupTable, super: bool, groupIds: set<string>, roleIds: set<string>): set<string> {
    if super then roleIds else roleIds + GroupRoles(groups, groupIds)
  }

  function NewSession(groups: GroupTable, roles: RoleTable, super: bool, groupIds: set<string>, roleIds: set<string>)
    : Session
  {
    var ids := Reloaded(groups, super, groupIds, roleIds);
    Session(super, ids, if super then {} else RoleViews(roles, ids))
  }

  /** A row read, given new group ids, reloaded and written back. */
  function Rebound(groups: GroupTable, row: UserRow, groupIds: set<string>): UserRow {
    row.(groupIds := groupIds, roleIds := Reloaded(groups, row.super, groupIds, row.roleIds))
  }

  function Joined(users: map<string, UserRow>, groups: GroupTable, g: string, userIds: set<string>)
    : map<string, UserRow>
  {
    map u | u in users ::
      if u in InList(userIds) then Rebound(groups, users[u], users[u].groupIds + {g}) else users[u]
  }

  function Left(users: map<string, UserRow>, groups: GroupTable, g: string): map<string, UserRow> {
    map u | u in users ::
      if g in users[u].groupIds then Rebound(groups, users[u], users[u].groupIds - {g}) else users[u]
  }

  function RoleRefreshed(users: map<string, UserRow>, groups: GroupTable, r: string): map<string, UserRow> {
    map u | u in users ::
      if r in users[u].roleIds then Rebound(groups, users[u], users[u].groupIds) else users[u]
  }

  predicate RoleInUse(users: map<string, UserRow>, r: string) {
    exists u :: u in users && r in users[u].roleIds
  }

  predicate MayChange(caller: string, name: string) {
    caller == ADMIN || caller == name
  }

  function WithPassword(users: map<string, UserRow>, name: string, sealed: string): map<string, UserRow> {
    if name in users then users[name := users[name].(password := sealed)] else users
  }

  function After(vault: Vault, s: Store, step: Step): Store {
    match step
    case UserCreate(name, password, groupIds, roleIds) =>
      if password == [] || name in s.users then s
      else s.(users := s.users[name := UserRow(vault.seal(password), false, groupIds, roleIds)],
              cache := s.cache[name := NewSession(s.groups, s.roles, false, groupIds, roleIds)])
    case UserUpdate(caller, id, name, super, groupIds, roleIds) =>
      if !MayChange(caller, id) then s
      else s.(users := if id in s.users then s.users[id := s.users[id].(groupIds := groupIds, roleIds := roleIds)]
                       else s.users,
              cache := s.cache[name := NewSession(s.groups, s.roles, super, groupIds, roleIds)])
    case UserDelete(id) =>
      if id == ADMIN then s else s.(users := s.users - {id}, cache := s.cache - {id})
    case Login(name, password) =>
      if !CheckPassword(vault, s.users, name, password) then s
      else
        var row := s.users[name];
        s.(cache := s.cache[name := NewSession(s.groups, s.roles, row.super, row.groupIds, row.roleIds)])
    case Logout(caller) => s.(cache := s.cache - {caller})
    case ChangePassword(caller, name, password) =>
      if !MayChange(caller, name) || password == [] then s
      else s.(users := WithPassword(s.users, name, vault.seal(password)))
    case ResetPassword(caller, name, password) =>
      if caller != ADMIN || password == [] then s
      else s.(users := WithPassword(s.users, name, vault.seal(password)))
    case GroupCreate(id, groupRoles, userIds) =>
      if id in s.groups then s
      else
        var groups := s.groups[id := groupRoles];
        s.(groups := groups, users := Joined(s.users, groups, id, userIds))
    case GroupUpdate(id, groupRoles, userIds) =>
      var groups := if id in s.groups then s.groups[id := groupRoles] else s.groups;
      s.(groups := groups, users := Joined(s.users, groups, id, userIds))
    case GroupDelete(id) =>
      if id !in s.groups then s
      else
        var groups := s.groups - {id};
        s.(groups := groups, users := Left(s.users, groups, id))
    case RoleCreate(id, row) =>
      if id in s.roles then s else s.(roles := s.roles[id := row])
    case RoleUpdate(id, row) =>
      var roles := if id in s.roles then s.roles[id := row] else s.roles;
      s.(roles := roles, users := RoleRefreshed(s.users, s.groups, id))
    case RoleDelete(id) =>
      if RoleInUse(s.users, id) then s else s.(roles := s.roles - {id})
  }

  /** A rolled-back transaction changes nothing; logging out needs none. */
  function Next(vault: Vault, s: Store, e: Event): Store {
    if e.commits || e.step.Logout? then After(vault, s, e.step) else s
  }

  function Run(vault: Vault, s: Store, events: seq<Event>): Store {
    if events == [] then s else Next(vault, Run(vault, s, events[..|events| - 1]), events[|events| - 1])
  }

  // ---------- passwords ----------

  /** The reference: a table of clear-text passwords kept by the same handlers. */
  function KnownAfter(known: map<string, Password>, e: Event): map<string, Password> {
    if !e.commits then known
    else
      match e.step
      case UserCreate(name, password, _, _) =>
        if password == [] || name in known then known else known[name := password]
      case UserDelete(id) => if id == ADMIN then known else known - {id}
      case ChangePassword(caller, name, password) =>
        if MayChange(caller, name) && password != [] && name in known then known[name := password] else known
      case ResetPassword(caller, name, password) =>
        if caller == ADMIN && password != [] && name in known then known[name := password] else known
      case _ => known
  }

  function Known(known: map<string, Password>, events: seq<Event>): map<string, Password> {
    if events == [] then known else KnownAfter(Known(known, events[..|events| - 1]), events[|events| - 1])
  }

  ghost predicate Sealed(vault: Vault, users: map<string, UserRow>, known: map<string, Password>) {
    users.Keys == known.Keys && forall u :: u in users ==> users[u].password == vault.seal(known[u])
  }

  predicate SamePasswords(before: map<string, UserRow>, after: map<string, UserRow>) {
    before.Keys == after.Keys && forall u :: u in before ==> after[u].password == before[u].password
  }

  lemma {:induction false} JoinKeepsPasswords(users: map<string, UserRow>, groups: GroupTable, g: string,
                                              ids: set<string>)
    ensures SamePasswords(users, Joined(users, groups, g, ids))
  {
  }

  lemma {:induction false} LeaveKeepsPasswords(users: map<string, UserRow>, groups: GroupTable, g: string)
    ensures SamePasswords(users, Left(users, groups, g))
  {
  }

  lemma {:induction false} RefreshKeepsPasswords(users: map<string, UserRow>, groups: GroupTable, r: string)
    ensures SamePasswords(users, RoleRefreshed(users, groups, r))
  {
  }

  lemma {:induction false} GroupStepKeepsPasswords(vault: Vault, s: Store, step: Step)
    requires GroupOrRoleStep(step)
    ensures SamePasswords(s.users, After(vault, s, step).users)
  {
    var groups := After(vault, s, step).groups;
    match step
    case GroupCreate(id, _, userIds) => JoinKeepsPasswords(s.users, groups, id, userIds);
    case GroupUpdate(id, _, userIds) => JoinKeepsPasswords(s.users, groups, id, userIds);
    case GroupDelete(id) => LeaveKeepsPasswords(s.users, groups, id);
    case RoleUpdate(id, _) => RefreshKeepsPasswords(s.users, groups, id);
    case _ =>
  }

  lemma {:induction false} NewPasswordKeepsSealed(vault: Vault, users: map<string, UserRow>,
                                                  known: map<string, Password>, name: string, password: Password)
    requires Sealed(vault, users, known)
    ensures Sealed(vault, WithPassword(users, name, vault.seal(password)),
                   if name in known then known[name := password] else known)
  {
  }

  lemma {:induction false} StepKeepsSealed(vault: Vault, s: Store, known: map<string, Password>, e: Event)
    requires Sealed(vault, s.users, known)
    ensures Sealed(vault, Next(vault, s, e).users, KnownAfter(known, e))
  {
    if GroupOrRoleStep(e.step) {
      GroupStepKeepsPasswords(vault, s, e.step);
    } else if e.step.ChangePassword? || e.step.ResetPassword? {
      NewPasswordKeepsSealed(vault, s.users, known, e.step.name, e.step.password);
    } else {
      UserStepKeepsSealed(vault, s, known, e);
    }
  }

  lemma {:induction false} UserStepKeepsSealed(vault: Vault, s: Store, known: map<string, Password>, e: Event)
    requires Sealed(vault, s.users, known)
    requires e.step.UserCreate? || e.step.UserUpdate? || e.step.UserDelete? || e.step.Login? || e.step.Logout?
    ensures Sealed(vault, Next(vault, s, e).users, KnownAfter(known, e))
  {
  }

  lemma {:induction false} RunKeepsSealed(vault: Vault, s: Store, known: map<string, Password>, events: seq<Event>)
    requires Sealed(vault, s.users, known)
    ensures Sealed(vault, Run(vault, s, events).users, Known(known, events))
    decreases |events|
  {
    if events == [] {
    } else {
      var init := events[..|events| - 1];
      RunKeepsSealed(vault, s, known, init);
      StepKeepsSealed(vault, Run(vault, s, init), Known(known, init), events[|events| - 1]);
    }
  }

  /**
   After any run a password check succeeds exactly for an existing user and the password most recently set for
   it: the encrypted rows behave like a clear-text table.
   */
  lemma {:induction false} PasswordCheckIsLastSet(vault: Vault, s: Store, known: map<string, Password>,
                                                  events: seq<Event>, name: string, q: Password)
    requires Faithful(vault) && Sealed(vault, s.users, known)
    ensures CheckPassword(vault, Run(vault, s, events).users, name, q)
       <==> name in Known(known, events) && Known(known, events)[name] == q
  {
    RunKeepsSealed(vault, s, known, events);
  }

  /** "admin", also the administrator's first password */
  const ADMIN_PASSWORD: Password := [0x61, 0x64, 0x6d, 0x69, 0x6e]

  /** Start-up loads every stored user into the cache and adds the administrator when it is missing. */
  function StartUp(vault: Vault, users: map<string, UserRow>, groups: GroupTable, roles: RoleTable): Store {
    var s := Store(users, groups, roles, map[]);
    WithAdmin(vault, s.(cache := Loaded(s)))
  }

  function Loaded(s: Store): map<string, Session> {
    map u | u in s.users :: NewSession(s.groups, s.roles, s.users[u].super, s.users[u].groupIds, s.users[u].roleIds)
  }

  function WithAdmin(vault: Vault, s: Store): Store {
    if ADMIN in s.users then s
    else s.(users := s.users[ADMIN := UserRow(vault.seal(ADMIN_PASSWORD), true, {}, {})],
            cache := s.cache[ADMIN := Session(true, {}, {})])
  }

  /** After start-up every user has a session, and a missing administrator got its default password. */
  lemma {:induction false} StartUpIsSealed(vault: Vault, users: map<string, UserRow>, groups: GroupTable,
                                           roles: RoleTable, known: map<string, Password>)
    requires Sealed(vault, users, known)
    ensures var s := StartUp(vault, users, groups, roles);
      && s.cache.Keys == s.users.Keys && ADMIN in s.users
      && Sealed(vault, s.users, if ADMIN in known then known else known[ADMIN := ADMIN_PASSWORD])
  {
    var s := StartUp(vault, users, groups, roles);
    assert s.cache.Keys == s.users.Keys;
  }

  /** The fixed key and the first password are the bytes of these texts. */
  lemma {:induction false} FixedTexts()
    ensures |AES_KEY| == |"linkingthing.com"| && |ADMIN_PASSWORD| == |"admin"|
    ensures forall k :: 0 <= k < |AES_KEY| ==> AES_KEY[k] as int == "linkingthing.com"[k] as int
    ensures forall k :: 0 <= k < |ADMIN_PASSWORD| ==> ADMIN_PASSWORD[k] as int == "admin"[k] as int
  {
  }

  // ---------- sessions ----------

  predicate Opens(known: map<string, Password>, e: Event, name: string) {
    e.commits &&
    match e.step
    case UserCreate(n, password, _, _) => n == name && password != [] && n !in known
    case UserUpdate(caller, id, n, _, _, _) => n == name && MayChange(caller, id)
    case Login(n, password) => n == name && n in known && known[n] == password
    case _ => false
  }

  predicate Closes(e: Event, name: string) {
    match e.step
    case UserDelete(id) => e.commits && id == name && id != ADMIN
    case Logout(caller) => caller == name
    case _ => false
  }

  datatype Latest = NoEvent | Opened | Closed

  /** The latest session event for `name` in a run. */
  function LatestEvent(known: map<string, Password>, events: seq<Event>, name: string): Latest {
    if events == [] then NoEvent
    else
      var init, last := events[..|events| - 1], events[|events| - 1];
      if Opens(Known(known, init), last, name) then Opened
      else if Closes(last, name) then Closed
      else LatestEvent(known, init, name)
  }

  lemma {:induction false} GroupStepKeepsCache(vault: Vault, s: Store, e: Event)
    requires GroupOrRoleStep(e.step)
    ensures Next(vault, s, e).cache == s.cache
  {
    hide Joined, Left, RoleRefreshed, RoleInUse;
  }

  lemma {:induction false} StepAndSessions(vault: Vault, s: Store, known: map<string, Password>, e: Event, name: string)
    requires Faithful(vault) && Sealed(vault, s.users, known)
    ensures name in Next(vault, s, e).cache
       <==> Opens(known, e, name) || (!Closes(e, name) && name in s.cache)
  {
    if GroupOrRoleStep(e.step) {
      GroupStepKeepsCache(vault, s, e);
    } else {
      UserStepAndSessions(vault, s, known, e, name);
    }
  }

  lemma {:induction false} UserStepAndSessions(vault: Vault, s: Store, known: map<string, Password>, e: Event,
                                               name: string)
    requires Faithful(vault) && Sealed(vault, s.users, known) && !GroupOrRoleStep(e.step)
    ensures name in Next(vault, s, e).cache
       <==> Opens(known, e, name) || (!Closes(e, name) && name in s.cache)
  {
    hide NewSession;
  }

  /**
   A user has a session exactly when its latest session event is a login, create or update, or there has been
   none and the start-up load opened one.
   */
  lemma {:induction false} SessionIffLatestOpened(vault: Vault, s: Store, known: map<string, Password>,
                                                  events: seq<Event>, name: string)
    requires Faithful(vault) && Sealed(vault, s.users, known)
    ensures name in Run(vault, s, events).cache <==>
      match LatestEvent(known, events, name)
      case NoEvent => name in s.cache
      case Opened => true
      case Closed => false
    decreases |events|
  {
    if events == [] {
    } else {
      var init := events[..|events| - 1];
      SessionIffLatestOpened(vault, s, known, init, name);
      RunKeepsSealed(vault, s, known, init);
      StepAndSessions(vault, Run(vault, s, init), Known(known, init), events[|events| - 1], name);
    }
  }

  /** The admission of a request: a session, and for anyone but the administrator the authority check. */
  predicate Admits(t: Template, s: Store, name: string, req: Request) {
    name in s.cache && (name == ADMIN || (!s.cache[name].super && Rule(t, s.cache[name].views, req)))
  }

  /** Without a session nobody is admitted, whatever token the request carries. */
  lemma {:induction false} NoSessionNoAdmission(t: Template, s: Store, name: string, req: Request)
    requires name !in s.cache
    ensures !Admits(t, s, name, req)
  {
  }

  /** With one the administrator always is, another SUPER user never, and a NORMAL user by its views. */
  lemma {:induction false} AdmissionBySession(t: Template, s: Store, name: string, req: Request)
    requires name in s.cache
    ensures name == "admin" ==> Admits(t, s, name, req)
    ensures name != "admin" && s.cache[name].super ==> !Admits(t, s, name, req)
    ensures name != "admin" && !s.cache[name].super ==>
      (Admits(t, s, name, req) <==> Rule(t, s.cache[name].views, req))
  {
  }

  /** Over every run a request is admitted only if the latest session event of its user opened a session. */
  lemma {:induction false} AdmittedOnlyWhileOpen(vault: Vault, t: Template, s: Store, known: map<string, Password>,
                                                 events: seq<Event>, name: string, req: Request)
    requires Faithful(vault) && Sealed(vault, s.users, known) && Admits(t, Run(vault, s, events), name, req)
    ensures match LatestEvent(known, events, name)
      case NoEvent => name in s.cache
      case Opened => true
      case Closed => false
  {
    SessionIffLatestOpened(vault, s, known, events, name);
  }

  predicate NamesSession(step: Step, name: string) {
    match step
    case UserCreate(n, _, _, _) => n == name
    case UserUpdate(_, _, n, _, _, _) => n == name
    case Login(n, _) => n == name
    case _ => false
  }

  lemma {:induction false} StaysOut(vault: Vault, s: Store, events: seq<Event>, name: string)
    requires name !in s.cache && forall e :: e in events ==> !NamesSession(e.step, name)
    ensures name !in Run(vault, s, events).cache
    decreases |events|
  {
    if events == [] {
    } else {
      var init, last := events[..|events| - 1], events[|events| - 1];
      assert last in events;
      StaysOut(vault, s, init, name);
      StepStaysOut(vault, Run(vault, s, init), last, name);
    }
  }

  lemma {:induction false} StepStaysOut(vault: Vault, s: Store, e: Event, name: string)
    requires name !in s.cache && !NamesSession(e.step, name)
    ensures name !in Next(vault, s, e).cache
  {
    hide NewSession;
    if GroupOrRoleStep(e.step) {
      GroupStepKeepsCache(vault, s, e);
    }
  }

  /** After a logout no request of that user is admitted until it logs in or is created or updated again. */
  lemma {:induction false} LoggedOutIsRefused(vault: Vault, t: Template, s: Store, events: seq<Event>, name: string,
                                              req: Request)
    requires forall e :: e in events ==> !NamesSession(e.step, name)
    ensures !Admits(t, Run(vault, After(vault, s, Logout(name)), events), name, req)
  {
    StaysOut(vault, After(vault, s, Logout(name)), events, name);
  }

  predicate GroupOrRoleStep(step: Step) {
    step.GroupCreate? || step.GroupUpdate? || step.GroupDelete?
    || step.RoleCreate? || step.RoleUpdate? || step.RoleDelete?
  }

  /** Group and role changes never reach an open session: its decisions stay as they were. */
  lemma {:induction false} SessionsIgnoreGroupsAndRoles(vault: Vault, t: Template, s: Store, events: seq<Event>,
                                                        name: string, req: Request)
    requires forall e :: e in events ==> GroupOrRoleStep(e.step)
    ensures Run(vault, s, events).cache == s.cache
    ensures Admits(t, Run(vault, s, events), name, req) <==> Admits(t, s, name, req)
    decreases |events|
  {
    if events == [] {
    } else {
      var init := events[..|events| - 1];
      assert events[|events| - 1] in events;
      SessionsIgnoreGroupsAndRoles(vault, t, s, init, name, req);
    }
  }

  /** The views of a user's direct roles and of its groups' roles, as they are stored. */
  function StoredViews(s: Store, name: string): set<string>
    requires name in s.users
  {
    var row := s.users[name];
    RoleViews(s.roles, row.roleIds) + RoleViews(s.roles, GroupRoles(s.groups, row.groupIds))
  }

  lemma {:induction false} FreshSessionViews(s: Store, name: string)
    requires name in s.users
    ensures var row := s.users[name];
      NewSession(s.groups, s.roles, false, row.groupIds, row.roleIds).views == StoredViews(s, name)
  {
  }

  /** After a login every request is decided by the views stored now. */
  lemma {:induction false} LoginRefreshesAuthority(vault: Vault, t: Template, s: Store, name: string, q: Password,
                                                   req: Request)
    requires CheckPassword(vault, s.users, name, q) && name != ADMIN && !s.users[name].super
    ensures Admits(t, After(vault, s, Login(name, q)), name, req) <==> Rule(t, StoredViews(s, name), req)
  {
    FreshSessionViews(s, name);
  }

  /** On a filtered DNS resource: GET only without a view, else everything at, below or without one of the views. */
  lemma {:induction false} LoginDnsRule(vault: Vault, t: Template, s: Store, name: string, q: Password, req: Request)
    requires CheckPassword(vault, s.users, name, q) && name != ADMIN && !s.users[name].super
    requires LastOf(t.dhcp, req.resourceType).None?
    requires LastOf(t.dns, req.resourceType).Some? && LastOf(t.dns, req.resourceType).value.filter
    ensures Admits(t, After(vault, s, Login(name, q)), name, req) <==>
      var v := StoredViews(s, name);
      || (v == {} && req.verb == "GET")
      || (v != {} && AnyOperation(req.verb)
          && (req.id == "" || req.id in v || exists a :: a in req.ancestors && a in v))
  {
    LoginRefreshesAuthority(vault, t, s, name, q, req);
    FilteredDnsRule(t, StoredViews(s, name), req);
  }

  /** The session of a NORMAL user that a login now would leave as it is. */
  predicate UpToDate(s: Store, name: string) {
    && name in s.users && name in s.cache && name != ADMIN && !s.users[name].super
    && s.cache[name] == NewSession(s.groups, s.roles, false, s.users[name].groupIds, s.users[name].roleIds)
  }

  /** The open session decides every request as it would after a login with password `q` now. */
  ghost predicate DecidesLikeALogin(vault: Vault, t: Template, s: Store, name: string, q: Password) {
    forall req :: Admits(t, s, name, req) <==> Admits(t, After(vault, s, Login(name, q)), name, req)
  }

  lemma {:induction false} GroupStepKeepsAccount(vault: Vault, s: Store, e: Event, u: string)
    requires u in s.users && GroupOrRoleStep(e.step)
    ensures var t := Next(vault, s, e);
      && u in t.users && t.users[u].password == s.users[u].password && t.users[u].super == s.users[u].super
      && s.users[u].roleIds <= t.users[u].roleIds
  {
    hide Rebound, InList;
    var row, t := s.users[u], Next(vault, s, e);
    match e.step
    case GroupCreate(id, _, _) => ReboundKeeps(t.groups, row, row.groupIds + {id});
    case GroupUpdate(id, _, _) => ReboundKeeps(t.groups, row, row.groupIds + {id});
    case GroupDelete(id) => ReboundKeeps(t.groups, row, row.groupIds - {id});
    case _ => ReboundKeeps(t.groups, row, row.groupIds);
  }

  lemma {:induction false} ReboundKeeps(groups: GroupTable, row: UserRow, groupIds: set<string>)
    ensures var r := Rebound(groups, row, groupIds);
      r.password == row.password && r.super == row.super && row.roleIds <= r.roleIds
  {
  }

  lemma {:induction false} GroupRunKeepsAccount(vault: Vault, s: Store, events: seq<Event>, u: string)
    requires u in s.users && forall e :: e in events ==> GroupOrRoleStep(e.step)
    ensures var t := Run(vault, s, events);
      u in t.users && t.users[u].password == s.users[u].password && t.users[u].super == s.users[u].super
    decreases |events|
  {
    if events == [] {
    } else {
      var init := events[..|events| - 1];
      assert events[|events| - 1] in events;
      GroupRunKeepsAccount(vault, s, init, u);
      GroupStepKeepsAccount(vault, Run(vault, s, init), events[|events| - 1], u);
    }
  }

  /**
   The exact condition under which an open session is still right after a run of group and role changes: the views
   stored for the user are the ones it was made from, unless the template has no entry that looks at views.
   */
  lemma {:induction false} SessionStaysRightIff(vault: Vault, t: Template, s: Store, events: seq<Event>,
                                                name: string, q: Password)
    requires UpToDate(s, name) && CheckPassword(vault, s.users, name, q)
    requires forall e :: e in events ==> GroupOrRoleStep(e.step)
    ensures var n := Run(vault, s, events);
      && name in n.users && CheckPassword(vault, n.users, name, q)
      && (DecidesLikeALogin(vault, t, n, name, q)
          <==> StoredViews(n, name) == StoredViews(s, name) || forall r :: !LooksAtViews(t, r))
  {
    var n := Run(vault, s, events);
    GroupRunKeepsAccount(vault, s, events, name);
    FreshSessionViews(s, name);
    forall req
      ensures Admits(t, n, name, req) <==> Rule(t, StoredViews(s, name), req)
      ensures Admits(t, After(vault, n, Login(name, q)), name, req) <==> Rule(t, StoredViews(n, name), req)
    {
      SessionsIgnoreGroupsAndRoles(vault, t, s, events, name, req);
      LoginRefreshesAuthority(vault, t, n, name, q, req);
    }
    assert DecidesLikeALogin(vault, t, n, name, q) <==> DecideAlike(t, StoredViews(s, name), StoredViews(n, name));
    DecideAlikeIff(t, StoredViews(s, name), StoredViews(n, name));
  }

  lemma {:induction false} RoleUpdateViews(vault: Vault, s: Store, r: string, row: RoleRow, name: string)
    requires UpToDate(s, name) && r in s.roles
    ensures var n := After(vault, s, RoleUpdate(r, row));
      name in n.users && StoredViews(n, name) == RoleViews(s.roles[r := row], s.cache[name].roleIds)
  {
    var n := After(vault, s, RoleUpdate(r, row));
    var own := s.users[name];
    assert n.users[name].roleIds + GroupRoles(s.groups, own.groupIds) == s.cache[name].roleIds;
  }

  lemma {:induction false} RunOfOne(vault: Vault, s: Store, e: Event)
    ensures Run(vault, s, [e]) == Next(vault, s, e)
  {
    assert [e][..0] == [] && Run(vault, s, []) == s;
  }

  /** For a role update the condition can be read off before the call: the session's roles yield the same views. */
  lemma {:induction false} RoleUpdateKeepsSessionRightIff(vault: Vault, t: Template, s: Store, r: string,
                                                          row: RoleRow, name: string, q: Password)
    requires UpToDate(s, name) && CheckPassword(vault, s.users, name, q) && r in s.roles
    ensures DecidesLikeALogin(vault, t, After(vault, s, RoleUpdate(r, row)), name, q)
       <==> || RoleViews(s.roles[r := row], s.cache[name].roleIds) == s.cache[name].views
            || forall entry :: !LooksAtViews(t, entry)
  {
    var e := Event(RoleUpdate(r, row), true);
    RunOfOne(vault, s, e);
    SessionStaysRightIff(vault, t, s, [e], name, q);
    RoleUpdateViews(vault, s, r, row, name);
    FreshSessionViews(s, name);
  }

  /** A new role with view "v", a user who has it, and an update that empties the role. */
  lemma {:induction false} EmptiedRole(vault: Vault, password: Password) returns (s: Store, n: Store)
    requires password != []
    ensures var s1 := After(vault, Store(map[], map[], map[], map[]), RoleCreate("r", RoleRow(["v"], [])));
      && s == After(vault, s1, UserCreate("u", password, {}, {"r"}))
      && n == After(vault, s, RoleUpdate("r", RoleRow([], [])))
    ensures UpToDate(s, "u") && n.cache == s.cache && s.cache["u"].views == {"v"}
    ensures "u" in n.users && StoredViews(n, "u") == {}
  {
    var s1 := After(vault, Store(map[], map[], map[], map[]), RoleCreate("r", RoleRow(["v"], [])));
    s := After(vault, s1, UserCreate("u", password, {}, {"r"}));
    n := After(vault, s, RoleUpdate("r", RoleRow([], [])));
    assert s.users["u"].groupIds == {} && s.users["u"].roleIds == {"r"} && s.roles == map["r" := RoleRow(["v"], [])];
    OneRoleViews(s.groups, s.roles["r"]);
    OneRoleViews(n.groups, n.roles["r"]);
    RoleUpdateViews(vault, s, "r", RoleRow([], []), "u");
  }

  lemma {:induction false} OneRoleViews(groups: GroupTable, row: RoleRow)
    requires groups == map[]
    ensures NewSession(groups, map["r" := row], false, {}, {"r"}) == Session(false, {"r"}, Elements(row.views))
  {
    var roles := map["r" := row];
    assert GroupRoles(groups, {}) == {};
    forall v ensures v in RoleViews(roles, {"r"}) <==> v in Elements(row.views) {
      assert v in row.views ==> "r" in {"r"} && "r" in roles && v in roles["r"].views;
    }
  }

  /** A role loses its only view; the user that had it may still write to that view, and not after a login. */
  lemma {:induction false} SessionCanBeStale(vault: Vault, password: Password) returns (s: Store, n: Store)
    requires password != []
    ensures var s1 := After(vault, Store(map[], map[], map[], map[]), RoleCreate("r", RoleRow(["v"], [])));
      && s == After(vault, s1, UserCreate("u", password, {}, {"r"}))
      && n == After(vault, s, RoleUpdate("r", RoleRow([], [])))
      && UpToDate(s, "u") && "u" in n.users
    ensures var t := Template([], [RoleAuthority("rr", [], [], true, ["GET"])], []);
      var req := Request("rr", "x", ["v"], "PUT");
      Admits(t, n, "u", req) && !Rule(t, StoredViews(n, "u"), req)
  {
    s, n := EmptiedRole(vault, password);
    var t := Template([], [RoleAuthority("rr", [], [], true, ["GET"])], []);
    var req := Request("rr", "x", ["v"], "PUT");
    assert LastOf(t.dns, "rr") == Some(t.dns[0]);
    FilteredDnsRule(t, {"v"}, req);
    FilteredDnsRule(t, {}, req);
  }

  // ---------- what each user step writes ----------

  /** An empty id list in a query stands for the empty id. */
  predicate Listed(ids: set<string>, id: string) {
    id in ids || (ids == {} && id == "")
  }

  /** A row of a stored group that is listed in `ids` names `r`. */
  predicate GroupGrants(groups: GroupTable, ids: set<string>, r: string) {
    exists g :: g in groups && Listed(ids, g) && r in groups[g]
  }

  lemma {:induction false} GroupRolesIff(groups: GroupTable, ids: set<string>, r: string)
    ensures r in GroupRoles(groups, ids) <==> GroupGrants(groups, ids, r)
  {
  }

  /**
   What a session made for those flags and ids holds: the ids, for a NORMAL user with those of its groups, and all
   views of the stored roles among them; nothing but the ids for a SUPER user.
   */
  ghost predicate SessionFor(s: Store, session: Session, super: bool, groupIds: set<string>, roleIds: set<string>) {
    && session.super == super
    && (forall r :: r in session.roleIds <==> r in roleIds || (!super && GroupGrants(s.groups, groupIds, r)))
    && (forall v :: v in session.views <==>
         !super && exists r :: r in session.roleIds && r in s.roles && v in s.roles[r].views)
  }

  lemma {:induction false} NewSessionIsFor(s: Store, super: bool, groupIds: set<string>, roleIds: set<string>)
    ensures SessionFor(s, NewSession(s.groups, s.roles, super, groupIds, roleIds), super, groupIds, roleIds)
  {
    forall r ensures r in GroupRoles(s.groups, groupIds) <==> GroupGrants(s.groups, groupIds, r) {
      GroupRolesIff(s.groups, groupIds, r);
    }
    hide GroupRoles, GroupGrants;
  }

  /** All but the sessions and rows of one user, and the groups and roles, are the same in both. */
  ghost predicate OnlyUser(s: Store, t: Store, row: string, session: string) {
    && t.groups == s.groups && t.roles == s.roles
    && (forall u :: u != row ==> (u in t.users <==> u in s.users))
    && (forall u :: u != row && u in s.users ==> t.users[u] == s.users[u])
    && (forall n :: n != session ==> (n in t.cache <==> n in s.cache))
    && (forall n :: n != session && n in s.cache ==> t.cache[n] == s.cache[n])
  }

  /** A new user is NORMAL, has exactly the requested ids and the sealed password, and a session for them. */
  lemma {:induction false} CreatedUser(vault: Vault, s: Store, name: string, password: Password,
                                       groupIds: set<string>, roleIds: set<string>)
    ensures var t := After(vault, s, UserCreate(name, password, groupIds, roleIds));
      if |password| == 0 || name in s.users then t == s
      else
        && OnlyUser(s, t, name, name) && name in t.users && name in t.cache
        && t.users[name].password == vault.seal(password) && !t.users[name].super
        && t.users[name].groupIds == groupIds && t.users[name].roleIds == roleIds
        && SessionFor(s, t.cache[name], false, groupIds, roleIds)
  {
    NewSessionIsFor(s, false, groupIds, roleIds);
    hide NewSession, SessionFor;
  }

  /**
   An update by the administrator or the user itself leaves the stored row with exactly the requested ids, its
   password and kind, and opens a session for the request under the requested name; any other caller changes nothing.
   */
  lemma {:induction false} UpdatedUser(vault: Vault, s: Store, caller: string, id: string, name: string, super: bool,
                                       groupIds: set<string>, roleIds: set<string>)
    ensures var t := After(vault, s, UserUpdate(caller, id, name, super, groupIds, roleIds));
      if caller != "admin" && caller != id then t == s
      else
        && OnlyUser(s, t, id, name) && name in t.cache
        && SessionFor(s, t.cache[name], super, groupIds, roleIds)
        && (id in t.users <==> id in s.users)
        && (id in s.users ==>
             && t.users[id].groupIds == groupIds && t.users[id].roleIds == roleIds
             && t.users[id].password == s.users[id].password && t.users[id].super == s.users[id].super)
  {
    NewSessionIsFor(s, super, groupIds, roleIds);
    hide NewSession, SessionFor;
  }

  /** Anyone but the administrator can be deleted, with the session. */
  lemma {:induction false} DeletedUser(vault: Vault, s: Store, id: string)
    ensures var t := After(vault, s, UserDelete(id));
      if id == "admin" then t == s
      else OnlyUser(s, t, id, id) && id !in t.users && id !in t.cache
  {
  }

  /** A login opens a session for the stored row exactly on the right password; a logout drops the caller's. */
  lemma {:induction false} LoginAndLogout(vault: Vault, s: Store, name: string, password: Password)
    ensures var t := After(vault, s, Login(name, password));
      if name !in s.users || !vault.matches(s.users[name].password, password) then t == s
      else
        var row := s.users[name];
        && t.users == s.users && OnlyUser(s, t, name, name) && name in t.cache
        && SessionFor(s, t.cache[name], row.super, row.groupIds, row.roleIds)
    ensures var t := After(vault, s, Logout(name));
      t.users == s.users && OnlyUser(s, t, name, name) && name !in t.cache
  {
    if name in s.users {
      var row := s.users[name];
      NewSessionIsFor(s, row.super, row.groupIds, row.roleIds);
    }
    hide NewSession, SessionFor;
  }

  /** A non-empty password is stored by its owner or the administrator, a reset by the administrator only. */
  lemma {:induction false} StoredPassword(vault: Vault, s: Store, caller: string, name: string, password: Password)
    requires name in s.users
    ensures var sealed := s.(users := s.users[name := s.users[name].(password := vault.seal(password))]);
      && After(vault, s, ChangePassword(caller, name, password))
         == (if |password| > 0 && (caller == "admin" || caller == name) then sealed else s)
      && After(vault, s, ResetPassword(caller, name, password))
         == (if |password| > 0 && caller == "admin" then sealed else s)
  {
  }

  /** Start-up reloads every stored user: each has a session for its row, and the stored tables are kept. */
  lemma {:induction false} StartUpSessions(vault: Vault, users: map<string, UserRow>, groups: GroupTable,
                                           roles: RoleTable, u: string)
    ensures var s := StartUp(vault, users, groups, roles);
      && s.groups == groups && s.roles == roles
      && s.users.Keys == users.Keys + {"admin"}
      && (u in users ==>
           && s.users[u] == users[u] && u in s.cache
           && SessionFor(s, s.cache[u], users[u].super, users[u].groupIds, users[u].roleIds))
      && ("admin" !in users ==>
           && s.users["admin"] == UserRow(vault.seal(ADMIN_PASSWORD), true, {}, {})
           && "admin" in s.cache && SessionFor(s, s.cache["admin"], true, {}, {}))
  {
    var s := StartUp(vault, users, groups, roles);
    if u in users {
      NewSessionIsFor(s, users[u].super, users[u].groupIds, users[u].roleIds);
    }
  }

  // ---------- groups and roles ----------

  predicate GroupListed(users: map<string, UserRow>, g: string) {
    exists u :: u in users && g in users[u].groupIds
  }

  predicate NamesGroup(step: Step, g: string) {
    match step
    case UserCreate(_, _, groupIds, _) => g in groupIds
    case UserUpdate(_, _, _, _, groupIds, _) => g in groupIds
    case GroupCreate(id, _, _) => id == g
    case GroupUpdate(id, _, _) => id == g
    case _ => false
  }

  lemma {:induction false} GroupStepKeepsUnlisted(vault: Vault, s: Store, step: Step, g: string)
    requires !GroupListed(s.users, g) && !NamesGroup(step, g) && GroupOrRoleStep(step)
    ensures !GroupListed(After(vault, s, step).users, g)
  {
    var t := After(vault, s, step);
    forall u | u in t.users ensures g !in t.users[u].groupIds {
      assert g !in s.users[u].groupIds;
    }
  }

  lemma {:induction false} StepKeepsUnlisted(vault: Vault, s: Store, e: Event, g: string)
    requires !GroupListed(s.users, g) && !NamesGroup(e.step, g)
    ensures !GroupListed(Next(vault, s, e).users, g)
  {
    if GroupOrRoleStep(e.step) {
      GroupStepKeepsUnlisted(vault, s, e.step, g);
    } else {
      UserStepKeepsUnlisted(vault, s, e, g);
    }
  }

  lemma {:induction false} UserStepKeepsUnlisted(vault: Vault, s: Store, e: Event, g: string)
    requires !GroupListed(s.users, g) && !NamesGroup(e.step, g) && !GroupOrRoleStep(e.step)
    ensures !GroupListed(Next(vault, s, e).users, g)
  {
    var t := Next(vault, s, e);
    forall u | u in t.users ensures g !in t.users[u].groupIds {
    }
  }

  lemma {:induction false} UnlistedStays(vault: Vault, s: Store, events: seq<Event>, g: string)
    requires !GroupListed(s.users, g) && forall e :: e in events ==> !NamesGroup(e.step, g)
    ensures !GroupListed(Run(vault, s, events).users, g)
    decreases |events|
  {
    if events == [] {
    } else {
      var init := events[..|events| - 1];
      assert events[|events| - 1] in events;
      UnlistedStays(vault, s, init, g);
      StepKeepsUnlisted(vault, Run(vault, s, init), events[|events| - 1], g);
    }
  }

  /** Once a group is deleted no user row lists it, now or after any run that does not name it again. */
  lemma {:induction false} DeletedGroupStaysUnlisted(vault: Vault, s: Store, g: string, events: seq<Event>)
    requires g in s.groups && forall e :: e in events ==> !NamesGroup(e.step, g)
    ensures var t := After(vault, s, GroupDelete(g));
      && g !in t.groups && t.users.Keys == s.users.Keys
      && !GroupListed(Run(vault, t, events).users, g)
  {
    var t := After(vault, s, GroupDelete(g));
    forall u | u in t.users ensures g !in t.users[u].groupIds {
    }
    UnlistedStays(vault, t, events, g);
  }

  // ---------- which rows a group or role step rewrites ----------

  /** A row given the group ids `ids`: a NORMAL user keeps its roles and gains those of these groups. */
  ghost predicate Reread(groups: GroupTable, before: UserRow, after: UserRow, ids: set<string>) {
    && after.password == before.password && after.super == before.super && after.groupIds == ids
    && (forall r :: r in after.roleIds <==> r in before.roleIds || (!before.super && GroupGrants(groups, ids, r)))
  }

  lemma {:induction false} ReboundIsReread(groups: GroupTable, row: UserRow, ids: set<string>)
    ensures Reread(groups, row, Rebound(groups, row, ids), ids)
  {
    forall r ensures r in GroupRoles(groups, ids) <==> GroupGrants(groups, ids, r) {
      GroupRolesIff(groups, ids, r);
    }
    hide GroupRoles, GroupGrants;
  }

  /**
   Saving a group stores its roles and rewrites exactly the rows of the listed users: each joins the group and, unless
   SUPER, gains the roles of all its groups. Every other row is left alone.
   */
  lemma {:induction false} SavedGroupRows(vault: Vault, s: Store, step: Step, u: string)
    requires (step.GroupCreate? && step.id !in s.groups) || step.GroupUpdate?
    requires u in s.users
    ensures var t := After(vault, s, step);
      && t.users.Keys == s.users.Keys && t.roles == s.roles && t.cache == s.cache
      && t.groups.Keys == (if step.GroupCreate? then s.groups.Keys + {step.id} else s.groups.Keys)
      && (step.id in t.groups ==> t.groups[step.id] == step.groupRoles)
      && (forall g :: g in s.groups && g != step.id ==> t.groups[g] == s.groups[g])
      && if Listed(step.userIds, u) then Reread(t.groups, s.users[u], t.users[u], s.users[u].groupIds + {step.id})
         else t.users[u] == s.users[u]
  {
    ReboundIsReread(After(vault, s, step).groups, s.users[u], s.users[u].groupIds + {step.id});
    hide Rebound, Reread;
  }

  /** A taken id leaves everything as it is. */
  lemma {:induction false} TakenIdIsRefused(vault: Vault, s: Store, id: string, groupRoles: seq<string>,
                                            userIds: set<string>, row: RoleRow)
    ensures id in s.groups ==> After(vault, s, GroupCreate(id, groupRoles, userIds)) == s
    ensures id in s.roles ==> After(vault, s, RoleCreate(id, row)) == s
  {
  }

  /** Deleting a stored group takes it out of exactly the rows that list it; the others are left alone. */
  lemma {:induction false} DeletedGroupRows(vault: Vault, s: Store, g: string, u: string)
    requires g in s.groups && u in s.users
    ensures var t := After(vault, s, GroupDelete(g));
      && t.users.Keys == s.users.Keys && t.roles == s.roles && t.cache == s.cache
      && t.groups.Keys == s.groups.Keys - {g} && (forall h :: h in t.groups ==> t.groups[h] == s.groups[h])
      && if g in s.users[u].groupIds then Reread(t.groups, s.users[u], t.users[u], s.users[u].groupIds - {g})
         else t.users[u] == s.users[u]
  {
    ReboundIsReread(After(vault, s, GroupDelete(g)).groups, s.users[u], s.users[u].groupIds - {g});
    hide Rebound, Reread;
  }

  /** Updating a stored role stores its new row and rereads exactly the rows that have the role. */
  lemma {:induction false} UpdatedRoleRows(vault: Vault, s: Store, r: string, row: RoleRow, u: string)
    requires u in s.users
    ensures var t := After(vault, s, RoleUpdate(r, row));
      && t.users.Keys == s.users.Keys && t.groups == s.groups && t.cache == s.cache
      && t.roles.Keys == s.roles.Keys && (r in s.roles ==> t.roles[r] == row)
      && (forall q :: q in s.roles && q != r ==> t.roles[q] == s.roles[q])
      && if r in s.users[u].roleIds then Reread(s.groups, s.users[u], t.users[u], s.users[u].groupIds)
         else t.users[u] == s.users[u]
  {
    ReboundIsReread(s.groups, s.users[u], s.users[u].groupIds);
    hide Rebound, Reread;
  }

  /** Creating and deleting a role touches the role table only: a new id gains its row, an id no user has loses it. */
  lemma {:induction false} CreatedAndDeletedRole(vault: Vault, s: Store, r: string, row: RoleRow)
    ensures var t := After(vault, s, RoleCreate(r, row));
      && t == s.(roles := t.roles)
      && (r !in s.roles ==> t.roles == s.roles[r := row])
    ensures var t := After(vault, s, RoleDelete(r));
      && t == s.(roles := t.roles)
      && t.roles == if forall u :: u in s.users ==> r !in s.users[u].roleIds then s.roles - {r} else s.roles
  {
  }

  /** After a group is created or updated every listed existing user is in it, and has its roles unless it is SUPER. */
  lemma {:induction false} SavedGroupIsJoined(vault: Vault, s: Store, step: Step, u: string)
    requires (step.GroupCreate? && step.id !in s.groups) || step.GroupUpdate?
    requires u in step.userIds && u in s.users
    ensures var t := After(vault, s, step);
      && u in t.users && step.id in t.users[u].groupIds
      && (!t.users[u].super && step.id in t.groups ==> Elements(t.groups[step.id]) <= t.users[u].roleIds)
  {
    var t := After(vault, s, step);
    if !t.users[u].super && step.id in t.groups {
      forall r | r in t.groups[step.id] ensures r in t.users[u].roleIds {
        assert step.id in InList(t.users[u].groupIds);
      }
    }
  }

  /** Group and role changes never take a role id from a user row, nor a row from the table. */
  lemma {:induction false} RolesOnlyGrow(vault: Vault, s: Store, events: seq<Event>, u: string)
    requires u in s.users && forall e :: e in events ==> GroupOrRoleStep(e.step)
    ensures u in Run(vault, s, events).users
    ensures s.users[u].roleIds <= Run(vault, s, events).users[u].roleIds
    decreases |events|
  {
    if events == [] {
    } else {
      var init := events[..|events| - 1];
      assert events[|events| - 1] in events;
      RolesOnlyGrow(vault, s, init, u);
      GroupStepKeepsAccount(vault, Run(vault, s, init), events[|events| - 1], u);
    }
  }

  /**
   Joining a group and deleting it again does not undo the join: the row keeps the group's roles. It is back at
   its old role ids exactly when those already contained the roles of that group and of the user's other groups.
   */
  lemma {:induction false} GroupRolesOutliveTheGroup(vault: Vault, s: Store, g: string, groupRoles: seq<string>,
                                                     u: string)
    requires g !in s.groups && u in s.users && !s.users[u].super && g !in s.users[u].groupIds
    requires "" !in s.groups && g != ""
    ensures var before := s.users[u].roleIds;
      var joined := After(vault, s, GroupCreate(g, groupRoles, {u}));
      var t := After(vault, joined, GroupDelete(g));
      var own := GroupRoles(s.groups, s.users[u].groupIds);
      && u in t.users && t.groups == s.groups && t.users[u].groupIds == s.users[u].groupIds
      && t.users[u].roleIds == before + Elements(groupRoles) + own
      && (t.users[u].roleIds == before <==> Elements(groupRoles) + own <= before)
  {
    var ids := s.users[u].groupIds;
    var groups := s.groups[g := groupRoles];
    var own := GroupRoles(s.groups, ids);
    var joined := After(vault, s, GroupCreate(g, groupRoles, {u}));
    GroupRolesWith(s.groups, g, groupRoles, ids);
    assert joined.users[u].roleIds == s.users[u].roleIds + (Elements(groupRoles) + own);
    assert joined.users[u].groupIds == ids + {g};
    assert groups - {g} == s.groups;
    assert ids + {g} - {g} == ids;
  }

  lemma {:induction false} GroupRolesWith(groups: GroupTable, g: string, groupRoles: seq<string>, ids: set<string>)
    requires g !in groups && g !in ids && "" !in groups && g != ""
    ensures GroupRoles(groups[g := groupRoles], ids + {g}) == Elements(groupRoles) + GroupRoles(groups, ids)
  {
    var all := groups[g := groupRoles];
    forall r ensures r in GroupRoles(all, ids + {g}) <==> r in Elements(groupRoles) + GroupRoles(groups, ids) {
      if r in GroupRoles(all, ids + {g}) {
        var h :| h in InList(ids + {g}) && h in all && r in all[h];
        if h != g {
          assert h in InList(ids);
        }
      }
      if r in Elements(groupRoles) {
        assert g in InList(ids + {g}) && r in all[g];
      }
      if r in GroupRoles(groups, ids) {
        var h :| h in InList(ids) && h in groups && r in groups[h];
        assert h in ids && h in InList(ids + {g}) && r in all[h];
      }
    }
  }

  predicate Mentions(step: Step, r: string) {
    match step
    case UserCreate(_, _, _, roleIds) => r in roleIds
    case UserUpdate(_, _, _, _, _, roleIds) => r in roleIds
    case GroupCreate(_, groupRoles, _) => r in groupRoles
    case GroupUpdate(_, groupRoles, _) => r in groupRoles
    case _ => false
  }

  ghost predicate Unreferenced(s: Store, r: string) {
    !RoleInUse(s.users, r) && forall g :: g in s.groups ==> r !in s.groups[g]
  }

  lemma {:induction false} StepKeepsUnreferenced(vault: Vault, s: Store, e: Event, r: string)
    requires Unreferenced(s, r) && !Mentions(e.step, r)
    ensures Unreferenced(Next(vault, s, e), r)
  {
    var t := Next(vault, s, e);
    assert forall g :: g in t.groups ==> r !in t.groups[g];
    if GroupOrRoleStep(e.step) {
      GroupStepAddsGroupRoles(vault, s, e);
      forall u | u in t.users ensures r !in t.users[u].roleIds {
      }
    } else {
      UserStepKeepsUnused(vault, s, e, r);
    }
  }

  /** The only role ids a group or role step adds to a row are roles of stored groups. */
  lemma {:induction false} GroupStepAddsGroupRoles(vault: Vault, s: Store, e: Event)
    requires GroupOrRoleStep(e.step)
    ensures var t := Next(vault, s, e);
      && t.users.Keys == s.users.Keys
      && forall u, r :: u in t.users && r in t.users[u].roleIds ==>
           r in s.users[u].roleIds || exists g :: g in t.groups && r in t.groups[g]
  {
    hide GroupRoles;
    var t := Next(vault, s, e);
    forall u, r | u in t.users && r in t.users[u].roleIds
      ensures r in s.users[u].roleIds || exists g :: g in t.groups && r in t.groups[g]
    {
      ReboundAdds(t.groups, s.users[u], t.users[u].groupIds, r);
    }
  }

  lemma {:induction false} ReboundAdds(groups: GroupTable, row: UserRow, groupIds: set<string>, r: string)
    requires r in Rebound(groups, row, groupIds).roleIds
    ensures r in row.roleIds || exists g :: g in groups && r in groups[g]
  {
  }

  lemma {:induction false} UserStepKeepsUnused(vault: Vault, s: Store, e: Event, r: string)
    requires !RoleInUse(s.users, r) && !Mentions(e.step, r) && !GroupOrRoleStep(e.step)
    ensures !RoleInUse(Next(vault, s, e).users, r)
  {
    var t := Next(vault, s, e);
    forall u | u in t.users ensures r !in t.users[u].roleIds {
    }
  }

  lemma {:induction false} UnreferencedStays(vault: Vault, s: Store, events: seq<Event>, r: string)
    requires Unreferenced(s, r) && forall e :: e in events ==> !Mentions(e.step, r)
    ensures Unreferenced(Run(vault, s, events), r)
    decreases |events|
  {
    if events == [] {
    } else {
      var init := events[..|events| - 1];
      assert events[|events| - 1] in events;
      UnreferencedStays(vault, s, init, r);
      StepKeepsUnreferenced(vault, Run(vault, s, init), events[|events| - 1], r);
    }
  }

  /** No later run makes a row point at `r` unless one of its steps names `r`. */
  ghost predicate StaysUnused(vault: Vault, s: Store, r: string) {
    forall events: seq<Event> ::
      (forall e :: e in events ==> !Mentions(e.step, r)) ==> !RoleInUse(Run(vault, s, events).users, r)
  }

  /**
   A role can be deleted exactly while no user row points at it. A deleted role stays out of all rows, whatever
   is done later without naming it, exactly when no group lists it.
   */
  lemma {:induction false} DeletedRoleStaysAway(vault: Vault, s: Store, r: string)
    requires r in s.roles
    ensures var t := After(vault, s, RoleDelete(r));
      && (r !in t.roles <==> !RoleInUse(s.users, r))
      && t.users == s.users
      && (r !in t.roles ==> (StaysUnused(vault, t, r) <==> forall g :: g in s.groups ==> r !in s.groups[g]))
  {
    var t := After(vault, s, RoleDelete(r));
    if r !in t.roles {
      if g :| g in s.groups && r in s.groups[g] {
        var name := FreshName(s.users.Keys);
        var events := DeletedRoleCanReturn(vault, s, g, r, name, r + "x", [1], RoleRow([], []));
      } else {
        forall events: seq<Event> | forall e :: e in events ==> !Mentions(e.step, r)
          ensures !RoleInUse(Run(vault, t, events).users, r)
        {
          UnreferencedStays(vault, t, events, r);
        }
      }
    }
  }

  /** A group that lists the deleted role brings it back into the row of its next member, here a new user. */
  lemma {:induction false} DeletedRoleCanReturn(vault: Vault, s: Store, g: string, r: string, name: string,
                                                other: string, password: Password, row: RoleRow)
      returns (events: seq<Event>)
    requires r in s.roles && !RoleInUse(s.users, r)
    requires g in s.groups && r in s.groups[g]
    requires name !in s.users && other != r && password != []
    ensures events == [Event(UserCreate(name, password, {g}, {other}), true), Event(RoleUpdate(other, row), true)]
    ensures forall e :: e in events ==> !Mentions(e.step, r)
    ensures var t := After(vault, s, RoleDelete(r));
      r !in t.roles && RoleInUse(Run(vault, t, events).users, r)
  {
    var t := After(vault, s, RoleDelete(r));
    var first, second := Event(UserCreate(name, password, {g}, {other}), true), Event(RoleUpdate(other, row), true);
    events := [first, second];
    var t1, t2 := After(vault, t, first.step), After(vault, After(vault, t, first.step), second.step);
    RunOfTwo(vault, t, first, second);
    assert g in InList({g}) && r in GroupRoles(t1.groups, {g});
    assert name in t2.users && r in t2.users[name].roleIds;
  }

  lemma {:induction false} RunOfTwo(vault: Vault, s: Store, first: Event, second: Event)
    ensures Run(vault, s, [first, second]) == Next(vault, Next(vault, s, first), second)
  {
    var events := [first, second];
    RunOfOne(vault, s, first);
    assert events[..1] == [first];
  }
}
