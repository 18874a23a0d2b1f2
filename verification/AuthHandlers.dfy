/**
 The user, group, role and login handlers over mutable tables, each shown to make the corresponding step of the
 store. A method stands for a call whose transaction commits.
 */
module AuthHandlers {
  import opened Wrappers
  import opened Authorization
  import opened UserAuthority
  import opened AuthStore

  datatype UserRecord = UserRecord(password: string, super: bool, groupIds: seq<string>, roleIds: seq<string>)

  /** What ActivityUsers holds for a user; the map stays empty for a SUPER user. */
  datatype CachedUser = CachedUser(super: bool, roleIds: seq<string>, authority: map<string, RoleAuthority>)

  function RowOf(r: UserRecord): UserRow {
    UserRow(r.password, r.super, Elements(r.groupIds), Elements(r.roleIds))
  }

  function RowsOf(users: map<string, UserRecord>): map<string, UserRow> {
    map u | u in users :: RowOf(users[u])
  }

  function Moved(groups: GroupTable, row: UserRow, g: string, isDelete: bool): UserRow {
    Rebound(groups, row, if isDelete then row.groupIds - {g} else row.groupIds + {g})
  }

  /** The session a reload of this row makes. */
  function SessionOf(groups: GroupTable, roles: RoleTable, r: UserRecord): Session {
    NewSession(groups, roles, r.super, Elements(r.groupIds), Elements(r.roleIds))
  }

  lemma {:induction false} AllLoaded(s: Store, users: map<string, UserRecord>, sessions: map<string, Session>)
    requires s.users == RowsOf(users) && sessions.Keys == users.Keys
    requires forall u :: u in sessions ==> sessions[u] == SessionOf(s.groups, s.roles, users[u])
    ensures sessions == Loaded(s)
  {
  }

  /** The cached map decides every request by the session's views. */
  ghost predicate Represents(t: Template, c: CachedUser, session: Session) {
    && c.super == session.super
    && Elements(c.roleIds) == session.roleIds
    && (c.super ==> c.authority == map[])
    && (!c.super ==> forall req :: Allows(c.authority, req) <==> Rule(t, session.views, req))
  }

  class Handlers {
    const template: Template
    const vault: Vault
    var users: map<string, UserRecord>
    var groups: GroupTable
    var roles: RoleTable
    var cache: map<string, CachedUser>
    ghost var sessions: map<string, Session>

    ghost predicate Valid()
      reads this
    {
      cache.Keys == sessions.Keys && forall n :: n in cache ==> Represents(template, cache[n], sessions[n])
    }

    ghost function Abstract(): Store
      reads this
    {
      Store(RowsOf(users), groups, roles, sessions)
    }

    /** Start-up over the stored tables: every user is reloaded into the cache, a missing administrator is added. */
    constructor (template: Template, vault: Vault, users: map<string, UserRecord>, groups: GroupTable,
                 roles: RoleTable)
      ensures Valid() && this.template == template && this.vault == vault
      ensures Abstract() == StartUp(vault, RowsOf(users), groups, roles)
    {
      this.template, this.vault := template, vault;
      this.users, this.groups, this.roles := users, groups, roles;
      this.cache, this.sessions := map[], map[];
      new;
      LoadUsers();
      AddAdmin();
    }

    method LoadUsers()
      requires Valid() && sessions == map[]
      modifies this`cache, this`sessions
      ensures Valid() && sessions == Loaded(old(Abstract()))
    {
      hide Represents, SessionOf;
      var left := users.Keys;
      while left != {}
        invariant left <= users.Keys && Valid()
        invariant sessions.Keys == users.Keys - left
        invariant forall u :: u in sessions ==> sessions[u] == SessionOf(groups, roles, users[u])
        decreases |left|
      {
        var u :| u in left;
        left := left - {u};
        LoadUser(u);
      }
      AllLoaded(old(Abstract()), users, sessions);
    }

    method LoadUser(u: string)
      requires Valid() && u in users
      modifies this`cache, this`sessions
      ensures Valid()
      ensures sessions == old(sessions)[u := SessionOf(groups, roles, users[u])]
    {
      var c, session := NewCached(users[u].super, users[u].groupIds, users[u].roleIds);
      Remember(u, c, session);
    }

    method AddAdmin()
      requires Valid()
      modifies this
      ensures Valid() && Abstract() == WithAdmin(vault, old(Abstract()))
    {
      if ADMIN !in users {
        var sealed := vault.seal(ADMIN_PASSWORD);
        StoreRow(ADMIN, UserRecord(sealed, true, [], []));
        Remember(ADMIN, CachedUser(true, [], map[]), Session(true, {}, {}));
      }
    }

    method NewCached(super: bool, groupIds: seq<string>, roleIds: seq<string>)
        returns (c: CachedUser, ghost session: Session)
      ensures session == NewSession(groups, roles, super, Elements(groupIds), Elements(roleIds))
      ensures Represents(template, c, session)
    {
      var user := new Ddiuser("", super, groupIds, roleIds);
      ghost var views := user.ReloadUserAuthority(template, groups, roles);
      c := CachedUser(super, user.roleIds, user.roleAuthority);
      session := NewSession(groups, roles, super, Elements(groupIds), Elements(roleIds));
      if !super {
        forall req ensures Allows(c.authority, req) <==> Rule(template, session.views, req) {
          DecisionIsRule(template, views, req);
        }
      }
    }

    method StoreRow(id: string, r: UserRecord)
      modifies this`users
      ensures users == old(users)[id := r]
      ensures RowsOf(users) == RowsOf(old(users))[id := RowOf(r)]
    {
      users := users[id := r];
    }

    method Remember(name: string, c: CachedUser, ghost session: Session)
      requires Valid() && Represents(template, c, session)
      modifies this`cache, this`sessions
      ensures Valid() && sessions == old(sessions)[name := session]
    {
      cache, sessions := cache[name := c], sessions[name := session];
    }

    method Forget(name: string)
      requires Valid()
      modifies this`cache, this`sessions
      ensures Valid() && sessions == old(sessions) - {name}
    {
      cache, sessions := cache - {name}, sessions - {name};
    }

    // ---------- users ----------

    method UserCreate(name: string, password: Password, groupIds: seq<string>, roleIds: seq<string>)
        returns (ok: bool)
      requires Valid()
      modifies this
      ensures Valid()
      ensures ok <==> password != [] && name !in old(users)
      ensures Abstract()
           == After(vault, old(Abstract()), Step.UserCreate(name, password, Elements(groupIds), Elements(roleIds)))
    {
      if password == [] || name in users {
        return false;
      }
      var sealed := vault.seal(password);
      var c, session := NewCached(false, groupIds, roleIds);
      StoreRow(name, UserRecord(sealed, false, groupIds, roleIds));
      Remember(name, c, session);
      ok := true;
    }

    method UserUpdate(caller: string, id: string, name: string, super: bool, groupIds: seq<string>,
                      roleIds: seq<string>)
        returns (ok: bool)
      requires Valid()
      modifies this
      ensures Valid()
      ensures ok <==> MayChange(caller, id)
      ensures Abstract() == After(vault, old(Abstract()),
        Step.UserUpdate(caller, id, name, super, Elements(groupIds), Elements(roleIds)))
    {
      if caller != ADMIN && caller != id {
        return false;
      }
      var c, session := NewCached(super, groupIds, roleIds);
      if id in users {
        StoreRow(id, users[id].(groupIds := groupIds, roleIds := roleIds));
      }
      Remember(name, c, session);
      ok := true;
    }

    method UserDelete(id: string) returns (ok: bool)
      requires Valid()
      modifies this
      ensures Valid()
      ensures ok <==> id != ADMIN
      ensures Abstract() == After(vault, old(Abstract()), Step.UserDelete(id))
    {
      if id == ADMIN {
        return false;
      }
      users := users - {id};
      Forget(id);
      ok := true;
    }

    method Logout(caller: string)
      requires Valid()
      modifies this`cache, this`sessions
      ensures Valid()
      ensures Abstract() == After(vault, old(Abstract()), Step.Logout(caller))
    {
      Forget(caller);
    }

    method Login(name: string, password: Password) returns (ok: bool)
      requires Valid()
      modifies this`cache, this`sessions
      ensures Valid()
      ensures ok <==> AuthStore.CheckPassword(vault, RowsOf(users), name, password)
      ensures Abstract() == After(vault, old(Abstract()), Step.Login(name, password))
    {
      if name !in users || !vault.matches(users[name].password, password) {
        return false;
      }
      var c, session := NewCached(users[name].super, users[name].groupIds, users[name].roleIds);
      Remember(name, c, session);
      ok := true;
    }

    method ChangePassword(caller: string, name: string, password: Password) returns (ok: bool)
      requires Valid()
      modifies this`users
      ensures Valid()
      ensures ok <==> MayChange(caller, name) && password != []
      ensures Abstract() == After(vault, old(Abstract()), Step.ChangePassword(caller, name, password))
    {
      if (caller != ADMIN && caller != name) || password == [] {
        return false;
      }
      SetPassword(name, vault.seal(password));
      ok := true;
    }

    method ResetPassword(caller: string, name: string, password: Password) returns (ok: bool)
      requires Valid()
      modifies this`users
      ensures Valid()
      ensures ok <==> caller == ADMIN && password != []
      ensures Abstract() == After(vault, old(Abstract()), Step.ResetPassword(caller, name, password))
    {
      if caller != ADMIN || password == [] {
        return false;
      }
      SetPassword(name, vault.seal(password));
      ok := true;
    }

    method SetPassword(name: string, sealed: string)
      modifies this`users
      ensures RowsOf(users) == WithPassword(RowsOf(old(users)), name, sealed)
    {
      if name in users {
        StoreRow(name, users[name].(password := sealed));
      }
    }

    // ---------- groups ----------

    method GroupCreate(id: string, groupRoles: seq<string>, userIds: seq<string>) returns (ok: bool)
      requires Valid()
      modifies this`users, this`groups
      ensures Valid()
      ensures ok <==> id !in old(groups)
      ensures Abstract() == After(vault, old(Abstract()), Step.GroupCreate(id, groupRoles, Elements(userIds)))
    {
      if id in groups {
        return false;
      }
      groups := groups[id := groupRoles];
      UpdateUserGroupAuthority(id, userIds, false);
      ok := true;
    }

    method GroupUpdate(id: string, groupRoles: seq<string>, userIds: seq<string>)
      requires Valid()
      modifies this`users, this`groups
      ensures Valid()
      ensures Abstract() == After(vault, old(Abstract()), Step.GroupUpdate(id, groupRoles, Elements(userIds)))
    {
      if id in groups {
        groups := groups[id := groupRoles];
      }
      UpdateUserGroupAuthority(id, userIds, false);
    }

    method GroupDelete(id: string) returns (ok: bool)
      requires Valid()
      modifies this`users, this`groups
      ensures Valid()
      ensures ok <==> id in old(groups)
      ensures Abstract() == After(vault, old(Abstract()), Step.GroupDelete(id))
    {
      if id !in groups {
        return false;
      }
      groups := groups - {id};
      UpdateUserGroupAuthority(id, [], true);
      ok := true;
    }

    /** Rows with that group when deleting, listed rows otherwise; each is rewritten once, in an arbitrary order. */
    method UpdateUserGroupAuthority(groupId: string, userIds: seq<string>, isDelete: bool)
      modifies this`users
      ensures RowsOf(users)
           == if isDelete then Left(RowsOf(old(users)), groups, groupId)
              else Joined(RowsOf(old(users)), groups, groupId, Elements(userIds))
    {
      if isDelete {
        var members := set u | u in users && groupId in users[u].groupIds;
        MoveRows(members, groupId, true);
      } else {
        MoveRows(InList(Elements(userIds)) * users.Keys, groupId, false);
      }
    }

    method MoveRows(selected: set<string>, groupId: string, isDelete: bool)
      requires selected <= users.Keys
      modifies this`users
      ensures users.Keys == old(users).Keys
      ensures forall u :: u in users ==>
        (RowOf(users[u])
         == if u in selected then Moved(groups, RowOf(old(users)[u]), groupId, isDelete) else RowOf(old(users)[u]))
    {
      ghost var before := users;
      var left := selected;
      while left != {}
        invariant left <= selected && users.Keys == before.Keys
        invariant forall u :: u in users && (u in left || u !in selected) ==> users[u] == before[u]
        invariant forall u :: u in selected && u !in left ==>
          RowOf(users[u]) == Moved(groups, RowOf(before[u]), groupId, isDelete)
        decreases |left|
      {
        var u :| u in left;
        left := left - {u};
        var row := MoveRow(users[u], groupId, isDelete);
        users := users[u := row];
      }
    }

    method MoveRow(row: UserRecord, groupId: string, isDelete: bool) returns (r: UserRecord)
      ensures RowOf(r) == Moved(groups, RowOf(row), groupId, isDelete)
    {
      var groupIds := RecombineSlices(row.groupIds, [groupId], isDelete);
      assert Elements([groupId]) == {groupId};
      r := ReloadRow(row.(groupIds := groupIds));
    }

    method ReloadRow(row: UserRecord) returns (r: UserRecord)
      ensures RowOf(r) == Rebound(groups, RowOf(row), Elements(row.groupIds))
    {
      var user := new Ddiuser("", row.super, row.groupIds, row.roleIds);
      ghost var views := user.ReloadUserAuthority(template, groups, roles);
      r := row.(roleIds := user.roleIds);
    }

    // ---------- roles ----------

    method RoleCreate(id: string, row: RoleRow) returns (ok: bool)
      requires Valid()
      modifies this`roles
      ensures Valid()
      ensures ok <==> id !in old(roles)
      ensures Abstract() == After(vault, old(Abstract()), Step.RoleCreate(id, row))
    {
      if id in roles {
        return false;
      }
      roles := roles[id := row];
      ok := true;
    }

    method RoleUpdate(id: string, row: RoleRow)
      requires Valid()
      modifies this`users, this`roles
      ensures Valid()
      ensures Abstract() == After(vault, old(Abstract()), Step.RoleUpdate(id, row))
    {
      if id in roles {
        roles := roles[id := row];
      }
      UpdateRoleAuthority(id);
    }

    method UpdateRoleAuthority(roleId: string)
      modifies this`users
      ensures RowsOf(users) == RoleRefreshed(RowsOf(old(users)), groups, roleId)
    {
      var selected := set u | u in users && roleId in users[u].roleIds;
      ReloadRows(selected);
    }

    method ReloadRows(selected: set<string>)
      requires selected <= users.Keys
      modifies this`users
      ensures users.Keys == old(users).Keys
      ensures forall u :: u in users ==>
        (RowOf(users[u])
         == if u in selected then Rebound(groups, RowOf(old(users)[u]), Elements(old(users)[u].groupIds))
            else RowOf(old(users)[u]))
    {
      hide Rebound, Elements;
      var left := selected;
      while left != {}
        invariant left <= selected && users.Keys == old(users).Keys
        invariant forall u :: u in users && (u in left || u !in selected) ==> users[u] == old(users)[u]
        invariant forall u :: u in selected && u !in left ==>
          RowOf(users[u]) == Rebound(groups, RowOf(old(users)[u]), Elements(old(users)[u].groupIds))
        decreases |left|
      {
        var u :| u in left;
        left := left - {u};
        var row := ReloadRow(users[u]);
        users := users[u := row];
      }
    }

    method RoleDelete(id: string) returns (ok: bool)
      requires Valid()
      modifies this`roles
      ensures Valid()
      ensures ok <==> !RoleInUse(RowsOf(users), id)
      ensures Abstract() == After(vault, old(Abstract()), Step.RoleDelete(id))
    {
      var bound := set u | u in users && id in users[u].roleIds;
      assert forall u :: u in users ==> (u in bound <==> id in RowsOf(users)[u].roleIds);
      if |bound| > 0 {
        var u :| u in bound;
        assert u in RowsOf(users);
        return false;
      }
      assert bound == {};
      roles := roles - {id};
      ok := true;
    }

    // ---------- requests ----------

    /** A verified token's user is let through exactly as the store's rule admits it. */
    method Authentification(userName: string, req: Request) returns (ok: bool)
      requires Valid()
      ensures ok <==> Admits(template, Abstract(), userName, req)
    {
      if userName !in cache {
        return false;
      }
      ok := true;
      if userName != ADMIN {
        var allowed, plans, views := CheckAuthority(cache[userName].authority, req);
        ok := allowed;
      }
    }
  }
}
