/** Rebuilding a user's role ids and authority from the stored groups and roles. */
module UserAuthority {
  import opened Wrappers
  import opened Authorization

  datatype RoleRow = RoleRow(views: seq<string>, plans: seq<string>)

  type GroupTable = map<string, seq<string>>
  type RoleTable = map<string, RoleRow>

  /** The ids matched by "id in ('a','b')": an empty list is written as the empty id. */
  function InList(ids: set<string>): set<string> {
    if ids == {} then {""} else ids
  }

  /** All roles of the listed groups. */
  function GroupRoles(groups: GroupTable, groupIds: set<string>): set<string> {
    set g, r | g in InList(groupIds) && g in groups && r in groups[g] :: r
  }

  /** All views of the listed roles; a user without roles never reaches the role query. */
  function RoleViews(roles: RoleTable, roleIds: set<string>): set<string> {
    set r, v | r in roleIds && r in roles && v in roles[r].views :: v
  }

  /** All plans of the listed roles. */
  function RolePlans(roles: RoleTable, roleIds: set<string>): set<string> {
    set r, p | r in roleIds && r in roles && p in roles[r].plans :: p
  }

  /** Duplicates removed, `slice2` added or taken away, in whatever order the map yields its keys. */
  method RecombineSlices(slice1: seq<string>, slice2: seq<string>, deleteSlice2: bool) returns (out: seq<string>)
    ensures NoDuplicates(out)
    ensures Elements(out)
         == if deleteSlice2 then Elements(slice1) - Elements(slice2) else Elements(slice1) + Elements(slice2)
  {
    var roleMap: map<string, bool> := map[];
    for i := 0 to |slice1|
      invariant roleMap.Keys == Elements(slice1[..i])
    {
      assert slice1[..i + 1] == slice1[..i] + [slice1[i]];
      roleMap := roleMap[slice1[i] := true];
    }
    assert slice1[..|slice1|] == slice1;
    for i := 0 to |slice2|
      invariant roleMap.Keys == if deleteSlice2 then Elements(slice1) - Elements(slice2[..i])
                                else Elements(slice1) + Elements(slice2[..i])
    {
      assert slice2[..i + 1] == slice2[..i] + [slice2[i]];
      if deleteSlice2 {
        roleMap := roleMap - {slice2[i]};
      } else {
        roleMap := roleMap[slice2[i] := true];
      }
    }
    assert slice2[..|slice2|] == slice2;
    out := KeysInSomeOrder(roleMap.Keys);
  }

  method KeysInSomeOrder(keys: set<string>) returns (out: seq<string>)
    ensures NoDuplicates(out) && Elements(out) == keys
  {
    out := [];
    var left := keys;
    while left != {}
      invariant left <= keys && NoDuplicates(out)
      invariant Elements(out) == keys - left
      decreases |left|
    {
      var k :| k in left;
      assert k !in Elements(out);
      ElementsConcat(out, [k]);
      assert Elements([k]) == {k};
      out := out + [k];
      left := left - {k};
    }
  }

  /** The role lists of the selected groups, one after the other. */
  method CollectGroupRoles(groups: GroupTable, groupIds: seq<string>) returns (ids: seq<string>)
    ensures Elements(ids) == GroupRoles(groups, Elements(groupIds))
  {
    ids := [];
    var selected := InList(Elements(groupIds)) * groups.Keys;
    var left := selected;
    while left != {}
      invariant left <= selected
      invariant Elements(ids) == set g, r | g in selected - left && r in groups[g] :: r
      decreases |left|
    {
      var g :| g in left;
      ElementsConcat(ids, groups[g]);
      assert selected - (left - {g}) == (selected - left) + {g};
      ids := ids + groups[g];
      left := left - {g};
    }
  }

  method CollectRoles(roles: RoleTable, roleIds: seq<string>) returns (views: seq<string>, planIds: seq<string>)
    requires roleIds != []
    ensures Elements(views) == RoleViews(roles, Elements(roleIds))
    ensures Elements(planIds) == RolePlans(roles, Elements(roleIds))
  {
    views, planIds := [], [];
    var selected := Elements(roleIds) * roles.Keys;
    var left := selected;
    while left != {}
      invariant left <= selected
      invariant Elements(views) == set r, v | r in selected - left && v in roles[r].views :: v
      invariant Elements(planIds) == set r, p | r in selected - left && p in roles[r].plans :: p
      decreases |left|
    {
      var r :| r in left;
      ElementsConcat(views, roles[r].views);
      ElementsConcat(planIds, roles[r].plans);
      assert selected - (left - {r}) == (selected - left) + {r};
      views, planIds := views + roles[r].views, planIds + roles[r].plans;
      left := left - {r};
    }
  }

  class Ddiuser {
    var name: string
    var super: bool
    var userGroupIds: seq<string>
    var roleIds: seq<string>
    var roleAuthority: map<string, RoleAuthority>

    constructor (name: string, super: bool, userGroupIds: seq<string>, roleIds: seq<string>)
      ensures this.name == name && this.super == super
      ensures this.userGroupIds == userGroupIds && this.roleIds == roleIds && roleAuthority == map[]
    {
      this.name, this.super, this.userGroupIds, this.roleIds := name, super, userGroupIds, roleIds;
      this.roleAuthority := map[];
    }

    /**
     A SUPER user is left alone. Any other user ends with the old role ids united with all roles of its groups,
     each once, and with the authority map for exactly the views of those roles; `views` reports their order. The
     plans of the roles are collected and not passed on.
     */
    method ReloadUserAuthority(t: Template, groups: GroupTable, roles: RoleTable) returns (ghost views: seq<string>)
      modifies this`roleIds, this`roleAuthority
      ensures super ==> roleIds == old(roleIds) && roleAuthority == old(roleAuthority)
      ensures !super ==>
        Reloads(t, groups, roles, Elements(userGroupIds), old(roleIds), roleIds, views, roleAuthority)
    {
      views := [];
      if super {
        return;
      }
      var authority := new AuthorityMap.CreateBaseAuthority(t);
      roleAuthority := authority.entries;
      var fromGroups := CollectGroupRoles(groups, userGroupIds);
      ghost var own := roleIds;
      roleIds := roleIds + fromGroups;
      ElementsConcat(own, fromGroups);
      roleIds := RecombineSlices(roleIds, [], false);
      if |roleIds| == 0 {
        NoRolesIsNoViews(t);
        return;
      }
      var collected, planIds := CollectRoles(roles, roleIds);
      var ordered := RecombineSlices(collected, [], false);
      views := ordered;
      authority.CreateViewAuthority(t, ordered);
      var plans: seq<string> := [];
      authority.CreateDhcpAuthority(t, plans);
      roleAuthority := authority.entries;
    }
  }

  /** What ReloadUserAuthority guarantees about a user that is not SUPER, as a relation between two states. */
  ghost predicate Reloads(t: Template, groups: GroupTable, roles: RoleTable, groupIds: set<string>,
                          before: seq<string>, after: seq<string>, views: seq<string>,
                          authority: map<string, RoleAuthority>)
  {
    && NoDuplicates(after)
    && Elements(after) == Elements(before) + GroupRoles(groups, groupIds)
    && Elements(views) == RoleViews(roles, Elements(after))
    && authority == FullMap(t, views, [])
  }

  /** With the tables unchanged a second reload keeps the roles, up to order, and every decision. */
  lemma {:induction false} ReloadIsIdempotent(t: Template, groups: GroupTable, roles: RoleTable, groupIds: set<string>,
      ids0: seq<string>, ids1: seq<string>, ids2: seq<string>, views1: seq<string>, views2: seq<string>,
      map1: map<string, RoleAuthority>, map2: map<string, RoleAuthority>, req: Request)
    requires Reloads(t, groups, roles, groupIds, ids0, ids1, views1, map1)
    requires Reloads(t, groups, roles, groupIds, ids1, ids2, views2, map2)
    ensures Elements(ids2) == Elements(ids1) && |ids2| == |ids1|
    ensures Allows(map2, req) <==> Allows(map1, req)
  {
    DecisionIsRule(t, views1, req);
    DecisionIsRule(t, views2, req);
    SameLength(ids1);
    SameLength(ids2);
  }

  lemma {:induction false} SameLength(s: seq<string>)
    requires NoDuplicates(s)
    ensures |s| == |Elements(s)|
  {
    if s == [] {
    } else {
      var init, last := s[..|s| - 1], s[|s| - 1];
      SameLength(init);
      assert s == init + [last];
      assert Elements(s) == Elements(init) + {last};
    }
  }

  /**
   End to end: after a reload, a request of a NORMAL user on a filtered DNS resource is decided by the union V of
   the views of its direct roles and of its groups' roles.
   */
  lemma {:induction false} DnsRequestRule(t: Template, groups: GroupTable, roles: RoleTable, groupIds: set<string>,
      before: seq<string>, after: seq<string>, views: seq<string>, authority: map<string, RoleAuthority>, req: Request)
    requires Reloads(t, groups, roles, groupIds, before, after, views, authority)
    requires LastOf(t.dhcp, req.resourceType).None?
    requires LastOf(t.dns, req.resourceType).Some? && LastOf(t.dns, req.resourceType).value.filter
    ensures Allows(authority, req) <==>
      var v := RoleViews(roles, Elements(before)) + RoleViews(roles, GroupRoles(groups, groupIds));
      || (v == {} && req.verb == "GET")
      || (v != {} && AnyOperation(req.verb)
          && (req.id == "" || req.id in v || exists a :: a in req.ancestors && a in v))
  {
    DecisionIsRule(t, views, req);
    assert Elements(views)
        == RoleViews(roles, Elements(before)) + RoleViews(roles, GroupRoles(groups, groupIds));
    FilteredDnsRule(t, Elements(views), req);
  }

  // ---------- plans ----------

  predicate SameViews(a: RoleTable, b: RoleTable) {
    a.Keys == b.Keys && forall r :: r in a ==> a[r].views == b[r].views
  }

  /** Two role tables that differ in plans only lead to the same decisions. */
  lemma {:induction false} PlansGrantNothing(t: Template, groups: GroupTable, roles1: RoleTable, roles2: RoleTable,
      groupIds: set<string>, before: seq<string>, after1: seq<string>, after2: seq<string>,
      views1: seq<string>, views2: seq<string>,
      map1: map<string, RoleAuthority>, map2: map<string, RoleAuthority>, req: Request)
    requires SameViews(roles1, roles2)
    requires Reloads(t, groups, roles1, groupIds, before, after1, views1, map1)
    requires Reloads(t, groups, roles2, groupIds, before, after2, views2, map2)
    ensures Allows(map1, req) <==> Allows(map2, req)
  {
    DecisionIsRule(t, views1, req);
    DecisionIsRule(t, views2, req);
    assert RoleViews(roles1, Elements(after1)) == RoleViews(roles2, Elements(after1));
  }

  /**
   After a reload all requests are decided as the design document says exactly when the user's roles hold no plan
   or no resource in force is filtered by plans.
   */
  lemma {:induction false} PlanPromiseKeptIff(t: Template, groups: GroupTable, roles: RoleTable,
      groupIds: set<string>, before: seq<string>, after: seq<string>, views: seq<string>,
      authority: map<string, RoleAuthority>)
    requires Reloads(t, groups, roles, groupIds, before, after, views, authority)
    ensures var v, p := RoleViews(roles, Elements(after)), RolePlans(roles, Elements(after));
      (forall req :: Allows(authority, req) <==> DocumentedRule(t, v, p, req))
      <==> p == {} || forall r :: !LooksAtPlans(t, r)
  {
    forall req ensures Allows(authority, req) <==> Rule(t, Elements(views), req) {
      DecisionIsRule(t, views, req);
    }
    DocumentedRuleKeptIff(t, Elements(views), RolePlans(roles, Elements(after)));
  }

  /** A role with one prefix and a PUT on subnets: allowed by the design document, refused by the code. */
  lemma {:induction false} PlanIsIgnored()
    ensures var t := Template([], [], [RoleAuthority("subnet", [], [], true, ["GET"])]);
      var roles := map["r" := RoleRow([], ["2008::/60"])];
      var req := Request("subnet", "", [], "PUT");
      && Reloads(t, map[], roles, {}, ["r"], ["r"], [], FullMap(t, [], []))
      && DocumentedRule(t, {}, RolePlans(roles, {"r"}), req)
      && !Allows(FullMap(t, [], []), req)
  {
    var t := Template([], [], [RoleAuthority("subnet", [], [], true, ["GET"])]);
    var roles := map["r" := RoleRow([], ["2008::/60"])];
    var req := Request("subnet", "", [], "PUT");
    assert LastOf(t.dhcp, "subnet") == Some(t.dhcp[0]);
    assert "r" in {"r"} && "r" in roles && ["2008::/60"][0] in roles["r"].plans;
    assert "2008::/60" in RolePlans(roles, {"r"});
    DecisionIsRule(t, [], req);
    RefusedWithoutPlans(t, {}, RolePlans(roles, {"r"}), req);
  }
}
