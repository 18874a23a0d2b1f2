/**
 The authority map derived from the role template and a user's views, and the permission decision taken on it.
 Go visits maps in an arbitrary order; so do the loops here.
 */
module Authorization {
  import opened Wrappers

  const GET: string := "GET"
  const ALL_OPERATIONS: seq<string> := ["GET", "PUT", "POST", "DELETE", "ACTION"]

  datatype RoleAuthority = RoleAuthority(
    resource: string, views: seq<string>, plans: seq<string>, filter: bool, operations: seq<string>)

  /** The NORMAL part of the role configuration. */
  datatype Template = Template(base: seq<RoleAuthority>, dns: seq<RoleAuthority>, dhcp: seq<RoleAuthority>)

  // ---------- building the map ----------

  function GrantedOperations(granted: seq<string>): seq<string> {
    if |granted| > 0 then ALL_OPERATIONS else [GET]
  }

  function WithViews(a: RoleAuthority, views: seq<string>): RoleAuthority {
    a.(views := views, operations := if a.filter then GrantedOperations(views) else a.operations)
  }

  function WithPlans(a: RoleAuthority, plans: seq<string>): RoleAuthority {
    a.(plans := plans, operations := if a.filter then GrantedOperations(plans) else a.operations)
  }

  /** `m` overwritten by the entries of `list`, later ones last. */
  function Overwrite(m: map<string, RoleAuthority>, list: seq<RoleAuthority>): map<string, RoleAuthority> {
    if list == [] then m
    else Overwrite(m, list[..|list| - 1])[list[|list| - 1].resource := list[|list| - 1]]
  }

  function DnsEntries(t: Template, views: seq<string>): (r: seq<RoleAuthority>)
    ensures |r| == |t.dns|
  {
    seq(|t.dns|, i requires 0 <= i < |t.dns| => WithViews(t.dns[i], views))
  }

  function DhcpEntries(t: Template, plans: seq<string>): (r: seq<RoleAuthority>)
    ensures |r| == |t.dhcp|
  {
    seq(|t.dhcp|, i requires 0 <= i < |t.dhcp| => WithPlans(t.dhcp[i], plans))
  }

  function BaseMap(t: Template): map<string, RoleAuthority> {
    Overwrite(Overwrite(Overwrite(map[], t.base), DnsEntries(t, [])), DhcpEntries(t, []))
  }

  /** The map of a user with roles. The reload never passes a plan. */
  function FullMap(t: Template, views: seq<string>, plans: seq<string>): map<string, RoleAuthority> {
    Overwrite(Overwrite(BaseMap(t), DnsEntries(t, views)), DhcpEntries(t, plans))
  }

  class AuthorityMap {
    var entries: map<string, RoleAuthority>

    constructor CreateBaseAuthority(t: Template)
      ensures entries == BaseMap(t)
    {
      entries := map[];
      new;
      for i := 0 to |t.base|
        invariant entries == Overwrite(map[], t.base[..i])
      {
        assert t.base[..i + 1][..i] == t.base[..i];
        entries := entries[t.base[i].resource := t.base[i]];
      }
      assert t.base[..|t.base|] == t.base;
      CreateViewAuthority(t, []);
      CreateDhcpAuthority(t, []);
    }

    method CreateViewAuthority(t: Template, views: seq<string>)
      modifies this
      ensures entries == Overwrite(old(entries), DnsEntries(t, views))
    {
      ghost var list := DnsEntries(t, views);
      for i := 0 to |t.dns|
        invariant entries == Overwrite(old(entries), list[..i])
      {
        assert list[..i + 1][..i] == list[..i];
        var authority := t.dns[i].(views := views);
        if authority.filter {
          authority := authority.(operations := if |authority.views| > 0 then ALL_OPERATIONS else [GET]);
        }
        entries := entries[authority.resource := authority];
      }
      assert list[..|list|] == list;
    }

    method CreateDhcpAuthority(t: Template, plans: seq<string>)
      modifies this
      ensures entries == Overwrite(old(entries), DhcpEntries(t, plans))
    {
      ghost var list := DhcpEntries(t, plans);
      for i := 0 to |t.dhcp|
        invariant entries == Overwrite(old(entries), list[..i])
      {
        assert list[..i + 1][..i] == list[..i];
        var authority := t.dhcp[i].(plans := plans);
        if authority.filter {
          authority := authority.(operations := if |authority.plans| > 0 then ALL_OPERATIONS else [GET]);
        }
        entries := entries[authority.resource := authority];
      }
      assert list[..|list|] == list;
    }
  }

  // ---------- what the map says ----------

  /** The last entry of a list for a resource. */
  function LastOf(list: seq<RoleAuthority>, resource: string): Option<RoleAuthority> {
    if list == [] then None
    else if list[|list| - 1].resource == resource then Some(list[|list| - 1])
    else LastOf(list[..|list| - 1], resource)
  }

  lemma {:induction false} OverwriteLookup(m: map<string, RoleAuthority>, list: seq<RoleAuthority>, r: string)
    ensures r in Overwrite(m, list) <==> LastOf(list, r).Some? || r in m
    ensures r in Overwrite(m, list) ==>
      Overwrite(m, list)[r] == (if LastOf(list, r).Some? then LastOf(list, r).value else m[r])
    ensures LastOf(list, r).Some? ==> LastOf(list, r).value.resource == r
  {
    if list == [] {
    } else {
      OverwriteLookup(m, list[..|list| - 1], r);
    }
  }

  lemma {:induction false} LastDns(list: seq<RoleAuthority>, views: seq<string>, r: string)
    ensures LastOf(DnsEntries(Template([], list, []), views), r)
         == (if LastOf(list, r).Some? then Some(WithViews(LastOf(list, r).value, views)) else None)
  {
    var entries := DnsEntries(Template([], list, []), views);
    if list == [] {
    } else {
      assert entries[..|list| - 1] == DnsEntries(Template([], list[..|list| - 1], []), views);
      LastDns(list[..|list| - 1], views, r);
    }
  }

  lemma {:induction false} LastDhcp(list: seq<RoleAuthority>, plans: seq<string>, r: string)
    ensures LastOf(DhcpEntries(Template([], [], list), plans), r)
         == (if LastOf(list, r).Some? then Some(WithPlans(LastOf(list, r).value, plans)) else None)
  {
    var entries := DhcpEntries(Template([], [], list), plans);
    if list == [] {
    } else {
      assert entries[..|list| - 1] == DhcpEntries(Template([], [], list[..|list| - 1]), plans);
      LastDhcp(list[..|list| - 1], plans, r);
    }
  }

  /** DHCP entries win over DNS entries, DNS entries over base entries, and later entries over earlier ones. */
  function Entry(t: Template, views: seq<string>, plans: seq<string>, r: string): Option<RoleAuthority> {
    if LastOf(t.dhcp, r).Some? then Some(WithPlans(LastOf(t.dhcp, r).value, plans))
    else if LastOf(t.dns, r).Some? then Some(WithViews(LastOf(t.dns, r).value, views))
    else LastOf(t.base, r)
  }

  lemma {:induction false} FullMapLookup(t: Template, views: seq<string>, plans: seq<string>, r: string)
    ensures r in FullMap(t, views, plans) <==> Entry(t, views, plans, r).Some?
    ensures r in FullMap(t, views, plans) ==> Entry(t, views, plans, r) == Some(FullMap(t, views, plans)[r])
  {
    BaseMapLookup(t, r);
    assert DnsEntries(t, views) == DnsEntries(Template([], t.dns, []), views);
    assert DhcpEntries(t, plans) == DhcpEntries(Template([], [], t.dhcp), plans);
    LastDns(t.dns, views, r);
    LastDhcp(t.dhcp, plans, r);
    OverwriteLookup(BaseMap(t), DnsEntries(t, views), r);
    OverwriteLookup(Overwrite(BaseMap(t), DnsEntries(t, views)), DhcpEntries(t, plans), r);
  }

  lemma {:induction false} BaseMapLookup(t: Template, r: string)
    ensures r in BaseMap(t) <==> Entry(t, [], [], r).Some?
    ensures r in BaseMap(t) ==> Entry(t, [], [], r) == Some(BaseMap(t)[r])
  {
    assert DnsEntries(t, []) == DnsEntries(Template([], t.dns, []), []);
    assert DhcpEntries(t, []) == DhcpEntries(Template([], [], t.dhcp), []);
    LastDns(t.dns, [], r);
    LastDhcp(t.dhcp, [], r);
    var m0 := Overwrite(map[], t.base);
    OverwriteLookup(map[], t.base, r);
    OverwriteLookup(m0, DnsEntries(t, []), r);
    OverwriteLookup(Overwrite(m0, DnsEntries(t, [])), DhcpEntries(t, []), r);
  }

  ghost predicate KeyedByResource(m: map<string, RoleAuthority>) {
    forall r :: r in m ==> m[r].resource == r
  }

  lemma {:induction false} EntryResource(t: Template, views: seq<string>, plans: seq<string>, r: string)
    requires Entry(t, views, plans, r).Some?
    ensures Entry(t, views, plans, r).value.resource == r
  {
    OverwriteLookup(map[], t.dhcp, r);
    OverwriteLookup(map[], t.dns, r);
    OverwriteLookup(map[], t.base, r);
  }

  /** Every entry is stored under its own resource name. */
  lemma {:induction false} FullMapIsKeyed(t: Template, views: seq<string>, plans: seq<string>)
    ensures KeyedByResource(FullMap(t, views, plans))
  {
    forall r | r in FullMap(t, views, plans) ensures FullMap(t, views, plans)[r].resource == r {
      FullMapLookup(t, views, plans, r);
      EntryResource(t, views, plans, r);
    }
  }

  /** The early return for a user without roles agrees with the general path at an empty view list. */
  lemma {:induction false} NoRolesIsNoViews(t: Template)
    ensures BaseMap(t) == FullMap(t, [], [])
  {
    forall r
      ensures r in BaseMap(t) <==> r in FullMap(t, [], [])
      ensures r in BaseMap(t) ==> BaseMap(t)[r] == FullMap(t, [], [])[r]
    {
      BaseMapLookup(t, r);
      FullMapLookup(t, [], [], r);
    }
  }

  // ---------- the decision ----------

  datatype Request = Request(resourceType: string, id: string, ancestors: seq<string>, verb: string)

  predicate ViewMatches(req: Request, view: string) {
    view == req.id || view in req.ancestors
  }

  predicate ViewAllows(req: Request, views: seq<string>) {
    req.id == "" || |views| == 0 || exists v :: v in views && ViewMatches(req, v)
  }

  method CheckView(req: Request, views: seq<string>) returns (ok: bool)
    ensures ok == ViewAllows(req, views)
  {
    if req.id == "" || |views| == 0 {
      return true;
    }
    for i := 0 to |views|
      invariant forall k :: 0 <= k < i ==> !ViewMatches(req, views[k])
    {
      if views[i] == req.id {
        assert ViewMatches(req, views[i]);
        return true;
      }
      for j := 0 to |req.ancestors|
        invariant forall k :: 0 <= k < j ==> req.ancestors[k] != views[i]
      {
        if req.ancestors[j] == views[i] {
          assert ViewMatches(req, views[i]);
          return true;
        }
      }
    }
    return false;
  }

  predicate EntryAllows(a: RoleAuthority, req: Request) {
    a.resource == req.resourceType && req.verb in a.operations && ViewAllows(req, a.views)
  }

  ghost predicate Allows(m: map<string, RoleAuthority>, req: Request) {
    exists r :: r in m && EntryAllows(m[r], req)
  }

  /**
   The answer is the same for every iteration order; on a map keyed by resource the views passed on to later
   filters are those of the one matching entry.
   */
  method CheckAuthority(m: map<string, RoleAuthority>, req: Request)
      returns (haveAuthority: bool, plans: Option<seq<string>>, views: Option<seq<string>>)
    ensures haveAuthority <==> Allows(m, req)
    ensures views.Some? <==> haveAuthority
    ensures haveAuthority && KeyedByResource(m) ==>
      req.resourceType in m && views == Some(m[req.resourceType].views) && plans == Some(m[req.resourceType].plans)
  {
    haveAuthority, plans, views := false, None, None;
    var left := m.Keys;
    while left != {}
      invariant left <= m.Keys
      invariant !haveAuthority && views.None?
      invariant forall r :: r in m && r !in left ==> !EntryAllows(m[r], req)
      decreases |left|
    {
      var r :| r in left;
      left := left - {r};
      var authority := m[r];
      if authority.resource == req.resourceType {
        for i := 0 to |authority.operations|
          invariant !haveAuthority
          invariant forall k :: 0 <= k < i ==> authority.operations[k] != req.verb
        {
          if authority.operations[i] == req.verb {
            haveAuthority := true;
            break;
          }
        }
        if haveAuthority {
          plans := Some(authority.plans);
          haveAuthority := CheckView(req, authority.views);
          if haveAuthority {
            views := Some(authority.views);
            assert EntryAllows(m[r], req);
            return;
          }
        }
      }
    }
  }

  /**
   The rule of the design document in terms of the template and the sets of views and plans: a filtered resource
   gains all five operations once the user has a view (DNS) or a plan (address management), and is GET only before.
   */
  predicate DocumentedRule(t: Template, views: set<string>, plans: set<string>, req: Request) {
    var r := req.resourceType;
    if LastOf(t.dhcp, r).Some? then
      var a := LastOf(t.dhcp, r).value;
      && a.resource == r
      && req.verb in (if !a.filter then a.operations else if plans == {} then [GET] else ALL_OPERATIONS)
      && ViewAllows(req, a.views)
    else if LastOf(t.dns, r).Some? then
      var a := LastOf(t.dns, r).value;
      && a.resource == r
      && req.verb in (if !a.filter then a.operations else if views == {} then [GET] else ALL_OPERATIONS)
      && (req.id == "" || views == {} || exists v :: v in views && ViewMatches(req, v))
    else LastOf(t.base, r).Some? && EntryAllows(LastOf(t.base, r).value, req)
  }

  /** The rule the code follows: that of a user without plans. */
  predicate Rule(t: Template, views: set<string>, req: Request) {
    DocumentedRule(t, views, {}, req)
  }

  lemma {:induction false} AllowsEntry(t: Template, views: seq<string>, plans: seq<string>, req: Request)
    ensures Allows(FullMap(t, views, plans), req) <==>
      var e := Entry(t, views, plans, req.resourceType);
      e.Some? && EntryAllows(e.value, req)
  {
    FullMapIsKeyed(t, views, plans);
    FullMapLookup(t, views, plans, req.resourceType);
  }

  lemma {:induction false} NoElements(s: seq<string>)
    ensures Elements(s) == {} <==> |s| == 0
  {
    if |s| > 0 {
      assert s[0] in Elements(s);
    }
  }

  /** The map built from views and plans follows the documented rule: the decision depends on the two sets only. */
  lemma {:induction false} MapFollowsRule(t: Template, views: seq<string>, plans: seq<string>, req: Request)
    ensures Allows(FullMap(t, views, plans), req) <==> DocumentedRule(t, Elements(views), Elements(plans), req)
  {
    AllowsEntry(t, views, plans, req);
    NoElements(views);
    NoElements(plans);
  }

  lemma {:induction false} DecisionIsRule(t: Template, views: seq<string>, req: Request)
    ensures Allows(FullMap(t, views, []), req) <==> Rule(t, Elements(views), req)
  {
    MapFollowsRule(t, views, [], req);
    NoElements([]);
  }

  predicate AnyOperation(verb: string) {
    verb == "GET" || verb == "PUT" || verb == "POST" || verb == "DELETE" || verb == "ACTION"
  }

  /**
   A filtered DNS resource: with no view only GET is allowed, with views all five operations on a resource that
   has no id, is a view of the user, or lies below one.
   */
  lemma {:induction false} FilteredDnsRule(t: Template, v: set<string>, req: Request)
    requires LastOf(t.dhcp, req.resourceType).None?
    requires LastOf(t.dns, req.resourceType).Some? && LastOf(t.dns, req.resourceType).value.filter
    ensures Rule(t, v, req) <==>
      || (v == {} && req.verb == "GET")
      || (v != {} && AnyOperation(req.verb)
          && (req.id == "" || req.id in v || exists a :: a in req.ancestors && a in v))
  {
    OverwriteLookup(map[], t.dns, req.resourceType);
    if a :| a in req.ancestors && a in v {
      assert ViewMatches(req, a);
    }
    if req.id in v {
      assert ViewMatches(req, req.id);
    }
  }

  /** The verbs: GET alone, or all five. */
  lemma {:induction false} VerbsSpelled(verb: string)
    ensures GET == "GET"
    ensures verb in ALL_OPERATIONS <==>
      verb == "GET" || verb == "PUT" || verb == "POST" || verb == "DELETE" || verb == "ACTION"
  {
  }

  /** A resource of neither DNS nor DHCP is decided by its base entry alone, and refused without one. */
  lemma {:induction false} BaseResourceRule(t: Template, v: set<string>, req: Request)
    requires LastOf(t.dhcp, req.resourceType).None? && LastOf(t.dns, req.resourceType).None?
    ensures Rule(t, v, req) <==>
      && LastOf(t.base, req.resourceType).Some?
      && var a := LastOf(t.base, req.resourceType).value;
         && req.verb in a.operations
         && (|req.id| == 0 || |a.views| == 0 || req.id in a.views || exists x :: x in req.ancestors && x in a.views)
  {
    OverwriteLookup(map[], t.base, req.resourceType);
    if LastOf(t.base, req.resourceType).Some? {
      var a := LastOf(t.base, req.resourceType).value;
      if x :| x in req.ancestors && x in a.views {
        assert ViewMatches(req, x);
      }
      if req.id in a.views {
        assert ViewMatches(req, req.id);
      }
    }
  }

  /**
   The views and plans of the matching entry, which later filters use: a DNS resource passes on the user's views, a
   DHCP resource the given plans, and each keeps the configured other list; the base entries pass on their own.
   */
  lemma {:induction false} PassedOn(t: Template, views: seq<string>, plans: seq<string>, r: string)
    requires r in FullMap(t, views, plans)
    ensures var a := FullMap(t, views, plans)[r];
      if LastOf(t.dhcp, r).Some? then a.plans == plans && a.views == LastOf(t.dhcp, r).value.views
      else if LastOf(t.dns, r).Some? then a.views == views && a.plans == LastOf(t.dns, r).value.plans
      else LastOf(t.base, r) == Some(a)
  {
    FullMapLookup(t, views, plans, r);
  }

  // ---------- when views matter ----------

  /** A DNS entry in force whose decisions look at the views: filtered, or with some operation to grant. */
  predicate LooksAtViews(t: Template, r: string) {
    && LastOf(t.dhcp, r).None? && LastOf(t.dns, r).Some?
    && (LastOf(t.dns, r).value.filter || LastOf(t.dns, r).value.operations != [])
  }

  ghost predicate DecideAlike(t: Template, v1: set<string>, v2: set<string>) {
    forall req :: Rule(t, v1, req) <==> Rule(t, v2, req)
  }

  /** A request below `v`, or below no view at all, that tells the two sets apart. */
  lemma {:induction false} TellApart(t: Template, r: string, v1: set<string>, v2: set<string>, v: string)
      returns (req: Request)
    requires LooksAtViews(t, r) && v in v1 && v !in v2
    ensures !(Rule(t, v1, req) <==> Rule(t, v2, req))
  {
    OverwriteLookup(map[], t.dns, r);
    var a := LastOf(t.dns, r).value;
    var verb := if a.filter then "PUT" else a.operations[0];
    if v2 == {} && !a.filter {
      var id := FreshName(v1 + {""});
      req := Request(r, id, [], verb);
    } else {
      var id := FreshName(v2 + {""});
      req := Request(r, id, [v], verb);
      assert ViewMatches(req, v);
    }
  }

  /** Two view sets decide all requests alike exactly when they are equal, or no entry in force looks at views. */
  lemma {:induction false} DecideAlikeIff(t: Template, v1: set<string>, v2: set<string>)
    ensures DecideAlike(t, v1, v2) <==> v1 == v2 || forall r :: !LooksAtViews(t, r)
  {
    if v1 != v2 {
      if r :| LooksAtViews(t, r) {
        if v :| v in v1 && v !in v2 {
          var req := TellApart(t, r, v1, v2, v);
        } else {
          var v :| v in v2 && v !in v1;
          var req := TellApart(t, r, v2, v1, v);
        }
      } else {
        forall req ensures Rule(t, v1, req) <==> Rule(t, v2, req) {
          assert !LooksAtViews(t, req.resourceType);
        }
      }
    }
  }

  // ---------- when plans would matter ----------

  predicate LooksAtPlans(t: Template, r: string) {
    LastOf(t.dhcp, r).Some? && LastOf(t.dhcp, r).value.filter
  }

  /**
   Leaving the plans out never allows more. It refuses a request the documented rule allows exactly when the user
   has a plan, the resource is filtered by plans, and the verb is one of the four that write.
   */
  lemma {:induction false} RefusedWithoutPlans(t: Template, views: set<string>, plans: set<string>, req: Request)
    ensures Rule(t, views, req) ==> DocumentedRule(t, views, plans, req)
    ensures DocumentedRule(t, views, plans, req) && !Rule(t, views, req) <==>
      && plans != {} && LooksAtPlans(t, req.resourceType)
      && AnyOperation(req.verb) && req.verb != GET
      && ViewAllows(req, LastOf(t.dhcp, req.resourceType).value.views)
  {
    OverwriteLookup(map[], t.dhcp, req.resourceType);
  }

  /** The code keeps the documented rule for all requests exactly without plans or without resources they filter. */
  lemma {:induction false} DocumentedRuleKeptIff(t: Template, views: set<string>, plans: set<string>)
    ensures (forall req :: Rule(t, views, req) <==> DocumentedRule(t, views, plans, req))
       <==> plans == {} || forall r :: !LooksAtPlans(t, r)
  {
    forall req: Request
      ensures plans == {} || !LooksAtPlans(t, req.resourceType) ==>
        (Rule(t, views, req) <==> DocumentedRule(t, views, plans, req))
    {
      RefusedWithoutPlans(t, views, plans, req);
    }
    if plans != {} {
      if r :| LooksAtPlans(t, r) {
        var req := Request(r, "", [], "PUT");
        RefusedWithoutPlans(t, views, plans, req);
      }
    }
  }

  /** So a filtered DHCP resource is GET only. */
  lemma {:induction false} FilteredDhcpRule(t: Template, views: set<string>, req: Request)
    requires LooksAtPlans(t, req.resourceType)
    ensures Rule(t, views, req) <==> req.verb == GET && ViewAllows(req, LastOf(t.dhcp, req.resourceType).value.views)
  {
    OverwriteLookup(map[], t.dhcp, req.resourceType);
  }
}
