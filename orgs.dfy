/** The organization id to name mapping built once when the fetcher starts,
    and the organization name a consolidated row shows. */
module Orgs {
  import opened Wrappers
  import opened Strings
  import opened Records

  /** `{org.id: org.name for org in orgs}`. */
  function NameMap(orgs: seq<Organization>): map<string, string> {
    if orgs == [] then map[]
    else NameMap(orgs[..|orgs| - 1])[orgs[|orgs| - 1].id := orgs[|orgs| - 1].name]
  }

  /** The ids of the name map are exactly the ids of the list. */
  lemma {:induction false} NameMapKeys(orgs: seq<Organization>, k: string)
    ensures k in NameMap(orgs) <==> exists i :: 0 <= i < |orgs| && orgs[i].id == k
  {
    if orgs != [] {
      var init := orgs[..|orgs| - 1];
      NameMapKeys(init, k);
      assert forall i :: 0 <= i < |init| ==> init[i] == orgs[i];
      if orgs[|orgs| - 1].id == k {
        assert k in NameMap(orgs);
      }
    }
  }

  /** An id keeps the name of its last occurrence in the list. */
  lemma {:induction false} NameMapLast(orgs: seq<Organization>, i: nat)
    requires i < |orgs|
    requires forall j :: i < j < |orgs| ==> orgs[j].id != orgs[i].id
    ensures orgs[i].id in NameMap(orgs) && NameMap(orgs)[orgs[i].id] == orgs[i].name
  {
    var init := orgs[..|orgs| - 1];
    if i < |orgs| - 1 {
      assert init[i] == orgs[i];
      assert forall j :: i < j < |init| ==> init[j] == orgs[j];
      NameMapLast(init, i);
    }
  }

  /** `_fetch_org_id_to_name`: the empty mapping when the organization
      request failed or returned no organization, the name map otherwise. */
  function OrgIdToName(orgs: Option<seq<Organization>>): (m: map<string, string>)
    ensures orgs.None? ==> m == map[]
    ensures orgs.Some? ==> m == NameMap(orgs.value)
  {
    if orgs.None? || orgs.value == [] then map[] else NameMap(orgs.value)
  }

  /** The key looked up for a payload: `str(organizationId).strip()`, with
      "unknown" for a missing id. */
  function OrgKey(organizationId: Option<string>): string {
    Strip(organizationId.GetOr("unknown"))
  }

  /** `org_id_to_name.get(k, k)`: the mapped name, or the key itself. */
  function OrgName(m: map<string, string>, organizationId: Option<string>): (name: string)
    ensures OrgKey(organizationId) in m ==> name == m[OrgKey(organizationId)]
    ensures OrgKey(organizationId) !in m ==> name == OrgKey(organizationId)
  {
    var k := OrgKey(organizationId);
    if k in m then m[k] else k
  }

  /** The name shown for an organization id is the name of the last listed
      organization with that (stripped) id. */
  lemma OrgNameOfListed(orgs: seq<Organization>, organizationId: Option<string>, i: nat)
    requires i < |orgs| && orgs[i].id == OrgKey(organizationId)
    requires forall j :: i < j < |orgs| ==> orgs[j].id != orgs[i].id
    ensures OrgName(OrgIdToName(Some(orgs)), organizationId) == orgs[i].name
  {
    NameMapLast(orgs, i);
  }

  /** With no organization of that id, in particular when the organization
      request failed, the name shown is the stripped id itself. */
  lemma OrgNameFallsBack(orgs: Option<seq<Organization>>, organizationId: Option<string>)
    requires orgs.Some? ==> forall i :: 0 <= i < |orgs.value| ==> orgs.value[i].id != OrgKey(organizationId)
    ensures OrgName(OrgIdToName(orgs), organizationId) == OrgKey(organizationId)
  {
    if orgs.Some? {
      NameMapKeys(orgs.value, OrgKey(organizationId));
    }
  }

  /** Entries for the same id later in the list override earlier ones. */
  lemma LaterDuplicateWins(orgs: seq<Organization>, o: Organization)
    ensures o.id in NameMap(orgs + [o]) && NameMap(orgs + [o])[o.id] == o.name
  {
    assert (orgs + [o])[..|orgs|] == orgs;
  }
}
