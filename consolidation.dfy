/** `consolidate_reports_to_csv`: the flattening of the loaded violation
    payloads (application, components, violations) into numbered rows of
    the consolidated CSV. The CSV file is the returned row sequence. */
module Consolidation {
  import opened Wrappers
  import opened Records
  import opened Orgs
  import opened Severity
  import opened Cves
  import opened Permutations

  /** The columns of one CSV row after `No.`. */
  datatype Entry = Entry(
    application: string,
    organization: string,
    policy: string,
    component: string,
    threat: int,
    policyAction: string,
    constraintName: string,
    condition: string,
    cve: string)

  /** A CSV row: its `No.` and the other columns. */
  datatype Row = Row(no: nat, entry: Entry)

  /** What the first pass keeps of a payload: the application's public id
      ("unknown" when missing), the organization name and the components. */
  datatype AppRow = AppRow(appId: string, orgName: string, components: seq<Component>)

  function AppRowOf(orgMap: map<string, string>, p: Payload): AppRow {
    var app := p.application.GetOr(AppSection(None, None));
    AppRow(app.publicId.GetOr("unknown"), OrgName(orgMap, app.organizationId), p.components.GetOr([]))
  }

  /** What a row is made of: the application's public id and organization
      name, the component's name and one of the component's violations. */
  datatype Source = Source(appId: string, orgName: string, componentName: string, violation: Violation)

  /** The columns of the row of one violation. */
  function ViolationEntry(s: Source): Entry {
    var v := s.violation;
    var t := ThreatLevel(v.policyThreatLevel);
    var info := CveInfoOf(v.constraints.GetOr([]));
    Entry(s.appId, s.orgName, v.policyName.GetOr(""), s.componentName, t,
          PolicyAction(v.policyThreatCategory, t), info.constraintName, info.condition, info.cveId)
  }

  /** One row per violation of a component, in violation order. */
  function ViolationSources(appId: string, orgName: string, componentName: string, vs: seq<Violation>): (ss: seq<Source>)
    ensures |ss| == |vs|
    ensures forall k :: 0 <= k < |vs| ==> ss[k] == Source(appId, orgName, componentName, vs[k])
  {
    seq(|vs|, k requires 0 <= k < |vs| => Source(appId, orgName, componentName, vs[k]))
  }

  /** The rows of one component; a component without violations has none. */
  function ComponentSources(appId: string, orgName: string, c: Component): seq<Source> {
    ViolationSources(appId, orgName, c.displayName.GetOr(""), c.violations.GetOr([]))
  }

  /** The rows of a list of components, component after component. */
  function ComponentsSources(appId: string, orgName: string, cs: seq<Component>): seq<Source> {
    if cs == [] then []
    else ComponentsSources(appId, orgName, cs[..|cs| - 1]) + ComponentSources(appId, orgName, cs[|cs| - 1])
  }

  /** The rows one payload contributes. */
  function PayloadSources(orgMap: map<string, string>, p: Payload): seq<Source> {
    var r := AppRowOf(orgMap, p);
    ComponentsSources(r.appId, r.orgName, r.components)
  }

  /** The rows of a list of payloads, payload after payload. */
  function Sources(orgMap: map<string, string>, ps: seq<Payload>): seq<Source> {
    if ps == [] then []
    else Sources(orgMap, ps[..|ps| - 1]) + PayloadSources(orgMap, ps[|ps| - 1])
  }

  /** The columns of the rows of a list of payloads, in order. */
  function Entries(orgMap: map<string, string>, ps: seq<Payload>): seq<Entry> {
    Map(ViolationEntry, Sources(orgMap, ps))
  }

  /** Rows numbered from 1 in order. */
  function Numbered(es: seq<Entry>): seq<Row> {
    seq(|es|, k requires 0 <= k < |es| => Row(k + 1, es[k]))
  }

  /** The CSV's rows for a list of payloads: the entries numbered from 1,
      or no CSV when there is no entry. */
  function ConsolidatedRows(orgMap: map<string, string>, reports: seq<Payload>): Option<seq<Row>> {
    var es := Entries(orgMap, reports);
    if es == [] then None else Some(Numbered(es))
  }

  /** The number of violations of a list of components. */
  function ViolationCount(cs: seq<Component>): nat {
    if cs == [] then 0 else ViolationCount(cs[..|cs| - 1]) + |cs[|cs| - 1].violations.GetOr([])|
  }

  /** The number of violations in a list of payloads. */
  function TotalViolations(ps: seq<Payload>): nat {
    if ps == [] then 0 else TotalViolations(ps[..|ps| - 1]) + ViolationCount(ps[|ps| - 1].components.GetOr([]))
  }

  // ---------------------------------------------------------------------
  // Properties of the flattening

  /** Every row of an application's components carries the application's
      id and organization name. */
  lemma {:induction false} ComponentsSourcesCarryApp(appId: string, orgName: string, cs: seq<Component>)
    ensures forall k :: 0 <= k < |ComponentsSources(appId, orgName, cs)| ==>
      ComponentsSources(appId, orgName, cs)[k].appId == appId
      && ComponentsSources(appId, orgName, cs)[k].orgName == orgName
  {
    if cs != [] {
      var init := ComponentsSources(appId, orgName, cs[..|cs| - 1]);
      var last := ComponentSources(appId, orgName, cs[|cs| - 1]);
      ComponentsSourcesCarryApp(appId, orgName, cs[..|cs| - 1]);
      assert forall k :: |init| <= k < |init + last| ==> (init + last)[k] == last[k - |init|];
    }
  }

  /** The payloads' rows split at any point between two payloads. */
  lemma {:induction false} SourcesConcat(orgMap: map<string, string>, ps: seq<Payload>, qs: seq<Payload>)
    ensures Sources(orgMap, ps + qs) == Sources(orgMap, ps) + Sources(orgMap, qs)
    decreases |qs|
  {
    if qs == [] {
      assert ps + qs == ps;
    } else {
      var init := qs[..|qs| - 1];
      assert (ps + qs)[..|ps + qs| - 1] == ps + init;
      assert (ps + qs)[|ps + qs| - 1] == qs[|qs| - 1];
      SourcesConcat(orgMap, ps, init);
    }
  }

  lemma OneSources(orgMap: map<string, string>, p: Payload)
    ensures Sources(orgMap, [p]) == PayloadSources(orgMap, p)
  {
    assert [p][..0] == [];
  }

  /** Payload lists with the same elements give the same multiset of rows. */
  lemma {:induction false} SourcesPermutation(orgMap: map<string, string>, ps: seq<Payload>, qs: seq<Payload>)
    requires multiset(ps) == multiset(qs)
    ensures multiset(Sources(orgMap, ps)) == multiset(Sources(orgMap, qs))
    decreases |ps|
  {
    if ps == [] {
      assert |qs| == |multiset(qs)| == 0;
    } else {
      var n := |ps| - 1;
      var x := ps[n];
      var i := PickLast(ps, qs);
      SourcesPermutation(orgMap, ps[..n], qs[..i] + qs[i + 1..]);
      SourcesConcat(orgMap, qs[..i], qs[i + 1..]);
      SourcesConcat(orgMap, qs[..i] + [x], qs[i + 1..]);
      SourcesConcat(orgMap, qs[..i], [x]);
      SourcesConcat(orgMap, ps[..n], [x]);
      OneSources(orgMap, x);
    }
  }

  /** The rows keep payload order: the entries of two payload lists placed
      end to end are the two lists of entries end to end. */
  lemma EntriesConcat(orgMap: map<string, string>, ps: seq<Payload>, qs: seq<Payload>)
    ensures Entries(orgMap, ps + qs) == Entries(orgMap, ps) + Entries(orgMap, qs)
  {
    SourcesConcat(orgMap, ps, qs);
    MapConcat(ViolationEntry, Sources(orgMap, ps), Sources(orgMap, qs));
  }

  /** The rows do not depend on the order of the payloads up to
      reordering: payload lists with the same elements give the same
      multiset of row columns. */
  lemma EntriesPermutation(orgMap: map<string, string>, ps: seq<Payload>, qs: seq<Payload>)
    requires multiset(ps) == multiset(qs)
    ensures multiset(Entries(orgMap, ps)) == multiset(Entries(orgMap, qs))
  {
    SourcesPermutation(orgMap, ps, qs);
    MapPermutation(ViolationEntry, Sources(orgMap, ps), Sources(orgMap, qs));
  }

  /** One row per violation of a list of components. */
  lemma {:induction false} ComponentsRowCount(appId: string, orgName: string, cs: seq<Component>)
    ensures |ComponentsSources(appId, orgName, cs)| == ViolationCount(cs)
  {
    if cs != [] {
      ComponentsRowCount(appId, orgName, cs[..|cs| - 1]);
    }
  }

  /** One row per violation of all payloads together. */
  lemma {:induction false} SourcesCount(orgMap: map<string, string>, ps: seq<Payload>)
    ensures |Sources(orgMap, ps)| == TotalViolations(ps)
  {
    if ps != [] {
      SourcesCount(orgMap, ps[..|ps| - 1]);
      var r := AppRowOf(orgMap, ps[|ps| - 1]);
      ComponentsRowCount(r.appId, r.orgName, r.components);
    }
  }

  /** A CSV is written exactly when some payload has a violation; it has
      one row per violation, the row at index k numbered k + 1 and holding
      the k-th entry. */
  lemma ConsolidatedRowsNumbering(orgMap: map<string, string>, reports: seq<Payload>)
    ensures ConsolidatedRows(orgMap, reports).Some? <==> TotalViolations(reports) > 0
    ensures ConsolidatedRows(orgMap, reports).Some? ==>
      var rows := ConsolidatedRows(orgMap, reports).value;
      && |rows| == TotalViolations(reports)
      && forall k :: 0 <= k < |rows| ==> rows[k].no == k + 1 && rows[k].entry == Entries(orgMap, reports)[k]
  {
    SourcesCount(orgMap, reports);
  }

  lemma NumberedSnoc(es: seq<Entry>, e: Entry)
    ensures Numbered(es + [e]) == Numbered(es) + [Row(|es| + 1, e)]
  {
    assert forall k :: 0 <= k < |es| ==> (es + [e])[k] == es[k];
  }

  lemma ComponentsSourcesSnoc(appId: string, orgName: string, cs: seq<Component>, j: nat)
    requires j < |cs|
    ensures ComponentsSources(appId, orgName, cs[..j + 1])
      == ComponentsSources(appId, orgName, cs[..j]) + ComponentSources(appId, orgName, cs[j])
  {
    assert cs[..j + 1][..j] == cs[..j];
  }

  lemma SourcesSnoc(orgMap: map<string, string>, ps: seq<Payload>, i: nat)
    requires i < |ps|
    ensures Sources(orgMap, ps[..i + 1]) == Sources(orgMap, ps[..i]) + PayloadSources(orgMap, ps[i])
  {
    assert ps[..i + 1][..i] == ps[..i];
  }

  // ---------------------------------------------------------------------
  // The loops of the consolidation

  /** The first pass: application id, organization name and components of
      each payload. */
  method CollectAppRows(orgMap: map<string, string>, reports: seq<Payload>) returns (appRows: seq<AppRow>)
    ensures |appRows| == |reports|
    ensures forall k :: 0 <= k < |reports| ==> appRows[k] == AppRowOf(orgMap, reports[k])
  {
    appRows := [];
    for i := 0 to |reports|
      invariant |appRows| == i
      invariant forall k :: 0 <= k < i ==> appRows[k] == AppRowOf(orgMap, reports[k])
    {
      var data := reports[i];
      var app := data.application.GetOr(AppSection(None, None));
      var appId := app.publicId.GetOr("unknown");
      var orgName := OrgName(orgMap, app.organizationId);
      var components := data.components.GetOr([]);
      appRows := appRows + [AppRow(appId, orgName, components)];
    }
  }

  /** The innermost loop: one row per violation of a component, each
      numbered one more than the number of rows so far. */
  method AppendViolationRows(ghost done: seq<Source>, rows: seq<Row>, appId: string, orgName: string,
                             componentName: string, violations: seq<Violation>)
    returns (rows': seq<Row>)
    requires rows == Numbered(Map(ViolationEntry, done))
    ensures rows' == Numbered(Map(ViolationEntry, done + ViolationSources(appId, orgName, componentName, violations)))
  {
    rows' := rows;
    for k := 0 to |violations|
      invariant rows' == Numbered(Map(ViolationEntry, done + ViolationSources(appId, orgName, componentName, violations[..k])))
    {
      var violation := violations[k];
      var threat := violation.policyThreatLevel.GetOr(0);
      var info := ExtractCveInfo(violation.constraints.GetOr([]));
      var action := PolicyAction(violation.policyThreatCategory, threat);
      var entry := Entry(appId, orgName, violation.policyName.GetOr(""), componentName, threat,
                         action, info.constraintName, info.condition, info.cveId);
      ghost var source := Source(appId, orgName, componentName, violation);
      assert entry == ViolationEntry(source);
      ghost var before := done + ViolationSources(appId, orgName, componentName, violations[..k]);
      assert done + ViolationSources(appId, orgName, componentName, violations[..k + 1]) == before + [source];
      MapConcat(ViolationEntry, before, [source]);
      NumberedSnoc(Map(ViolationEntry, before), entry);
      rows' := rows' + [Row(|rows'| + 1, entry)];
    }
    assert violations[..|violations|] == violations;
  }

  /** The loop over one application's components: the rows of each
      component with violations, appended in component order. */
  method AppendComponentRows(ghost done: seq<Source>, rows: seq<Row>, appId: string, orgName: string,
                             components: seq<Component>)
    returns (rows': seq<Row>)
    requires rows == Numbered(Map(ViolationEntry, done))
    ensures rows' == Numbered(Map(ViolationEntry, done + ComponentsSources(appId, orgName, components)))
  {
    rows' := rows;
    ghost var acc := done;
    for j := 0 to |components|
      invariant acc == done + ComponentsSources(appId, orgName, components[..j])
      invariant rows' == Numbered(Map(ViolationEntry, acc))
    {
      var c := components[j];
      var componentName := c.displayName.GetOr("");
      var violations := c.violations.GetOr([]);
      ComponentsSourcesSnoc(appId, orgName, components, j);
      if violations == [] {
        assert acc + ComponentSources(appId, orgName, c) == acc;
        continue;
      }
      rows' := AppendViolationRows(acc, rows', appId, orgName, componentName, violations);
      acc := acc + ViolationSources(appId, orgName, componentName, violations);
    }
    assert components[..|components|] == components;
  }

  /** The consolidation: returns the CSV's rows, or nothing when no CSV is
      written (no payload at all, or no violation in any of them). */
  method Consolidate(orgMap: map<string, string>, reports: seq<Payload>) returns (csv: Option<seq<Row>>)
    ensures reports == [] ==> csv == None
    ensures csv == ConsolidatedRows(orgMap, reports)
  {
    if reports == [] {
      return None;
    }
    var appRows := CollectAppRows(orgMap, reports);
    var rows: seq<Row> := [];
    ghost var done: seq<Source> := [];
    for i := 0 to |appRows|
      invariant done == Sources(orgMap, reports[..i]) && rows == Numbered(Map(ViolationEntry, done))
    {
      var AppRow(appId, orgName, components) := appRows[i];
      rows := AppendComponentRows(done, rows, appId, orgName, components);
      done := done + ComponentsSources(appId, orgName, components);
      SourcesSnoc(orgMap, reports, i);
    }
    assert reports[..|reports|] == reports;
    if rows != [] {
      csv := Some(rows);
    } else {
      csv := None;
    }
  }
}
