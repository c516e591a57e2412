/** The records the fetcher exchanges with the server: the three client
    models (applications, organizations, latest-report metadata) and the
    nested violation payload as the consolidation reads it. A field that
    may be missing from the JSON object is an `Option`; fields the fetcher
    never reads are left out. */
module Records {
  import opened Wrappers

  datatype Application = Application(id: string, publicId: string, name: string)

  datatype Organization = Organization(id: string, name: string, parentOrganizationId: Option<string>)

  /** Metadata of an application's most recent report. */
  datatype ReportInfo = ReportInfo(reportId: Option<string>, scanId: Option<string>, reportDataUrl: Option<string>)

  /** The `application` object of a violation payload. */
  datatype AppSection = AppSection(publicId: Option<string>, organizationId: Option<string>)

  datatype Condition = Condition(conditionSummary: Option<string>, conditionReason: Option<string>)

  datatype Constraint = Constraint(constraintName: Option<string>, conditions: Option<seq<Condition>>)

  datatype Violation = Violation(
    policyName: Option<string>,
    policyThreatLevel: Option<int>,
    policyThreatCategory: Option<string>,
    constraints: Option<seq<Constraint>>)

  datatype Component = Component(displayName: Option<string>, violations: Option<seq<Violation>>)

  /** A policy-violation payload: the two keys the consolidation reads,
      and the names of the other top-level keys (which only matter for
      telling an empty object from a non-empty one). */
  datatype Payload = Payload(
    application: Option<AppSection>,
    components: Option<seq<Component>>,
    otherKeys: set<string>)

  /** The payload is the empty JSON object, which Python treats as false. */
  predicate IsEmptyPayload(p: Payload) {
    p.application.None? && p.components.None? && p.otherKeys == {}
  }
}
