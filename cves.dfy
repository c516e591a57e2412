/** The CVE and condition columns of a consolidated row: a search for the
    pattern `CVE-\d{4}-\d+` in each condition, the de-duplicated list of
    ids found, and the nested `extract_cve_info` loop over constraints. */
module Cves {
  import opened Wrappers
  import opened Strings
  import opened Records

  predicate IsDigit(c: char) { '0' <= c <= '9' }

  /** The pattern `CVE-\d{4}-\d+` can match starting at index `i`. */
  predicate MatchesAt(s: string, i: nat) {
    && i + 10 <= |s|
    && s[i..i + 4] == "CVE-"
    && IsDigit(s[i + 4]) && IsDigit(s[i + 5]) && IsDigit(s[i + 6]) && IsDigit(s[i + 7])
    && s[i + 8] == '-'
    && IsDigit(s[i + 9])
  }

  /** Text the whole pattern matches: `CVE-`, four digits, `-`, one or more digits. */
  predicate IsCveId(c: string) {
    && MatchesAt(c, 0)
    && forall k :: 9 <= k < |c| ==> IsDigit(c[k])
  }

  /** The end of the run of digits starting at `k` (greedy `\d+`). */
  function DigitRunEnd(s: string, k: nat): (j: nat)
    requires k <= |s|
    ensures k <= j <= |s|
    ensures forall m :: k <= m < j ==> IsDigit(s[m])
    ensures j < |s| ==> !IsDigit(s[j])
    decreases |s| - k
  {
    if k < |s| && IsDigit(s[k]) then DigitRunEnd(s, k + 1) else k
  }

  /** The leftmost index at or after `i` where the pattern matches. */
  function FirstMatchFrom(s: string, i: nat): (p: Option<nat>)
    requires i <= |s|
    ensures p.Some? ==> i <= p.value && MatchesAt(s, p.value)
    ensures p.Some? ==> forall q :: i <= q < p.value ==> !MatchesAt(s, q)
    ensures p.None? ==> forall q :: i <= q ==> !MatchesAt(s, q)
    decreases |s| - i
  {
    if MatchesAt(s, i) then Some(i)
    else if i == |s| then None
    else FirstMatchFrom(s, i + 1)
  }

  /** `re.search(r"CVE-\d{4}-\d+", s).group(0)`, if there is a match: the
      match starts at the leftmost place the pattern can match, and its
      digit tail runs as far as the digits go. */
  function SearchCve(s: string): (m: Option<string>)
    ensures m.None? <==> forall q :: !MatchesAt(s, q)
    ensures m.Some? ==> IsCveId(m.value)
  {
    match FirstMatchFrom(s, 0)
    case None => None
    case Some(p) =>
      var j := DigitRunEnd(s, p + 9);
      assert s[p..j][..4] == s[p..p + 4];
      Some(s[p..j])
  }

  /** The match found sits at the leftmost matching index and is not
      followed by a digit. */
  lemma SearchCveIsLeftmostLongest(s: string) returns (p: nat, j: nat)
    requires SearchCve(s).Some?
    ensures MatchesAt(s, p) && forall q: nat :: q < p ==> !MatchesAt(s, q)
    ensures p + 10 <= j <= |s| && SearchCve(s).value == s[p..j]
    ensures j < |s| ==> !IsDigit(s[j])
  {
    p := FirstMatchFrom(s, 0).value;
    j := DigitRunEnd(s, p + 9);
  }

  /** A CVE id has no comma, so the ", "-joined column can be cut back. */
  lemma CveIdHasNoComma(c: string)
    requires IsCveId(c)
    ensures ',' !in c
  {
    assert c[..4] == "CVE-";
    forall k | 0 <= k < |c| ensures c[k] != ',' {
      if k < 4 { assert c[k] == "CVE-"[k]; }
    }
  }

  /** The CVE id a condition contributes: the first match in
      `conditionSummary + " " + conditionReason` (missing texts read as ""). */
  function ConditionCve(c: Condition): Option<string> {
    SearchCve(c.conditionSummary.GetOr("") + " " + c.conditionReason.GetOr(""))
  }

  /** The CVE ids of a constraint's conditions, each kept once, in the
      order they are first seen. */
  function CveIds(conds: seq<Condition>): (ids: seq<string>)
    ensures |ids| <= |conds|
    ensures forall a, b :: 0 <= a < b < |ids| ==> ids[a] != ids[b]
    ensures forall a :: 0 <= a < |ids| ==> IsCveId(ids[a])
  {
    if conds == [] then []
    else
      var prev := CveIds(conds[..|conds| - 1]);
      var m := ConditionCve(conds[|conds| - 1]);
      if m.Some? && m.value !in prev then prev + [m.value] else prev
  }

  /** An id is listed exactly when some condition contributes it. */
  lemma {:induction false} CveIdsListsEveryMatch(conds: seq<Condition>, m: string)
    ensures m in CveIds(conds) <==> exists k :: 0 <= k < |conds| && ConditionCve(conds[k]) == Some(m)
  {
    if conds != [] {
      var init := conds[..|conds| - 1];
      CveIdsListsEveryMatch(init, m);
      assert forall k :: 0 <= k < |init| ==> init[k] == conds[k];
      if ConditionCve(conds[|conds| - 1]) == Some(m) {
        assert m in CveIds(conds);
      }
    }
  }

  /** Later conditions only add ids at the end: the ids of a prefix of the
      conditions are a prefix of the ids of all of them. */
  lemma {:induction false} CveIdsFirstSeenOrder(conds: seq<Condition>, n: nat)
    requires n <= |conds|
    ensures CveIds(conds[..n]) <= CveIds(conds)
    decreases |conds| - n
  {
    if n < |conds| {
      var init := conds[..|conds| - 1];
      assert init[..n] == conds[..n];
      CveIdsFirstSeenOrder(init, n);
      assert conds[..|conds|] == conds;
    } else {
      assert conds[..n] == conds;
    }
  }

  /** The text a condition contributes: its reason when non-empty, else its
      summary when non-empty, else nothing. */
  function ConditionText(c: Condition): (t: Option<string>)
    ensures t.Some? ==> t.value != ""
  {
    var summary := c.conditionSummary.GetOr("");
    var reason := c.conditionReason.GetOr("");
    if reason != "" then Some(reason) else if summary != "" then Some(summary) else None
  }

  /** The texts of the conditions, in order, skipping conditions with none. */
  function ConditionParts(conds: seq<Condition>): (parts: seq<string>)
    ensures |parts| <= |conds|
    ensures forall k :: 0 <= k < |parts| ==> parts[k] != ""
  {
    if conds == [] then []
    else
      var prev := ConditionParts(conds[..|conds| - 1]);
      match ConditionText(conds[|conds| - 1])
      case None => prev
      case Some(t) => prev + [t]
  }

  datatype CveInfo = CveInfo(cveId: string, condition: string, constraintName: string)

  /** The three columns one constraint yields. */
  function ConstraintInfo(k: Constraint): CveInfo {
    var conds := k.conditions.GetOr([]);
    CveInfo(Join(CveIds(conds), ", "), Join(ConditionParts(conds), " | "), k.constraintName.GetOr(""))
  }

  /** The columns a violation's constraints yield: three empty strings for
      no constraint, else those of the last constraint alone. */
  function CveInfoOf(ks: seq<Constraint>): CveInfo {
    if ks == [] then CveInfo("", "", "") else ConstraintInfo(ks[|ks| - 1])
  }

  /** `extract_cve_info`: every constraint overwrites the three columns, so
      only the last one's name, CVE ids and condition text survive. */
  method ExtractCveInfo(constraints: seq<Constraint>) returns (info: CveInfo)
    ensures constraints == [] ==> info == CveInfo("", "", "")
    ensures constraints != [] ==> info == ConstraintInfo(constraints[|constraints| - 1])
  {
    info := CveInfo("", "", "");
    for i := 0 to |constraints|
      invariant i == 0 ==> info == CveInfo("", "", "")
      invariant i > 0 ==> info == ConstraintInfo(constraints[i - 1])
    {
      var constraint := constraints[i];
      var conditions := constraint.conditions.GetOr([]);
      info := info.(constraintName := constraint.constraintName.GetOr(""));
      var cveIds: seq<string> := [];
      var parts: seq<string> := [];
      for j := 0 to |conditions|
        invariant cveIds == CveIds(conditions[..j])
        invariant parts == ConditionParts(conditions[..j])
      {
        var condition := conditions[j];
        var summary := condition.conditionSummary.GetOr("");
        var reason := condition.conditionReason.GetOr("");
        var found := SearchCve(summary + " " + reason);
        assert conditions[..j + 1][..j] == conditions[..j];
        if found.Some? && found.value !in cveIds {
          cveIds := cveIds + [found.value];
        }
        if reason != "" {
          parts := parts + [reason];
        } else if summary != "" {
          parts := parts + [summary];
        }
      }
      assert conditions[..|conditions|] == conditions;
      info := info.(cveId := Join(cveIds, ", "), condition := Join(parts, " | "));
    }
  }

  /** The CVE column is empty exactly when no condition names a CVE, and
      otherwise cutting it at ", " gives back the de-duplicated ids. */
  lemma CveColumnLists(conds: seq<Condition>)
    ensures Join(CveIds(conds), ", ") == "" <==> CveIds(conds) == []
    ensures CveIds(conds) != [] ==> Split(Join(CveIds(conds), ", "), ", ") == CveIds(conds)
  {
    var ids := CveIds(conds);
    if ids != [] {
      forall k | 0 <= k < |ids| ensures ", "[0] !in ids[k] {
        CveIdHasNoComma(ids[k]);
      }
      SplitJoin(ids, ", ");
      assert |ids[0]| >= 10;
      JoinStartsWithHead(ids, ", ");
    }
  }

  lemma JoinStartsWithHead(xs: seq<string>, sep: string)
    requires xs != []
    ensures |Join(xs, sep)| >= |xs[0]|
  {
  }
}
