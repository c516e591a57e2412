# IQ Server raw report fetcher, modelled in Dafny

This project models the core of the raw report fetcher: the class
`RawReportFetcher` in `src/iq_fetcher/fetcher.py`. For every application
the IQ Server knows, the fetcher does the following:

- asks for the metadata of the latest report;
- takes the report id out of it;
- downloads the report's policy-violation payload;
- saves the payload as `{publicId}_{reportId}.json` in the output directory.

After all applications are done, it reloads the saved payloads and writes
one numbered CSV row per policy violation to
`{timestamp}-security_report.csv`, then removes the JSON files.

The modules follow the structure of the code:

- `Records`: the client's record types (`Application`, `ReportInfo`,
  `Organization`) and the nested violation payload, as far as the fetcher
  reads it. Each JSON key that may be missing is an `Option`.
- `Strings`: Python's `str.split`, `str.join`, `str.find`, `str.strip` and,
  for comparison with `SECURITY`, `str.upper`.
- `ReportIds`: `_extract_report_id`. The code splits the URL at
  `/reports/`, takes the second piece, and splits that at `/`. This is
  proved to give the text after the first `/reports/` up to the next `/`.
  When the URL has no such text, the scan id is used, then the report id.
- `Orgs`: `_fetch_org_id_to_name` (the id→name map built when the
  fetcher starts) and the `map.get(k, k)` lookup of a payload's stripped
  organization id.
- `Severity`: the four threat bands and the Policy/Action label.
- `Cves`: the `CVE-\d{4}-\d+` search over each condition's text, the
  de-duplicated id list, the condition text, and `extract_cve_info` as a
  method with nested loops.
- `Consolidation`: `consolidate_reports_to_csv` as methods with nested
  loops. The rows they build are the payloads' violations, flattened and
  numbered.
- `Fetching`: `_fetch_app_report`, and `fetch_all_reports` as methods:
  - the collection loop;
  - the reload loop;
  - the consolidation;
  - the CSV write;
  - the removal loop.
- `Permutations`: the generic steps of the order-independence proofs
  (picking an element out of a reordering, and mapping a function over
  a sequence).

How the environment is modelled:

- **Server answers.** Every answer is an input (a `Server` value). A
  client call that fails, or finds nothing, answers nothing.
- **Thread pool.** Its results are collected in an arbitrary completion
  order. This is any sequence with the same elements as the submitted
  applications.
- **Output directory.** It is a map from paths to files, plus the set of
  paths that cannot be written.
- **Clock.** The CSV file name's timestamp is a parameter.

Since artifacts live in a map, a payload saved at a path and read back
from it is the same payload. When two artifacts share a name, the later
write replaces the earlier one, and the model captures this. It proves:

- Artifact names are distinct when public ids are distinct and contain
  no `_`, so reloading returns exactly the saved payloads.
- Without that condition, `a_b` with report `c` and `a` with report
  `b_c` both write `a_b_c.json`. The later payload is then read back
  twice.

## Model

| member | source | states |
|---|---|---|
| `ReportIds.ReportIdFromUrl` | src/iq_fetcher/fetcher.py:30-34 | with a non-empty URL containing `/reports/`, the id is the text after the first `/reports/` up to the next `/` or the end (possibly empty), whatever the fallbacks hold |
| `ReportIds.ReportIdFallback` | src/iq_fetcher/fetcher.py:35-39 | with the URL absent, empty or lacking `/reports/` (the caught index error), the id is the scan id when non-empty, otherwise the report id as it is |
| `ReportIds.NoReportIdExactly` | src/iq_fetcher/fetcher.py:27-39 | the extracted id is absent or empty exactly when the URL designates an empty segment, or designates none and neither scan id nor report id is non-empty |
| `ReportIds.UrlIdHasNoSlash` | src/iq_fetcher/fetcher.py:32 | an id taken from the URL contains no `/` |
| `ReportIds.SplitsFindSegment` | src/iq_fetcher/fetcher.py:32 | the split at `/reports/` has a second piece iff `/reports/` occurs; the first piece of that piece split at `/` is the text after the first `/reports/` up to the next `/` |
| `ReportIds.UrlSegment` | src/iq_fetcher/fetcher.py:32 | the URL designates a segment exactly when `/reports/` occurs in it |
| `Strings.IndexOf` | src/iq_fetcher/fetcher.py:32 | the index found is the leftmost occurrence of the separator; nothing is found only when it does not occur |
| `Strings.Split` | src/iq_fetcher/fetcher.py:32 | `str.split` always yields at least one piece |
| `Strings.SplitWithout` | src/iq_fetcher/fetcher.py:32 | a string without the separator splits into itself alone |
| `Strings.SplitAtFirst` | src/iq_fetcher/fetcher.py:32 | splitting cuts at the leftmost occurrence and goes on splitting the rest |
| `Strings.SplitHead` | src/iq_fetcher/fetcher.py:32 | the first piece is a prefix that ends where the separator first occurs |
| `Strings.UpTo` | src/iq_fetcher/fetcher.py:32 | the prefix up to a character is a prefix without that character, followed by it unless it is the whole string |
| `Strings.SplitHeadOneChar` | src/iq_fetcher/fetcher.py:32 | the first piece of a split at one character is the text up to that character |
| `Strings.UpToOfPrefix` | src/iq_fetcher/fetcher.py:32 | the text up to a character is the same in a string and in any prefix that already reaches that character |
| `Strings.SecondPieceUpTo` | src/iq_fetcher/fetcher.py:32 | when a separator first occurs at `i`, there is a second piece, and its first piece cut at the separator's first character is the text after `i` up to that character |
| `Strings.Join` | src/iq_fetcher/fetcher.py:280-283 | joining no piece gives "", joining one piece gives that piece |
| `Strings.SplitJoin` | src/iq_fetcher/fetcher.py:280 | splitting a join of pieces that lack the separator's first character gives the pieces back |
| `Strings.Upper` | src/iq_fetcher/fetcher.py:288 | upper-casing keeps the length |
| `Strings.UpperEquals` | src/iq_fetcher/fetcher.py:288 | a string upper-cases to an upper-case ASCII word iff it has its length and each character upper-cases to the word's character |
| `Strings.StripStartCutsSpaces` | src/iq_fetcher/fetcher.py:216 | the left strip is a suffix; everything cut is white space; the result does not start with white space |
| `Strings.StripEndCutsSpaces` | src/iq_fetcher/fetcher.py:216 | the right strip is a prefix; everything cut is white space; the result does not end with white space |
| `Strings.StripIsSlice` | src/iq_fetcher/fetcher.py:216 | `strip()` is a slice with only white space cut on both sides and no white space at either end of the result |
| `Strings.StripIdempotent` | src/iq_fetcher/fetcher.py:216 | stripping twice is stripping once |
| `Orgs.NameMapKeys` | src/iq_fetcher/fetcher.py:196 | the comprehension's keys are exactly the organizations' ids |
| `Orgs.NameMapLast` | src/iq_fetcher/fetcher.py:196 | an id not repeated later in the list maps to the name of that organization, so a repeated id keeps the name of its last occurrence |
| `Orgs.OrgIdToName` | src/iq_fetcher/fetcher.py:186-196 | a failed organization request gives the empty map, otherwise the id→name map |
| `Orgs.OrgName` | src/iq_fetcher/fetcher.py:216-217 | `get(k, k)` with `k` the stripped organization id ("unknown" when missing): the mapped name if `k` is a key, else `k` |
| `Orgs.OrgNameOfListed` | src/iq_fetcher/fetcher.py:196-217 | the name shown for an id is that of the last listed organization with that id |
| `Orgs.OrgNameFallsBack` | src/iq_fetcher/fetcher.py:190-194 | with no organization of that id (in particular after a failed request) the stripped id itself is shown |
| `Orgs.LaterDuplicateWins` | src/iq_fetcher/fetcher.py:196 | a later organization with the same id overrides an earlier one |
| `Severity.Classify` | src/iq_fetcher/fetcher.py:296-304 | Critical iff t≥7, Severe iff 4≤t<7, Moderate iff 1≤t<4, Low iff t<1 |
| `Severity.ClassifyMonotone` | src/iq_fetcher/fetcher.py:296-304 | a higher threat level never falls in a lower band |
| `Severity.BandNamesDistinct` | src/iq_fetcher/fetcher.py:296-304 | the four band names are pairwise distinct |
| `Severity.IsSecurityExactly` | src/iq_fetcher/fetcher.py:288 | the category is SECURITY after `upper()` iff it has 8 characters each upper-casing to the letter of SECURITY at its place |
| `Severity.PolicyActionLabels` | src/iq_fetcher/fetcher.py:287-309 | SECURITY category: `Security-Critical` for t≥7, `Security-CVSS score than or equals 7` for 4≤t<7, `Security-Moderate` below 4; other non-empty category: `{category}-{band}`; empty category: the band name |
| `Severity.PolicyActionByBand` | src/iq_fetcher/fetcher.py:287-309 | the label depends on the threat level only through its band |
| `Severity.OtherLabelsSeparateBands` | src/iq_fetcher/fetcher.py:295-309 | outside SECURITY, levels in different bands get different labels |
| `Severity.SecurityMergesLowIntoModerate` | src/iq_fetcher/fetcher.py:293-294 | inside SECURITY, levels below 1 get the same label as the Moderate band |
| `Cves.DigitRunEnd` | src/iq_fetcher/fetcher.py:271 | the greedy `\d+` run: all digits up to the end found, and no digit right after it |
| `Cves.FirstMatchFrom` | src/iq_fetcher/fetcher.py:270-273 | the leftmost index from a start where `CVE-dddd-d` matches, or none from there on |
| `Cves.SearchCve` | src/iq_fetcher/fetcher.py:270-273 | `re.search` finds nothing iff the pattern matches nowhere; a match is `CVE-`, four digits, `-`, one or more digits |
| `Cves.SearchCveIsLeftmostLongest` | src/iq_fetcher/fetcher.py:270-275 | the match starts at the leftmost matching index and is not followed by a digit |
| `Cves.CveIdHasNoComma` | src/iq_fetcher/fetcher.py:280 | a CVE id contains no comma |
| `Cves.CveIds` | src/iq_fetcher/fetcher.py:263-275 | at most one id per condition, no id twice, every id a full CVE match |
| `Cves.CveIdsListsEveryMatch` | src/iq_fetcher/fetcher.py:270-275 | an id is listed iff some condition's first match is that id |
| `Cves.CveIdsFirstSeenOrder` | src/iq_fetcher/fetcher.py:274-275 | later conditions only append: the ids of a prefix of the conditions are a prefix of all ids |
| `Cves.ConditionText` | src/iq_fetcher/fetcher.py:276-279 | a condition contributes its reason if non-empty, else its summary if non-empty, and never an empty text |
| `Cves.ConditionParts` | src/iq_fetcher/fetcher.py:264-283 | at most one non-empty text per condition |
| `Cves.ExtractCveInfo` | src/iq_fetcher/fetcher.py:253-284 | no constraint gives three empty strings; otherwise the last constraint's name, `", "`-joined ids and `" \| "`-joined texts |
| `Cves.CveColumnLists` | src/iq_fetcher/fetcher.py:280 | the CVE column is empty iff no id was found; otherwise cutting it at `", "` gives the de-duplicated ids back |
| `Consolidation.ViolationSources` | src/iq_fetcher/fetcher.py:250-322 | one row per violation of a component, in violation order, each carrying the application, organization and component names |
| `Consolidation.ComponentsSourcesCarryApp` | src/iq_fetcher/fetcher.py:244-249 | every entry of an application's components carries its public id and organization name |
| `Consolidation.SourcesConcat` | src/iq_fetcher/fetcher.py:244 | the rows of two payload lists placed end to end are the two lists of rows end to end |
| `Consolidation.SourcesPermutation` | src/iq_fetcher/fetcher.py:244-249 | payload lists with the same elements give the same multiset of rows |
| `Permutations.MapPermutation` | src/iq_fetcher/fetcher.py:250-322 | building the columns of every row element-wise keeps a reordering a reordering |
| `Consolidation.EntriesConcat` | src/iq_fetcher/fetcher.py:244 | the entries of two payload lists placed end to end are the two lists of entries end to end (payload order is kept) |
| `Consolidation.EntriesPermutation` | src/iq_fetcher/fetcher.py:244-322 | payload lists with the same elements give the same multiset of entries |
| `Consolidation.ComponentsRowCount` | src/iq_fetcher/fetcher.py:245-250 | an application gives as many entries as its components have violations (components without violations give none) |
| `Consolidation.SourcesCount` | src/iq_fetcher/fetcher.py:244-322 | the number of entries is the total number of violations |
| `Consolidation.ConsolidatedRowsNumbering` | src/iq_fetcher/fetcher.py:310-331 | a CSV is produced iff there is a violation; it has one row per violation, the row at index k numbered k+1 and holding the k-th entry |
| `Consolidation.CollectAppRows` | src/iq_fetcher/fetcher.py:212-238 | the first pass keeps, per payload, the public id ("unknown" when missing), the organization name and the components |
| `Consolidation.AppendViolationRows` | src/iq_fetcher/fetcher.py:250-322 | the innermost loop appends the entries of the component's violations, numbered on from the rows so far |
| `Consolidation.AppendComponentRows` | src/iq_fetcher/fetcher.py:245-322 | the component loop appends the entries of one application's components |
| `Consolidation.Consolidate` | src/iq_fetcher/fetcher.py:198-331 | no payload gives no CSV; otherwise the rows are the numbered entries, or no CSV when there are none |
| `Fetching.FetchAppReport` | src/iq_fetcher/fetcher.py:41-83 | an artifact is saved iff there is report metadata, the extracted id is non-empty, the payload exists and is non-empty, and the path can be written; the path is `{outDir}/{publicId}_{reportId}.json` and the file holds the payload |
| `Fetching.Outcomes` | src/iq_fetcher/fetcher.py:124-127 | one fetch outcome per application |
| `Fetching.OutcomeAt` | src/iq_fetcher/fetcher.py:124-127 | the outcome at each position is the fetch outcome of the application at that position |
| `Fetching.Paths` | src/iq_fetcher/fetcher.py:133-137 | no more paths are listed than there are results |
| `Fetching.SavedPathShape` | src/iq_fetcher/fetcher.py:72-78 | a saved path lies in the output directory and ends in `.json` |
| `Fetching.CsvIsNoArtifact` | src/iq_fetcher/fetcher.py:72-73 | no artifact path is the CSV's path |
| `Fetching.ArtifactNameInjective` | src/iq_fetcher/fetcher.py:72 | for public ids without `_`, the file name determines public id and report id |
| `Fetching.ArtifactNamesCanCollide` | src/iq_fetcher/fetcher.py:72 | two different public ids can produce the same file name |
| `Fetching.PathsAreResults` | src/iq_fetcher/fetcher.py:133-137 | `json_files` holds exactly the non-`None` results |
| `Fetching.PathsMatchPayloads` | src/iq_fetcher/fetcher.py:133-137 | as many payloads are saved as paths are listed |
| `Fetching.OutcomesConcat` | src/iq_fetcher/fetcher.py:124-127 | the outcomes of two application lists placed end to end are the two lists of outcomes end to end |
| `Fetching.PathsConcat` | src/iq_fetcher/fetcher.py:133-137 | the saved paths and payloads of two outcome lists placed end to end are the two lists of paths and payloads end to end |
| `Fetching.OutcomesPermutation` | src/iq_fetcher/fetcher.py:124-133 | reordering the applications reorders their outcomes |
| `Fetching.PathsPermutation` | src/iq_fetcher/fetcher.py:133-137 | reordering the outcomes reorders the listed paths |
| `Fetching.PayloadsPermutation` | src/iq_fetcher/fetcher.py:133-137 | reordering the outcomes reorders the saved payloads |
| `Fetching.TallyIndependentOfOrder` | src/iq_fetcher/fetcher.py:117-148 | for any completion order the listed paths and saved payloads are the same multiset, and there are at most as many as applications |
| `Fetching.DistinctArtifacts` | src/iq_fetcher/fetcher.py:72-73 | distinct public ids without `_` give distinct artifact paths |
| `Fetching.LoadedIgnoresOthers` | src/iq_fetcher/fetcher.py:164-171 | files at paths not listed do not affect the reload |
| `Fetching.ReloadIsIdentity` | src/iq_fetcher/fetcher.py:74-75 | with distinct artifact paths, reloading the listed files gives the saved payloads in listed order |
| `Fetching.LoadedTwice` | src/iq_fetcher/fetcher.py:164-171 | a path listed twice is read back twice |
| `Fetching.TwoSaved` | src/iq_fetcher/fetcher.py:74-75 | two saves at one path list the path twice and leave the later payload |
| `Fetching.CollisionDuplicatesLaterPayload` | src/iq_fetcher/fetcher.py:72-75 | when two artifacts share a path, the later payload is read back twice and the earlier one is lost |
| `Fetching.CollectResults` | src/iq_fetcher/fetcher.py:117-148 | every finished application is taken once (`completed` is their number); `json_files` is the paths of the saved artifacts in completion order; `success_count` is its length; the directory holds the written artifacts |
| `Fetching.LoadReports` | src/iq_fetcher/fetcher.py:164-171 | the payloads of the listed files in list order, skipping files that cannot be read |
| `Fetching.DeleteArtifacts` | src/iq_fetcher/fetcher.py:179-184 | every listed file is gone afterwards and nothing else changes; a missing file is skipped |
| `Fetching.FetchAllReports` | src/iq_fetcher/fetcher.py:106-184 | no application: nothing happens; otherwise the CSV rows are those consolidated from the reloaded artifacts (the organization map built first), the CSV is written at `{timestamp}-security_report.csv` when there are rows, and the artifacts are removed |
| `Fetching.RunRowsIndependentOfOrder` | src/iq_fetcher/fetcher.py:117-176 | with distinct artifact paths, the reloaded payloads are the saved ones, and any two completion orders give the same multiset of CSV entries |
| `Fetching.RunLeavesOnlyCsv` | src/iq_fetcher/fetcher.py:174-184 | after the run no artifact is left, and a written CSV is still in place with its rows |

## Left out

- Concurrency: the thread pool, `as_completed` and the progress bar are left out. The workers' results are taken one after another in an arbitrary completion order. The artifacts are written in that same order, which matters only when two artifacts share a path.
- HTTP and the client are left out: requests, authentication, endpoints and the decorator that turns exceptions into `None`. Each call's answer is an input.
- `get_applications`: only its result is modelled (the application list, or nothing). Its filtering by organization id and its preview logging are left out.
- Configuration, path resolution, logging and the entry points are left out.
- The first pass's `app_severity_counts` is left out, because it is computed and never used.
- Python exceptions on malformed payloads are left out: JSON `null` values, non-object payloads, and non-numeric threat levels. Typed records rule these out, so the first pass's `try`/`except` never fires in the model.
- Threat levels are integers, so floating-point threat levels are left out.
- A failure while writing the CSV is left out. In the code it propagates out of `fetch_all_reports`, and the JSON files are then not removed.
- JSON serialisation, the CSV encoding and pandas are left out. The CSV file is its row sequence.
- `pathlib` normalisation of the output directory is left out. A path is the directory, a `/` and the file name.
- Strings.Upper: maps only the characters whose upper case is an ASCII letter (`a`–`z`, `ı`, `ſ`) and keeps all others. A comparison with `SECURITY` cannot tell this from Python's `str.upper()`, because no multi-character upper-case expansion yields a substring of `SECURITY`.
- Cves.SearchCve: `\d` is modelled as the ASCII digits. Python's `re` also accepts other Unicode decimal digits.
- Orgs.OrgKey: `str()` of a non-string organization id is left out. A present id is a string.
