/** How the fetcher picks the identifier of an application's latest report
    out of the report metadata: the path segment after `/reports/` in
    `reportDataUrl`, else `scanId`, else `reportId`. */
module ReportIds {
  import opened Wrappers
  import opened Strings
  import opened Records

  const ReportsMarker: string := "/reports/"

  /** Python truthiness of an optional string: present and non-empty. */
  predicate Truthy(s: Option<string>) {
    s.Some? && s.value != ""
  }

  /** `info.scanId or info.reportId`: the scan id when it is non-empty,
      otherwise the report id exactly as it is (possibly absent or empty). */
  function Fallback(info: ReportInfo): Option<string> {
    if Truthy(info.scanId) then info.scanId else info.reportId
  }

  /** The extraction as the code writes it: split the URL at `/reports/`,
      take the second piece (a missing piece is an index error, caught, and
      the fallback is used), split that at `/` and take the first piece. */
  function ExtractReportId(info: ReportInfo): Option<string> {
    if Truthy(info.reportDataUrl) then
      var parts := Split(info.reportDataUrl.value, ReportsMarker);
      if |parts| >= 2 then Some(Split(parts[1], "/")[0])
      else Fallback(info)
    else Fallback(info)
  }

  /** The report id the URL designates: the text after the first
      `/reports/` up to the next `/` or the end of the URL. */
  function UrlSegment(url: string): (r: Option<string>)
    ensures r.Some? <==> IndexOf(url, ReportsMarker).Some?
  {
    match IndexOf(url, ReportsMarker)
    case None => None
    case Some(i) => Some(UpTo(url[i + |ReportsMarker|..], '/'))
  }

  /** The two splits of the code compute exactly the segment after the
      first `/reports/` up to the next `/`; without `/reports/` there is no
      second piece. */
  lemma SplitsFindSegment(url: string)
    ensures |Split(url, ReportsMarker)| >= 2 <==> UrlSegment(url).Some?
    ensures UrlSegment(url).Some? ==> Split(Split(url, ReportsMarker)[1], "/")[0] == UrlSegment(url).value
  {
    match IndexOf(url, ReportsMarker)
    case None =>
      SplitWithout(url, ReportsMarker);
    case Some(i) =>
      SecondPieceUpTo(url, ReportsMarker, i);
  }

  /** With a non-empty URL that contains `/reports/`, the id is the
      segment after the first `/reports/` up to the next `/` (which may be
      empty, as in `.../reports//x`), whatever the fallbacks hold. */
  lemma ReportIdFromUrl(info: ReportInfo)
    requires Truthy(info.reportDataUrl) && UrlSegment(info.reportDataUrl.value).Some?
    ensures ExtractReportId(info) == UrlSegment(info.reportDataUrl.value)
  {
    SplitsFindSegment(info.reportDataUrl.value);
  }

  /** With the URL absent, empty or without `/reports/`, the id is the scan
      id when that is non-empty and otherwise the report id. */
  lemma ReportIdFallback(info: ReportInfo)
    requires !Truthy(info.reportDataUrl) || UrlSegment(info.reportDataUrl.value).None?
    ensures ExtractReportId(info) == (if Truthy(info.scanId) then info.scanId else info.reportId)
  {
    if Truthy(info.reportDataUrl) {
      SplitsFindSegment(info.reportDataUrl.value);
    }
  }

  /** The extraction yields no usable id (absent or empty) exactly when the
      URL designates an empty segment, or the URL designates none and
      neither the scan id nor the report id is usable. */
  lemma NoReportIdExactly(info: ReportInfo)
    ensures !Truthy(ExtractReportId(info)) <==>
      if Truthy(info.reportDataUrl) && UrlSegment(info.reportDataUrl.value).Some?
      then UrlSegment(info.reportDataUrl.value).value == ""
      else !Truthy(info.scanId) && !Truthy(info.reportId)
  {
    if Truthy(info.reportDataUrl) && UrlSegment(info.reportDataUrl.value).Some? {
      ReportIdFromUrl(info);
    } else {
      ReportIdFallback(info);
    }
  }

  /** A usable id found in the URL never contains `/`. */
  lemma UrlIdHasNoSlash(info: ReportInfo)
    requires Truthy(info.reportDataUrl) && UrlSegment(info.reportDataUrl.value).Some?
    ensures ExtractReportId(info).Some? && '/' !in ExtractReportId(info).value
  {
    ReportIdFromUrl(info);
  }
}
