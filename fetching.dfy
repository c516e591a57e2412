/** `_fetch_app_report` and `fetch_all_reports`: the outcome of fetching one
    application's latest report, the collection of the results in the
    order the workers finish, the reload of the saved artifacts, the
    consolidated CSV and the removal of the artifacts. The server's
    answers, the clock and the set of paths that cannot be written are
    inputs; the output directory is a map from paths to files. */
module Fetching {
  import opened Wrappers
  import opened Records
  import opened ReportIds
  import opened Orgs
  import opened Consolidation
  import opened Permutations

  /** What each client call answers. A call that fails, or finds nothing,
      answers nothing: the application list or the organization list is
      `None`, an application id has no latest report, a (public id,
      report id) pair has no policy payload. */
  datatype Server = Server(
    applications: Option<seq<Application>>,
    organizations: Option<seq<Organization>>,
    latestReports: map<string, ReportInfo>,
    policyViolations: map<(string, string), Payload>)

  /** A file of the output directory: a saved payload or the consolidated CSV. */
  datatype File = JsonArtifact(payload: Payload) | CsvReport(rows: seq<Row>)

  /** The output directory: its files by path, and the paths at which
      opening a file for writing fails. */
  datatype Disk = Disk(files: map<string, File>, unwritable: set<string>)

  /** How the fetch of one application ends. Every ending but `Saved` is
      the `None` the source returns (after logging why). */
  datatype Outcome =
    | NoReports
    | NoReportId
    | NoViolationData
    | WriteFailed
    | Saved(path: string, payload: Payload)

  /** The value `_fetch_app_report` returns: the artifact's path, or nothing. */
  function ResultPath(o: Outcome): Option<string> {
    if o.Saved? then Some(o.path) else None
  }

  const JsonSuffix: string := ".json"
  const CsvSuffix: string := "-security_report.csv"

  /** The artifact's file name, `{publicId}_{reportId}.json`. */
  function ArtifactName(publicId: string, reportId: string): string {
    publicId + "_" + reportId + JsonSuffix
  }

  /** A file name inside the output directory. */
  function InDir(outDir: string, name: string): string {
    outDir + "/" + name
  }

  /** The consolidated CSV's path for a `%Y%m%d-%H%M` timestamp. */
  function CsvPath(outDir: string, timestamp: string): string {
    InDir(outDir, timestamp + CsvSuffix)
  }

  /** The fetch of one application: its latest report's metadata, the
      report id taken from it, the policy payload of that report, and the
      write of the payload to `{publicId}_{reportId}.json`. Each step that
      yields nothing (or fails) ends the fetch without an artifact. */
  function FetchAppReport(server: Server, outDir: string, unwritable: set<string>, app: Application): (o: Outcome)
    ensures o.Saved? <==>
      && app.id in server.latestReports
      && Truthy(ExtractReportId(server.latestReports[app.id]))
      && (app.publicId, ExtractReportId(server.latestReports[app.id]).value) in server.policyViolations
      && !IsEmptyPayload(server.policyViolations[(app.publicId, ExtractReportId(server.latestReports[app.id]).value)])
      && InDir(outDir, ArtifactName(app.publicId, ExtractReportId(server.latestReports[app.id]).value)) !in unwritable
    ensures o.Saved? ==>
      var reportId := ExtractReportId(server.latestReports[app.id]).value;
      && o.path == InDir(outDir, ArtifactName(app.publicId, reportId))
      && o.payload == server.policyViolations[(app.publicId, reportId)]
  {
    if app.id !in server.latestReports then NoReports
    else
      var reportId := ExtractReportId(server.latestReports[app.id]);
      if !Truthy(reportId) then NoReportId
      else if (app.publicId, reportId.value) !in server.policyViolations then NoViolationData
      else
        var data := server.policyViolations[(app.publicId, reportId.value)];
        if IsEmptyPayload(data) then NoViolationData
        else
          var path := InDir(outDir, ArtifactName(app.publicId, reportId.value));
          if path in unwritable then WriteFailed else Saved(path, data)
  }

  /** The outcome of every application of a list, position by position. */
  function Outcomes(server: Server, outDir: string, unwritable: set<string>, apps: seq<Application>): (os: seq<Outcome>)
    ensures |os| == |apps|
  {
    if apps == [] then []
    else Outcomes(server, outDir, unwritable, apps[..|apps| - 1]) + [FetchAppReport(server, outDir, unwritable, apps[|apps| - 1])]
  }

  /** The outcome at position `k` is that of the `k`-th application. */
  lemma {:induction false} OutcomeAt(server: Server, outDir: string, unwritable: set<string>, apps: seq<Application>, k: nat)
    requires k < |apps|
    ensures Outcomes(server, outDir, unwritable, apps)[k] == FetchAppReport(server, outDir, unwritable, apps[k])
  {
    var n := |apps| - 1;
    if k < n {
      OutcomeAt(server, outDir, unwritable, apps[..n], k);
      assert apps[..n][k] == apps[k];
    }
  }

  /** The paths of the saved artifacts, in outcome order. */
  function Paths(os: seq<Outcome>): (ps: seq<string>)
    ensures |ps| <= |os|
  {
    if os == [] then []
    else Paths(os[..|os| - 1]) + (if os[|os| - 1].Saved? then [os[|os| - 1].path] else [])
  }

  /** The payloads of the saved artifacts, in outcome order. */
  function Payloads(os: seq<Outcome>): seq<Payload> {
    if os == [] then []
    else Payloads(os[..|os| - 1]) + (if os[|os| - 1].Saved? then [os[|os| - 1].payload] else [])
  }

  /** The directory after the artifacts of the outcomes are written in
      order; a later artifact at the same path replaces an earlier one. */
  function Written(disk: Disk, os: seq<Outcome>): Disk {
    if os == [] then disk
    else
      var d := Written(disk, os[..|os| - 1]);
      var o := os[|os| - 1];
      if o.Saved? then d.(files := d.files[o.path := JsonArtifact(o.payload)]) else d
  }

  /** The payloads read back from the listed paths, in list order; a path
      with no saved payload is skipped (the load fails and is logged). */
  function Loaded(files: map<string, File>, paths: seq<string>): seq<Payload> {
    if paths == [] then []
    else
      var p := paths[|paths| - 1];
      Loaded(files, paths[..|paths| - 1]) + (if p in files && files[p].JsonArtifact? then [files[p].payload] else [])
  }

  /** The paths of a list, as a set. */
  function Listed(paths: seq<string>): set<string> {
    set p | p in paths
  }

  lemma ListedSnoc(paths: seq<string>, p: string)
    ensures Listed(paths + [p]) == Listed(paths) + {p}
  {
    assert forall q :: q in paths + [p] <==> q in paths || q == p;
  }

  predicate NoDuplicates<T(==)>(xs: seq<T>) {
    forall a, b :: 0 <= a < b < |xs| ==> xs[a] != xs[b]
  }

  // ---------------------------------------------------------------------
  // The outcome of one application

  /** A saved artifact lies in the output directory, and its name ends in
      `.json`. */
  lemma SavedPathShape(server: Server, outDir: string, unwritable: set<string>, app: Application)
    requires FetchAppReport(server, outDir, unwritable, app).Saved?
    ensures var p := FetchAppReport(server, outDir, unwritable, app).path;
      && |p| >= |outDir| + 1 + |JsonSuffix|
      && p[..|outDir| + 1] == outDir + "/"
      && p[|p| - |JsonSuffix|..] == JsonSuffix
  {
    var reportId := ExtractReportId(server.latestReports[app.id]).value;
    var p := InDir(outDir, ArtifactName(app.publicId, reportId));
    assert p == (outDir + "/") + (app.publicId + "_" + reportId) + JsonSuffix;
  }

  /** The CSV is never one of the artifacts, so their removal keeps it. */
  lemma CsvIsNoArtifact(server: Server, outDir: string, unwritable: set<string>, app: Application, timestamp: string)
    requires FetchAppReport(server, outDir, unwritable, app).Saved?
    ensures FetchAppReport(server, outDir, unwritable, app).path != CsvPath(outDir, timestamp)
  {
    SavedPathShape(server, outDir, unwritable, app);
    var c := CsvPath(outDir, timestamp);
    assert c == (outDir + "/" + timestamp) + CsvSuffix;
    assert c[|c| - 1] == 'v';
  }

  /** Artifact names determine the public id and the report id as long as
      public ids hold no `_`. */
  lemma ArtifactNameInjective(p1: string, r1: string, p2: string, r2: string)
    requires '_' !in p1 && '_' !in p2
    requires ArtifactName(p1, r1) == ArtifactName(p2, r2)
    ensures p1 == p2 && r1 == r2
  {
    var n := ArtifactName(p1, r1);
    assert n == p1 + "_" + (r1 + JsonSuffix) && n == p2 + "_" + (r2 + JsonSuffix);
    UnderscoreEndsPublicId(p1, r1 + JsonSuffix);
    UnderscoreEndsPublicId(p2, r2 + JsonSuffix);
    assert |p1| == |p2|;
    assert p1 == n[..|p1|] == p2;
    assert r1 + JsonSuffix == n[|p1| + 1..] == r2 + JsonSuffix;
    assert r1 == (r1 + JsonSuffix)[..|r1|];
    assert r2 == (r2 + JsonSuffix)[..|r2|];
  }

  /** In `{publicId}_{rest}` with no `_` in the public id, the first `_`
      sits right after the public id. */
  lemma UnderscoreEndsPublicId(publicId: string, rest: string)
    requires '_' !in publicId
    ensures (publicId + "_" + rest)[|publicId|] == '_'
    ensures forall k :: 0 <= k < |publicId| ==> (publicId + "_" + rest)[k] != '_'
  {
    assert forall k :: 0 <= k < |publicId| ==> (publicId + "_" + rest)[k] == publicId[k];
  }

  /** Without that condition two applications can share an artifact:
      `a_b` with report `c` and `a` with report `b_c` both write `a_b_c.json`. */
  lemma ArtifactNamesCanCollide()
    ensures ArtifactName("a_b", "c") == ArtifactName("a", "b_c")
    ensures "a_b" != "a"
  {
    assert "a_b" + "_" + "c" == "a" + "_" + "b_c";
  }

  // ---------------------------------------------------------------------
  // The run tally

  /** `json_files` holds exactly the returned paths. */
  lemma {:induction false} PathsAreResults(os: seq<Outcome>, p: string)
    ensures p in Paths(os) <==> exists k :: 0 <= k < |os| && ResultPath(os[k]) == Some(p)
  {
    if os != [] {
      var init := os[..|os| - 1];
      PathsAreResults(init, p);
      assert forall k :: 0 <= k < |init| ==> init[k] == os[k];
      if ResultPath(os[|os| - 1]) == Some(p) {
        assert p in Paths(os);
      }
    }
  }

  /** One saved payload per listed path. */
  lemma {:induction false} PathsMatchPayloads(os: seq<Outcome>)
    ensures |Paths(os)| == |Payloads(os)|
  {
    if os != [] {
      PathsMatchPayloads(os[..|os| - 1]);
    }
  }

  lemma {:induction false} OutcomesConcat(server: Server, outDir: string, unwritable: set<string>, xs: seq<Application>, ys: seq<Application>)
    ensures Outcomes(server, outDir, unwritable, xs + ys)
      == Outcomes(server, outDir, unwritable, xs) + Outcomes(server, outDir, unwritable, ys)
  {
    var l := Outcomes(server, outDir, unwritable, xs + ys);
    var r := Outcomes(server, outDir, unwritable, xs) + Outcomes(server, outDir, unwritable, ys);
    assert |l| == |r|;
    forall k | 0 <= k < |l| ensures l[k] == r[k] {
      OutcomeAt(server, outDir, unwritable, xs + ys, k);
      if k < |xs| {
        assert (xs + ys)[k] == xs[k];
        OutcomeAt(server, outDir, unwritable, xs, k);
      } else {
        assert (xs + ys)[k] == ys[k - |xs|];
        OutcomeAt(server, outDir, unwritable, ys, k - |xs|);
      }
    }
  }

  lemma {:induction false} PathsConcat(xs: seq<Outcome>, ys: seq<Outcome>)
    ensures Paths(xs + ys) == Paths(xs) + Paths(ys)
    ensures Payloads(xs + ys) == Payloads(xs) + Payloads(ys)
    decreases |ys|
  {
    if ys == [] {
      assert xs + ys == xs;
    } else {
      var init := ys[..|ys| - 1];
      assert (xs + ys)[..|xs + ys| - 1] == xs + init;
      assert (xs + ys)[|xs + ys| - 1] == ys[|ys| - 1];
      PathsConcat(xs, init);
    }
  }

  /** Reordering the applications reorders their outcomes. */
  lemma {:induction false} OutcomesPermutation(server: Server, outDir: string, unwritable: set<string>,
                                               xs: seq<Application>, ys: seq<Application>)
    requires multiset(xs) == multiset(ys)
    ensures multiset(Outcomes(server, outDir, unwritable, xs)) == multiset(Outcomes(server, outDir, unwritable, ys))
    decreases |xs|
  {
    if xs == [] {
      assert |ys| == |multiset(ys)| == 0;
    } else {
      var n := |xs| - 1;
      var i := PickLast(xs, ys);
      OutcomesPermutation(server, outDir, unwritable, xs[..n], ys[..i] + ys[i + 1..]);
      OutcomesConcat(server, outDir, unwritable, xs[..n], [xs[n]]);
      OutcomesConcat(server, outDir, unwritable, ys[..i], ys[i + 1..]);
      OutcomesConcat(server, outDir, unwritable, ys[..i] + [ys[i]], ys[i + 1..]);
      OutcomesConcat(server, outDir, unwritable, ys[..i], [ys[i]]);
    }
  }

  /** Reordering the outcomes reorders the saved paths. */
  lemma {:induction false} PathsPermutation(xs: seq<Outcome>, ys: seq<Outcome>)
    requires multiset(xs) == multiset(ys)
    ensures multiset(Paths(xs)) == multiset(Paths(ys))
    decreases |xs|
  {
    if xs == [] {
      assert |ys| == |multiset(ys)| == 0;
    } else {
      var n := |xs| - 1;
      var i := PickLast(xs, ys);
      PathsPermutation(xs[..n], ys[..i] + ys[i + 1..]);
      PathsConcat(xs[..n], [xs[n]]);
      PathsConcat(ys[..i], ys[i + 1..]);
      PathsConcat(ys[..i] + [ys[i]], ys[i + 1..]);
      PathsConcat(ys[..i], [ys[i]]);
      assert [xs[n]][..0] == [];
    }
  }

  /** Reordering the outcomes reorders the saved payloads. */
  lemma {:induction false} PayloadsPermutation(xs: seq<Outcome>, ys: seq<Outcome>)
    requires multiset(xs) == multiset(ys)
    ensures multiset(Payloads(xs)) == multiset(Payloads(ys))
    decreases |xs|
  {
    if xs == [] {
      assert |ys| == |multiset(ys)| == 0;
    } else {
      var n := |xs| - 1;
      var i := PickLast(xs, ys);
      PayloadsPermutation(xs[..n], ys[..i] + ys[i + 1..]);
      PathsConcat(xs[..n], [xs[n]]);
      PathsConcat(ys[..i], ys[i + 1..]);
      PathsConcat(ys[..i] + [ys[i]], ys[i + 1..]);
      PathsConcat(ys[..i], [ys[i]]);
      assert [xs[n]][..0] == [];
    }
  }

  /** The tally does not depend on the order in which the workers finish:
      for any completion order of the submitted applications, the listed
      artifacts are the same up to order, and there are at most as many as
      applications. */
  lemma TallyIndependentOfOrder(server: Server, outDir: string, unwritable: set<string>,
                                apps: seq<Application>, completion: seq<Application>)
    requires multiset(completion) == multiset(apps)
    ensures multiset(Paths(Outcomes(server, outDir, unwritable, completion)))
         == multiset(Paths(Outcomes(server, outDir, unwritable, apps)))
    ensures multiset(Payloads(Outcomes(server, outDir, unwritable, completion)))
         == multiset(Payloads(Outcomes(server, outDir, unwritable, apps)))
    ensures |Paths(Outcomes(server, outDir, unwritable, completion))| <= |apps|
  {
    OutcomesPermutation(server, outDir, unwritable, completion, apps);
    PathsPermutation(Outcomes(server, outDir, unwritable, completion), Outcomes(server, outDir, unwritable, apps));
    PayloadsPermutation(Outcomes(server, outDir, unwritable, completion), Outcomes(server, outDir, unwritable, apps));
    assert |completion| == |multiset(completion)| == |multiset(apps)| == |apps|;
  }

  /** Distinct public ids without `_` give distinct artifact paths. */
  lemma {:induction false} DistinctArtifacts(server: Server, outDir: string, unwritable: set<string>, apps: seq<Application>)
    requires forall k :: 0 <= k < |apps| ==> '_' !in apps[k].publicId
    requires forall a, b :: 0 <= a < b < |apps| ==> apps[a].publicId != apps[b].publicId
    ensures NoDuplicates(Paths(Outcomes(server, outDir, unwritable, apps)))
  {
    if apps != [] {
      var n := |apps| - 1;
      var init := apps[..n];
      DistinctArtifacts(server, outDir, unwritable, init);
      var os := Outcomes(server, outDir, unwritable, apps);
      var osInit := Outcomes(server, outDir, unwritable, init);
      assert os[..n] == osInit;
      var last := os[n];
      if last.Saved? {
        if last.path in Paths(osInit) {
          PathsAreResults(osInit, last.path);
          var k :| 0 <= k < n && ResultPath(osInit[k]) == Some(last.path);
          OutcomeAt(server, outDir, unwritable, init, k);
          var a := apps[k];
          assert init[k] == a;
          var b := apps[n];
          var ra := ExtractReportId(server.latestReports[a.id]).value;
          var rb := ExtractReportId(server.latestReports[b.id]).value;
          assert InDir(outDir, ArtifactName(a.publicId, ra)) == InDir(outDir, ArtifactName(b.publicId, rb));
          assert ArtifactName(a.publicId, ra) == InDir(outDir, ArtifactName(a.publicId, ra))[|outDir| + 1..];
          assert ArtifactName(b.publicId, rb) == InDir(outDir, ArtifactName(b.publicId, rb))[|outDir| + 1..];
          ArtifactNameInjective(a.publicId, ra, b.publicId, rb);
          assert false;
        }
        assert Paths(os) == Paths(osInit) + [last.path];
      } else {
        assert Paths(os) == Paths(osInit);
      }
    }
  }

  // ---------------------------------------------------------------------
  // Write, reload and removal of the artifacts

  /** Files at paths other than the ones listed do not affect the reload. */
  lemma {:induction false} LoadedIgnoresOthers(files: map<string, File>, paths: seq<string>, p: string, f: File)
    requires p !in paths
    ensures Loaded(files[p := f], paths) == Loaded(files, paths)
  {
    if paths != [] {
      LoadedIgnoresOthers(files, paths[..|paths| - 1], p, f);
    }
  }

  /** With distinct artifact paths, reading back the listed artifacts gives
      the saved payloads in the same order: writing and reloading is the
      identity. */
  lemma {:induction false} ReloadIsIdentity(disk: Disk, os: seq<Outcome>)
    requires NoDuplicates(Paths(os))
    ensures Loaded(Written(disk, os).files, Paths(os)) == Payloads(os)
  {
    if os != [] {
      var init := os[..|os| - 1];
      var o := os[|os| - 1];
      var pathsInit := Paths(init);
      assert pathsInit == Paths(os)[..|pathsInit|];
      ReloadIsIdentity(disk, init);
      var files := Written(disk, os).files;
      if o.Saved? {
        assert Paths(os) == pathsInit + [o.path];
        assert o.path !in pathsInit by {
          assert forall a :: 0 <= a < |pathsInit| ==> pathsInit[a] == Paths(os)[a];
        }
        assert files == Written(disk, init).files[o.path := JsonArtifact(o.payload)];
        LoadedIgnoresOthers(Written(disk, init).files, pathsInit, o.path, JsonArtifact(o.payload));
        assert (pathsInit + [o.path])[..|pathsInit|] == pathsInit;
        assert Loaded(files, Paths(os)) == Loaded(files, pathsInit) + [o.payload];
        assert Payloads(os) == Payloads(init) + [o.payload];
      } else {
        assert Paths(os) == pathsInit + [] == pathsInit;
        assert files == Written(disk, init).files;
        assert Payloads(os) == Payloads(init) + [] == Payloads(init);
      }
    }
  }

  lemma LoadedTwice(files: map<string, File>, p: string)
    requires p in files && files[p].JsonArtifact?
    ensures Loaded(files, [p, p]) == [files[p].payload, files[p].payload]
  {
    var q := files[p].payload;
    assert [p][..0] == [];
    assert Loaded(files, [p]) == Loaded(files, []) + [q] == [q];
    assert [p, p][..1] == [p];
    assert Loaded(files, [p, p]) == Loaded(files, [p]) + [q];
  }

  lemma TwoSaved(disk: Disk, p: string, first: Payload, second: Payload)
    ensures Paths([Saved(p, first), Saved(p, second)]) == [p, p]
    ensures Payloads([Saved(p, first), Saved(p, second)]) == [first, second]
    ensures Written(disk, [Saved(p, first), Saved(p, second)]).files[p] == JsonArtifact(second)
  {
    var one := [Saved(p, first)];
    var os := one + [Saved(p, second)];
    assert os == [Saved(p, first), Saved(p, second)];
    assert os[..1] == one && one[..0] == [];
    assert Paths(one) == Paths([]) + [p] == [p];
    assert Paths(os) == Paths(one) + [p];
    assert Payloads(one) == Payloads([]) + [first] == [first];
    assert Payloads(os) == Payloads(one) + [second];
    assert Written(disk, os).files == Written(disk, one).files[p := JsonArtifact(second)];
  }

  /** When two saved artifacts share a path, the later payload is read
      back twice and the earlier one is lost. */
  lemma CollisionDuplicatesLaterPayload(disk: Disk, p: string, first: Payload, second: Payload)
    ensures var os := [Saved(p, first), Saved(p, second)];
      && Payloads(os) == [first, second]
      && Loaded(Written(disk, os).files, Paths(os)) == [second, second]
  {
    TwoSaved(disk, p, first, second);
    LoadedTwice(Written(disk, [Saved(p, first), Saved(p, second)]).files, p);
  }

  // ---------------------------------------------------------------------
  // The methods

  /** The collection loop: each finished application's result is taken
      once, in completion order; each returned path is appended to
      `jsonFiles` and counted. The artifacts were written by the workers. */
  method CollectResults(server: Server, outDir: string, disk: Disk, completion: seq<Application>)
    returns (jsonFiles: seq<string>, successCount: nat, completed: nat, disk': Disk)
    ensures completed == |completion|
    ensures jsonFiles == Paths(Outcomes(server, outDir, disk.unwritable, completion))
    ensures successCount == |jsonFiles|
    ensures disk' == Written(disk, Outcomes(server, outDir, disk.unwritable, completion))
  {
    jsonFiles := [];
    successCount := 0;
    completed := 0;
    disk' := disk;
    for i := 0 to |completion|
      invariant completed == i
      invariant jsonFiles == Paths(Outcomes(server, outDir, disk.unwritable, completion[..i]))
      invariant successCount == |jsonFiles|
      invariant disk' == Written(disk, Outcomes(server, outDir, disk.unwritable, completion[..i]))
    {
      var app := completion[i];
      var outcome := FetchAppReport(server, outDir, disk.unwritable, app);
      OutcomesSnoc(server, outDir, disk.unwritable, completion, i);
      SavedSnoc(disk, Outcomes(server, outDir, disk.unwritable, completion[..i]), outcome);
      if outcome.Saved? {
        disk' := disk'.(files := disk'.files[outcome.path := JsonArtifact(outcome.payload)]);
      }
      var jsonPath := ResultPath(outcome);
      if jsonPath.Some? {
        jsonFiles := jsonFiles + [jsonPath.value];
        successCount := successCount + 1;
      }
      completed := completed + 1;
    }
    assert completion[..|completion|] == completion;
  }

  lemma OutcomesSnoc(server: Server, outDir: string, unwritable: set<string>, apps: seq<Application>, i: nat)
    requires i < |apps|
    ensures Outcomes(server, outDir, unwritable, apps[..i + 1])
      == Outcomes(server, outDir, unwritable, apps[..i]) + [FetchAppReport(server, outDir, unwritable, apps[i])]
  {
    assert apps[..i + 1][..i] == apps[..i];
  }

  lemma SavedSnoc(disk: Disk, os: seq<Outcome>, o: Outcome)
    ensures Paths(os + [o]) == Paths(os) + (if o.Saved? then [o.path] else [])
    ensures Written(disk, os + [o]) == if o.Saved? then Written(disk, os).(files := Written(disk, os).files[o.path := JsonArtifact(o.payload)]) else Written(disk, os)
  {
    assert (os + [o])[..|os|] == os;
  }

  /** The reload loop: the payload of each listed file, in list order. */
  method LoadReports(files: map<string, File>, jsonFiles: seq<string>) returns (reports: seq<Payload>)
    ensures reports == Loaded(files, jsonFiles)
  {
    reports := [];
    for i := 0 to |jsonFiles|
      invariant reports == Loaded(files, jsonFiles[..i])
    {
      var jsonFile := jsonFiles[i];
      assert jsonFiles[..i + 1][..i] == jsonFiles[..i];
      if jsonFile in files && files[jsonFile].JsonArtifact? {
        reports := reports + [files[jsonFile].payload];
      }
    }
    assert jsonFiles[..|jsonFiles|] == jsonFiles;
  }

  /** The removal loop: every listed file is removed; a listed path that no
      longer exists fails to be removed, which is logged and skipped. */
  method DeleteArtifacts(files: map<string, File>, jsonFiles: seq<string>) returns (files': map<string, File>)
    ensures files' == files - Listed(jsonFiles)
  {
    files' := files;
    for i := 0 to |jsonFiles|
      invariant files' == files - Listed(jsonFiles[..i])
    {
      var jsonFile := jsonFiles[i];
      assert jsonFiles[..i + 1] == jsonFiles[..i] + [jsonFile];
      ListedSnoc(jsonFiles[..i], jsonFile);
      if jsonFile in files' {
        files' := files' - {jsonFile};
      }
    }
    assert jsonFiles[..|jsonFiles|] == jsonFiles;
  }

  /** The whole run. The organization map is built first (as the
      fetcher's constructor does); with no application there is nothing
      else to do. Otherwise the results are collected in completion order,
      the listed artifacts are reloaded and consolidated, the CSV (if any
      row) is written at `{timestamp}-security_report.csv`, and the
      artifacts are removed. */
  method FetchAllReports(server: Server, outDir: string, timestamp: string, disk: Disk, completion: seq<Application>)
    returns (csv: Option<seq<Row>>, disk': Disk)
    requires multiset(completion) == multiset(server.applications.GetOr([]))
    ensures server.applications.GetOr([]) == [] ==> csv == None && disk' == disk
    ensures server.applications.GetOr([]) != [] ==>
      var written := Written(disk, Outcomes(server, outDir, disk.unwritable, completion));
      var jsonFiles := Paths(Outcomes(server, outDir, disk.unwritable, completion));
      && csv == ConsolidatedRows(OrgIdToName(server.organizations), Loaded(written.files, jsonFiles))
      && disk'.unwritable == disk.unwritable
      && disk'.files == (if csv.Some? then written.files[CsvPath(outDir, timestamp) := CsvReport(csv.value)] else written.files)
                        - Listed(jsonFiles)
  {
    var orgMap := OrgIdToName(server.organizations);
    var apps := server.applications.GetOr([]);
    if apps == [] {
      return None, disk;
    }
    var jsonFiles, successCount, completed, written := CollectResults(server, outDir, disk, completion);
    var reports := LoadReports(written.files, jsonFiles);
    csv := Consolidate(orgMap, reports);
    var files := written.files;
    if csv.Some? {
      files := files[CsvPath(outDir, timestamp) := CsvReport(csv.value)];
    }
    files := DeleteArtifacts(files, jsonFiles);
    disk' := Disk(files, disk.unwritable);
  }

  // ---------------------------------------------------------------------
  // Properties of the whole run

  /** The consolidated rows of a run whose artifact paths are distinct are
      those of the saved payloads in completion order, and any two
      completion orders give the same rows up to order (their numbers
      aside). */
  lemma RunRowsIndependentOfOrder(server: Server, outDir: string, unwritable: set<string>, disk: Disk,
                                  c1: seq<Application>, c2: seq<Application>)
    requires multiset(c1) == multiset(c2)
    requires NoDuplicates(Paths(Outcomes(server, outDir, unwritable, c1)))
    requires NoDuplicates(Paths(Outcomes(server, outDir, unwritable, c2)))
    ensures
      var orgMap := OrgIdToName(server.organizations);
      var os1 := Outcomes(server, outDir, unwritable, c1);
      var os2 := Outcomes(server, outDir, unwritable, c2);
      && Loaded(Written(disk, os1).files, Paths(os1)) == Payloads(os1)
      && multiset(Entries(orgMap, Loaded(Written(disk, os1).files, Paths(os1))))
         == multiset(Entries(orgMap, Loaded(Written(disk, os2).files, Paths(os2))))
  {
    var os1 := Outcomes(server, outDir, unwritable, c1);
    var os2 := Outcomes(server, outDir, unwritable, c2);
    ReloadIsIdentity(disk, os1);
    ReloadIsIdentity(disk, os2);
    OutcomesPermutation(server, outDir, unwritable, c1, c2);
    PayloadsPermutation(os1, os2);
    EntriesPermutation(OrgIdToName(server.organizations), Payloads(os1), Payloads(os2));
  }

  /** After the run no artifact is left and the CSV, when written, is in
      place and holds the rows. */
  lemma RunLeavesOnlyCsv(server: Server, outDir: string, timestamp: string, disk: Disk, completion: seq<Application>,
                         csv: Option<seq<Row>>, files': map<string, File>)
    requires server.applications.GetOr([]) != []
    requires
      var written := Written(disk, Outcomes(server, outDir, disk.unwritable, completion));
      files' == (if csv.Some? then written.files[CsvPath(outDir, timestamp) := CsvReport(csv.value)] else written.files)
                - Listed(Paths(Outcomes(server, outDir, disk.unwritable, completion)))
    ensures forall p :: p in Paths(Outcomes(server, outDir, disk.unwritable, completion)) ==> p !in files'
    ensures csv.Some? ==> CsvPath(outDir, timestamp) in files' && files'[CsvPath(outDir, timestamp)] == CsvReport(csv.value)
  {
    var os := Outcomes(server, outDir, disk.unwritable, completion);
    var c := CsvPath(outDir, timestamp);
    if c in Paths(os) {
      PathsAreResults(os, c);
      var k :| 0 <= k < |os| && ResultPath(os[k]) == Some(c);
      OutcomeAt(server, outDir, disk.unwritable, completion, k);
      CsvIsNoArtifact(server, outDir, disk.unwritable, completion[k], timestamp);
      assert false;
    }
  }
}
