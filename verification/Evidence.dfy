/** Pipeline evidence: issued for a job list by one gate, checked again on a later list by another. */
module Evidence {
  import opened Sequences

  type Name = string

  /** A job of a pipeline; `passed` is a success that was not allowed to fail. */
  datatype Job = Job(name: Name, id: int, passed: bool, commit: string)

  predicate Good(j: Job, sha: string) { j.passed && j.commit == sha }

  function NameOf(j: Job): Name { j.name }
  function NameSet(names: seq<Name>): set<Name> { set n <- names }
  function Named(jobs: seq<Job>, name: Name): seq<Job> { Select(NameOf, name, jobs) }

  // ----- successful_jobs -----

  datatype Outcome = Found(ids: map<Name, int>) | Ambiguous(name: Name) | Unsuccessful(name: Name) | Incomplete

  /** There is one job of that name, it is good and has that id. */
  predicate Settled(jobs: seq<Job>, name: Name, id: int, sha: string) {
    var s := Named(jobs, name);
    |s| == 1 && Good(s[0], sha) && s[0].id == id
  }

  /** The ids of the expected jobs, each there once and good. */
  ghost predicate Proves(ids: map<Name, int>, jobs: seq<Job>, expected: set<Name>, sha: string) {
    ids.Keys == expected && forall name <- ids :: Settled(jobs, name, ids[name], sha)
  }

  ghost predicate Unsettled(jobs: seq<Job>, name: Name, sha: string) {
    forall id :: !Settled(jobs, name, id, sha)
  }

  /** Some expected job is missing, bad or not the only one of its name. */
  ghost predicate Unproved(jobs: seq<Job>, expected: set<Name>, sha: string) {
    exists name :: name in expected && Unsettled(jobs, name, sha)
  }

  /** The jobs seen so far: found, or not there yet. */
  ghost predicate Tally(found: map<Name, int>, seen: seq<Job>, expected: set<Name>, sha: string) {
    && found.Keys <= expected
    && (forall name <- expected :: TallyAt(found, seen, name, sha))
  }

  ghost predicate TallyAt(found: map<Name, int>, seen: seq<Job>, name: Name, sha: string) {
    if name in found then Settled(seen, name, found[name], sha) else Named(seen, name) == []
  }

  /** `successful_jobs`: the ids, exactly when every expected job is there once and good. */
  method SuccessfulJobs(jobs: seq<Job>, expected: seq<Name>, sha: string) returns (r: Outcome)
    ensures r.Found? ==> Proves(r.ids, jobs, NameSet(expected), sha)
    ensures !r.Found? ==> Unproved(jobs, NameSet(expected), sha)
  {
    ghost var names := NameSet(expected);
    var found: map<Name, int> := map[];
    for i := 0 to |jobs|
      invariant Tally(found, jobs[..i], names, sha)
    {
      var name := jobs[i].name;
      assert jobs[..i + 1] == jobs[..i] + [jobs[i]];
      if name in expected {
        if name in found {
          RepeatedJob(jobs, i, name, sha);
          return Ambiguous(name);
        }
        if !Good(jobs[i], sha) {
          BadJob(jobs, i, name, sha);
          return Unsuccessful(name);
        }
        TallyAdds(found, jobs[..i], jobs[i], names, sha);
        found := found[name := jobs[i].id];
      } else {
        TallySkips(found, jobs[..i], jobs[i], names, sha);
      }
    }
    assert jobs[..|jobs|] == jobs;
    if found.Keys != NameSet(expected) {
      MissingJob(found, jobs, names, sha);
      return Incomplete;
    }
    r := Found(found);
  }

  lemma TallyAdds(found: map<Name, int>, seen: seq<Job>, j: Job, expected: set<Name>, sha: string)
    requires Tally(found, seen, expected, sha) && j.name in expected && j.name !in found && Good(j, sha)
    ensures Tally(found[j.name := j.id], seen + [j], expected, sha)
  {
    forall name | name in expected ensures TallyAt(found[j.name := j.id], seen + [j], name, sha) {
      assert TallyAt(found, seen, name, sha);
      SelectSnoc(NameOf, name, seen, j);
    }
  }

  lemma TallySkips(found: map<Name, int>, seen: seq<Job>, j: Job, expected: set<Name>, sha: string)
    requires Tally(found, seen, expected, sha) && j.name !in expected
    ensures Tally(found, seen + [j], expected, sha)
  {
    forall name | name in expected ensures TallyAt(found, seen + [j], name, sha) {
      assert TallyAt(found, seen, name, sha);
      SelectSnoc(NameOf, name, seen, j);
    }
  }

  lemma NamedSplits(jobs: seq<Job>, i: nat, name: Name)
    requires i <= |jobs|
    ensures Named(jobs, name) == Named(jobs[..i], name) + Named(jobs[i..], name)
  {
    assert jobs == jobs[..i] + jobs[i..];
    SelectConcat(NameOf, name, jobs[..i], jobs[i..]);
  }

  lemma RepeatedJob(jobs: seq<Job>, i: nat, name: Name, sha: string)
    requires i < |jobs| && Named(jobs[..i], name) != [] && jobs[i].name == name
    ensures Unsettled(jobs, name, sha)
  {
    NamedSplits(jobs, i, name);
    SelectComplete(NameOf, name, jobs[i..], jobs[i]);
  }

  lemma BadJob(jobs: seq<Job>, i: nat, name: Name, sha: string)
    requires i < |jobs| && jobs[i].name == name && !Good(jobs[i], sha)
    ensures Unsettled(jobs, name, sha)
  {
    SelectComplete(NameOf, name, jobs, jobs[i]);
  }

  lemma MissingJob(found: map<Name, int>, jobs: seq<Job>, expected: set<Name>, sha: string)
    requires Tally(found, jobs, expected, sha) && found.Keys != expected
    ensures Unproved(jobs, expected, sha)
  {
    var name :| name in expected && name !in found;
    assert Unsettled(jobs, name, sha);
  }

  /** A job list that proves a map proves no other, and its check cannot fail. */
  lemma ProofIsUnique(a: map<Name, int>, b: map<Name, int>, jobs: seq<Job>, expected: set<Name>, sha: string)
    requires Proves(a, jobs, expected, sha)
    ensures !Unproved(jobs, expected, sha)
    ensures Proves(b, jobs, expected, sha) ==> a == b
  {
    forall name | name in expected ensures !Unsettled(jobs, name, sha) {
      assert Settled(jobs, name, a[name], sha);
    }
  }

  // ----- expected_names and evidence_job_names -----

  /** How logical names become concrete ones: those expected at issuance, those accepted later. */
  datatype Naming = Naming(expand: Name -> seq<Name>, matches: (Name, Name) -> bool)

  /** Expected names exist and are accepted for their logical name. */
  ghost predicate Coherent(naming: Naming) {
    forall l :: naming.expand(l) != [] && forall i :: 0 <= i < |naming.expand(l)| ==>
      naming.matches(l, naming.expand(l)[i])
  }

  function Expected(naming: Naming, planned: seq<Name>): seq<Name> {
    if planned == [] then [] else Expected(naming, Front(planned)) + naming.expand(Last(planned))
  }

  /** `expected_names`. */
  method ExpectedNames(naming: Naming, planned: seq<Name>) returns (names: seq<Name>)
    ensures names == Expected(naming, planned)
  {
    names := [];
    for i := 0 to |planned|
      invariant names == Expected(naming, planned[..i])
    {
      assert Front(planned[..i + 1]) == planned[..i];
      names := names + naming.expand(planned[i]);
    }
    assert planned[..|planned|] == planned;
  }

  lemma {:induction false} ExpectedHas(naming: Naming, planned: seq<Name>, name: Name) returns (l: Name)
    requires name in Expected(naming, planned)
    ensures l in planned && name in naming.expand(l)
  {
    if name in naming.expand(Last(planned)) {
      l := Last(planned);
    } else {
      l := ExpectedHas(naming, Front(planned), name);
    }
  }

  lemma {:induction false} ExpectedOf(naming: Naming, planned: seq<Name>, l: Name, name: Name)
    requires l in planned && name in naming.expand(l)
    ensures name in Expected(naming, planned)
  {
    if l != Last(planned) {
      assert l in Front(planned);
      ExpectedOf(naming, Front(planned), l, name);
    }
  }

  predicate IsPlanned(naming: Naming, planned: seq<Name>, name: Name) {
    exists l :: l in planned && naming.matches(l, name)
  }

  /** The names in the job list that belong to the plan. */
  function PlannedNames(naming: Naming, jobs: seq<Job>, planned: seq<Name>): set<Name> {
    set j <- jobs | IsPlanned(naming, planned, j.name) :: j.name
  }

  ghost predicate HasMatch(naming: Naming, jobs: seq<Job>, l: Name) {
    exists j :: j in jobs && naming.matches(l, j.name)
  }

  ghost predicate AllMatched(naming: Naming, jobs: seq<Job>, planned: seq<Name>) {
    forall l <- planned :: HasMatch(naming, jobs, l)
  }

  /** The names one logical name resolves to. */
  method Matches(naming: Naming, jobs: seq<Job>, l: Name) returns (names: seq<Name>)
    ensures forall n :: n in names <==> exists j :: j in jobs && j.name == n && naming.matches(l, n)
    ensures names != [] <==> HasMatch(naming, jobs, l)
  {
    names := [];
    for i := 0 to |jobs|
      invariant forall n :: n in names <==> exists k :: 0 <= k < i && jobs[k].name == n && naming.matches(l, n)
    {
      if naming.matches(l, jobs[i].name) {
        names := names + [jobs[i].name];
      }
    }
    assert forall n :: n in names ==> exists j :: j in jobs && j.name == n && naming.matches(l, n);
    assert names != [] ==> names[0] in names;
    assert forall j :: j in jobs && naming.matches(l, j.name) ==> j.name in names;
  }

  /** `evidence_job_names`: the plan's jobs in this list, or nothing when a planned name has none. */
  method EvidenceJobNames(naming: Naming, jobs: seq<Job>, planned: seq<Name>) returns (r: Option<seq<Name>>)
    ensures r.Some? <==> AllMatched(naming, jobs, planned)
    ensures r.Some? ==> NameSet(r.value) == PlannedNames(naming, jobs, planned)
  {
    var names: seq<Name> := [];
    for i := 0 to |planned|
      invariant AllMatched(naming, jobs, planned[..i]) && NameSet(names) == PlannedNames(naming, jobs, planned[..i])
    {
      var found := Matches(naming, jobs, planned[i]);
      assert planned[i] in planned;
      if found == [] {
        return None;
      }
      NamesStep(naming, jobs, planned[..i], planned[i], names, found);
      assert planned[..i + 1] == planned[..i] + [planned[i]];
      names := names + found;
    }
    assert planned[..|planned|] == planned;
    r := Some(names);
  }

  lemma NamesStep(naming: Naming, jobs: seq<Job>, planned: seq<Name>, l: Name, names: seq<Name>, found: seq<Name>)
    requires NameSet(names) == PlannedNames(naming, jobs, planned)
    requires forall n :: n in found <==> exists j :: j in jobs && j.name == n && naming.matches(l, n)
    ensures NameSet(names + found) == PlannedNames(naming, jobs, planned + [l])
  {
    var longer := planned + [l];
    forall n ensures n in names + found <==> n in PlannedNames(naming, jobs, longer) {
      if n in names {
        assert n in NameSet(names);
        var m :| m in planned && naming.matches(m, n);
        assert m in longer;
      }
      if n in found {
        assert l in longer;
      }
      if n in PlannedNames(naming, jobs, longer) {
        var m :| m in longer && naming.matches(m, n);
        if m in planned {
          assert n in NameSet(names);
        }
      }
    }
  }

  // ----- issuing and checking again -----

  /** What `completed_records` accepts: the jobs of the plan in this list prove exactly the recorded ids. */
  ghost predicate Rechecks(naming: Naming, ids: map<Name, int>, jobs: seq<Job>, planned: seq<Name>, sha: string) {
    AllMatched(naming, jobs, planned) && Proves(ids, jobs, PlannedNames(naming, jobs, planned), sha)
  }

  method Recheck(naming: Naming, ids: map<Name, int>, jobs: seq<Job>, planned: seq<Name>, sha: string)
      returns (ok: bool)
    ensures ok <==> Rechecks(naming, ids, jobs, planned, sha)
  {
    var names := EvidenceJobNames(naming, jobs, planned);
    if names.None? {
      return false;
    }
    var actual := SuccessfulJobs(jobs, names.value, sha);
    if actual.Found? {
      ProofIsUnique(actual.ids, ids, jobs, NameSet(names.value), sha);
      return actual.ids == ids;
    }
    if Proves(ids, jobs, NameSet(names.value), sha) {
      ProofIsUnique(ids, ids, jobs, NameSet(names.value), sha);
    }
    ok := false;
  }

  /** The recorded ids were issued on some list of jobs. */
  ghost predicate Issued(naming: Naming, ids: map<Name, int>, jobs: seq<Job>, planned: seq<Name>, sha: string) {
    Proves(ids, jobs, NameSet(Expected(naming, planned)), sha)
  }

  /** No job of the list belongs to the plan without having been expected. */
  ghost predicate NoExtra(naming: Naming, ids: map<Name, int>, jobs: seq<Job>, planned: seq<Name>) {
    forall j <- jobs :: IsPlanned(naming, planned, j.name) ==> j.name in ids
  }

  ghost predicate AllSettled(ids: map<Name, int>, jobs: seq<Job>, sha: string) {
    forall name <- ids :: Settled(jobs, name, ids[name], sha)
  }

  lemma SettledIsThere(jobs: seq<Job>, name: Name, id: int, sha: string) returns (j: Job)
    requires Settled(jobs, name, id, sha)
    ensures j in jobs && j.name == name
  {
    j := Named(jobs, name)[0];
  }

  lemma {:induction false} IssuedIsPlanned(naming: Naming, ids: map<Name, int>, planned: seq<Name>, name: Name)
    requires Coherent(naming) && ids.Keys == NameSet(Expected(naming, planned)) && name in ids
    ensures IsPlanned(naming, planned, name)
  {
    var l := ExpectedHas(naming, planned, name);
  }

  lemma {:induction false} IssuedMatches(
    naming: Naming, ids: map<Name, int>, jobs: seq<Job>, planned: seq<Name>, sha: string)
    requires Coherent(naming) && ids.Keys == NameSet(Expected(naming, planned)) && AllSettled(ids, jobs, sha)
    ensures AllMatched(naming, jobs, planned)
  {
    forall l | l in planned ensures HasMatch(naming, jobs, l) {
      var name := naming.expand(l)[0];
      ExpectedOf(naming, planned, l, name);
      assert name in ids;
      var j := SettledIsThere(jobs, name, ids[name], sha);
      assert naming.matches(l, j.name);
    }
  }

  /** Exactly when a record is accepted on a later job list: every recorded job is still the only one of its
      name, good and the same; and no other job of that list carries a planned name. */
  lemma RecheckIff(naming: Naming, ids: map<Name, int>, issued: seq<Job>, jobs: seq<Job>, planned: seq<Name>,
      sha: string)
    requires Coherent(naming) && Issued(naming, ids, issued, planned, sha)
    ensures Rechecks(naming, ids, jobs, planned, sha) <==>
            AllSettled(ids, jobs, sha) && NoExtra(naming, ids, jobs, planned)
  {
    if AllSettled(ids, jobs, sha) && NoExtra(naming, ids, jobs, planned) {
      IssuedMatches(naming, ids, jobs, planned, sha);
      IssuedNames(naming, ids, jobs, planned, sha);
    }
    if Rechecks(naming, ids, jobs, planned, sha) {
      forall j | j in jobs && IsPlanned(naming, planned, j.name) ensures j.name in ids {
        assert j.name in PlannedNames(naming, jobs, planned);
      }
    }
  }

  lemma {:induction false} IssuedNames(
    naming: Naming, ids: map<Name, int>, jobs: seq<Job>, planned: seq<Name>, sha: string)
    requires Coherent(naming) && ids.Keys == NameSet(Expected(naming, planned))
    requires AllSettled(ids, jobs, sha) && NoExtra(naming, ids, jobs, planned)
    ensures ids.Keys == PlannedNames(naming, jobs, planned)
  {
    forall name | name in ids ensures name in PlannedNames(naming, jobs, planned) {
      IssuedIsPlanned(naming, ids, planned, name);
      var j := SettledIsThere(jobs, name, ids[name], sha);
    }
  }

  /** The jobs of the list that belong to the plan. */
  function Relevant(naming: Naming, jobs: seq<Job>, planned: seq<Name>): seq<Job> {
    if jobs == [] then []
    else
      var r := Relevant(naming, Front(jobs), planned);
      if IsPlanned(naming, planned, Last(jobs).name) then r + [Last(jobs)] else r
  }

  lemma {:induction false} RelevantNamed(naming: Naming, jobs: seq<Job>, planned: seq<Name>, name: Name)
    requires IsPlanned(naming, planned, name)
    ensures Named(Relevant(naming, jobs, planned), name) == Named(jobs, name)
  {
    if jobs != [] {
      RelevantNamed(naming, Front(jobs), planned, name);
      var r := Relevant(naming, Front(jobs), planned);
      SelectSnoc(NameOf, name, r, Last(jobs));
    }
  }

  lemma {:induction false} RelevantMembers(naming: Naming, jobs: seq<Job>, planned: seq<Name>, j: Job)
    ensures j in Relevant(naming, jobs, planned) <==> j in jobs && IsPlanned(naming, planned, j.name)
  {
    if jobs != [] {
      RelevantMembers(naming, Front(jobs), planned, j);
      FrontLast(jobs);
    }
  }

  /** Jobs outside the plan, added or removed anywhere, do not change the verdict. */
  lemma {:induction false} UnrelatedJobsDoNotMatter(
    naming: Naming, ids: map<Name, int>, issued: seq<Job>, jobs: seq<Job>,
      jobs': seq<Job>, planned: seq<Name>, sha: string)
    requires Coherent(naming) && Issued(naming, ids, issued, planned, sha)
    requires Relevant(naming, jobs, planned) == Relevant(naming, jobs', planned)
    requires Rechecks(naming, ids, jobs, planned, sha)
    ensures Rechecks(naming, ids, jobs', planned, sha)
  {
    RecheckIff(naming, ids, issued, jobs, planned, sha);
    RecheckIff(naming, ids, issued, jobs', planned, sha);
    forall name | name in ids ensures Settled(jobs', name, ids[name], sha) {
      IssuedIsPlanned(naming, ids, planned, name);
      RelevantNamed(naming, jobs, planned, name);
      RelevantNamed(naming, jobs', planned, name);
      assert Settled(jobs, name, ids[name], sha);
    }
    forall j | j in jobs' && IsPlanned(naming, planned, j.name) ensures j.name in ids {
      RelevantMembers(naming, jobs', planned, j);
      RelevantMembers(naming, jobs, planned, j);
    }
  }

  /** A planned job that is gone, failed, of another commit, replaced or there twice makes the check reject. */
  lemma DamageIsRejected(naming: Naming, ids: map<Name, int>, issued: seq<Job>, jobs: seq<Job>, planned: seq<Name>,
      sha: string, name: Name)
    requires Coherent(naming) && Issued(naming, ids, issued, planned, sha) && name in ids
    requires |Named(jobs, name)| != 1 || !Good(Named(jobs, name)[0], sha) || Named(jobs, name)[0].id != ids[name]
    ensures !Rechecks(naming, ids, jobs, planned, sha)
  {
    RecheckIff(naming, ids, issued, jobs, planned, sha);
    assert !Settled(jobs, name, ids[name], sha);
  }

  // ----- pages -----

  const PER_PAGE: nat := 100

  /** Page `page` of a listing, as the server cuts it. */
  function Page<A>(listing: seq<A>, page: nat): seq<A>
    requires page > 0
  {
    var from, to := PER_PAGE * (page - 1), PER_PAGE * page;
    if |listing| <= from then [] else if |listing| <= to then listing[from..] else listing[from..to]
  }

  /** `pages`: asking until a page is not full gives the whole listing, in order, once. */
  method Pages<A>(listing: seq<A>) returns (items: seq<A>)
    ensures items == listing
  {
    items := [];
    var page: nat := 1;
    while true
      invariant page > 0 && PER_PAGE * (page - 1) <= |listing| && items == listing[..PER_PAGE * (page - 1)]
      decreases |listing| - PER_PAGE * (page - 1)
    {
      var next := Page(listing, page);
      items := items + next;
      if |next| < PER_PAGE {
        return;
      }
      page := page + 1;
    }
  }

  // ----- the names of this repository -----

  predicate HasSuffix(s: string, suffix: string) { |suffix| <= |s| && s[|s| - |suffix|..] == suffix }

  const SHARDS: seq<string> := ["1/2", "2/2"]
  const ARCHITECTURES: seq<string> := ["amd64", "arm64"]

  function Matrix(name: Name, cells: seq<string>): (r: seq<Name>)
    requires |cells| == 2
    ensures |r| == 2 && forall i :: 0 <= i < 2 ==> r[i] == name + ": [" + cells[i] + "]"
  {
    [name + ": [" + cells[0] + "]", name + ": [" + cells[1] + "]"]
  }

  /** Which jobs a planned name expands to. */
  function Expand(name: Name): seq<Name> {
    if name == "frontend-tests" then Matrix(name, SHARDS)
    else if HasSuffix(name, "image-vuln-scan") || name == "release-quickstart-smoke" || name == "release-compose-smoke"
    then Matrix(name, ARCHITECTURES)
    else [name]
  }

  predicate MatchesName(logical: Name, name: Name) {
    name == logical || (logical + ": [" <= name && HasSuffix(name, "]"))
  }

  const NAMES: Naming := Naming(Expand, MatchesName)

  lemma CellMatches(logical: Name, cell: string)
    ensures MatchesName(logical, logical + ": [" + cell + "]")
  {
    var name := logical + ": [" + cell + "]";
    assert name[..|logical + ": ["|] == logical + ": [";
    assert name[|name| - 1..] == "]";
  }

  lemma NamesAreCoherent()
    ensures Coherent(NAMES)
  {
    forall l, i | 0 <= i < |Expand(l)| ensures MatchesName(l, Expand(l)[i]) {
      if Expand(l) != [l] {
        var cells := if l == "frontend-tests" then SHARDS else ARCHITECTURES;
        assert Expand(l) == Matrix(l, cells);
        CellMatches(l, cells[i]);
      }
    }
  }

  /** An issued record need not be accepted on the very list it was issued on: a further matrix job of a planned
      name, of whatever outcome, is ignored when the record is made and demanded when it is checked. */
  lemma {:induction false} ExtraMatrixJobIsRejected(
    ids: map<Name, int>, jobs: seq<Job>, planned: seq<Name>, sha: string, l: Name, cell: string, extra: Job)
    requires Issued(NAMES, ids, jobs, planned, sha) && l in planned
    requires extra.name == l + ": [" + cell + "]" && extra.name !in Expected(NAMES, planned)
    ensures Issued(NAMES, ids, jobs + [extra], planned, sha)
    ensures !Rechecks(NAMES, ids, jobs + [extra], planned, sha)
  {
    var longer := jobs + [extra];
    forall name | name in ids ensures Settled(longer, name, ids[name], sha) {
      assert Settled(jobs, name, ids[name], sha);
      SelectSnoc(NameOf, name, jobs, extra);
    }
    CellMatches(l, cell);
    assert NAMES.matches(l, extra.name);
    NamesAreCoherent();
    RecheckIff(NAMES, ids, jobs, longer, planned, sha);
    assert extra in longer && IsPlanned(NAMES, planned, extra.name);
  }

  function Cell(name: Name, cell: string): Name { name + ": [" + cell + "]" }

  lemma CellsDiffer(name: Name, a: string, b: string)
    requires a != "" && b != "" && a[0] != b[0]
    ensures Cell(name, a) != Cell(name, b)
  {
    assert Cell(name, a)[|name| + 3] == a[0] && Cell(name, b)[|name| + 3] == b[0];
  }

  /** For example a third shard next to the two expected ones. */
  lemma ThirdShardIsRejected(sha: string) returns (ids: map<Name, int>, jobs: seq<Job>, extra: Job)
    ensures extra == Job(Cell("frontend-tests", "3/3"), 3, true, sha)
    ensures Issued(NAMES, ids, jobs + [extra], ["frontend-tests"], sha)
    ensures !Rechecks(NAMES, ids, jobs + [extra], ["frontend-tests"], sha)
  {
    var l := "frontend-tests";
    var a, b := Cell(l, SHARDS[0]), Cell(l, SHARDS[1]);
    CellsDiffer(l, SHARDS[0], SHARDS[1]);
    CellsDiffer(l, SHARDS[0], "3/3");
    CellsDiffer(l, SHARDS[1], "3/3");
    jobs, ids := [Job(a, 1, true, sha), Job(b, 2, true, sha)], map[a := 1, b := 2];
    extra := Job(Cell(l, "3/3"), 3, true, sha);
    TwoJobs(jobs[0], jobs[1], sha);
    assert Front([l]) == [] && Last([l]) == l;
    assert Expected(NAMES, [l]) == Expand(l);
    assert Expand(l) == [a, b];
    assert ids.Keys == NameSet([a, b]);
    ExtraMatrixJobIsRejected(ids, jobs, [l], sha, l, "3/3", extra);
  }

  lemma TwoJobs(first: Job, second: Job, sha: string)
    requires first.name != second.name && Good(first, sha) && Good(second, sha)
    ensures Settled([first, second], first.name, first.id, sha) && Settled([first, second], second.name, second.id, sha)
  {
    assert [first, second] == [] + [first] + [second];
    SelectSnoc(NameOf, first.name, [] + [first], second);
    SelectSnoc(NameOf, second.name, [] + [first], second);
    SelectSnoc(NameOf, first.name, [], first);
    SelectSnoc(NameOf, second.name, [], first);
  }

  // ----- what a record proves, spelled out -----

  /** There is one job of this name: it passed, on this commit, and has this id. */
  ghost predicate IsOnlyJob(jobs: seq<Job>, name: Name, id: int, sha: string) {
    exists k ::
      0 <= k < |jobs| && IsOnlyJobAt(jobs, k, name) && jobs[k].passed && jobs[k].commit == sha && jobs[k].id == id
  }

  ghost predicate IsOnlyJobAt(jobs: seq<Job>, k: nat, name: Name)
    requires k < |jobs|
  {
    jobs[k].name == name && forall m :: 0 <= m < |jobs| && m != k ==> jobs[m].name != name
  }

  /** The jobs that a planned name demands: both shards of the frontend tests, both architectures of a scan or of a
      smoke test of the release, and otherwise the job of that name. */
  ghost predicate Demands(l: Name, name: Name) {
    if l == "frontend-tests" then name == l + ": [1/2]" || name == l + ": [2/2]"
    else if IsPerArchitecture(l) then name == l + ": [amd64]" || name == l + ": [arm64]"
    else name == l
  }

  ghost predicate IsPerArchitecture(l: Name) {
    l == "release-quickstart-smoke" || l == "release-compose-smoke" || exists start :: l == start + "image-vuln-scan"
  }

  /** The name itself, or the name with anything in brackets. */
  ghost predicate Carries(l: Name, name: Name) {
    name == l || exists cell :: name == l + ": [" + cell + "]"
  }

  lemma {:induction false} OnlyJobIff(jobs: seq<Job>, name: Name, id: int, sha: string)
    ensures Settled(jobs, name, id, sha) <==> IsOnlyJob(jobs, name, id, sha)
    ensures Named(jobs, name) == [] <==> forall m :: 0 <= m < |jobs| ==> jobs[m].name != name
  {
    if jobs != [] {
      var front, last := Front(jobs), Last(jobs);
      FrontLast(jobs);
      OnlyJobIff(front, name, id, sha);
      SelectSnoc(NameOf, name, front, last);
      if last.name == name {
        OnlyLast(jobs, name, id, sha);
      } else {
        OnlyFront(jobs, name, id, sha);
      }
    }
  }

  lemma OnlyLast(jobs: seq<Job>, name: Name, id: int, sha: string)
    requires jobs != [] && Last(jobs).name == name
    ensures IsOnlyJob(jobs, name, id, sha) <==>
            Last(jobs).passed && Last(jobs).commit == sha && Last(jobs).id == id &&
            forall m :: 0 <= m < |Front(jobs)| ==> Front(jobs)[m].name != name
  {
    var n := |jobs| - 1;
    assert jobs[n] == Last(jobs) && forall m :: 0 <= m < n ==> jobs[m] == Front(jobs)[m];
    if IsOnlyJob(jobs, name, id, sha) {
      var k :| 0 <= k < |jobs| && IsOnlyJobAt(jobs, k, name) && jobs[k].passed && jobs[k].commit == sha &&
        jobs[k].id == id;
      assert k == n;
    }
    if forall m :: 0 <= m < n ==> Front(jobs)[m].name != name {
      assert IsOnlyJobAt(jobs, n, name);
    }
  }

  lemma OnlyFront(jobs: seq<Job>, name: Name, id: int, sha: string)
    requires jobs != [] && Last(jobs).name != name
    ensures IsOnlyJob(jobs, name, id, sha) <==> IsOnlyJob(Front(jobs), name, id, sha)
  {
    var front := Front(jobs);
    assert forall m :: 0 <= m < |front| ==> jobs[m] == front[m];
    assert forall k :: 0 <= k < |front| ==> (IsOnlyJobAt(jobs, k, name) <==> IsOnlyJobAt(front, k, name));
  }

  lemma CellText(l: Name, cell: string, text: string)
    requires text == ": [" + cell + "]"
    ensures l + ": [" + cell + "]" == l + text
  {}

  lemma ExpandDemands(l: Name, name: Name)
    ensures name in Expand(l) <==> Demands(l, name)
  {
    if HasSuffix(l, "image-vuln-scan") {
      assert l == l[..|l| - |"image-vuln-scan"|] + "image-vuln-scan";
    }
    if l == "frontend-tests" {
      CellText(l, "1/2", ": [1/2]");
      CellText(l, "2/2", ": [2/2]");
      assert Expand(l) == Matrix(l, SHARDS);
    } else if IsPerArchitecture(l) {
      CellText(l, "amd64", ": [amd64]");
      CellText(l, "arm64", ": [arm64]");
      assert Expand(l) == Matrix(l, ARCHITECTURES);
    } else {
      assert Expand(l) == [l];
    }
  }

  lemma MatchesCarries(l: Name, name: Name)
    ensures MatchesName(l, name) <==> Carries(l, name)
  {
    var open := l + ": [";
    if open <= name && HasSuffix(name, "]") {
      assert name[|open| - 1] == '[' && name[|name| - 1] == ']';
      assert name == open + name[|open|..|name| - 1] + "]";
    }
    if exists cell :: name == l + ": [" + cell + "]" {
      var cell :| name == l + ": [" + cell + "]";
      CellMatches(l, cell);
    }
  }

  ghost predicate IsDemanded(planned: seq<Name>, name: Name) { exists l :: l in planned && Demands(l, name) }

  lemma {:induction false} ExpectedIff(planned: seq<Name>, name: Name)
    ensures name in Expected(NAMES, planned) <==> IsDemanded(planned, name)
  {
    if name in Expected(NAMES, planned) {
      var l := ExpectedHas(NAMES, planned, name);
      ExpandDemands(l, name);
    }
    if IsDemanded(planned, name) {
      var l :| l in planned && Demands(l, name);
      ExpandDemands(l, name);
      ExpectedOf(NAMES, planned, l, name);
    }
  }

  /** A record names exactly the demanded jobs, each the only one of its name, passed and of this commit. */
  lemma IssuedIff(ids: map<Name, int>, jobs: seq<Job>, planned: seq<Name>, sha: string)
    ensures Issued(NAMES, ids, jobs, planned, sha) <==>
            && (forall name :: name in ids <==> IsDemanded(planned, name))
            && (forall name :: name in ids ==> IsOnlyJob(jobs, name, ids[name], sha))
  {
    forall name ensures name in NameSet(Expected(NAMES, planned)) <==> IsDemanded(planned, name) {
      ExpectedIff(planned, name);
    }
    forall name | name in ids
      ensures Settled(jobs, name, ids[name], sha) <==> IsOnlyJob(jobs, name, ids[name], sha)
    {
      OnlyJobIff(jobs, name, ids[name], sha);
    }
  }

  /** There is a record exactly when every demanded job is the only one of its name, passed and of this commit. */
  lemma {:induction false} IssuableIff(jobs: seq<Job>, planned: seq<Name>, sha: string)
    ensures !Unproved(jobs, NameSet(Expected(NAMES, planned)), sha) <==>
            forall name :: IsDemanded(planned, name) ==> exists id :: IsOnlyJob(jobs, name, id, sha)
  {
    forall name, id ensures Settled(jobs, name, id, sha) <==> IsOnlyJob(jobs, name, id, sha) {
      OnlyJobIff(jobs, name, id, sha);
    }
    forall name ensures name in NameSet(Expected(NAMES, planned)) <==> IsDemanded(planned, name) {
      ExpectedIff(planned, name);
    }
  }

  ghost predicate IsCarried(jobs: seq<Job>, planned: seq<Name>, name: Name) {
    exists l, j :: l in planned && j in jobs && j.name == name && Carries(l, name)
  }

  /** A record is accepted exactly when it names all jobs that carry a planned name, each of them the only one of its
      name, passed and of this commit, and no planned name is without one. */
  lemma RechecksIff(ids: map<Name, int>, jobs: seq<Job>, planned: seq<Name>, sha: string)
    ensures Rechecks(NAMES, ids, jobs, planned, sha) <==>
            && (forall l :: l in planned ==> exists j :: j in jobs && Carries(l, j.name))
            && (forall name :: name in ids <==> IsCarried(jobs, planned, name))
            && (forall name :: name in ids ==> IsOnlyJob(jobs, name, ids[name], sha))
  {
    forall l, name ensures NAMES.matches(l, name) <==> Carries(l, name) {
      MatchesCarries(l, name);
    }
    forall l ensures HasMatch(NAMES, jobs, l) <==> exists j :: j in jobs && Carries(l, j.name) {
    }
    forall name ensures name in PlannedNames(NAMES, jobs, planned) <==> IsCarried(jobs, planned, name) {
    }
    forall name | name in ids
      ensures Settled(jobs, name, ids[name], sha) <==> IsOnlyJob(jobs, name, ids[name], sha)
    {
      OnlyJobIff(jobs, name, ids[name], sha);
    }
  }

  // ----- provenance -----

  datatype Pipeline = Pipeline(id: int, sha: string, ref: string, source: string, succeeded: bool)
  datatype PlanRef = PlanRef(sha: string, ref: string, parent: int, jobs: seq<Name>)
  datatype Record = Record(
    sha: string, ref: string, parent: int, pipeline: int, planned: seq<Name>, ids: map<Name, int>)

  /** `integration_record`. */
  method IntegrationRecord(pipeline: Pipeline, plan: PlanRef, jobs: seq<Job>) returns (r: Option<Record>)
    ensures r.Some? <==>
            pipeline.sha == plan.sha && pipeline.ref == plan.ref && pipeline.source == "parent_pipeline" &&
            !Unproved(jobs, NameSet(Expected(NAMES, plan.jobs)), plan.sha)
    ensures r.Some? ==>
              && r.value.(ids := map[]) == Record(plan.sha, plan.ref, plan.parent, pipeline.id, plan.jobs, map[])
              && Issued(NAMES, r.value.ids, jobs, plan.jobs, plan.sha)
  {
    if pipeline.sha != plan.sha || pipeline.ref != plan.ref || pipeline.source != "parent_pipeline" {
      return None;
    }
    var names := ExpectedNames(NAMES, plan.jobs);
    var found := SuccessfulJobs(jobs, names, plan.sha);
    if !found.Found? {
      return None;
    }
    ProofIsUnique(found.ids, found.ids, jobs, NameSet(names), plan.sha);
    r := Some(Record(plan.sha, plan.ref, plan.parent, pipeline.id, plan.jobs, found.ids));
  }

  datatype Verdict = Skipped | Inconsistent | Mismatch | Accepted

  predicate Current(parent: Pipeline, child: Pipeline, ref: string) {
    && parent.succeeded && (parent.source == "push" || parent.source == "web") && parent.ref == ref
    && child.succeeded && child.sha == parent.sha && child.ref == ref && child.source == "parent_pipeline"
  }

  predicate ProvenanceHolds(record: Record, parent: Pipeline, child: Pipeline, ref: string) {
    record.sha == parent.sha && record.pipeline == child.id && record.parent == parent.id && record.ref == ref
  }

  /** One candidate of `completed_records`: parent pipeline, child pipeline, its jobs now, and its record. */
  method CheckRecord(parent: Pipeline, child: Pipeline, ref: string, jobs: seq<Job>, record: Record)
      returns (r: Verdict)
    ensures r == if !Current(parent, child, ref) then Skipped
                 else if !ProvenanceHolds(record, parent, child, ref) then Inconsistent
                 else if Rechecks(NAMES, record.ids, jobs, record.planned, record.sha) then Accepted else Mismatch
    ensures r.Accepted? ==>
              && parent.succeeded && parent.source in {"push", "web"} && child.succeeded
              && child.source == "parent_pipeline" && parent.ref == child.ref == record.ref == ref
              && parent.sha == child.sha == record.sha && record.parent == parent.id && record.pipeline == child.id
              && forall name :: name in record.ids ==> IsOnlyJob(jobs, name, record.ids[name], record.sha)
  {
    if !Current(parent, child, ref) {
      return Skipped;
    }
    if !ProvenanceHolds(record, parent, child, ref) {
      return Inconsistent;
    }
    var same := Recheck(NAMES, record.ids, jobs, record.planned, record.sha);
    RechecksIff(record.ids, jobs, record.planned, record.sha);
    r := if same then Accepted else Mismatch;
  }

  /** From issuance to acceptance: a record issued in a pipeline that then succeeded is accepted exactly when its
      jobs still stand and no unexpected job carries a planned name. */
  method IssueAndCheck(parent: Pipeline, child: Pipeline, plan: PlanRef, jobs: seq<Job>, later: seq<Job>)
      returns (issued: bool, r: Verdict)
    requires Current(parent, child, plan.ref) && plan.sha == parent.sha && plan.parent == parent.id
    ensures issued <==> !Unproved(jobs, NameSet(Expected(NAMES, plan.jobs)), plan.sha)
    ensures issued ==> exists ids ::
              Issued(NAMES, ids, jobs, plan.jobs, plan.sha) &&
              (r == Accepted <==> AllSettled(ids, later, plan.sha) && NoExtra(NAMES, ids, later, plan.jobs))
    ensures issued ==> r == Accepted || r == Mismatch
  {
    var record := IntegrationRecord(child, plan, jobs);
    issued, r := record.Some?, Skipped;
    if issued {
      r := CheckRecord(parent, child, plan.ref, later, record.value);
      NamesAreCoherent();
      RecheckIff(NAMES, record.value.ids, jobs, later, plan.jobs, plan.sha);
    }
  }
}
