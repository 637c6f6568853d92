/** CI selection: which jobs and images a change needs (ops/ci/plan.py), as the later gates demand them. */
module Selection {
  import opened Sequences

  datatype Component = Backend | Frontend | Scheduler

  datatype Job =
    | ProjectNaming | CiContract | SecretScan | BackendTests
    | BackendSecurityContract | BackendPostgresqlTests | BackendDeadcode | BackendVulnScan
    | FrontendQuality | FrontendTests | FrontendBrowserE2e | FrontendDemo
    | FrontendAudit | FrontendVulnScan | HelmContract | ComposeContract | DocsBuild
    | DocsScreenshots | SchedulerContract
    | Build(component: Component) | ImageVulnScan(component: Component)
    | HelmKindSmoke | CephFunctionalTests | ReleasePreflight | DocsDeploy | ScanPublishedImages

  datatype Profile =
    | Pr | Integration | BuildImages | Qualify | PrepareRelease | ResumeRelease | Release | Docs | Regression
    | Security | SecretsHistory | RecoverRelease | ReleaseHistory | BootstrapReleaseBundles | BootstrapDemo

  const COMPONENTS: set<Component> := {Backend, Frontend, Scheduler}
  const MANDATORY: set<Job> := {ProjectNaming, CiContract, SecretScan}
  const PUBLIC: set<Job> := {
    ProjectNaming, CiContract, SecretScan, BackendTests, BackendSecurityContract, BackendPostgresqlTests,
    BackendDeadcode, BackendVulnScan, FrontendQuality, FrontendTests, FrontendBrowserE2e, FrontendDemo,
    FrontendAudit, FrontendVulnScan, HelmContract, ComposeContract, DocsBuild, DocsScreenshots, SchedulerContract}
  const BACKEND: set<Job> := {BackendTests, BackendSecurityContract, BackendPostgresqlTests, BackendDeadcode}
  const FRONTEND: set<Job> := {FrontendQuality, FrontendTests, FrontendDemo}
  const DOCS: set<Job> := {DocsBuild, DocsScreenshots}
  const DEPLOY: set<Job> := {BackendTests, HelmContract, ComposeContract}

  // ----- paths -----

  predicate StartsWith(path: string, prefix: string) { prefix <= path }

  predicate EndsWith(path: string, suffix: string) {
    |suffix| <= |path| && path[|path| - |suffix|..] == suffix
  }

  predicate HasAt(path: string, part: string, i: nat) { i + |part| <= |path| && path[i..i + |part|] == part }

  predicate Contains(path: string, part: string) {
    exists i :: 0 <= i <= |path| && HasAt(path, part, i)
  }

  /** `\.test\.(?:ts|tsx)$`; the dollar also matches before a final newline. */
  predicate IsTestSource(path: string) {
    EndsWith(path, ".test.ts") || EndsWith(path, ".test.tsx") || EndsWith(path, ".test.ts\n") ||
      EndsWith(path, ".test.tsx\n")
  }

  /** What a changed path belongs to; the first matching rule decides. */
  datatype Touched =
    | Pipeline | Cloudflare | DocPages | DocScreenshots | UnitTests | BrowserTests | DemoTests
    | PostgresqlTests | CephTests | PlainBackendTests
    | BackendCode(shipped: bool, requirements: bool) | FrontendCode(packages: bool)
    | Deployment(images: bool) | SchedulerCode | Notes | Unknown

  predicate IsPipeline(path: string) {
    || StartsWith(path, ".github/") || StartsWith(path, "ops/ci/")
    || path == ".gitlab-ci.yml" || path == ".trivyignore" || path == "pytest.ini"
  }

  predicate IsScreenshotPath(path: string) {
    StartsWith(path, "frontend/scripts/docs-screenshots/") || StartsWith(path, "frontend/playwright.docs")
  }

  predicate IsUnitTestPath(path: string) {
    || path == "frontend/vitest.config.ts" || StartsWith(path, "frontend/src/test/")
    || (StartsWith(path, "frontend/src/") && IsTestSource(path))
  }

  predicate IsBrowserTest(path: string) {
    || path == "frontend/playwright.e2e.config.ts" || StartsWith(path, "frontend/e2e/browser/")
    || StartsWith(path, "frontend/e2e/auth/") || StartsWith(path, "frontend/e2e/setup/")
    || StartsWith(path, "frontend/e2e/helpers/") || StartsWith(path, "frontend/e2e/fixtures/")
  }

  predicate IsDemoTest(path: string) {
    path == "frontend/playwright.demo.config.ts" || StartsWith(path, "frontend/e2e/demo/")
  }

  predicate IsDeployment(path: string) {
    || StartsWith(path, "ops/release/") || StartsWith(path, "deploy/")
    || path == "CHANGELOG.md" || path == "compose.yaml"
  }

  predicate IsNote(path: string) {
    || path == "AGENTS.md" || path == "LICENSE" || path == ".gitignore" || path == ".gitmessage-ai.txt"
    || StartsWith(path, ".vscode/")
  }

  function TouchedBackend(path: string): Touched {
    var requirements := Contains(path, "requirements");
    var shipped := StartsWith(path, "backend/app/") || StartsWith(path, "backend/alembic/");
    BackendCode(shipped || requirements || EndsWith(path, "Dockerfile"), requirements)
  }

  function TouchedBy(path: string): Touched {
    if IsPipeline(path) then Pipeline
    else if StartsWith(path, "ops/cloudflare/") then Cloudflare
    else if StartsWith(path, "doc/") || path == "README.md" then DocPages
    else if IsScreenshotPath(path) then DocScreenshots
    else if IsUnitTestPath(path) then UnitTests
    else if IsBrowserTest(path) then BrowserTests
    else if IsDemoTest(path) then DemoTests
    else if StartsWith(path, "backend/tests_postgresql/") then PostgresqlTests
    else if StartsWith(path, "backend/tests_ceph_functional/") then CephTests
    else if StartsWith(path, "backend/tests/") then PlainBackendTests
    else if StartsWith(path, "backend/") then TouchedBackend(path)
    else if StartsWith(path, "frontend/")
    then FrontendCode(EndsWith(path, "package.json") || EndsWith(path, "package-lock.json"))
    else if IsDeployment(path) then Deployment(StartsWith(path, "deploy/") || path == "compose.yaml")
    else if StartsWith(path, "ops/cron/") || StartsWith(path, "scheduler/") then SchedulerCode
    else if IsNote(path) then Notes
    else Unknown
  }

  /** What a change asks for. */
  datatype Impact = Impact(jobs: set<Job>, images: set<Component>, ceph: bool, full: bool)

  const NOTHING: Impact := Impact({}, {}, false, false)

  function Only(jobs: set<Job>): Impact { Impact(jobs, {}, false, false) }

  function ImpactOf(t: Touched): Impact {
    match t
    case Pipeline => Impact({}, {}, false, true)
    case Cloudflare => Only(DOCS + {FrontendAudit})
    case DocPages => Only(DOCS)
    case DocScreenshots => Only(DOCS + FRONTEND)
    case UnitTests => Only({FrontendQuality, FrontendTests})
    case BrowserTests => Only({FrontendQuality, FrontendBrowserE2e})
    case DemoTests => Only({FrontendQuality, FrontendDemo})
    case PostgresqlTests => Only({BackendPostgresqlTests})
    case CephTests => Impact({BackendTests}, {}, true, false)
    case PlainBackendTests => Only({BackendTests})
    case BackendCode(shipped, requirements) =>
      Impact(BACKEND + (if shipped then {FrontendBrowserE2e} else {}) +
        (if requirements then {BackendVulnScan} else {}),
             if shipped then {Backend} else {}, shipped, false)
    case FrontendCode(packages) =>
      Impact(FRONTEND + {FrontendBrowserE2e} +
        (if packages then {FrontendAudit, FrontendVulnScan, BackendTests} else {}),
             {Frontend}, false, false)
    case Deployment(images) => Impact(DEPLOY, if images then {Backend, Frontend} else {}, false, false)
    case SchedulerCode => Impact(DEPLOY + {SchedulerContract}, {Scheduler}, false, false)
    case Notes => NOTHING
    case Unknown => Impact({}, {}, false, true)
  }

  lemma ImpactsArePublic(t: Touched)
    ensures ImpactOf(t).jobs <= PUBLIC
  {}

  lemma AllComponents(c: Component)
    ensures c in COMPONENTS
  {
    match c
    case Backend =>
    case Frontend =>
    case Scheduler =>
  }

  // ----- all paths -----

  function Members(paths: seq<string>): set<string> { set p <- paths }

  function Merge(a: Impact, b: Impact): Impact {
    Impact(a.jobs + b.jobs, a.images + b.images, a.ceph || b.ceph, a.full || b.full)
  }

  predicate Below(a: Impact, b: Impact) {
    a.jobs <= b.jobs && a.images <= b.images && (a.ceph ==> b.ceph) && (a.full ==> b.full)
  }

  /** What a set of paths asks for, whatever their order: the least impact above each path's. */
  ghost predicate IsImpactOf(r: Impact, paths: set<string>, touched: string -> Touched) {
    && (forall p <- paths :: Below(ImpactOf(touched(p)), r))
    && (forall j <- r.jobs :: exists p :: p in paths && j in ImpactOf(touched(p)).jobs)
    && (forall c <- r.images :: exists p :: p in paths && c in ImpactOf(touched(p)).images)
    && (r.ceph ==> exists p :: p in paths && ImpactOf(touched(p)).ceph)
    && (r.full ==> exists p :: p in paths && ImpactOf(touched(p)).full)
  }

  /** The loop over the paths. */
  method Gather(paths: seq<string>, touched: string -> Touched) returns (r: Impact)
    ensures IsImpactOf(r, Members(paths), touched)
  {
    r := NOTHING;
    for i := 0 to |paths|
      invariant IsImpactOf(r, Members(paths[..i]), touched)
    {
      GatherStep(r, paths[..i], paths[i], touched);
      assert paths[..i + 1] == paths[..i] + [paths[i]];
      r := Merge(r, ImpactOf(touched(paths[i])));
    }
    assert paths[..|paths|] == paths;
  }

  lemma GatherStep(r: Impact, paths: seq<string>, path: string, touched: string -> Touched)
    requires IsImpactOf(r, Members(paths), touched)
    ensures IsImpactOf(Merge(r, ImpactOf(touched(path))), Members(paths + [path]), touched)
  {
    var before, after := Members(paths), Members(paths + [path]);
    assert after == before + {path};
    assert Below(ImpactOf(touched(path)), Merge(r, ImpactOf(touched(path))));
  }

  /** More paths, more impact; one set of paths, one impact. */
  lemma ImpactGrows(r: Impact, r': Impact, paths: set<string>, paths': set<string>, touched: string -> Touched)
    requires IsImpactOf(r, paths, touched) && IsImpactOf(r', paths', touched) && paths <= paths'
    ensures Below(r, r')
  {
    forall j | j in r.jobs ensures j in r'.jobs {
      var p :| p in paths && j in ImpactOf(touched(p)).jobs;
      assert Below(ImpactOf(touched(p)), r');
    }
    forall c | c in r.images ensures c in r'.images {
      var p :| p in paths && c in ImpactOf(touched(p)).images;
      assert Below(ImpactOf(touched(p)), r');
    }
  }

  // ----- the plan -----

  datatype Plan = Plan(profile: Profile, ref: string, jobs: set<Job>, images: set<Component>, full: bool)

  /** Selected jobs, images and the Ceph decision while the plan is made. */
  datatype Draft = Draft(selected: set<Job>, images: set<Component>, ceph: bool)

  /** A push to main that raises the version is qualified. */
  function Effective(profile: Profile, ref: string, version: bool): Profile {
    if profile == Integration && ref == "main" && version then Qualify else profile
  }

  predicate AlwaysFull(profile: Profile) { profile == Qualify || profile == PrepareRelease || profile == Regression }

  function Drafted(impact: Impact, full: bool): Draft {
    if full then Draft(MANDATORY + impact.jobs + PUBLIC, COMPONENTS, true)
    else Draft(MANDATORY + impact.jobs, impact.images, impact.ceph)
  }

  /** Profiles with a fixed job list. */
  function Overridden(profile: Profile, d: Draft): Draft {
    match profile
    case BootstrapDemo => Draft({FrontendDemo}, {}, false)
    case Docs => Draft(DOCS, {}, false)
    case Security =>
      Draft({BackendVulnScan, FrontendAudit, FrontendVulnScan, SecretScan, ScanPublishedImages}, {}, false)
    case SecretsHistory => Draft({SecretScan}, {}, false)
    case ResumeRelease => Draft(DOCS + {DocsDeploy}, {}, false)
    case Release => Draft({}, {}, false)
    case RecoverRelease => Draft({}, {}, false)
    case ReleaseHistory => Draft({}, {}, false)
    case BootstrapReleaseBundles => Draft({}, {}, false)
    case _ => d
  }

  function Restricted(profile: Profile, d: Draft): Draft {
    if profile == Pr then d.(images := {}, ceph := false) else if profile == Regression then d.(images := {}) else d
  }

  /** Backend and frontend images are built, scanned and smoke-tested together. */
  function Paired(d: Draft): Draft {
    if Backend in d.images || Frontend in d.images
    then d.(images := d.images + {Backend, Frontend}, selected := d.selected + {HelmKindSmoke})
    else d
  }

  function ImageJobs(images: set<Component>): set<Job> {
    (set c <- images :: Build(c)) + (set c <- images :: ImageVulnScan(c))
  }

  function Completed(profile: Profile, ref: string, d: Draft): set<Job> {
    var jobs := d.selected + ImageJobs(d.images) + (if d.ceph then {CephFunctionalTests} else {})
      + (if profile == PrepareRelease then {ReleasePreflight} else {});
    if (profile == Integration || profile == Docs) && ref == "main" && DOCS <= jobs then jobs + {DocsDeploy} else jobs
  }

  function Finished(profile: Profile, ref: string, impact: Impact, known: bool): Plan {
    var full := !known || AlwaysFull(profile) || impact.full;
    var d := Paired(Restricted(profile, Overridden(profile, Drafted(impact, full))));
    Plan(profile, ref, Completed(profile, ref, d), d.images, full)
  }

  const IMAGE_BUILD: set<Job> := set c <- COMPONENTS :: Build(c)

  /** The plan for the impact of known paths, or for unknown paths. */
  function PlanFor(profile: Profile, ref: string, version: bool, impact: Impact, known: bool): Plan {
    if profile == BuildImages then Plan(profile, ref, IMAGE_BUILD, COMPONENTS, false)
    else Finished(Effective(profile, ref, version), ref, impact, known)
  }

  ghost predicate IsPlan(r: Plan, profile: Profile, paths: Option<set<string>>, ref: string, version: bool,
      touched: string -> Touched) {
    match paths
    case None => r == PlanFor(profile, ref, version, NOTHING, false)
    case Some(s) => exists impact :: IsImpactOf(impact, s, touched) && r == PlanFor(profile, ref, version, impact, true)
  }

  /** `select`. */
  method Select(profile: Profile, paths: Option<seq<string>>, ref: string, version: bool) returns (r: Plan)
    ensures IsPlan(r, profile, if paths.None? then None else Some(Members(paths.value)), ref, version, TouchedBy)
  {
    var impact := NOTHING;
    if paths.Some? {
      impact := Gather(paths.value, TouchedBy);
    }
    r := PlanFor(profile, ref, version, impact, paths.Some?);
  }

  // ----- monotone -----

  predicate Within(a: Draft, b: Draft) { a.selected <= b.selected && a.images <= b.images && (a.ceph ==> b.ceph) }

  predicate PlanWithin(a: Plan, b: Plan) { a.jobs <= b.jobs && a.images <= b.images && (a.full ==> b.full) }

  lemma FinishedGrows(profile: Profile, ref: string, a: Impact, b: Impact, known: bool, known': bool)
    requires !known' || (known && Below(a, b))
    requires a.jobs <= PUBLIC
    ensures PlanWithin(Finished(profile, ref, a, known), Finished(profile, ref, b, known'))
  {
    var full, full' := !known || AlwaysFull(profile) || a.full, !known' || AlwaysFull(profile) || b.full;
    var d, d' := Drafted(a, full), Drafted(b, full');
    forall c: Component ensures c in COMPONENTS {
      AllComponents(c);
    }
    assert Within(d, d');
    StagesGrow(profile, d, d');
    CompletedGrows(profile, ref, Paired(Restricted(profile, Overridden(profile, d))),
      Paired(Restricted(profile, Overridden(profile, d'))));
  }

  lemma StagesGrow(profile: Profile, d: Draft, d': Draft)
    requires Within(d, d')
    ensures Within(Paired(Restricted(profile, Overridden(profile, d))),
            Paired(Restricted(profile, Overridden(profile, d'))))
  {}

  lemma CompletedGrows(profile: Profile, ref: string, d: Draft, d': Draft)
    requires Within(d, d')
    ensures Completed(profile, ref, d) <= Completed(profile, ref, d')
  {
    assert ImageJobs(d.images) <= ImageJobs(d'.images);
  }

  lemma ImpactIsPublic(impact: Impact, paths: set<string>, touched: string -> Touched)
    requires IsImpactOf(impact, paths, touched)
    ensures impact.jobs <= PUBLIC
  {
    forall j | j in impact.jobs ensures j in PUBLIC {
      var p :| p in paths && j in ImpactOf(touched(p)).jobs;
      ImpactsArePublic(touched(p));
    }
  }

  /** A set of paths that is known to be larger, or not known at all. */
  predicate MorePaths(a: Option<set<string>>, b: Option<set<string>>) {
    b.None? || (a.Some? && a.value <= b.value)
  }

  /** The impact a plan was made from. */
  lemma PlanImpact(r: Plan, profile: Profile, paths: Option<set<string>>, ref: string, version: bool,
      touched: string -> Touched)
      returns (impact: Impact)
    requires IsPlan(r, profile, paths, ref, version, touched)
    ensures r == PlanFor(profile, ref, version, impact, paths.Some?) && impact.jobs <= PUBLIC
    ensures paths.Some? ==> IsImpactOf(impact, paths.value, touched)
  {
    impact := NOTHING;
    if paths.Some? {
      impact :| IsImpactOf(impact, paths.value, touched) && r == PlanFor(profile, ref, version, impact, true);
      ImpactIsPublic(impact, paths.value, touched);
    }
  }

  /** More changed paths never remove a job or an image, and unknown paths give the greatest plan. */
  lemma SelectionIsMonotone(profile: Profile, ref: string, version: bool, touched: string -> Touched,
                            a: Option<set<string>>, b: Option<set<string>>, p: Plan, q: Plan)
    requires MorePaths(a, b) && IsPlan(p, profile, a, ref, version, touched) &&
             IsPlan(q, profile, b, ref, version, touched)
    ensures PlanWithin(p, q)
  {
    var x := PlanImpact(p, profile, a, ref, version, touched);
    var y := PlanImpact(q, profile, b, ref, version, touched);
    if b.Some? {
      ImpactGrows(x, y, a.value, b.value, touched);
    }
    FinishedGrows(Effective(profile, ref, version), ref, x, y, a.Some?, b.Some?);
  }

  lemma PlanHeader(r: Plan, profile: Profile, paths: Option<set<string>>, ref: string, version: bool,
      touched: string -> Touched)
    requires IsPlan(r, profile, paths, ref, version, touched)
    ensures r.profile == Effective(profile, ref, version) && r.ref == ref
  {}

  /** Order and repetition of the paths do not matter. */
  lemma SelectionIgnoresOrder(profile: Profile, ref: string, version: bool, touched: string -> Touched,
                              a: seq<string>, b: seq<string>, p: Plan, q: Plan)
    requires Members(a) == Members(b)
    requires IsPlan(p, profile, Some(Members(a)), ref, version, touched)
    requires IsPlan(q, profile, Some(Members(b)), ref, version, touched)
    ensures p == q
  {
    SelectionIsMonotone(profile, ref, version, touched, Some(Members(a)), Some(Members(b)), p, q);
    SelectionIsMonotone(profile, ref, version, touched, Some(Members(b)), Some(Members(a)), q, p);
    PlanHeader(p, profile, Some(Members(a)), ref, version, touched);
    PlanHeader(q, profile, Some(Members(b)), ref, version, touched);
  }

  // ----- images and their jobs -----

  lemma ImageJobsOf(images: set<Component>, c: Component)
    ensures Build(c) in ImageJobs(images) <==> c in images
    ensures ImageVulnScan(c) in ImageJobs(images) <==> c in images
  {}

  predicate NoImageJob(jobs: set<Job>) {
    forall j <- jobs :: !j.Build? && !j.ImageVulnScan? && j != HelmKindSmoke
  }

  lemma DraftHasNoImageJob(profile: Profile, impact: Impact, full: bool)
    requires impact.jobs <= PUBLIC
    ensures NoImageJob(Restricted(profile, Overridden(profile, Drafted(impact, full))).selected)
  {}

  lemma PairedImages(profile: Profile, ref: string, d: Draft, c: Component)
    requires NoImageJob(d.selected)
    ensures var e := Paired(d); var jobs := Completed(profile, ref, e);
            && (Build(c) in jobs <==> c in e.images) && (ImageVulnScan(c) in jobs <==> c in e.images)
            && (Backend in e.images <==> Frontend in e.images) && (HelmKindSmoke in jobs <==> Backend in e.images)
  {
    ImageJobsOf(Paired(d).images, c);
    assert HelmKindSmoke !in d.selected;
    assert Build(c) !in d.selected && ImageVulnScan(c) !in d.selected;
  }

  /** An image is in the plan exactly when it is built; except for a bare image build, exactly when it
      is scanned; and backend and frontend come together, with the smoke test. */
  lemma ImagesAreBuilt(r: Plan, profile: Profile, paths: Option<set<string>>, ref: string, version: bool,
      touched: string -> Touched, c: Component)
    requires IsPlan(r, profile, paths, ref, version, touched)
    ensures Build(c) in r.jobs <==> c in r.images
    ensures profile != BuildImages ==> (ImageVulnScan(c) in r.jobs <==> c in r.images)
    ensures Backend in r.images <==> Frontend in r.images
    ensures profile != BuildImages ==> (HelmKindSmoke in r.jobs <==> Backend in r.images)
  {
    var impact := PlanImpact(r, profile, paths, ref, version, touched);
    if profile == BuildImages {
      AllComponents(c);
    } else {
      var p := Effective(profile, ref, version);
      var full := paths.None? || AlwaysFull(p) || impact.full;
      DraftHasNoImageJob(p, impact, full);
      PairedImages(p, ref, Restricted(p, Overridden(p, Drafted(impact, full))), c);
    }
  }

  // ----- the gates -----

  /** `required.py`: the verdict on a pull request's jobs. */
  datatype Verdict = Pass | SelectionFailed | InvalidSet | MandatoryMissing | Failed(jobs: seq<Job>)

  function NotSucceeded(expected: seq<Job>, succeeded: set<Job>): (r: seq<Job>)
    ensures r == [] <==> forall j <- expected :: j in succeeded
  {
    if expected == [] then []
    else
      var r := NotSucceeded(Front(expected), succeeded);
      FrontLast(expected);
      if Last(expected) in succeeded then r else r + [Last(expected)]
  }

  function Check(planned: bool, expected: Option<seq<Job>>, succeeded: set<Job>): Verdict {
    if !planned then SelectionFailed
    else if expected.None? || expected.value == [] || !((set j <- expected.value) <= PUBLIC) then InvalidSet
    else if !(MANDATORY <= (set j <- expected.value)) then MandatoryMissing
    else if NotSucceeded(expected.value, succeeded) == [] then Pass
    else Failed(NotSucceeded(expected.value, succeeded))
  }

  lemma PullRequestJobs(ref: string, impact: Impact, known: bool)
    requires impact.jobs <= PUBLIC
    ensures var r := Finished(Pr, ref, impact, known); MANDATORY <= r.jobs <= PUBLIC && r.images == {}
  {
    assert ImageJobs({}) == {};
  }

  /** Every pull request plan has a valid job set, so the required check passes exactly when all its jobs succeed. */
  lemma PullRequestsAreCheckable(r: Plan, paths: Option<set<string>>, ref: string, version: bool,
      touched: string -> Touched,
                                 jobs: seq<Job>, succeeded: set<Job>)
    requires IsPlan(r, Pr, paths, ref, version, touched) && (set j <- jobs) == r.jobs
    ensures MANDATORY <= r.jobs <= PUBLIC && r.images == {}
    ensures Check(true, Some(jobs), succeeded) == Pass <==> r.jobs <= succeeded
  {
    var impact := PlanImpact(r, Pr, paths, ref, version, touched);
    PullRequestJobs(ref, impact, paths.Some?);
    CheckOfValidSet(r.jobs, jobs, succeeded);
  }

  lemma CheckOfValidSet(planned: set<Job>, jobs: seq<Job>, succeeded: set<Job>)
    requires (set j <- jobs) == planned && MANDATORY <= planned <= PUBLIC
    ensures Check(true, Some(jobs), succeeded) == Pass <==> planned <= succeeded
  {
    assert ProjectNaming in planned;
    assert ProjectNaming in jobs;
    assert forall j :: j in jobs <==> j in planned;
  }

  /** What `qualification.validate` demands of a plan. */
  function Demanded(profile: Profile): set<Job> {
    PUBLIC + {CephFunctionalTests, HelmKindSmoke} + (if profile == PrepareRelease then {ReleasePreflight} else {}) +
      ImageJobs(COMPONENTS)
  }

  predicate Qualifies(profile: Profile) { profile == Qualify || profile == PrepareRelease }

  lemma QualifyingJobs(profile: Profile, ref: string, impact: Impact, known: bool)
    requires Qualifies(profile)
    ensures var r := Finished(profile, ref, impact, known);
            Demanded(profile) <= r.jobs && r.images == COMPONENTS && r.full
  {
    forall c: Component ensures c in COMPONENTS {
      AllComponents(c);
    }
    assert Paired(Drafted(impact, true)).images == COMPONENTS;
  }

  /** Every plan that claims to qualify, whatever its paths, covers all jobs and images a qualification
      needs; so does a push to main that raises the version. */
  lemma QualificationIsCovered(r: Plan, profile: Profile, paths: Option<set<string>>, ref: string, version: bool,
      touched: string -> Touched)
    requires IsPlan(r, profile, paths, ref, version, touched)
    ensures Qualifies(r.profile) ==> Demanded(r.profile) <= r.jobs && r.images == COMPONENTS && r.full
    ensures Qualifies(r.profile) <==> Qualifies(profile) || (profile == Integration && ref == "main" && version)
  {
    var impact := PlanImpact(r, profile, paths, ref, version, touched);
    if Qualifies(r.profile) {
      QualifyingJobs(r.profile, ref, impact, paths.Some?);
    }
  }
}
