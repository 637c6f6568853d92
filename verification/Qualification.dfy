/** Qualification records (ops/ci/qualification.py): a qualifying plan, its evidence and its receipts make a valid
    record, and a valid record ties every image to passed scans of its own commit. */
module Qualification {
  import opened Sequences
  import S = Selection
  import E = Evidence

  datatype Architecture = Amd64 | Arm64

  function ArchitectureName(a: Architecture): string { match a case Amd64 => "amd64" case Arm64 => "arm64" }

  function ComponentName(c: S.Component): string {
    match c case Backend => "backend" case Frontend => "frontend" case Scheduler => "scheduler"
  }

  const SCAN: string := "-image-vuln-scan"

  /** The name of a job in the plan. */
  function JobName(j: S.Job): string {
    match j
    case ProjectNaming => "project-naming"
    case CiContract => "ci-contract"
    case SecretScan => "secret-scan"
    case BackendTests => "backend-tests"
    case BackendSecurityContract => "backend-security-contract"
    case BackendPostgresqlTests => "backend-postgresql-tests"
    case BackendDeadcode => "backend-deadcode"
    case BackendVulnScan => "backend-vuln-scan"
    case FrontendQuality => "frontend-quality"
    case FrontendTests => "frontend-tests"
    case FrontendBrowserE2e => "frontend-browser-e2e"
    case FrontendDemo => "frontend-demo"
    case FrontendAudit => "frontend-audit"
    case FrontendVulnScan => "frontend-vuln-scan"
    case HelmContract => "helm-contract"
    case ComposeContract => "compose-contract"
    case DocsBuild => "docs-build"
    case DocsScreenshots => "docs-screenshots"
    case SchedulerContract => "scheduler-contract"
    case Build(c) => "build-" + ComponentName(c)
    case ImageVulnScan(c) => ComponentName(c) + SCAN
    case HelmKindSmoke => "helm-kind-onboarding-smoke"
    case CephFunctionalTests => "ceph-functional-tests"
    case ReleasePreflight => "release-preflight"
    case DocsDeploy => "docs-deploy"
    case ScanPublishedImages => "scan-published-images"
  }

  function NamesOf(jobs: set<S.Job>): set<string> { set j <- jobs :: JobName(j) }

  /** The concrete job that scans one architecture of one image. */
  function ScanJob(c: S.Component, a: Architecture): string {
    ComponentName(c) + SCAN + ": [" + ArchitectureName(a) + "]"
  }

  datatype Image = Image(digest: string, platforms: map<Architecture, string>)

  /** A scan receipt; `digest` is what follows the last `@` of the scanned image, `signed` that time and tool are
      there. */
  datatype Scan = Scan(sha: string, pipeline: int, job: int, architecture: Architecture, digest: string, signed: bool)

  datatype Cell = Cell(component: S.Component, architecture: Architecture)

  datatype Record = Record(
    sha: string, ref: string, profile: S.Profile, planSha: string, planned: seq<string>, pipeline: int,
    jobs: map<string, int>, images: map<S.Component, Image>, scans: map<Cell, Scan>)

  datatype Verdict =
    Valid | NoMainQualification | OmitsValidations | OmitsImages | InvalidImage | OmitsScans | ScanDiffers

  predicate ValidImage(i: Image, isDigest: string -> bool) {
    isDigest(i.digest) && i.platforms.Keys == {Amd64, Arm64} && forall a <- i.platforms :: isDigest(i.platforms[a])
  }

  const CELLS: set<Cell> := {
    Cell(S.Backend, Amd64), Cell(S.Backend, Arm64), Cell(S.Frontend, Amd64), Cell(S.Frontend, Arm64),
    Cell(S.Scheduler, Amd64), Cell(S.Scheduler, Arm64)}

  predicate ScanAgrees(r: Record, cell: Cell, sha: string)
    requires cell in r.scans && cell.component in r.images
  {
    var scan, job := r.scans[cell], ScanJob(cell.component, cell.architecture);
    && scan.sha == sha && scan.pipeline == r.pipeline && job in r.jobs && scan.job == r.jobs[job]
    && scan.architecture == cell.architecture && scan.digest == r.images[cell.component].digest && scan.signed
  }

  /** `validate`. */
  function Validate(r: Record, sha: string, isDigest: string -> bool): Verdict {
    if r.sha != sha || r.ref != "main" || !S.Qualifies(r.profile) || r.planSha != sha then NoMainQualification
    else if !(NamesOf(S.Demanded(r.profile)) <= E.NameSet(r.planned)) then OmitsValidations
    else if r.images.Keys != S.COMPONENTS then OmitsImages
    else if exists c :: c in r.images && !ValidImage(r.images[c], isDigest) then InvalidImage
    else if r.scans.Keys != CELLS then OmitsScans
    else if exists cell :: cell in r.scans && (cell.component !in r.images || !ScanAgrees(r, cell, sha))
    then ScanDiffers
    else Valid
  }

  lemma AllCells(cell: Cell)
    ensures cell in CELLS && cell.component in S.COMPONENTS
  {
    S.AllComponents(cell.component);
    match cell.architecture
    case Amd64 =>
    case Arm64 =>
  }

  // ----- scans of planned images are recorded -----

  lemma ScanExpands(c: S.Component)
    ensures var name := JobName(S.ImageVulnScan(c)); E.Expand(name) == E.Matrix(name, E.ARCHITECTURES)
  {
    var name := JobName(S.ImageVulnScan(c));
    var suffix := "image-vuln-scan";
    assert SCAN == "-" + suffix;
    assert name == (ComponentName(c) + "-") + suffix;
    assert name[|name| - |suffix|..] == suffix;
    assert name[|name| - 1] == 'n' && "frontend-tests"[13] == 's';
    assert name != "frontend-tests";
  }

  /** Evidence for a plan that scans an image names the scan of each architecture. */
  lemma {:induction false} ScanIsRecorded(planned: seq<string>, ids: map<string, int>, c: S.Component, a: Architecture)
    requires JobName(S.ImageVulnScan(c)) in planned && ids.Keys == E.NameSet(E.Expected(E.NAMES, planned))
    ensures ScanJob(c, a) in ids
  {
    var name := JobName(S.ImageVulnScan(c));
    ScanExpands(c);
    var i := if a == Amd64 then 0 else 1;
    assert E.Expand(name)[i] == ScanJob(c, a);
    E.ExpectedOf(E.NAMES, planned, name, ScanJob(c, a));
  }

  // ----- from plan to valid record -----

  /** Receipts as `complete` collects them: an index per image, and per cell the receipt of its own scan job. */
  ghost predicate Receipts(r: Record, isDigest: string -> bool) {
    && r.images.Keys == S.COMPONENTS && (forall c <- r.images :: ValidImage(r.images[c], isDigest))
    && r.scans.Keys == CELLS
    && (forall cell <- r.scans :: cell.component in r.images && ReceiptOf(r, cell))
  }

  ghost predicate ReceiptOf(r: Record, cell: Cell)
    requires cell in r.scans && cell.component in r.images
  {
    var scan, job := r.scans[cell], ScanJob(cell.component, cell.architecture);
    && scan.sha == r.sha && scan.pipeline == r.pipeline && scan.architecture == cell.architecture
    && scan.digest == r.images[cell.component].digest && scan.signed && (job in r.jobs ==> scan.job == r.jobs[job])
  }

  lemma PlannedScans(plan: S.Plan, planned: seq<string>, c: S.Component)
    requires E.NameSet(planned) == NamesOf(plan.jobs) && S.Qualifies(plan.profile) &&
             S.Demanded(plan.profile) <= plan.jobs
    ensures JobName(S.ImageVulnScan(c)) in planned
  {
    S.AllComponents(c);
    S.ImageJobsOf(S.COMPONENTS, c);
    assert S.ImageVulnScan(c) in plan.jobs;
    assert JobName(S.ImageVulnScan(c)) in E.NameSet(planned);
  }

  lemma NamesGrow(a: set<S.Job>, b: set<S.Job>)
    requires a <= b
    ensures NamesOf(a) <= NamesOf(b)
  {}

  lemma ReceiptsAgree(r: Record, isDigest: string -> bool, cell: Cell)
    requires Receipts(r, isDigest) && cell in r.scans && ScanJob(cell.component, cell.architecture) in r.jobs
    ensures cell.component in r.images && ScanAgrees(r, cell, r.sha)
  {
    assert ReceiptOf(r, cell);
  }

  lemma ReceiptsValidate(r: Record, isDigest: string -> bool)
    requires r.ref == "main" && S.Qualifies(r.profile) && r.planSha == r.sha && Receipts(r, isDigest)
    requires NamesOf(S.Demanded(r.profile)) <= E.NameSet(r.planned)
    requires forall cell <- r.scans :: ScanJob(cell.component, cell.architecture) in r.jobs
    ensures Validate(r, r.sha, isDigest) == Valid
  {
    forall cell | cell in r.scans ensures cell.component in r.images && ScanAgrees(r, cell, r.sha) {
      ReceiptsAgree(r, isDigest, cell);
    }
  }

  /** A record issued for any qualifying plan on main, with its receipts, is valid. */
  lemma QualifiedRecordsAreValid(
    plan: S.Plan, profile: S.Profile, paths: Option<set<string>>, version: bool, touched: string -> S.Touched,
    r: Record, jobs: seq<E.Job>, isDigest: string -> bool)
    requires S.IsPlan(plan, profile, paths, "main", version, touched) && S.Qualifies(plan.profile)
    requires r.profile == plan.profile && E.NameSet(r.planned) == NamesOf(plan.jobs) && r.planSha == r.sha &&
             r.ref == "main"
    requires E.Issued(E.NAMES, r.jobs, jobs, r.planned, r.sha) && Receipts(r, isDigest)
    ensures Validate(r, r.sha, isDigest) == Valid
  {
    S.QualificationIsCovered(plan, profile, paths, "main", version, touched);
    NamesGrow(S.Demanded(plan.profile), plan.jobs);
    forall cell | cell in r.scans ensures ScanJob(cell.component, cell.architecture) in r.jobs {
      PlannedScans(plan, r.planned, cell.component);
      ScanIsRecorded(r.planned, r.jobs, cell.component, cell.architecture);
    }
    ReceiptsValidate(r, isDigest);
  }

  // ----- what a valid record means -----

  lemma ValidAgrees(r: Record, isDigest: string -> bool, cell: Cell)
    requires Validate(r, r.sha, isDigest) == Valid
    ensures cell in r.scans && cell.component in r.images && ValidImage(r.images[cell.component], isDigest) &&
            ScanAgrees(r, cell, r.sha)
  {
    AllCells(cell);
  }

  lemma RecordedJobIsThere(ids: map<string, int>, jobs: seq<E.Job>, planned: seq<string>, sha: string, name: string)
      returns (job: E.Job)
    requires (E.Rechecks(E.NAMES, ids, jobs, planned, sha) || E.Issued(E.NAMES, ids, jobs, planned, sha)) && name in ids
    ensures job in jobs && E.Named(jobs, name) == [job] && E.Good(job, sha) && job.id == ids[name]
  {
    assert E.Settled(jobs, name, ids[name], sha);
    job := E.Named(jobs, name)[0];
  }

  /** Every architecture of every image of a valid record that still checks out, by either of the two
      re-checks, was scanned, at the recorded digest,
      by a passed job of the record's commit: the only job of its name. */
  lemma ImagesWereScanned(r: Record, jobs: seq<E.Job>, isDigest: string -> bool, c: S.Component, a: Architecture)
      returns (job: E.Job)
    requires Validate(r, r.sha, isDigest) == Valid
    requires E.Rechecks(E.NAMES, r.jobs, jobs, r.planned, r.sha) || E.Issued(E.NAMES, r.jobs, jobs, r.planned, r.sha)
    ensures c in r.images && ValidImage(r.images[c], isDigest) && Cell(c, a) in r.scans
    ensures job in jobs && E.Named(jobs, ScanJob(c, a)) == [job] && E.Good(job, r.sha)
    ensures r.scans[Cell(c, a)].job == job.id && r.scans[Cell(c, a)].digest == r.images[c].digest
  {
    ValidAgrees(r, isDigest, Cell(c, a));
    job := RecordedJobIsThere(r.jobs, jobs, r.planned, r.sha, ScanJob(c, a));
  }

  lemma AlwaysDemanded(j: S.Job, profile: S.Profile)
    requires !j.ReleasePreflight? && !j.DocsDeploy? && !j.ScanPublishedImages?
    ensures j in S.Demanded(profile)
  {
    if j.Build? || j.ImageVulnScan? {
      S.AllComponents(j.component);
      S.ImageJobsOf(S.COMPONENTS, j.component);
    }
  }

  lemma PlannedName(r: Record, planned: set<string>, isDigest: string -> bool, j: S.Job)
    requires Validate(r, r.sha, isDigest) == Valid && planned == E.NameSet(r.planned)
    requires !j.ReleasePreflight? && !j.DocsDeploy? && !j.ScanPublishedImages?
    ensures JobName(j) in planned
  {
    AlwaysDemanded(j, r.profile);
    assert JobName(j) in NamesOf(S.Demanded(r.profile));
  }

  /** All names of jobs that a qualification needs. */
  ghost predicate PlansAll(planned: set<string>) {
    forall j: S.Job :: !j.ReleasePreflight? && !j.DocsDeploy? && !j.ScanPublishedImages? ==> JobName(j) in planned
  }

  lemma ValidPlansAll(r: Record, isDigest: string -> bool)
    requires Validate(r, r.sha, isDigest) == Valid
    ensures PlansAll(E.NameSet(r.planned))
  {
    forall j: S.Job | !j.ReleasePreflight? && !j.DocsDeploy? && !j.ScanPublishedImages?
      ensures JobName(j) in E.NameSet(r.planned)
    {
      PlannedName(r, E.NameSet(r.planned), isDigest, j);
    }
  }

  /** The backend's validations, by name. */
  predicate BackendPlanned(planned: set<string>) {
    && "project-naming" in planned && "ci-contract" in planned && "secret-scan" in planned
    && "backend-tests" in planned && "backend-security-contract" in planned
    && "backend-postgresql-tests" in planned && "backend-deadcode" in planned
    && "backend-vuln-scan" in planned && "ceph-functional-tests" in planned
  }

  /** The frontend's. */
  predicate FrontendPlanned(planned: set<string>) {
    && "frontend-quality" in planned && "frontend-tests" in planned && "frontend-browser-e2e" in planned
    && "frontend-demo" in planned && "frontend-audit" in planned && "frontend-vuln-scan" in planned
  }

  /** Those of the deployment and the documentation. */
  predicate DeploymentPlanned(planned: set<string>) {
    && "helm-contract" in planned && "compose-contract" in planned && "docs-build" in planned
    && "docs-screenshots" in planned && "scheduler-contract" in planned
    && "helm-kind-onboarding-smoke" in planned
  }

  /** The build of every image. */
  predicate BuildsPlanned(planned: set<string>) {
    "build-backend" in planned && "build-frontend" in planned && "build-scheduler" in planned
  }

  /** And its scan. */
  predicate ScansPlanned(planned: set<string>) {
    && "backend-image-vuln-scan" in planned && "frontend-image-vuln-scan" in planned
    && "scheduler-image-vuln-scan" in planned
  }

  lemma BackendNamed(planned: set<string>)
    requires PlansAll(planned)
    ensures BackendPlanned(planned)
  {
    assert JobName(S.ProjectNaming) == "project-naming";
    assert JobName(S.CiContract) == "ci-contract";
    assert JobName(S.SecretScan) == "secret-scan";
    assert JobName(S.BackendTests) == "backend-tests";
    assert JobName(S.BackendSecurityContract) == "backend-security-contract";
    assert JobName(S.BackendPostgresqlTests) == "backend-postgresql-tests";
    assert JobName(S.BackendDeadcode) == "backend-deadcode";
    assert JobName(S.BackendVulnScan) == "backend-vuln-scan";
    assert JobName(S.CephFunctionalTests) == "ceph-functional-tests";
  }

  lemma FrontendNamed(planned: set<string>)
    requires PlansAll(planned)
    ensures FrontendPlanned(planned)
  {
    assert JobName(S.FrontendQuality) == "frontend-quality";
    assert JobName(S.FrontendTests) == "frontend-tests";
    assert JobName(S.FrontendBrowserE2e) == "frontend-browser-e2e";
    assert JobName(S.FrontendDemo) == "frontend-demo";
    assert JobName(S.FrontendAudit) == "frontend-audit";
    assert JobName(S.FrontendVulnScan) == "frontend-vuln-scan";
  }

  lemma DeploymentNamed(planned: set<string>)
    requires PlansAll(planned)
    ensures DeploymentPlanned(planned)
  {
    assert JobName(S.HelmContract) == "helm-contract";
    assert JobName(S.ComposeContract) == "compose-contract";
    assert JobName(S.DocsBuild) == "docs-build";
    assert JobName(S.DocsScreenshots) == "docs-screenshots";
    assert JobName(S.SchedulerContract) == "scheduler-contract";
    assert JobName(S.HelmKindSmoke) == "helm-kind-onboarding-smoke";
  }

  lemma BuildsNamed(planned: set<string>)
    requires PlansAll(planned)
    ensures BuildsPlanned(planned)
  {
    assert JobName(S.Build(S.Backend)) == "build-backend";
    assert JobName(S.Build(S.Frontend)) == "build-frontend";
    assert JobName(S.Build(S.Scheduler)) == "build-scheduler";
  }

  lemma ScanNamed(planned: set<string>, c: S.Component, name: string)
    requires PlansAll(planned) && name == ComponentName(c) + "-image-vuln-scan"
    ensures name in planned
  {
    assert JobName(S.ImageVulnScan(c)) == name;
  }

  lemma ScansNamed(planned: set<string>)
    requires PlansAll(planned)
    ensures ScansPlanned(planned)
  {
    ScanNamed(planned, S.Backend, "backend-image-vuln-scan");
    ScanNamed(planned, S.Frontend, "frontend-image-vuln-scan");
    ScanNamed(planned, S.Scheduler, "scheduler-image-vuln-scan");
  }

  /** A valid record had every validation planned, each under its own name. */
  lemma ValidRecordsPlanAll(r: Record, isDigest: string -> bool)
    requires Validate(r, r.sha, isDigest) == Valid
    ensures var planned := E.NameSet(r.planned);
            && BackendPlanned(planned) && FrontendPlanned(planned) && DeploymentPlanned(planned)
            && BuildsPlanned(planned) && ScansPlanned(planned)
  {
    ValidPlansAll(r, isDigest);
    BackendNamed(E.NameSet(r.planned));
    FrontendNamed(E.NameSet(r.planned));
    DeploymentNamed(E.NameSet(r.planned));
    BuildsNamed(E.NameSet(r.planned));
    ScansNamed(E.NameSet(r.planned));
  }
}
