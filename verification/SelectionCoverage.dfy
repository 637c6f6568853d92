/** What a plan contains, job by job: the changed paths that call for each job (ops/ci/plan.py). */
module SelectionCoverage {
  import opened Sequences
  import opened Selection

  // ----- paths -----

  predicate Under(p: string, prefix: string) { |prefix| <= |p| && p[..|prefix|] == prefix }

  ghost predicate Ends(p: string, suffix: string) { exists start :: p == start + suffix }

  ghost predicate Mentions(p: string, part: string) { exists before, after :: p == before + part + after }

  lemma Endings(p: string, suffix: string)
    ensures EndsWith(p, suffix) <==> Ends(p, suffix)
  {
    if EndsWith(p, suffix) {
      assert p == p[..|p| - |suffix|] + suffix;
    }
  }

  lemma Mentioned(p: string, part: string)
    ensures Contains(p, part) <==> Mentions(p, part)
  {
    if Contains(p, part) {
      var i :| 0 <= i <= |p| && HasAt(p, part, i);
      assert p == p[..i] + part + p[i + |part|..];
    }
    if Mentions(p, part) {
      var before, after :| p == before + part + after;
      assert HasAt(p, part, |before|);
    }
  }

  // ----- where a path lies -----

  /** Where a path lies; every field is a question about its text alone. */
  datatype Place = Place(
    backend: bool, tests: bool, postgresqlTests: bool, cephTests: bool, shipped: bool, requirements: bool,
    frontend: bool, screenshots: bool, unitTest: bool, browserSuite: bool, demo: bool, packages: bool,
    deployed: bool, release: bool, scheduler: bool, cloudflare: bool, documentation: bool, pipeline: bool, note: bool)
  {
    predicate BackendTest() { tests || postgresqlTests || cephTests }
    predicate BackendCode() { backend && !BackendTest() }
    predicate BackendImage() { BackendCode() && shipped }
    predicate FrontendImage() { frontend && !screenshots && !unitTest && !browserSuite && !demo }
  }

  ghost function PlaceOf(p: string): Place {
    Place(
      backend := Under(p, "backend/"),
      tests := Under(p, "backend/tests/"),
      postgresqlTests := Under(p, "backend/tests_postgresql/"),
      cephTests := Under(p, "backend/tests_ceph_functional/"),
      shipped := IsShipped(p),
      requirements := Mentions(p, "requirements"),
      frontend := Under(p, "frontend/"),
      screenshots := IsScreenshotScript(p),
      unitTest := IsUnitTest(p),
      browserSuite := IsBrowserSuite(p),
      demo := IsDemo(p),
      packages := Ends(p, "package.json") || Ends(p, "package-lock.json"),
      deployed := Under(p, "deploy/") || p == "compose.yaml",
      release := Under(p, "ops/release/") || p == "CHANGELOG.md",
      scheduler := Under(p, "ops/cron/") || Under(p, "scheduler/"),
      cloudflare := Under(p, "ops/cloudflare/"),
      documentation := Under(p, "doc/") || p == "README.md",
      pipeline := IsPipelineFile(p),
      note := IsLeftAlone(p))
  }

  /** What the backend image is made of, tests apart. */
  ghost predicate IsShipped(p: string) {
    Under(p, "backend/app/") || Under(p, "backend/alembic/") || Mentions(p, "requirements") || Ends(p, "Dockerfile")
  }

  ghost predicate IsUnitTest(p: string) {
    || p == "frontend/vitest.config.ts" || Under(p, "frontend/src/test/")
    || (Under(p, "frontend/src/") &&
        (Ends(p, ".test.ts") || Ends(p, ".test.tsx") || Ends(p, ".test.ts\n") || Ends(p, ".test.tsx\n")))
  }

  predicate IsBrowserSuite(p: string) {
    || p == "frontend/playwright.e2e.config.ts" || Under(p, "frontend/e2e/browser/") || Under(p, "frontend/e2e/auth/")
    || Under(p, "frontend/e2e/setup/") || Under(p, "frontend/e2e/helpers/") || Under(p, "frontend/e2e/fixtures/")
  }

  predicate IsDemo(p: string) { p == "frontend/playwright.demo.config.ts" || Under(p, "frontend/e2e/demo/") }

  predicate IsScreenshotScript(p: string) {
    Under(p, "frontend/scripts/docs-screenshots/") || Under(p, "frontend/playwright.docs")
  }

  predicate IsPipelineFile(p: string) {
    || Under(p, ".github/") || Under(p, "ops/ci/")
    || p == ".gitlab-ci.yml" || p == ".trivyignore" || p == "pytest.ini"
  }

  predicate IsLeftAlone(p: string) {
    || p == "AGENTS.md" || p == "LICENSE" || p == ".gitignore" || p == ".gitmessage-ai.txt" || Under(p, ".vscode/")
  }

  // ----- which places call for a job -----

  /** A change at this place calls for the public job `j`. */
  predicate CallsFor(at: Place, j: Job) {
    match j
    case BackendTests =>
      || (at.backend && !at.postgresqlTests) || (at.FrontendImage() && at.packages)
      || at.deployed || at.release || at.scheduler
    case BackendPostgresqlTests => at.backend && !at.tests && !at.cephTests
    case BackendSecurityContract => at.BackendCode()
    case BackendDeadcode => at.BackendCode()
    case BackendVulnScan => at.BackendCode() && at.requirements
    case FrontendQuality => at.frontend
    case FrontendTests => at.frontend && !at.browserSuite && !at.demo
    case FrontendDemo => at.frontend && !at.unitTest && !at.browserSuite
    case FrontendBrowserE2e => at.browserSuite || at.FrontendImage() || at.BackendImage()
    case FrontendAudit => at.cloudflare || (at.FrontendImage() && at.packages)
    case FrontendVulnScan => at.FrontendImage() && at.packages
    case HelmContract => at.deployed || at.release || at.scheduler
    case ComposeContract => at.deployed || at.release || at.scheduler
    case SchedulerContract => at.scheduler
    case DocsBuild => at.documentation || at.cloudflare || at.screenshots
    case DocsScreenshots => at.documentation || at.cloudflare || at.screenshots
    case _ => false
  }

  /** A change at this place calls for the image of `c`. */
  predicate CallsForImage(at: Place, c: Component) {
    match c
    case Backend => at.BackendImage() || at.deployed
    case Frontend => at.FrontendImage() || at.deployed
    case Scheduler => at.scheduler
  }

  predicate CallsForCeph(at: Place) { at.BackendImage() || at.cephTests }

  /** The pipeline itself, and every place that no rule names. */
  predicate CallsForAll(at: Place) {
    || at.pipeline
    || !(at.backend || at.frontend || at.deployed || at.release || at.scheduler || at.cloudflare || at.documentation ||
         at.note)
  }

  /** The impact is what the place calls for. */
  ghost predicate IsCalledFor(i: Impact, at: Place) {
    && (forall j :: j in i.jobs <==> CallsFor(at, j))
    && (forall c :: c in i.images <==> CallsForImage(at, c))
    && (i.ceph <==> CallsForCeph(at))
    && (i.full <==> CallsForAll(at))
  }

  // ----- the rules and the regions of the tree -----

  lemma LetterAt(p: string, a: string, k: nat)
    requires k < |a|
    ensures Under(p, a) || p == a ==> k < |p| && p[k] == a[k]
  {
    if Under(p, a) {
      assert p[k] == p[..|a|][k];
    }
  }

  lemma InsideOf(p: string, a: string, b: string)
    requires |b| <= |a| && a[..|b|] == b
    ensures Under(p, a) || p == a ==> Under(p, b)
  {
    if Under(p, a) {
      assert p[..|b|] == p[..|a|][..|b|];
    }
  }

  lemma ScreenshotLetters(p: string)
    requires IsScreenshotScript(p)
    ensures Under(p, "frontend/")
    ensures |p| > 10 && ((p[9] == 's' && p[10] == 'c') || (|p| > 21 && p[9] == 'p' && p[20] == 'd' && p[21] == 'o'))
  {
    InsideOf(p, "frontend/scripts/docs-screenshots/", "frontend/");
    InsideOf(p, "frontend/playwright.docs", "frontend/");
    LetterAt(p, "frontend/scripts/docs-screenshots/", 9);
    LetterAt(p, "frontend/scripts/docs-screenshots/", 10);
    LetterAt(p, "frontend/playwright.docs", 9);
    LetterAt(p, "frontend/playwright.docs", 20);
    LetterAt(p, "frontend/playwright.docs", 21);
  }

  lemma UnitLetters(p: string)
    requires IsUnitTest(p)
    ensures Under(p, "frontend/")
    ensures |p| > 10 && (p[9] == 'v' || (p[9] == 's' && p[10] == 'r'))
  {
    InsideOf(p, "frontend/vitest.config.ts", "frontend/");
    InsideOf(p, "frontend/src/", "frontend/");
    InsideOf(p, "frontend/src/test/", "frontend/");
    LetterAt(p, "frontend/src/", 9);
    LetterAt(p, "frontend/src/", 10);
    LetterAt(p, "frontend/src/test/", 9);
    LetterAt(p, "frontend/src/test/", 10);
  }

  lemma BrowserLetters(p: string, place: string)
    requires |place| > 13 && place[..9] == "frontend/" && place[9] == 'e' && place[13] != 'd'
    ensures Under(p, place) ==> Under(p, "frontend/") && |p| > 13 && p[9] == 'e' && p[13] != 'd'
  {
    InsideOf(p, place, "frontend/");
    LetterAt(p, place, 9);
    LetterAt(p, place, 13);
  }

  lemma BrowserSuiteLetters(p: string)
    requires IsBrowserSuite(p)
    ensures Under(p, "frontend/")
    ensures |p| > 13 && ((|p| > 20 && p[9] == 'p' && p[20] == 'e') || (p[9] == 'e' && p[13] != 'd'))
  {
    if p != "frontend/playwright.e2e.config.ts" {
      BrowserLetters(p, "frontend/e2e/browser/");
      BrowserLetters(p, "frontend/e2e/auth/");
      BrowserLetters(p, "frontend/e2e/setup/");
      BrowserLetters(p, "frontend/e2e/helpers/");
      BrowserLetters(p, "frontend/e2e/fixtures/");
    }
  }

  lemma DemoLetters(p: string)
    requires IsDemo(p)
    ensures Under(p, "frontend/")
    ensures |p| > 13 && ((|p| > 21 && p[9] == 'p' && p[20] == 'd' && p[21] == 'e') || (p[9] == 'e' && p[13] == 'd'))
  {
    InsideOf(p, "frontend/playwright.demo.config.ts", "frontend/");
    InsideOf(p, "frontend/e2e/demo/", "frontend/");
    LetterAt(p, "frontend/e2e/demo/", 9);
    LetterAt(p, "frontend/e2e/demo/", 13);
  }

  /** The kinds of frontend paths are under `frontend/` and apart from each other. */
  lemma FrontendKinds(p: string)
    ensures IsScreenshotScript(p) || IsUnitTest(p) || IsBrowserSuite(p) || IsDemo(p) ==> Under(p, "frontend/")
    ensures IsScreenshotScript(p) ==> !IsUnitTest(p) && !IsBrowserSuite(p) && !IsDemo(p)
    ensures IsUnitTest(p) ==> !IsBrowserSuite(p) && !IsDemo(p)
    ensures IsBrowserSuite(p) ==> !IsDemo(p)
  {
    if IsScreenshotScript(p) {
      ScreenshotLetters(p);
    }
    if IsUnitTest(p) {
      UnitLetters(p);
    }
    if IsBrowserSuite(p) {
      BrowserSuiteLetters(p);
    }
    if IsDemo(p) {
      DemoLetters(p);
    }
  }

  lemma BackendKinds(p: string)
    ensures Under(p, "backend/tests/") || Under(p, "backend/tests_postgresql/") ||
            Under(p, "backend/tests_ceph_functional/") ==>
              Under(p, "backend/")
    ensures !(Under(p, "backend/tests/") && Under(p, "backend/tests_postgresql/"))
    ensures !(Under(p, "backend/tests/") && Under(p, "backend/tests_ceph_functional/"))
    ensures !(Under(p, "backend/tests_postgresql/") && Under(p, "backend/tests_ceph_functional/"))
  {
    InsideOf(p, "backend/tests/", "backend/");
    InsideOf(p, "backend/tests_postgresql/", "backend/");
    InsideOf(p, "backend/tests_ceph_functional/", "backend/");
    LetterAt(p, "backend/tests/", 13);
    LetterAt(p, "backend/tests_postgresql/", 13);
    LetterAt(p, "backend/tests_postgresql/", 14);
    LetterAt(p, "backend/tests_ceph_functional/", 13);
    LetterAt(p, "backend/tests_ceph_functional/", 14);
  }

  lemma StartsIsUnder(p: string)
    ensures forall prefix :: StartsWith(p, prefix) <==> Under(p, prefix)
  {}

  lemma Starts(p: string, prefix: string)
    ensures StartsWith(p, prefix) <==> Under(p, prefix)
  {}

  lemma UnitTestsAre(p: string)
    ensures IsUnitTestPath(p) <==> IsUnitTest(p)
  {
    StartsIsUnder(p);
    Endings(p, ".test.ts");
    Endings(p, ".test.tsx");
    Endings(p, ".test.ts\n");
    Endings(p, ".test.tsx\n");
  }

  lemma FrontendKindsAre(p: string)
    ensures IsScreenshotPath(p) <==> IsScreenshotScript(p)
    ensures IsBrowserTest(p) <==> IsBrowserSuite(p)
    ensures IsDemoTest(p) <==> IsDemo(p)
  {
    StartsIsUnder(p);
  }

  /** The kinds of places exclude each other. */
  predicate IsConsistent(at: Place, r: nat) {
    && (at.BackendTest() ==> at.backend)
    && !(at.tests && at.postgresqlTests) && !(at.tests && at.cephTests) && !(at.postgresqlTests && at.cephTests)
    && (at.screenshots || at.unitTest || at.browserSuite || at.demo ==> at.frontend)
    && (at.screenshots ==> !at.unitTest && !at.browserSuite && !at.demo)
    && (at.unitTest ==> !at.browserSuite && !at.demo)
    && !(at.browserSuite && at.demo)
    && LiesIn(at, r)
  }

  /** Only region `r` can be the place's. */
  predicate LiesIn(at: Place, r: nat) {
    && (at.backend ==> r == 1) && (at.frontend ==> r == 2) && (at.deployed ==> r == 3) && (at.release ==> r == 4)
    && (at.scheduler ==> r == 5) && (at.cloudflare ==> r == 6) && (at.documentation ==> r == 7)
    && (at.pipeline ==> r == 8) && (at.note ==> r == 9)
  }

  /** The first rule that matches, by place. */
  function TouchedAt(at: Place): Touched {
    if at.pipeline then Pipeline
    else if at.cloudflare then Cloudflare
    else if at.documentation then DocPages
    else if at.screenshots then DocScreenshots
    else if at.unitTest then UnitTests
    else if at.browserSuite then BrowserTests
    else if at.demo then DemoTests
    else if at.postgresqlTests then PostgresqlTests
    else if at.cephTests then CephTests
    else if at.tests then PlainBackendTests
    else if at.backend then BackendCode(at.shipped, at.requirements)
    else if at.frontend then FrontendCode(at.packages)
    else if at.deployed || at.release then Deployment(at.deployed)
    else if at.scheduler then SchedulerCode
    else if at.note then Notes
    else Unknown
  }

  lemma BackendJobs(at: Place, j: Job)
    requires IsConsistent(at, 1) && at.backend
    ensures j in ImpactOf(TouchedAt(at)).jobs <==> CallsFor(at, j)
  {}

  lemma FrontendJobs(at: Place, j: Job)
    requires IsConsistent(at, 2) && at.FrontendImage()
    ensures j in ImpactOf(TouchedAt(at)).jobs <==> CallsFor(at, j)
  {}

  lemma FrontendTestJobs(at: Place, j: Job)
    requires IsConsistent(at, 2) && at.frontend && !at.FrontendImage()
    ensures j in ImpactOf(TouchedAt(at)).jobs <==> CallsFor(at, j)
  {}

  lemma DeploymentJobs(at: Place, r: nat, j: Job)
    requires IsConsistent(at, r) && (at.deployed || at.release || at.scheduler)
    ensures j in ImpactOf(TouchedAt(at)).jobs <==> CallsFor(at, j)
  {}

  lemma DocumentationJobs(at: Place, r: nat, j: Job)
    requires IsConsistent(at, r) && (at.cloudflare || at.documentation)
    ensures j in ImpactOf(TouchedAt(at)).jobs <==> CallsFor(at, j)
  {}

  lemma OtherPlaces(at: Place, r: nat)
    requires IsConsistent(at, r) && !at.backend && !at.frontend
    requires !at.deployed && !at.release && !at.scheduler && !at.cloudflare && !at.documentation
    ensures ImpactOf(TouchedAt(at)).jobs == {} && ImpactOf(TouchedAt(at)).images == {}
    ensures forall j :: !CallsFor(at, j)
    ensures forall c :: !CallsForImage(at, c)
  {
    assert TouchedAt(at) == if at.pipeline then Pipeline else if at.note then Notes else Unknown;
  }

  lemma SourceImages(at: Place, r: nat, c: Component)
    requires IsConsistent(at, r) && (at.backend || at.frontend)
    ensures c in ImpactOf(TouchedAt(at)).images <==> CallsForImage(at, c)
  {}

  lemma DeploymentImages(at: Place, r: nat, c: Component)
    requires IsConsistent(at, r)
    requires at.deployed || at.release || at.scheduler || at.cloudflare || at.documentation
    ensures c in ImpactOf(TouchedAt(at)).images <==> CallsForImage(at, c)
  {}

  lemma CephAndAll(at: Place, r: nat)
    requires IsConsistent(at, r)
    ensures ImpactOf(TouchedAt(at)).ceph <==> CallsForCeph(at)
    ensures ImpactOf(TouchedAt(at)).full <==> CallsForAll(at)
  {}

  lemma ImpactAt(at: Place, r: nat)
    requires IsConsistent(at, r)
    ensures IsCalledFor(ImpactOf(TouchedAt(at)), at)
  {
    CephAndAll(at, r);
    if at.backend || at.frontend {
      forall j ensures j in ImpactOf(TouchedAt(at)).jobs <==> CallsFor(at, j) {
        if at.backend {
          BackendJobs(at, j);
        } else if !at.FrontendImage() {
          FrontendTestJobs(at, j);
        } else {
          FrontendJobs(at, j);
        }
      }
      forall c ensures c in ImpactOf(TouchedAt(at)).images <==> CallsForImage(at, c) {
        SourceImages(at, r, c);
      }
    } else {
      OutsideSources(at, r);
    }
  }

  lemma OutsideSources(at: Place, r: nat)
    requires IsConsistent(at, r) && !at.backend && !at.frontend
    ensures forall j :: j in ImpactOf(TouchedAt(at)).jobs <==> CallsFor(at, j)
    ensures forall c :: c in ImpactOf(TouchedAt(at)).images <==> CallsForImage(at, c)
  {
    if at.deployed || at.release || at.scheduler || at.cloudflare || at.documentation {
      forall j ensures j in ImpactOf(TouchedAt(at)).jobs <==> CallsFor(at, j) {
        if at.cloudflare || at.documentation {
          DocumentationJobs(at, r, j);
        } else {
          DeploymentJobs(at, r, j);
        }
      }
      forall c ensures c in ImpactOf(TouchedAt(at)).images <==> CallsForImage(at, c) {
        DeploymentImages(at, r, c);
      }
    } else {
      OtherPlaces(at, r);
    }
  }

  // ----- from the text to the place -----

  /** The region of the tree, told from a few letters. */
  function Region(p: string): nat {
    if p == "" then 0
    else
      match p[0]
      case 'b' => 1
      case 'f' => 2
      case 'c' => 3
      case 'd' => if |p| > 1 && p[1] == 'e' then 3 else 7
      case 'C' => 4
      case 's' => 5
      case 'R' => 7
      case 'p' => 8
      case 'o' =>
        if |p| <= 5 then 0
        else if p[4] == 'r' then 4
        else if p[5] == 'r' then 5
        else if p[5] == 'l' then 6
        else 8
      case '.' => if |p| > 4 && (p[4] == 'h' || p[4] == 'l' || p[1] == 't') then 8 else 9
      case _ => 9
  }

  lemma SourceRegions(p: string)
    ensures Under(p, "backend/") ==> Region(p) == 1
    ensures Under(p, "frontend/") ==> Region(p) == 2
  {
    LetterAt(p, "backend/", 0);
    LetterAt(p, "frontend/", 0);
  }

  lemma DeploymentRegions(p: string)
    ensures Under(p, "deploy/") || p == "compose.yaml" ==> Region(p) == 3
    ensures Under(p, "ops/release/") || p == "CHANGELOG.md" ==> Region(p) == 4
  {
    LetterAt(p, "deploy/", 0);
    LetterAt(p, "deploy/", 1);
    LetterAt(p, "ops/release/", 0);
    LetterAt(p, "ops/release/", 4);
    LetterAt(p, "ops/release/", 5);
  }

  lemma SchedulerRegion(p: string)
    ensures Under(p, "ops/cron/") || Under(p, "scheduler/") ==> Region(p) == 5
  {
    LetterAt(p, "scheduler/", 0);
    LetterAt(p, "ops/cron/", 0);
    LetterAt(p, "ops/cron/", 4);
    LetterAt(p, "ops/cron/", 5);
  }

  lemma DocumentationRegions(p: string)
    ensures Under(p, "ops/cloudflare/") ==> Region(p) == 6
    ensures Under(p, "doc/") || p == "README.md" ==> Region(p) == 7
  {
    LetterAt(p, "ops/cloudflare/", 0);
    LetterAt(p, "ops/cloudflare/", 4);
    LetterAt(p, "ops/cloudflare/", 5);
    LetterAt(p, "doc/", 0);
    LetterAt(p, "doc/", 1);
  }

  lemma PipelineRegion(p: string)
    ensures IsPipelineFile(p) ==> Region(p) == 8
  {
    LetterAt(p, ".github/", 0);
    LetterAt(p, ".github/", 4);
    LetterAt(p, "ops/ci/", 0);
    LetterAt(p, "ops/ci/", 4);
    LetterAt(p, "ops/ci/", 5);
  }

  lemma NoteRegion(p: string)
    ensures IsLeftAlone(p) ==> Region(p) == 9
  {
    LetterAt(p, ".vscode/", 0);
    LetterAt(p, ".vscode/", 1);
    LetterAt(p, ".vscode/", 4);
  }

  lemma PlaceIsConsistent(p: string)
    ensures IsConsistent(PlaceOf(p), Region(p))
  {
    SourceRegions(p);
    DeploymentRegions(p);
    SchedulerRegion(p);
    DocumentationRegions(p);
    PipelineRegion(p);
    NoteRegion(p);
    FrontendKinds(p);
    BackendKinds(p);
  }

  lemma PipelineAndNotesAre(p: string)
    ensures IsPipeline(p) <==> IsPipelineFile(p)
    ensures IsNote(p) <==> IsLeftAlone(p)
    ensures IsDeployment(p) <==> PlaceOf(p).deployed || PlaceOf(p).release
  {
    StartsIsUnder(p);
  }

  lemma BackendCodeIs(p: string)
    ensures TouchedBackend(p) == BackendCode(IsShipped(p), Mentions(p, "requirements"))
  {
    StartsIsUnder(p);
    Mentioned(p, "requirements");
    Endings(p, "Dockerfile");
  }

  /** The questions of the rules that are asked about `backend/`, `frontend/` and the other places. */
  predicate BackendFits(p: string, at: Place) {
    && at.postgresqlTests == StartsWith(p, "backend/tests_postgresql/")
    && at.cephTests == StartsWith(p, "backend/tests_ceph_functional/")
    && at.tests == StartsWith(p, "backend/tests/") && at.backend == StartsWith(p, "backend/")
    && TouchedBackend(p) == BackendCode(at.shipped, at.requirements)
  }

  predicate FrontendFits(p: string, at: Place) {
    && at.screenshots == IsScreenshotPath(p) && at.unitTest == IsUnitTestPath(p)
    && at.browserSuite == IsBrowserTest(p) && at.demo == IsDemoTest(p) && at.frontend == StartsWith(p, "frontend/")
    && at.packages == (EndsWith(p, "package.json") || EndsWith(p, "package-lock.json"))
  }

  predicate OthersFit(p: string, at: Place) {
    && at.pipeline == IsPipeline(p) && at.note == IsNote(p) && at.cloudflare == StartsWith(p, "ops/cloudflare/")
    && at.documentation == (StartsWith(p, "doc/") || p == "README.md")
    && (at.deployed || at.release) == IsDeployment(p)
    && at.deployed == (StartsWith(p, "deploy/") || p == "compose.yaml")
    && at.scheduler == (StartsWith(p, "ops/cron/") || StartsWith(p, "scheduler/"))
  }

  lemma BackendPlace(p: string)
    ensures BackendFits(p, PlaceOf(p))
  {
    Starts(p, "backend/");
    Starts(p, "backend/tests/");
    Starts(p, "backend/tests_postgresql/");
    Starts(p, "backend/tests_ceph_functional/");
    BackendCodeIs(p);
  }

  lemma FrontendPlace(p: string)
    ensures FrontendFits(p, PlaceOf(p))
  {
    Starts(p, "frontend/");
    UnitTestsAre(p);
    FrontendKindsAre(p);
    Endings(p, "package.json");
    Endings(p, "package-lock.json");
  }

  lemma OtherPlace(p: string)
    ensures OthersFit(p, PlaceOf(p))
  {
    Starts(p, "ops/cloudflare/");
    Starts(p, "doc/");
    Starts(p, "deploy/");
    Starts(p, "ops/cron/");
    Starts(p, "scheduler/");
    PipelineAndNotesAre(p);
  }

  lemma RulesFit(p: string, at: Place)
    requires BackendFits(p, at) && FrontendFits(p, at) && OthersFit(p, at)
    ensures TouchedBy(p) == TouchedAt(at)
  {}

  lemma RulesAgree(p: string)
    ensures TouchedBy(p) == TouchedAt(PlaceOf(p))
  {
    BackendPlace(p);
    FrontendPlace(p);
    OtherPlace(p);
    RulesFit(p, PlaceOf(p));
  }

  /** A changed path has the impact that its place calls for. */
  lemma PathImpact(p: string)
    ensures IsCalledFor(ImpactOf(TouchedBy(p)), PlaceOf(p))
  {
    RulesAgree(p);
    PlaceIsConsistent(p);
    ImpactAt(PlaceOf(p), Region(p));
  }

  // ----- the plan -----

  ghost function Places(paths: Option<set<string>>, place: string -> Place): Option<set<Place>> {
    if paths.None? then None else Some(set p <- paths.value :: place(p))
  }

  /** Every path's impact is what its place calls for. */
  ghost predicate Agree(touched: string -> Touched, place: string -> Place) {
    forall p :: IsCalledFor(ImpactOf(touched(p)), place(p))
  }

  predicate SomeCalls(places: set<Place>, j: Job) { exists at <- places :: CallsFor(at, j) }
  predicate SomeCallsImage(places: set<Place>, c: Component) { exists at <- places :: CallsForImage(at, c) }
  predicate SomeCallsCeph(places: set<Place>) { exists at <- places :: CallsForCeph(at) }
  predicate SomeCallsAll(places: set<Place>) { exists at <- places :: CallsForAll(at) }

  /** The impact is what the changed places call for together. */
  ghost predicate Means(impact: Impact, places: set<Place>) {
    && (forall j :: j in impact.jobs <==> SomeCalls(places, j))
    && (forall c :: c in impact.images <==> SomeCallsImage(places, c))
    && (impact.ceph <==> SomeCallsCeph(places))
    && (impact.full <==> SomeCallsAll(places))
  }

  /** Impacts of the single paths that mean their places add up to one that means all places. */
  lemma MeansTogether(impact: Impact, paths: set<string>, touched: string -> Touched, place: string -> Place)
    requires IsImpactOf(impact, paths, touched)
    requires Agree(touched, place)
    ensures Means(impact, set p <- paths :: place(p))
  {
    var places := set p <- paths :: place(p);
    assert forall p :: p in paths ==> place(p) in places && Below(ImpactOf(touched(p)), impact);
    forall j ensures j in impact.jobs <==> SomeCalls(places, j) {
      if j in impact.jobs {
        var p :| p in paths && j in ImpactOf(touched(p)).jobs;
        assert CallsFor(place(p), j);
      }
    }
    forall c ensures c in impact.images <==> SomeCallsImage(places, c) {
      if c in impact.images {
        var p :| p in paths && c in ImpactOf(touched(p)).images;
        assert CallsForImage(place(p), c);
      }
    }
  }
  /** The profiles whose plan depends on the changed paths. */
  predicate FollowsPaths(profile: Profile) {
    profile == Pr || profile == Integration || profile == Qualify || profile == PrepareRelease || profile == Regression
  }

  predicate ImagePlanned(r: Plan, places: Option<set<Place>>, c: Component) {
    && r.profile != Pr && r.profile != Regression
    && (r.full || (places.Some? &&
        if c == Scheduler then SomeCallsImage(places.value, Scheduler)
        else SomeCallsImage(places.value, Backend) || SomeCallsImage(places.value, Frontend)))
  }

  /** Job `j` belongs to the plan: it always runs, a changed path calls for it, or everything runs. */
  predicate JobPlanned(r: Plan, places: Option<set<Place>>, j: Job) {
    match j
    case ProjectNaming => true
    case CiContract => true
    case SecretScan => true
    case Build(c) => ImagePlanned(r, places, c)
    case ImageVulnScan(c) => ImagePlanned(r, places, c)
    case HelmKindSmoke => ImagePlanned(r, places, Backend)
    case CephFunctionalTests => r.profile != Pr && (r.full || (places.Some? && SomeCallsCeph(places.value)))
    case ReleasePreflight => r.profile == PrepareRelease
    case DocsDeploy =>
      r.profile == Integration && r.ref == "main" && (r.full || (places.Some? && SomeCalls(places.value, DocsBuild)))
    case ScanPublishedImages => false
    case _ => r.full || (places.Some? && SomeCalls(places.value, j))
  }

  /** Where everything runs: unknown paths, a profile that covers everything, or a path that calls for it. */
  predicate AllPlanned(r: Plan, places: Option<set<Place>>) {
    || r.profile == Qualify || r.profile == PrepareRelease || r.profile == Regression
    || places.None? || SomeCallsAll(places.value)
  }

  lemma FinishedImages(profile: Profile, ref: string, impact: Impact, known: bool)
    requires FollowsPaths(profile)
    ensures var r := Finished(profile, ref, impact, known);
            var shipped := profile != Pr && profile != Regression;
            var pair := shipped && (r.full || Backend in impact.images || Frontend in impact.images);
            && (r.full <==> !known || impact.full ||
                            profile == Qualify || profile == PrepareRelease || profile == Regression)
            && (Backend in r.images <==> pair) && (Frontend in r.images <==> pair)
            && (Scheduler in r.images <==> shipped && (r.full || Scheduler in impact.images))
  {}

  lemma PrivateJobs(j: Job)
    requires j.Build? || j.ImageVulnScan? || j.HelmKindSmoke? || j.CephFunctionalTests? || j.ReleasePreflight? ||
             j.DocsDeploy? || j.ScanPublishedImages?
    ensures j !in PUBLIC
  {}

  lemma ImageJobsArePrivate(images: set<Component>, j: Job)
    requires j in ImageJobs(images)
    ensures j !in PUBLIC
  {
    PrivateJobs(j);
  }

  lemma CompletedPublic(profile: Profile, ref: string, d: Draft, j: Job)
    requires j in PUBLIC
    ensures j in Completed(profile, ref, d) <==> j in d.selected
  {
    if j in ImageJobs(d.images) {
      ImageJobsArePrivate(d.images, j);
    }
    PrivateJobs(CephFunctionalTests);
    PrivateJobs(ReleasePreflight);
    PrivateJobs(DocsDeploy);
  }

  lemma DraftedPublic(profile: Profile, impact: Impact, full: bool, j: Job)
    requires FollowsPaths(profile) && j in PUBLIC
    ensures j in Paired(Restricted(profile, Overridden(profile, Drafted(impact, full)))).selected <==>
            full || j in impact.jobs || j == ProjectNaming || j == CiContract || j == SecretScan
  {
    PrivateJobs(HelmKindSmoke);
  }

  lemma FinishedPublic(profile: Profile, ref: string, impact: Impact, known: bool, j: Job)
    requires FollowsPaths(profile) && j in PUBLIC
    ensures var r := Finished(profile, ref, impact, known);
            j in r.jobs <==> r.full || j in impact.jobs || j == ProjectNaming || j == CiContract || j == SecretScan
  {
    var full := !known || AlwaysFull(profile) || impact.full;
    DraftedPublic(profile, impact, full, j);
    CompletedPublic(profile, ref, Paired(Restricted(profile, Overridden(profile, Drafted(impact, full)))), j);
  }

  lemma DraftedPrivate(profile: Profile, impact: Impact, full: bool, j: Job)
    requires FollowsPaths(profile) && impact.jobs <= PUBLIC && j !in PUBLIC && j != HelmKindSmoke
    ensures j !in Paired(Restricted(profile, Overridden(profile, Drafted(impact, full)))).selected
  {
    assert MANDATORY <= PUBLIC;
  }

  lemma FinishedPrivate(profile: Profile, ref: string, impact: Impact, known: bool)
    requires FollowsPaths(profile) && impact.jobs <= PUBLIC
    ensures var r := Finished(profile, ref, impact, known);
            && (CephFunctionalTests in r.jobs <==> profile != Pr && (r.full || impact.ceph))
            && (ReleasePreflight in r.jobs <==> profile == PrepareRelease)
            && (DocsDeploy in r.jobs <==>
                profile == Integration && ref == "main" && DocsBuild in r.jobs && DocsScreenshots in r.jobs)
            && ScanPublishedImages !in r.jobs
  {
    var full := !known || AlwaysFull(profile) || impact.full;
    PrivateJobs(CephFunctionalTests);
    PrivateJobs(ReleasePreflight);
    PrivateJobs(DocsDeploy);
    PrivateJobs(ScanPublishedImages);
    DraftedPrivate(profile, impact, full, CephFunctionalTests);
    DraftedPrivate(profile, impact, full, ReleasePreflight);
    DraftedPrivate(profile, impact, full, DocsDeploy);
    DraftedPrivate(profile, impact, full, ScanPublishedImages);
    CompletedPrivate(profile, ref, Paired(Restricted(profile, Overridden(profile, Drafted(impact, full)))));
  }

  lemma CompletedPrivate(profile: Profile, ref: string, d: Draft)
    requires profile != Docs
    requires CephFunctionalTests !in d.selected && ReleasePreflight !in d.selected
    requires DocsDeploy !in d.selected && ScanPublishedImages !in d.selected
    ensures var jobs := Completed(profile, ref, d);
            && (CephFunctionalTests in jobs <==> d.ceph)
            && (ReleasePreflight in jobs <==> profile == PrepareRelease)
            && (DocsDeploy in jobs <==>
                profile == Integration && ref == "main" && DocsBuild in jobs && DocsScreenshots in jobs)
            && ScanPublishedImages !in jobs
  {}

  lemma PrivateOrPublic(j: Job)
    requires j !in PUBLIC
    ensures j.Build? || j.ImageVulnScan? || j.HelmKindSmoke? || j.CephFunctionalTests? || j.ReleasePreflight? ||
            j.DocsDeploy? || j.ScanPublishedImages?
  {}

  /** What is planned, in terms of the impact's meaning. */
  lemma FinishedMeans(r: Plan, ref: string, impact: Impact, places: Option<set<Place>>, c: Component)
    requires r == Finished(r.profile, ref, impact, places.Some?) && FollowsPaths(r.profile)
    requires places.Some? ==> Means(impact, places.value)
    requires places.None? ==> impact == NOTHING
    ensures r.full <==> AllPlanned(r, places)
    ensures c in r.images <==> ImagePlanned(r, places, c)
  {
    FinishedImages(r.profile, ref, impact, places.Some?);
  }

  lemma PublicMeans(r: Plan, ref: string, impact: Impact, places: Option<set<Place>>, j: Job)
    requires r == Finished(r.profile, ref, impact, places.Some?) && FollowsPaths(r.profile) && j in PUBLIC
    requires places.Some? ==> Means(impact, places.value)
    requires places.None? ==> impact == NOTHING
    ensures j in r.jobs <==> r.full || (places.Some? && SomeCalls(places.value, j)) ||
                             j == ProjectNaming || j == CiContract || j == SecretScan
  {
    FinishedPublic(r.profile, ref, impact, places.Some?, j);
  }

  lemma ImageMeans(r: Plan, ref: string, impact: Impact, places: Option<set<Place>>, c: Component)
    requires r == Finished(r.profile, ref, impact, places.Some?) && FollowsPaths(r.profile) && impact.jobs <= PUBLIC
    requires places.Some? ==> Means(impact, places.value)
    requires places.None? ==> impact == NOTHING
    ensures Build(c) in r.jobs <==> ImagePlanned(r, places, c)
    ensures ImageVulnScan(c) in r.jobs <==> ImagePlanned(r, places, c)
    ensures HelmKindSmoke in r.jobs <==> ImagePlanned(r, places, Backend)
  {
    var full := places.None? || AlwaysFull(r.profile) || impact.full;
    DraftHasNoImageJob(r.profile, impact, full);
    PairedImages(r.profile, ref, Restricted(r.profile, Overridden(r.profile, Drafted(impact, full))), c);
    FinishedMeans(r, ref, impact, places, c);
    FinishedMeans(r, ref, impact, places, Backend);
  }

  lemma DocsTogether(places: set<Place>)
    ensures SomeCalls(places, DocsBuild) <==> SomeCalls(places, DocsScreenshots)
  {
    assert forall at: Place :: CallsFor(at, DocsBuild) <==> CallsFor(at, DocsScreenshots);
  }

  lemma DocsMean(r: Plan, ref: string, impact: Impact, places: Option<set<Place>>)
    requires r == Finished(r.profile, ref, impact, places.Some?) && FollowsPaths(r.profile) && impact.jobs <= PUBLIC
    requires places.Some? ==> Means(impact, places.value)
    requires places.None? ==> impact == NOTHING
    ensures DocsBuild in r.jobs <==> r.full || (places.Some? && SomeCalls(places.value, DocsBuild))
    ensures DocsScreenshots in r.jobs <==> DocsBuild in r.jobs
  {
    assert DocsBuild in PUBLIC && DocsScreenshots in PUBLIC;
    PublicMeans(r, ref, impact, places, DocsBuild);
    PublicMeans(r, ref, impact, places, DocsScreenshots);
    if places.Some? {
      DocsTogether(places.value);
    }
  }

  lemma DocsDeployMeans(r: Plan, ref: string, impact: Impact, places: Option<set<Place>>)
    requires r == Finished(r.profile, ref, impact, places.Some?) && FollowsPaths(r.profile) && impact.jobs <= PUBLIC
    requires DocsBuild in r.jobs <==> r.full || (places.Some? && SomeCalls(places.value, DocsBuild))
    requires DocsScreenshots in r.jobs <==> DocsBuild in r.jobs
    ensures DocsDeploy in r.jobs <==> JobPlanned(r, places, DocsDeploy)
  {
    FinishedPrivate(r.profile, ref, impact, places.Some?);
  }

  lemma PrivateJobMeans(r: Plan, ref: string, impact: Impact, places: Option<set<Place>>, j: Job)
    requires r == Finished(r.profile, ref, impact, places.Some?) && FollowsPaths(r.profile) && impact.jobs <= PUBLIC
    requires places.Some? ==> (impact.ceph <==> SomeCallsCeph(places.value))
    requires j.CephFunctionalTests? || j.ReleasePreflight? || j.ScanPublishedImages?
    ensures j in r.jobs <==> JobPlanned(r, places, j)
  {
    FinishedPrivate(r.profile, ref, impact, places.Some?);
  }

  lemma ImageJobMeans(r: Plan, places: Option<set<Place>>, j: Job, c: Component)
    requires j == Build(c) || j == ImageVulnScan(c) || (j == HelmKindSmoke && c == Backend)
    requires j in r.jobs <==> ImagePlanned(r, places, c)
    ensures j in r.jobs <==> JobPlanned(r, places, j)
  {}

  lemma PublicJobMeans(r: Plan, ref: string, impact: Impact, places: Option<set<Place>>, j: Job)
    requires r == Finished(r.profile, ref, impact, places.Some?) && FollowsPaths(r.profile) && impact.jobs <= PUBLIC
    requires places.Some? ==> Means(impact, places.value)
    requires places.None? ==> impact == NOTHING
    requires j in PUBLIC
    ensures j in r.jobs <==> JobPlanned(r, places, j)
  {
    PublicMeans(r, ref, impact, places, j);
    if j.Build? || j.ImageVulnScan? || j.HelmKindSmoke? || j.CephFunctionalTests? || j.ReleasePreflight? ||
      j.DocsDeploy? || j.ScanPublishedImages? {
      PrivateJobs(j);
    }
  }

  /** The plan contains exactly the jobs that always run, that a changed place calls for, or that run because everything
      does; and likewise for images. */
  ghost predicate PlanFits(r: Plan, profile: Profile, places: Option<set<Place>>, ref: string, version: bool) {
    && r.profile == (if profile == Integration && ref == "main" && version then Qualify else profile)
    && r.ref == ref
    && (r.full <==> AllPlanned(r, places))
    && (forall j :: j in r.jobs <==> JobPlanned(r, places, j))
    && (forall c :: c in r.images <==> ImagePlanned(r, places, c))
  }

  lemma FinishedFits(r: Plan, profile: Profile, ref: string, version: bool, impact: Impact, places: Option<set<Place>>)
    requires r.profile == if profile == Integration && ref == "main" && version then Qualify else profile
    requires r == Finished(r.profile, ref, impact, places.Some?) && FollowsPaths(r.profile) && impact.jobs <= PUBLIC
    requires places.Some? ==> Means(impact, places.value)
    requires places.None? ==> impact == NOTHING
    ensures PlanFits(r, profile, places, ref, version)
  {
    forall j ensures j in r.jobs <==> JobPlanned(r, places, j) {
      if j in PUBLIC {
        PublicJobMeans(r, ref, impact, places, j);
      } else {
        PrivateOrPublic(j);
        if j.Build? || j.ImageVulnScan? || j.HelmKindSmoke? {
          var c := if j.HelmKindSmoke? then Backend else j.component;
          ImageMeans(r, ref, impact, places, c);
          ImageJobMeans(r, places, j, c);
        } else if j.DocsDeploy? {
          DocsMean(r, ref, impact, places);
          DocsDeployMeans(r, ref, impact, places);
        } else {
          PrivateJobMeans(r, ref, impact, places, j);
        }
      }
    }
    forall c ensures c in r.images <==> ImagePlanned(r, places, c) {
      FinishedMeans(r, ref, impact, places, c);
    }
    FinishedMeans(r, ref, impact, places, Backend);
  }

  lemma PlanFitsPlaces(r: Plan, profile: Profile, paths: Option<set<string>>, ref: string, version: bool,
                       touched: string -> Touched, place: string -> Place)
    requires IsPlan(r, profile, paths, ref, version, touched) && FollowsPaths(profile) && Agree(touched, place)
    ensures PlanFits(r, profile, Places(paths, place), ref, version)
  {
    var impact := PlanImpact(r, profile, paths, ref, version, touched);
    if paths.Some? {
      MeansTogether(impact, paths.value, touched, place);
    } else {
      impact := NOTHING;
    }
    FinishedFits(r, profile, ref, version, impact, Places(paths, place));
  }

  lemma PathsAgree()
    ensures Agree(TouchedBy, PlaceOf)
  {
    forall p ensures IsCalledFor(ImpactOf(TouchedBy(p)), PlaceOf(p)) {
      PathImpact(p);
    }
  }

  /** Which jobs and images a plan contains follows from the text of the changed paths. */
  lemma PlanIsCalledFor(r: Plan, profile: Profile, paths: Option<set<string>>, ref: string, version: bool)
    requires IsPlan(r, profile, paths, ref, version, TouchedBy) && FollowsPaths(profile)
    ensures PlanFits(r, profile, Places(paths, PlaceOf), ref, version)
  {
    PathsAgree();
    PlanFitsPlaces(r, profile, paths, ref, version, TouchedBy, PlaceOf);
  }

  lemma JobIsCovered(r: Plan, profile: Profile, places: set<Place>, ref: string, version: bool, at: Place, j: Job)
    requires PlanFits(r, profile, Some(places), ref, version) && at in places && CallsFor(at, j)
    ensures j in r.jobs
  {
    assert SomeCalls(places, j);
    assert JobPlanned(r, Some(places), j);
  }

  lemma CephIsCovered(r: Plan, profile: Profile, places: set<Place>, ref: string, version: bool, at: Place)
    requires PlanFits(r, profile, Some(places), ref, version) && at in places && CallsForCeph(at) && r.profile != Pr
    ensures CephFunctionalTests in r.jobs
  {
    assert JobPlanned(r, Some(places), CephFunctionalTests);
  }

  lemma ImageIsCovered(r: Plan, profile: Profile, places: set<Place>, ref: string, version: bool, at: Place,
                       c: Component)
    requires PlanFits(r, profile, Some(places), ref, version) && at in places && CallsForImage(at, c)
    requires r.profile != Pr && r.profile != Regression
    ensures c in r.images && Build(c) in r.jobs && ImageVulnScan(c) in r.jobs
  {
    assert SomeCallsImage(places, c);
    assert ImagePlanned(r, Some(places), c);
    assert JobPlanned(r, Some(places), Build(c)) && JobPlanned(r, Some(places), ImageVulnScan(c));
  }

  lemma PlaceIsListed(paths: set<string>, place: string -> Place, p: string)
    requires p in paths
    ensures place(p) in Places(Some(paths), place).value
  {}

  /** What a changed place calls for is in the plan. */
  lemma PlaceIsCovered(r: Plan, profile: Profile, places: set<Place>, ref: string, version: bool, at: Place)
    requires PlanFits(r, profile, Some(places), ref, version) && at in places
    ensures forall j :: CallsFor(at, j) ==> j in r.jobs
    ensures CallsForCeph(at) && r.profile != Pr ==> CephFunctionalTests in r.jobs
    ensures r.profile != Pr && r.profile != Regression ==>
              forall c :: CallsForImage(at, c) ==> c in r.images && Build(c) in r.jobs && ImageVulnScan(c) in r.jobs
  {
    forall j | CallsFor(at, j) ensures j in r.jobs {
      JobIsCovered(r, profile, places, ref, version, at, j);
    }
    if CallsForCeph(at) && r.profile != Pr {
      CephIsCovered(r, profile, places, ref, version, at);
    }
    if r.profile != Pr && r.profile != Regression {
      forall c | CallsForImage(at, c) ensures c in r.images && Build(c) in r.jobs && ImageVulnScan(c) in r.jobs {
        ImageIsCovered(r, profile, places, ref, version, at, c);
      }
    }
  }

  lemma ShippedIsNoTest(p: string)
    requires Under(p, "backend/app/") || Under(p, "backend/alembic/")
    ensures Under(p, "backend/") && !Under(p, "backend/tests/")
    ensures !Under(p, "backend/tests_postgresql/") && !Under(p, "backend/tests_ceph_functional/")
  {
    InsideOf(p, "backend/app/", "backend/");
    InsideOf(p, "backend/alembic/", "backend/");
    LetterAt(p, "backend/app/", 8);
    LetterAt(p, "backend/alembic/", 8);
    LetterAt(p, "backend/tests/", 8);
    LetterAt(p, "backend/tests_postgresql/", 8);
    LetterAt(p, "backend/tests_ceph_functional/", 8);
  }

  /** What one changed backend path is enough for. */
  lemma BackendIsCovered(r: Plan, profile: Profile, paths: set<string>, ref: string, version: bool, p: string)
    requires IsPlan(r, profile, Some(paths), ref, version, TouchedBy) && FollowsPaths(profile) && p in paths
    requires Under(p, "backend/")
    ensures !Under(p, "backend/tests_postgresql/") ==> BackendTests in r.jobs
    ensures !Under(p, "backend/tests_ceph_functional/") && !Under(p, "backend/tests/") ==>
              BackendPostgresqlTests in r.jobs
    ensures PlaceOf(p).BackendCode() ==> BackendSecurityContract in r.jobs && BackendDeadcode in r.jobs
    ensures Under(p, "backend/app/") || Under(p, "backend/alembic/") ==>
              && FrontendBrowserE2e in r.jobs
              && (r.profile != Pr ==> CephFunctionalTests in r.jobs)
              && (r.profile != Pr && r.profile != Regression ==> Backend in r.images && Build(Backend) in r.jobs)
  {
    PlanIsCalledFor(r, profile, Some(paths), ref, version);
    BackendCalls(p);
    var places := Places(Some(paths), PlaceOf).value;
    PlaceIsListed(paths, PlaceOf, p);
    PlaceIsCovered(r, profile, places, ref, version, PlaceOf(p));
  }

  lemma BackendCalls(p: string)
    requires Under(p, "backend/")
    ensures !Under(p, "backend/tests_postgresql/") ==> CallsFor(PlaceOf(p), BackendTests)
    ensures !Under(p, "backend/tests_ceph_functional/") && !Under(p, "backend/tests/") ==>
              CallsFor(PlaceOf(p), BackendPostgresqlTests)
    ensures PlaceOf(p).BackendCode() ==>
              CallsFor(PlaceOf(p), BackendSecurityContract) && CallsFor(PlaceOf(p), BackendDeadcode)
    ensures Under(p, "backend/app/") || Under(p, "backend/alembic/") ==>
              CallsFor(PlaceOf(p), FrontendBrowserE2e) && CallsForCeph(PlaceOf(p)) && CallsForImage(PlaceOf(p), Backend)
  {
    if Under(p, "backend/app/") || Under(p, "backend/alembic/") {
      ShippedIsNoTest(p);
    }
  }

  /** A place that only documents. */
  predicate Documents(at: Place) { IsConsistent(at, 7) && at.documentation }

  lemma DocumentationPlaces(paths: set<string>, place: string -> Place)
    requires forall p :: p in paths ==> Documents(place(p))
    ensures forall at :: at in Places(Some(paths), place).value ==> Documents(at)
    ensures paths != {} ==> Places(Some(paths), place).value != {}
  {
    if paths != {} {
      var p :| p in paths;
      assert place(p) in Places(Some(paths), place).value;
    }
  }

  lemma DocumentationCalls(at: Place)
    requires Documents(at)
    ensures forall j :: CallsFor(at, j) <==> j == DocsBuild || j == DocsScreenshots
    ensures !CallsForAll(at) && !CallsForCeph(at) && forall c :: !CallsForImage(at, c)
  {}

  lemma DocumentationPlan(r: Plan, profile: Profile, places: set<Place>, ref: string, version: bool)
    requires PlanFits(r, profile, Some(places), ref, version) && (r.profile == Pr || r.profile == Integration)
    requires forall at :: at in places ==> Documents(at)
    ensures r.jobs <= {ProjectNaming, CiContract, SecretScan, DocsBuild, DocsScreenshots, DocsDeploy}
    ensures r.images == {} && !r.full
    ensures places != {} ==> DocsBuild in r.jobs && DocsScreenshots in r.jobs
  {
    DocumentationAlone(places);
    assert !r.full && forall c :: !ImagePlanned(r, Some(places), c);
    forall j | j in r.jobs
      ensures j in {ProjectNaming, CiContract, SecretScan, DocsBuild, DocsScreenshots, DocsDeploy}
    {
      DocumentationJob(r, places, j);
    }
    assert JobPlanned(r, Some(places), DocsBuild) == SomeCalls(places, DocsBuild);
    assert JobPlanned(r, Some(places), DocsScreenshots) == SomeCalls(places, DocsScreenshots);
  }

  lemma DocumentationAlone(places: set<Place>)
    requires forall at :: at in places ==> Documents(at)
    ensures forall j :: SomeCalls(places, j) ==> j == DocsBuild || j == DocsScreenshots
    ensures !SomeCallsAll(places) && !SomeCallsCeph(places) && forall c :: !SomeCallsImage(places, c)
    ensures places != {} ==> SomeCalls(places, DocsBuild) && SomeCalls(places, DocsScreenshots)
  {
    forall at | at in places
      ensures forall j :: CallsFor(at, j) <==> j == DocsBuild || j == DocsScreenshots
      ensures !CallsForAll(at) && !CallsForCeph(at) && forall c :: !CallsForImage(at, c)
    {
      DocumentationCalls(at);
    }
    if places != {} {
      var at :| at in places;
      assert CallsFor(at, DocsBuild) && CallsFor(at, DocsScreenshots);
    }
  }

  lemma DocumentationJob(r: Plan, places: set<Place>, j: Job)
    requires JobPlanned(r, Some(places), j) && !r.full && (r.profile == Pr || r.profile == Integration)
    requires forall c :: !ImagePlanned(r, Some(places), c)
    requires !SomeCallsCeph(places) && forall j :: SomeCalls(places, j) ==> j == DocsBuild || j == DocsScreenshots
    ensures j in {ProjectNaming, CiContract, SecretScan, DocsBuild, DocsScreenshots, DocsDeploy}
  {}

  /** A documentation change asks for the documentation and what always runs, and nothing else. */
  lemma DocumentationOnly(r: Plan, profile: Profile, paths: set<string>, ref: string, version: bool)
    requires IsPlan(r, profile, Some(paths), ref, version, TouchedBy)
    requires profile == Pr || (profile == Integration && !(ref == "main" && version))
    requires forall p :: p in paths ==> Under(p, "doc/") || p == "README.md"
    ensures r.jobs <= {ProjectNaming, CiContract, SecretScan, DocsBuild, DocsScreenshots, DocsDeploy}
    ensures r.images == {} && !r.full
    ensures paths != {} ==> DocsBuild in r.jobs && DocsScreenshots in r.jobs
  {
    PlanIsCalledFor(r, profile, Some(paths), ref, version);
    forall p | p in paths ensures Documents(PlaceOf(p)) {
      PlaceIsConsistent(p);
      DocumentationRegions(p);
    }
    DocumentationPlaces(paths, PlaceOf);
    DocumentationPlan(r, profile, Places(Some(paths), PlaceOf).value, ref, version);
  }

  lemma FixedDraft(profile: Profile, d: Draft)
    requires !FollowsPaths(profile) && profile != BuildImages
    ensures var e := Paired(Restricted(profile, Overridden(profile, d))); e == Draft(FixedSelection(profile), {}, false)
  {}

  function FixedSelection(profile: Profile): set<Job> {
    match profile
    case BootstrapDemo => {FrontendDemo}
    case Docs => {DocsBuild, DocsScreenshots}
    case Security => {BackendVulnScan, FrontendAudit, FrontendVulnScan, SecretScan, ScanPublishedImages}
    case SecretsHistory => {SecretScan}
    case ResumeRelease => {DocsBuild, DocsScreenshots, DocsDeploy}
    case _ => {}
  }

  /** The plans that do not look at the changed paths. */
  lemma FixedJobs(r: Plan, profile: Profile, paths: Option<set<string>>, ref: string, version: bool)
    requires IsPlan(r, profile, paths, ref, version, TouchedBy) && !FollowsPaths(profile) && profile != BuildImages
    ensures r.jobs == FixedSelection(profile) + if profile == Docs && ref == "main" then {DocsDeploy} else {}
    ensures r.images == {}
  {
    var impact := PlanImpact(r, profile, paths, ref, version, TouchedBy);
    FixedDraft(profile, Drafted(impact, paths.None? || AlwaysFull(profile) || impact.full));
    assert ImageJobs({}) == {};
  }

  lemma ImageBuild(r: Plan, paths: Option<set<string>>, ref: string, version: bool)
    requires IsPlan(r, BuildImages, paths, ref, version, TouchedBy)
    ensures r.jobs == {Build(Backend), Build(Frontend), Build(Scheduler)} && r.images == {Backend, Frontend, Scheduler}
  {}
}
