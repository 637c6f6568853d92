/** The release publication protocol: what `finalize` writes to the registries and to both forges,
    one external write per step, stopped by a refusal or a crash after any step. */
module Release {
  import opened Sequences
  import Text

  datatype Version = Version(major: nat, minor: nat, patch: nat)

  predicate AtMost(a: Version, b: Version) {
    a.major < b.major ||
    (a.major == b.major && (a.minor < b.minor || (a.minor == b.minor && a.patch <= b.patch)))
  }

  predicate SameMinor(a: Version, b: Version) {
    a.major == b.major && a.minor == b.minor
  }

  type Digest = string
  type Commit = string

  /** The versions that a CHANGELOG.md has a section for. The empty set stands for one that `changelog_releases`
      rejects: without any release, with a repeated one or with an empty section. */
  type Changelog = set<Version>

  datatype Component = Backend | Frontend | Scheduler
  datatype Package = BundlePackage | ChartPackage
  datatype Asset = Archive | Checksum

  /** An image tag: an immutable version, or a moving alias. */
  datatype Tag = Stable(version: Version) | Minor(major: nat, minor: nat) | Latest

  /** The retained proof that a finalisation publishes; `bundleAgrees` says that its checksum file names its archive. */
  datatype Proof = Proof(
    version: Version, commit: Commit, backend: Digest, frontend: Digest, scheduler: Digest,
    bundle: Digest, chart: Digest, archive: Digest, checksum: Digest, bundleAgrees: bool,
    githubNotes: string, gitlabNotes: string)
  {
    function Image(c: Component): Digest {
      match c case Backend => backend case Frontend => frontend case Scheduler => scheduler
    }

    function Content(k: Package): Digest {
      match k case BundlePackage => bundle case ChartPackage => chart
    }

    function AssetDigest(a: Asset): Digest {
      match a case Archive => archive case Checksum => checksum
    }

    function MinorTag(): Tag { Minor(version.major, version.minor) }

    function OnGitLab(): GitLabRelease { GitLabRelease(commit, gitlabNotes, BUNDLE_LINKS) }

    /** Both release notes say something and the bundle's two files belong together. */
    predicate Printable() { !Text.IsBlank(githubNotes) && bundleAgrees && !Text.IsBlank(gitlabNotes) }
  }

  datatype GitHubRelease = GitHubRelease(draft: bool, prerelease: bool, body: string, assets: map<Asset, Digest>)

  /** A link of a GitLab release: to an asset of the bundle at its address, or any other. */
  datatype Link = Bundle(asset: Asset) | Extra(name: string, address: string)

  const BUNDLE_LINKS: set<Link> := {Bundle(Archive), Bundle(Checksum)}

  datatype GitLabRelease = GitLabRelease(commit: Commit, description: string, links: set<Link>)

  /** The external stores. `gitlabLatest` is the release GitLab created last; `behind` records which version an alias
      was last promoted for. */
  datatype World = World(
    images: map<(Component, Tag), Digest>,
    packages: map<(Package, Version), Digest>,
    githubTags: map<Version, Commit>,
    githubReleases: map<Version, GitHubRelease>,
    githubLatest: Option<Version>,
    gitlabTags: map<Version, Commit>,
    gitlabReleases: map<Version, GitLabRelease>,
    gitlabLatest: Option<Version>,
    behind: map<(Component, Tag), Version>)

  // ----- what is published -----

  predicate Public(w: World, v: Version) {
    v in w.githubReleases && !w.githubReleases[v].draft && !w.githubReleases[v].prerelease
  }

  /** A version counts as published when both forges show it at one commit. */
  predicate Published(w: World, v: Version) {
    Public(w, v) && v in w.gitlabReleases && v in w.githubTags && w.gitlabReleases[v].commit == w.githubTags[v]
  }

  /** `published_versions` fails on a listed release whose GitHub tag is missing. */
  predicate Listable(w: World) {
    forall v :: v in w.githubReleases && Public(w, v) && v in w.gitlabReleases ==> v in w.githubTags
  }

  predicate IsNewest(w: World, v: Version) {
    forall u :: u in w.githubReleases && Published(w, u) ==> AtMost(u, v)
  }

  predicate IsNewestOfMinor(w: World, v: Version) {
    forall u :: u in w.githubReleases && Published(w, u) && SameMinor(u, v) ==> AtMost(u, v)
  }

  /** `aliases`: the moving tags that version `v` may take over. */
  function Aliases(w: World, p: Proof): set<Tag> {
    (if IsNewestOfMinor(w, p.version) then {p.MinorTag()} else {}) +
    (if IsNewest(w, p.version) then {Latest} else {})
  }

  // ----- the steps of finalize -----

  datatype Step =
    | CheckIndex | Promote(c: Component) | Push(k: Package) | VerifyStable
    | EnsureTag | CreateDraft | Attach(a: Asset) | GoPublic | VerifyPublic
    | PublishGitLab | VerifyForges | ComputeAliases
    | MoveMinor(c: Component) | MoveLatest(c: Component) | MakeLatest | VerifyIndex

  function Program(): seq<Step> {
    [CheckIndex, Promote(Backend), Promote(Frontend), Promote(Scheduler), Push(BundlePackage), Push(ChartPackage),
     VerifyStable, EnsureTag, CreateDraft, Attach(Archive), Attach(Checksum), GoPublic, VerifyPublic,
     PublishGitLab, VerifyForges, ComputeAliases, MoveMinor(Backend), MoveMinor(Frontend), MoveMinor(Scheduler),
     MoveLatest(Backend), MoveLatest(Frontend), MoveLatest(Scheduler), MakeLatest, VerifyIndex]
  }

  /** The phase a step belongs to; the program never goes back to an earlier phase. */
  function Rank(s: Step): nat {
    match s
    case CheckIndex => 0
    case Promote(_) => 1
    case Push(_) => 2
    case VerifyStable => 3
    case EnsureTag => 4
    case CreateDraft => 5
    case Attach(_) => 6
    case GoPublic => 7
    case VerifyPublic => 8
    case PublishGitLab => 9
    case VerifyForges => 10
    case ComputeAliases => 11
    case MoveMinor(_) => 12
    case MoveLatest(_) => 13
    case MakeLatest => 14
    case VerifyIndex => 15
  }

  /** One run of finalize: the world, the alias targets it has computed, and the changelog of its checkout. */
  datatype Session = Session(world: World, targets: set<Tag>, changelog: Changelog)

  datatype Outcome = Done(session: Session) | Refused

  function Put(s: Session, w: World): Outcome {
    Done(s.(world := w))
  }

  function Check(s: Session, ok: bool): Outcome {
    if ok then Done(s) else Refused
  }

  /** `copy_image` to an immutable tag: keep an equal image, refuse a different one. */
  function CopyStable(p: Proof, c: Component, s: Session): Outcome {
    var w := s.world;
    var tag := (c, Stable(p.version));
    if tag in w.images then Check(s, w.images[tag] == p.Image(c))
    else Put(s, w.(images := w.images[tag := p.Image(c)]))
  }

  /** `copy_image` to a moving alias, only when the alias is among the computed targets. */
  function MoveAlias(p: Proof, c: Component, t: Tag, s: Session): Outcome {
    var w := s.world;
    if t !in s.targets then Done(s)
    else Put(s, w.(images := w.images[(c, t) := p.Image(c)], behind := w.behind[(c, t) := p.version]))
  }

  function PushPackage(p: Proof, k: Package, s: Session): Outcome {
    var w := s.world;
    if (k, p.version) in w.packages then Check(s, w.packages[(k, p.version)] == p.Content(k))
    else Put(s, w.(packages := w.packages[(k, p.version) := p.Content(k)]))
  }

  predicate StableComplete(p: Proof, w: World) {
    && (forall c :: (c, Stable(p.version)) in w.images && w.images[(c, Stable(p.version))] == p.Image(c))
    && (forall k :: (k, p.version) in w.packages && w.packages[(k, p.version)] == p.Content(k))
  }

  /** The GitHub release is public at the validated commit with both verified assets. */
  predicate PublicComplete(p: Proof, w: World) {
    var v := p.version;
    && v in w.githubTags && w.githubTags[v] == p.commit
    && Public(w, v) && w.githubReleases[v].body == p.githubNotes
    && (forall a :: a in w.githubReleases[v].assets && w.githubReleases[v].assets[a] == p.AssetDigest(a))
  }

  /** What GitLab's `publish` accepts as this release: its commit, its notes and both bundle links, whatever else is
      linked. */
  predicate Matches(p: Proof, r: GitLabRelease) {
    r.commit == p.commit && r.description == p.gitlabNotes && BUNDLE_LINKS <= r.links
  }

  /** The changelog can be read and every version in it before (or up to) this one is published. */
  predicate IndexComplete(p: Proof, log: Changelog, w: World, includeCurrent: bool) {
    && log != {} && Listable(w)
    && forall v :: v in log && AtMost(v, p.version) && (v != p.version || includeCurrent) ==> Published(w, v)
  }

  function Exec(p: Proof, step: Step, s: Session): (r: Outcome)
    ensures r.Done? ==> r.session.changelog == s.changelog
  {
    var w, v := s.world, p.version;
    match step
    case CheckIndex => Check(s, IndexComplete(p, s.changelog, w, false))
    case Promote(c) => CopyStable(p, c, s)
    case Push(k) => PushPackage(p, k, s)
    case VerifyStable => Check(s, StableComplete(p, w))
    case EnsureTag =>
      if v in w.githubTags then Check(s, w.githubTags[v] == p.commit)
      else Put(s, w.(githubTags := w.githubTags[v := p.commit]))
    case CreateDraft =>
      if Text.IsBlank(p.githubNotes) || !(v in w.githubTags && w.githubTags[v] == p.commit) || !p.bundleAgrees
      then Refused
      else if v in w.githubReleases
      then Check(s, w.githubReleases[v].body == p.githubNotes && !w.githubReleases[v].prerelease)
      else Put(s, w.(githubReleases := w.githubReleases[v := GitHubRelease(true, false, p.githubNotes, map[])]))
    case Attach(a) =>
      if v !in w.githubReleases then Refused
      else
        var r := w.githubReleases[v];
        if a in r.assets then Check(s, r.assets[a] == p.AssetDigest(a))
        else if !r.draft then Refused
        else Put(s, w.(githubReleases := w.githubReleases[v := r.(assets := r.assets[a := p.AssetDigest(a)])]))
    case GoPublic =>
      if v !in w.githubReleases then Refused
      else Put(s, w.(githubReleases := w.githubReleases[v := w.githubReleases[v].(draft := false)]))
    case VerifyPublic => Check(s, PublicComplete(p, w))
    case PublishGitLab =>
      if Text.IsBlank(p.gitlabNotes) || (v in w.gitlabTags && w.gitlabTags[v] != p.commit) then Refused
      else if v in w.gitlabReleases then Check(s, v in w.gitlabTags && Matches(p, w.gitlabReleases[v]))
      else Put(s, w.(gitlabTags := w.gitlabTags[v := p.commit], gitlabLatest := Some(v),
                     gitlabReleases := w.gitlabReleases[v := p.OnGitLab()]))
    case VerifyForges =>
      Check(s, v in w.githubTags && w.githubTags[v] == p.commit && v in w.gitlabTags && w.gitlabTags[v] == p.commit)
    case ComputeAliases =>
      if Listable(w) && Published(w, v) then Done(s.(targets := Aliases(w, p))) else Refused
    case MoveMinor(c) => MoveAlias(p, c, p.MinorTag(), s)
    case MoveLatest(c) => MoveAlias(p, c, Latest, s)
    case MakeLatest =>
      if Latest !in s.targets || (w.githubLatest.Some? && !AtMost(w.githubLatest.value, v)) then Done(s)
      else Put(s, w.(githubLatest := Some(v)))
    case VerifyIndex =>
      Check(s, IndexComplete(p, s.changelog, w, true) &&
               (Latest in s.targets ==> w.githubLatest == Some(v) == w.gitlabLatest))
  }

  // ----- runs, crashes, histories -----

  datatype Run = Run(session: Session, ok: bool)

  /** Run the given steps; a refusal stops the run. */
  function RunFrom(p: Proof, steps: seq<Step>, start: Session): (r: Run)
    ensures r.session.changelog == start.changelog
  {
    if steps == [] then Run(start, true)
    else
      var r := RunFrom(p, Front(steps), start);
      if !r.ok then r
      else
        match Exec(p, Last(steps), r.session)
        case Done(s) => Run(s, true)
        case Refused => Run(r.session, false)
  }

  function RunSteps(p: Proof, log: Changelog, steps: seq<Step>, w: World): Run {
    RunFrom(p, steps, Session(w, {}, log))
  }

  /** A complete finalisation. */
  function Finalize(p: Proof, log: Changelog, w: World): Run {
    RunSteps(p, log, Program(), w)
  }

  /** What `finalize` looks at before its first write: whether the proof still matches its evidence, where both forges
      have `main`, and whether the candidate's bytes are the installed ones. */
  datatype Gates = Gates(proofIsCurrent: bool, gitlabMain: Commit, githubMain: Commit, candidateAgrees: bool)

  /** The checkout that runs `finalize`. It is the one the proof was made from, or a later one that resumes it. */
  datatype Checkout = Checkout(head: Commit, changelog: Changelog)

  /** The gates let the pipeline of this checkout pass: `main` has not moved since. */
  predicate Open(g: Gates, from: Checkout) {
    g.proofIsCurrent && g.gitlabMain == from.head && g.githubMain == from.head && g.candidateAgrees
  }

  /** `finalize` in the pipeline of a checkout; a closed gate refuses and nothing is written. */
  function GatedFinalize(p: Proof, g: Gates, from: Checkout, w: World): Run {
    if Open(g, from) then Finalize(p, from.changelog, w) else Run(Session(w, {}, from.changelog), false)
  }

  /** An attempt that crashed after `n` steps (or ran to its end); behind a closed gate, after none. Attempts on one
      proof may come from different checkouts, each with its own changelog. */
  datatype Attempt = Attempt(proof: Proof, changelog: Changelog, n: nat)

  function Taken(n: nat): seq<Step> {
    if n <= |Program()| then Program()[..n] else Program()
  }

  function After(a: Attempt, w: World): World {
    RunSteps(a.proof, a.changelog, Taken(a.n), w).session.world
  }

  /** The world after a serialised history of attempts, each crashed at any step. */
  function Replay(history: seq<Attempt>, w: World): World {
    if history == [] then w else After(Last(history), Replay(Front(history), w))
  }

  // ----- the order of the program -----

  /** Phases come in order, and a step runs only after every step of the earlier phases. */
  ghost predicate Phased(steps: seq<Step>) {
    && (forall i, j :: 0 <= i < j < |steps| ==> Rank(steps[i]) <= Rank(steps[j]))
    && (forall i :: 0 <= i < |steps| ==> Preceded(steps, i))
  }

  ghost predicate Preceded(steps: seq<Step>, i: nat)
    requires i < |steps|
  {
    forall a: Step :: Rank(a) < Rank(steps[i]) ==> a in steps[..i]
  }

  function Position(a: Step): nat {
    match a
    case CheckIndex => 0
    case Promote(c) => (match c case Backend => 1 case Frontend => 2 case Scheduler => 3)
    case Push(k) => (match k case BundlePackage => 4 case ChartPackage => 5)
    case VerifyStable => 6
    case EnsureTag => 7
    case CreateDraft => 8
    case Attach(x) => (match x case Archive => 9 case Checksum => 10)
    case GoPublic => 11
    case VerifyPublic => 12
    case PublishGitLab => 13
    case VerifyForges => 14
    case ComputeAliases => 15
    case MoveMinor(c) => (match c case Backend => 16 case Frontend => 17 case Scheduler => 18)
    case MoveLatest(c) => (match c case Backend => 19 case Frontend => 20 case Scheduler => 21)
    case MakeLatest => 22
    case VerifyIndex => 23
  }

  lemma PositionInProgram(a: Step)
    ensures Position(a) < |Program()| && Program()[Position(a)] == a
  {}

  lemma PositionAt(i: nat)
    requires i < |Program()|
    ensures Position(Program()[i]) == i
  {}

  lemma PositionFollowsRank(a: Step, b: Step)
    requires Rank(a) < Rank(b)
    ensures Position(a) < Position(b)
  {}

  lemma ProgramIsPhased()
    ensures Phased(Program())
  {
    var s := Program();
    forall i, j | 0 <= i < j < |s| ensures Rank(s[i]) <= Rank(s[j]) {
      PositionAt(i);
      PositionAt(j);
      if Rank(s[j]) < Rank(s[i]) {
        PositionFollowsRank(s[j], s[i]);
      }
    }
    forall i | 0 <= i < |s| ensures Preceded(s, i) {
      PositionAt(i);
      forall a: Step | Rank(a) < Rank(s[i]) ensures a in s[..i] {
        PositionInProgram(a);
        PositionFollowsRank(a, s[i]);
        assert s[..i][Position(a)] == a;
      }
    }
  }

  lemma PhasedPrefix(steps: seq<Step>, n: nat)
    requires Phased(steps) && n <= |steps|
    ensures Phased(steps[..n])
  {
    forall i | 0 <= i < n ensures Preceded(steps[..n], i) {
      assert Preceded(steps, i);
      assert steps[..n][..i] == steps[..i];
    }
  }

  lemma TakenIsPhased(n: nat)
    ensures Phased(Taken(n))
  {
    ProgramIsPhased();
    if n <= |Program()| {
      PhasedPrefix(Program(), n);
    }
  }

  /** What precedes the last step of a phased sequence. */
  lemma PhasedLast(steps: seq<Step>, a: Step)
    requires Phased(steps) && steps != []
    ensures Phased(Front(steps))
    ensures Rank(a) < Rank(Last(steps)) ==> a in Front(steps)
    ensures a in Front(steps) ==> Rank(a) <= Rank(Last(steps))
  {
    PhasedPrefix(steps, |steps| - 1);
    assert Preceded(steps, |steps| - 1);
  }
}
