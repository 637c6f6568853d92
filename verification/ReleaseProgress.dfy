/** When a finalisation runs to its end: exactly which states of the stores and of the gates let it complete, and
    what becomes of a release that another one overtook on GitLab. */
module ReleaseProgress {
  import opened Sequences
  import Text
  import opened Release
  import opened ReleaseRetry
  import opened ReleaseSafety
  import opened ReleaseResume

  /** GitLab shows the last created release as latest, and nothing moves that pointer back. A version that takes the
      `latest` alias must therefore still have to be created on GitLab, or be the last one created. */
  predicate LatestReady(p: Proof, w: World) {
    IsNewest(w, p.version) ==> p.version !in w.gitlabReleases || w.gitlabLatest == Some(p.version)
  }

  /** What a finalisation needs of the stores before it starts. */
  predicate Completable(p: Proof, log: Changelog, w: World) {
    p.Printable() && IndexComplete(p, log, w, false) && LatestReady(p, w)
  }

  // ----- what the steps keep -----

  lemma AtMostItself(v: Version)
    ensures AtMost(v, v)
  {}

  lemma NewestStays(p: Proof, step: Step, s: Session, s': Session)
    requires Exec(p, step, s) == Done(s')
    ensures IsNewest(s'.world, p.version) <==> IsNewest(s.world, p.version)
  {
    AtMostItself(p.version);
    forall u | u != p.version
      ensures u in s'.world.githubReleases && Published(s'.world, u) <==>
              u in s.world.githubReleases && Published(s.world, u)
    {
      OthersPublished(p, step, s, s', u);
    }
  }

  lemma LatestReadyStays(p: Proof, step: Step, s: Session, s': Session)
    requires Exec(p, step, s) == Done(s')
    ensures LatestReady(p, s'.world) <==> LatestReady(p, s.world)
  {
    NewestStays(p, step, s, s');
    if step != PublishGitLab {
      PhaseFrame(p, step, s, s');
    }
  }

  lemma {:induction false} LatestReadyRuns(p: Proof, log: Changelog, steps: seq<Step>, w: World)
    ensures LatestReady(p, RunSteps(p, log, steps, w).session.world) <==> LatestReady(p, w)
  {
    if steps != [] {
      LatestReadyRuns(p, log, Front(steps), w);
      var r := RunSteps(p, log, Front(steps), w);
      if r.ok && Exec(p, Last(steps), r.session).Done? {
        LatestReadyStays(p, Last(steps), r.session, Exec(p, Last(steps), r.session).session);
      }
    }
  }

  // ----- no step is refused -----

  /** The step is neither the check of the stable artifacts nor the last one. */
  predicate Plain(step: Step) { step != VerifyStable && step != VerifyIndex }

  lemma EarlyAccepted(p: Proof, step: Step, s: Session)
    requires VersionSafe(p, s.world) && IndexComplete(p, s.changelog, s.world, false)
    requires Plain(step) && Rank(step) <= Rank(EnsureTag)
    ensures Exec(p, step, s).Done?
  {}

  lemma ForgesAccepted(p: Proof, step: Step, s: Session)
    requires VersionSafe(p, s.world) && Reached(p, step, s) && p.Printable()
    requires IndexComplete(p, s.changelog, s.world, false)
    requires Rank(EnsureTag) < Rank(step) <= Rank(ComputeAliases)
    ensures Exec(p, step, s).Done?
  {}

  lemma AliasesAccepted(p: Proof, step: Step, s: Session)
    requires Plain(step) && Rank(ComputeAliases) < Rank(step)
    ensures Exec(p, step, s).Done?
  {}

  lemma StableAccepted(p: Proof, s: Session)
    requires VersionSafe(p, s.world)
    requires (forall c :: Settled(p, Promote(c), s)) && forall k :: Settled(p, Push(k), s)
    ensures Exec(p, VerifyStable, s).Done?
  {
    forall c ensures (c, Stable(p.version)) in s.world.images {
      assert Settled(p, Promote(c), s);
    }
    forall k ensures (k, p.version) in s.world.packages {
      assert Settled(p, Push(k), s);
    }
  }

  /** What a run has kept when it reaches its next step. */
  ghost predicate OnCourse(p: Proof, log: Changelog, w: World) {
    && IndexComplete(p, log, w, false) && LatestReady(p, w)
    && (w.githubLatest.Some? ==> Published(w, w.githubLatest.value))
  }

  lemma CurrentIsPublished(p: Proof, log: Changelog, w: World)
    requires IndexComplete(p, log, w, false) && Published(w, p.version)
    ensures IndexComplete(p, log, w, true)
  {}

  /** GitHub's pointer was moved unless a newer version holds it, and none does. */
  lemma GitHubLatestMoved(p: Proof, s: Session)
    requires Settled(p, MakeLatest, s) && Latest in s.targets && IsNewest(s.world, p.version)
    requires s.world.githubLatest.Some? ==> Published(s.world, s.world.githubLatest.value)
    ensures s.world.githubLatest == Some(p.version)
  {
    assert s.world.githubLatest.Some? ==> AtMost(s.world.githubLatest.value, p.version);
  }

  lemma LastAccepted(p: Proof, s: Session)
    requires Published(s.world, p.version) && OnCourse(p, s.changelog, s.world) && Settled(p, MakeLatest, s)
    requires Latest in s.targets ==> IsNewest(s.world, p.version)
    ensures Exec(p, VerifyIndex, s).Done?
  {
    CurrentIsPublished(p, s.changelog, s.world);
    if Latest in s.targets {
      GitHubLatestMoved(p, s);
    }
  }

  lemma StableSettled(p: Proof, log: Changelog, steps: seq<Step>, w: World)
    requires Phased(steps + [VerifyStable]) && RunSteps(p, log, steps, w).ok
    ensures forall c :: Settled(p, Promote(c), RunSteps(p, log, steps, w).session)
    ensures forall k :: Settled(p, Push(k), RunSteps(p, log, steps, w).session)
  {
    forall c ensures Settled(p, Promote(c), RunSteps(p, log, steps, w).session) {
      EarlierSettled(p, log, steps, w, VerifyStable, Promote(c));
    }
    forall k ensures Settled(p, Push(k), RunSteps(p, log, steps, w).session) {
      EarlierSettled(p, log, steps, w, VerifyStable, Push(k));
    }
  }

  lemma PlainAccepted(p: Proof, next: Step, s: Session)
    requires Plain(next) && p.Printable() && VersionSafe(p, s.world) && IndexComplete(p, s.changelog, s.world, false) &&
             Reached(p, next, s)
    ensures Exec(p, next, s).Done?
  {
    if Rank(next) <= Rank(EnsureTag) {
      EarlyAccepted(p, next, s);
    } else if Rank(next) <= Rank(ComputeAliases) {
      ForgesAccepted(p, next, s);
    } else {
      AliasesAccepted(p, next, s);
    }
  }

  lemma StableNext(p: Proof, log: Changelog, steps: seq<Step>, w: World)
    requires Phased(steps + [VerifyStable]) && RunSteps(p, log, steps, w).ok
    requires VersionSafe(p, RunSteps(p, log, steps, w).session.world)
    ensures Exec(p, VerifyStable, RunSteps(p, log, steps, w).session).Done?
  {
    StableSettled(p, log, steps, w);
    StableAccepted(p, RunSteps(p, log, steps, w).session);
  }

  lemma LastNext(p: Proof, log: Changelog, steps: seq<Step>, w: World)
    requires Phased(steps + [VerifyIndex]) && RunSteps(p, log, steps, w).ok
    requires OnCourse(p, log, RunSteps(p, log, steps, w).session.world)
    ensures Exec(p, VerifyIndex, RunSteps(p, log, steps, w).session).Done?
  {
    EarlierSettled(p, log, steps, w, VerifyIndex, ComputeAliases);
    EarlierSettled(p, log, steps, w, VerifyIndex, MakeLatest);
    SettledTargets(p, RunSteps(p, log, steps, w).session);
    LastAccepted(p, RunSteps(p, log, steps, w).session);
  }

  lemma NextAccepted(p: Proof, log: Changelog, steps: seq<Step>, w: World, next: Step)
    requires Phased(steps + [next]) && RunSteps(p, log, steps, w).ok && p.Printable()
    requires VersionSafe(p, RunSteps(p, log, steps, w).session.world)
    requires OnCourse(p, log, RunSteps(p, log, steps, w).session.world)
    ensures Exec(p, next, RunSteps(p, log, steps, w).session).Done?
  {
    if next == VerifyStable {
      StableNext(p, log, steps, w);
    } else if next == VerifyIndex {
      LastNext(p, log, steps, w);
    } else {
      ReachedStep(p, log, steps, w, next);
      PlainAccepted(p, next, RunSteps(p, log, steps, w).session);
    }
  }

  lemma {:induction false} RunAccepted(cat: Catalog, p: Proof, log: Changelog, steps: seq<Step>, w: World)
    requires p.version in cat && cat[p.version] == p && Safe(cat, w) && Completable(p, log, w) && Phased(steps)
    ensures RunSteps(p, log, steps, w).ok && IndexComplete(p, log, RunSteps(p, log, steps, w).session.world, false)
  {
    if steps != [] {
      var before, next := Front(steps), Last(steps);
      PhasedLast(steps, EnsureTag);
      FrontLast(steps);
      RunAccepted(cat, p, log, before, w);
      RunKeepsSafe(cat, p, log, before, w);
      LatestReadyRuns(p, log, before, w);
      NextAccepted(p, log, before, w, next);
      ReachedStep(p, log, before, w, next);
      var s := RunSteps(p, log, before, w).session;
      IndexStays(p, next, s, Exec(p, next, s).session, false);
    }
  }

  // ----- exactly when a finalisation completes -----

  lemma {:induction false} FirstAccepted(p: Proof, log: Changelog, steps: seq<Step>, w: World)
    requires steps != [] && RunSteps(p, log, steps, w).ok
    ensures Exec(p, steps[0], Session(w, {}, log)).Done?
  {
    if |steps| == 1 {
      assert RunSteps(p, log, Front(steps), w) == Run(Session(w, {}, log), true);
    } else {
      FirstAccepted(p, log, Front(steps), w);
    }
  }

  /** A finished run found all it needs, on any stores. */
  lemma FinishedWasCompletable(p: Proof, log: Changelog, w: World)
    requires Finalize(p, log, w).ok
    ensures Completable(p, log, w)
  {
    var s := Finalize(p, log, w).session;
    FirstAccepted(p, log, Program(), w);
    FinalizeSettles(p, log, w, CreateDraft);
    FinalizeSettles(p, log, w, PublishGitLab);
    FinalizeSettles(p, log, w, ComputeAliases);
    FinalizeSettles(p, log, w, VerifyIndex);
    SettledTargets(p, s);
    if Latest in s.targets {
      SettledLatest(p, s);
    }
    LatestReadyRuns(p, log, Program(), w);
  }

  /** On safe stores `finalize` runs to its end exactly when the gates are open and the stores let it complete. */
  lemma FinalizeCompletesIff(cat: Catalog, p: Proof, g: Gates, from: Checkout, w: World)
    requires p.version in cat && cat[p.version] == p && Safe(cat, w)
    ensures GatedFinalize(p, g, from, w).ok <==> Open(g, from) && Completable(p, from.changelog, w)
  {
    if Finalize(p, from.changelog, w).ok {
      FinishedWasCompletable(p, from.changelog, w);
    }
    if Completable(p, from.changelog, w) {
      ProgramIsPhased();
      RunAccepted(cat, p, from.changelog, Program(), w);
    }
  }

  /** The same after any history of attempts, whatever steps they crashed after and whatever checkouts they ran from. */
  lemma {:induction false} FinalizeCompletes(
    cat: Catalog, p: Proof, g: Gates, from: Checkout, history: seq<Attempt>, w: World)
    requires p.version in cat && cat[p.version] == p && Safe(cat, w) && Catalogued(cat, history)
    ensures var w' := Replay(history, w);
            GatedFinalize(p, g, from, w').ok <==> Open(g, from) && Completable(p, from.changelog, w')
  {
    ReplayKeepsSafe(cat, history, w);
    FinalizeCompletesIff(cat, p, g, from, Replay(history, w));
  }

  // ----- a release that was overtaken on GitLab -----

  /** The version has its GitLab release, and GitLab's pointer is on another one. */
  predicate Overtaken(v: Version, w: World) { v in w.gitlabReleases && w.gitlabLatest != Some(v) }

  lemma OvertakenStaysStep(p: Proof, step: Step, s: Session, s': Session, v: Version)
    requires Exec(p, step, s) == Done(s') && Overtaken(v, s.world)
    ensures Overtaken(v, s'.world)
  {
    if step != PublishGitLab {
      ForgeFrame(p, step, s, s');
    }
  }

  lemma {:induction false} OvertakenStaysRun(p: Proof, log: Changelog, steps: seq<Step>, w: World, v: Version)
    requires Overtaken(v, w)
    ensures Overtaken(v, RunSteps(p, log, steps, w).session.world)
  {
    if steps != [] {
      OvertakenStaysRun(p, log, Front(steps), w, v);
      var r := RunSteps(p, log, Front(steps), w);
      if r.ok && Exec(p, Last(steps), r.session).Done? {
        OvertakenStaysStep(p, Last(steps), r.session, Exec(p, Last(steps), r.session).session, v);
      }
    }
  }

  /** No run of any version brings the pointer back, on any stores. */
  lemma {:induction false} OvertakenStays(history: seq<Attempt>, w: World, v: Version)
    requires Overtaken(v, w)
    ensures Overtaken(v, Replay(history, w))
  {
    if history != [] {
      OvertakenStays(Front(history), w, v);
      var a := Last(history);
      OvertakenStaysRun(a.proof, a.changelog, Taken(a.n), Replay(Front(history), w), v);
    }
  }

  /** GitLab's pointer names the version that a run created last. */
  lemma {:induction false} CreatedIsLatest(p: Proof, log: Changelog, steps: seq<Step>, w: World)
    requires p.version !in w.gitlabReleases
    ensures var w' := RunSteps(p, log, steps, w).session.world;
            p.version in w'.gitlabReleases ==> w'.gitlabLatest == Some(p.version)
  {
    if steps != [] {
      CreatedIsLatest(p, log, Front(steps), w);
      var r := RunSteps(p, log, Front(steps), w);
      if r.ok && Exec(p, Last(steps), r.session).Done? && Last(steps) != PublishGitLab {
        ForgeFrame(p, Last(steps), r.session, Exec(p, Last(steps), r.session).session);
      }
    }
  }

  /** A run that creates a GitLab release overtakes every other version that has one. */
  lemma CreationOvertakes(q: Proof, log: Changelog, steps: seq<Step>, w: World, v: Version)
    requires v != q.version && v in w.gitlabReleases && q.version !in w.gitlabReleases
    requires q.version in RunSteps(q, log, steps, w).session.world.gitlabReleases
    ensures Overtaken(v, RunSteps(q, log, steps, w).session.world)
  {
    CreatedIsLatest(q, log, steps, w);
    RunIsImmutable(q, log, steps, w);
  }

  /** While it is the newest published version, an overtaken one is refused: after any history of any versions, from any
      checkout, on any stores. */
  lemma {:induction false} OvertakenIsRefused(p: Proof, log: Changelog, history: seq<Attempt>, w: World)
    requires Overtaken(p.version, w) && IsNewest(Replay(history, w), p.version)
    ensures !Finalize(p, log, Replay(history, w)).ok
  {
    OvertakenStays(history, w, p.version);
    if Finalize(p, log, Replay(history, w)).ok {
      FinishedWasCompletable(p, log, Replay(history, w));
    }
  }

  /** An overtaken version completes after a history exactly when, besides the gates, its notes and its index, a newer
      version has been published meanwhile. */
  lemma {:induction false} OvertakenCompletesIff(
    cat: Catalog, p: Proof, g: Gates, from: Checkout, history: seq<Attempt>, w: World)
    requires p.version in cat && cat[p.version] == p && Safe(cat, w) && Catalogued(cat, history)
    requires Overtaken(p.version, w)
    ensures var w' := Replay(history, w);
            GatedFinalize(p, g, from, w').ok <==>
              Open(g, from) && p.Printable() && IndexComplete(p, from.changelog, w', false) && !IsNewest(w', p.version)
  {
    OvertakenStays(history, w, p.version);
    ReplayKeepsSafe(cat, history, w);
    FinalizeCompletesIff(cat, p, g, from, Replay(history, w));
  }

  /** Completing a newer release is what ends the refusal. */
  lemma {:induction false} NewerReleaseFrees(
    cat: Catalog, p: Proof, g: Gates, from: Checkout, r: Proof, log: Changelog, history: seq<Attempt>, w: World)
    requires p.version in cat && cat[p.version] == p && r.version in cat && cat[r.version] == r
    requires Safe(cat, w) && Catalogued(cat, history) && Overtaken(p.version, w)
    requires !AtMost(r.version, p.version) && Finalize(r, log, Replay(history, w)).ok
    ensures var w' := Finalize(r, log, Replay(history, w)).session.world;
            GatedFinalize(p, g, from, w').ok <==>
              Open(g, from) && p.Printable() && IndexComplete(p, from.changelog, w', false)
  {
    var longer := history + [Attempt(r, log, |Program()|)];
    assert Front(longer) == history && Taken(|Program()|) == Program();
    OvertakenCompletesIff(cat, p, g, from, longer, w);
    GreatestTakesAliases(r, log, Replay(history, w), Backend);
    var w' := Replay(longer, w);
    assert r.version in w'.githubReleases && Published(w', r.version);
  }

  // ----- a history that overtakes -----

  function EmptyWorld(): World { World(map[], map[], map[], map[], None, map[], map[], None, map[]) }

  /** A run touches one version only. */
  lemma {:induction false} RunLeavesOthers(p: Proof, log: Changelog, steps: seq<Step>, w: World, v: Version)
    requires v != p.version
    ensures SameAt(w.githubReleases, RunSteps(p, log, steps, w).session.world.githubReleases, v)
    ensures SameAt(w.gitlabReleases, RunSteps(p, log, steps, w).session.world.gitlabReleases, v)
  {
    if steps != [] {
      RunLeavesOthers(p, log, Front(steps), w, v);
      var r := RunSteps(p, log, Front(steps), w);
      if r.ok && Exec(p, Last(steps), r.session).Done? {
        OtherGitHub(p, Last(steps), r.session, Exec(p, Last(steps), r.session).session, v);
        OtherGitLab(p, Last(steps), r.session, Exec(p, Last(steps), r.session).session, v);
      }
    }
  }

  /** The steps up to and including the GitLab release. */
  function ThroughGitLab(): nat { Position(PublishGitLab) + 1 }

  lemma GitLabIsTaken()
    ensures PublishGitLab in Taken(ThroughGitLab())
  {
    PositionInProgram(PublishGitLab);
    assert Taken(ThroughGitLab())[Position(PublishGitLab)] == PublishGitLab;
  }

  lemma EmptyIsFresh(cat: Catalog)
    ensures Fresh(cat, EmptyWorld()) && Safe(cat, EmptyWorld())
  {}

  /** The changelog has this version and nothing before it. */
  predicate First(v: Version, log: Changelog) { v in log && forall u :: u in log && AtMost(u, v) ==> u == v }

  /** Two printable releases, the first one newer. */
  ghost predicate Backport(cat: Catalog, p: Proof, q: Proof) {
    && p.version in cat && cat[p.version] == p && q.version in cat && cat[q.version] == q
    && p.version != q.version && AtMost(q.version, p.version) && p.Printable() && q.Printable()
  }

  /** A newer and an older version, each the first one in the changelog of its checkout; the later checkout may have
      both. */
  ghost predicate Pair(cat: Catalog, p: Proof, plog: Changelog, q: Proof, qlog: Changelog) {
    Backport(cat, p, q) && First(p.version, plog) && First(q.version, qlog)
  }

  /** The stores after the newer version crashed right behind its GitLab release. */
  function Crashed(p: Proof, log: Changelog): World { After(Attempt(p, log, ThroughGitLab()), EmptyWorld()) }

  lemma CrashedAfterGitLab(cat: Catalog, p: Proof, plog: Changelog, q: Proof, qlog: Changelog)
    requires Pair(cat, p, plog, q, qlog)
    ensures p.version in Crashed(p, plog).gitlabReleases && q.version !in Crashed(p, plog).gitlabReleases
    ensures Safe(cat, Crashed(p, plog)) && Completable(q, qlog, Crashed(p, plog))
  {
    var steps := Taken(ThroughGitLab());
    EmptyIsFresh(cat);
    TakenIsPhased(ThroughGitLab());
    RunAccepted(cat, p, plog, steps, EmptyWorld());
    RunKeepsSafe(cat, p, plog, steps, EmptyWorld());
    GitLabIsTaken();
    StepsSettled(p, plog, steps, EmptyWorld(), PublishGitLab);
    SettledOnGitLab(p, RunSteps(p, plog, steps, EmptyWorld()).session);
    RunLeavesOthers(p, plog, steps, EmptyWorld(), q.version);
  }

  lemma SettledOnGitLab(p: Proof, s: Session)
    requires Settled(p, PublishGitLab, s)
    ensures p.version in s.world.gitlabReleases
  {
    var s' := Exec(p, PublishGitLab, s).session;
    assert p.version in s'.world.gitlabReleases;
  }

  /** The stores after the older version was finalised on top of that. */
  function Overtaking(p: Proof, plog: Changelog, q: Proof, qlog: Changelog): Run {
    Finalize(q, qlog, Crashed(p, plog))
  }

  /** Only the two versions are on GitHub, so the newer one is the newest. */
  lemma NewerIsNewest(cat: Catalog, p: Proof, plog: Changelog, q: Proof, qlog: Changelog)
    requires Pair(cat, p, plog, q, qlog)
    ensures IsNewest(Overtaking(p, plog, q, qlog).session.world, p.version)
  {
    var w := Overtaking(p, plog, q, qlog).session.world;
    AtMostItself(p.version);
    forall u | u in w.githubReleases ensures AtMost(u, p.version) {
      if u != p.version && u != q.version {
        RunLeavesOthers(q, qlog, Program(), Crashed(p, plog), u);
        RunLeavesOthers(p, plog, Taken(ThroughGitLab()), EmptyWorld(), u);
      }
    }
  }

  /** The older version is finalised to the end, and GitLab's pointer is then on it. */
  lemma OlderOvertakes(cat: Catalog, p: Proof, plog: Changelog, q: Proof, qlog: Changelog)
    requires Pair(cat, p, plog, q, qlog)
    ensures Overtaking(p, plog, q, qlog).ok && Safe(cat, Overtaking(p, plog, q, qlog).session.world)
    ensures Overtaken(p.version, Overtaking(p, plog, q, qlog).session.world)
  {
    CrashedAfterGitLab(cat, p, plog, q, qlog);
    ProgramIsPhased();
    RunAccepted(cat, q, qlog, Program(), Crashed(p, plog));
    RunKeepsSafe(cat, q, qlog, Program(), Crashed(p, plog));
    FinalizeSettles(q, qlog, Crashed(p, plog), PublishGitLab);
    SettledOnGitLab(q, Overtaking(p, plog, q, qlog).session);
    CreationOvertakes(q, qlog, Program(), Crashed(p, plog), p.version);
  }

  /** From empty stores: the newer version crashes behind its GitLab release and the older one is then finalised without
      an interruption. Retries of the newer version alone never complete, from whatever checkouts; after any later
      history it completes exactly when a newer version still has been published (and its index is complete). */
  lemma {:induction false} NewerIsStuck(
    cat: Catalog, p: Proof, plog: Changelog, q: Proof, qlog: Changelog, log: Changelog, history: seq<Attempt>)
    requires Pair(cat, p, plog, q, qlog) && Catalogued(cat, history)
    ensures Overtaking(p, plog, q, qlog).ok
    ensures var w := Replay(history, Overtaking(p, plog, q, qlog).session.world);
            && (Finalize(p, log, w).ok <==> IndexComplete(p, log, w, false) && !IsNewest(w, p.version))
            && ((forall i :: 0 <= i < |history| ==> history[i].proof == p) ==> !Finalize(p, log, w).ok)
  {
    OlderOvertakes(cat, p, plog, q, qlog);
    var w := Overtaking(p, plog, q, qlog).session.world;
    var g, from := Gates(true, "", "", true), Checkout("", log);
    OvertakenCompletesIff(cat, p, g, from, history, w);
    if forall i :: 0 <= i < |history| ==> history[i].proof == p {
      NewerIsNewest(cat, p, plog, q, qlog);
      OvertakenIsRefused(p, log, [], w);
      RetriesConverge(p, log, history, w);
    }
  }

  /** For example a backport: the newer version is alone in the changelog of its checkout, the older one is added to the
      changelog of a later checkout. A retry of the newer one from there finds its index complete and is refused by the
      last check. */
  lemma BackportOvertakes(cat: Catalog, p: Proof, q: Proof)
    requires Backport(cat, p, q)
    ensures var both := {p.version, q.version};
            var r := Overtaking(p, {p.version}, q, both);
            r.ok && IndexComplete(p, both, r.session.world, false) && !Finalize(p, both, r.session.world).ok
  {
    var both := {p.version, q.version};
    NewerIsStuck(cat, p, {p.version}, q, both, both, []);
    FinalizeSettles(q, both, Crashed(p, {p.version}), VerifyIndex);
    SettledIndex(q, Overtaking(p, {p.version}, q, both).session);
  }

  lemma SettledIndex(p: Proof, s: Session)
    requires Settled(p, VerifyIndex, s)
    ensures IndexComplete(p, s.changelog, s.world, true)
  {}

  /** 1.1.0 and 1.0.1. */
  lemma BackportExists() returns (cat: Catalog, p: Proof, q: Proof)
    ensures Backport(cat, p, q) && p.version == Version(1, 1, 0) && q.version == Version(1, 0, 1)
  {
    assert !Text.IsBlank("notes") by {
      assert "notes"[0] == 'n';
    }
    p := Proof(Version(1, 1, 0), "c", "b", "f", "s", "bundle", "chart", "archive", "checksum", true, "notes", "notes");
    q := p.(version := Version(1, 0, 1));
    cat := map[p.version := p, q.version := q];
  }
}
