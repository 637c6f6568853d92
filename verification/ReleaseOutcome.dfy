/** What a finalisation leaves behind, spelled out: every artifact under every name, and the order of versions by the
    numbers themselves. */
module ReleaseOutcome {
  import opened Sequences
  import opened Release
  import opened ReleaseRetry
  import opened ReleaseSafety
  import opened ReleaseResume

  /** Smaller by the first number that differs. */
  predicate Smaller(a: Version, b: Version) {
    || a.major < b.major || (a.major == b.major && a.minor < b.minor)
    || (a.major == b.major && a.minor == b.minor && a.patch < b.patch)
  }

  /** Both forges show the release, at one commit. */
  predicate Shown(w: World, v: Version) {
    && v in w.githubReleases && !w.githubReleases[v].draft && !w.githubReleases[v].prerelease
    && v in w.gitlabReleases && v in w.githubTags && w.gitlabReleases[v].commit == w.githubTags[v]
  }

  lemma OrderIsNumeric(a: Version, b: Version)
    ensures AtMost(a, b) <==> a == b || Smaller(a, b)
    ensures AtMost(a, b) <==> !Smaller(b, a)
  {}

  /** Everything that a completed finalisation guarantees about its own version. */
  lemma FinishedRelease(p: Proof, log: Changelog, w: World)
    requires Finalize(p, log, w).ok
    ensures var w', v := Finalize(p, log, w).session.world, p.version;
            && (Backend, Stable(v)) in w'.images && w'.images[(Backend, Stable(v))] == p.backend
            && (Frontend, Stable(v)) in w'.images && w'.images[(Frontend, Stable(v))] == p.frontend
            && (Scheduler, Stable(v)) in w'.images && w'.images[(Scheduler, Stable(v))] == p.scheduler
            && (BundlePackage, v) in w'.packages && w'.packages[(BundlePackage, v)] == p.bundle
            && (ChartPackage, v) in w'.packages && w'.packages[(ChartPackage, v)] == p.chart
    ensures var w', v := Finalize(p, log, w).session.world, p.version;
            && v in w'.githubTags && w'.githubTags[v] == p.commit && v in w'.gitlabTags && w'.gitlabTags[v] == p.commit
            && v in w'.githubReleases && !w'.githubReleases[v].draft && !w'.githubReleases[v].prerelease
            && w'.githubReleases[v].body == p.githubNotes
            && Archive in w'.githubReleases[v].assets && w'.githubReleases[v].assets[Archive] == p.archive
            && Checksum in w'.githubReleases[v].assets && w'.githubReleases[v].assets[Checksum] == p.checksum
    ensures var w', v := Finalize(p, log, w).session.world, p.version;
            && v in w'.gitlabReleases && w'.gitlabReleases[v].commit == p.commit
            && w'.gitlabReleases[v].description == p.gitlabNotes
            && {Bundle(Archive), Bundle(Checksum)} <= w'.gitlabReleases[v].links
  {
    FinalizeSettles(p, log, w, VerifyStable);
    FinalizeSettles(p, log, w, VerifyPublic);
    FinalizeSettles(p, log, w, PublishGitLab);
    FinalizeSettles(p, log, w, VerifyForges);
    var s := Finalize(p, log, w).session;
    SettledStable(p, s);
    SettledPublic(p, s);
    SettledGitLab(p, s);
  }

  lemma SettledStable(p: Proof, s: Session)
    requires Settled(p, VerifyStable, s)
    ensures StableComplete(p, s.world)
  {}

  lemma SettledPublic(p: Proof, s: Session)
    requires Settled(p, VerifyPublic, s)
    ensures PublicComplete(p, s.world)
  {}

  lemma SettledGitLab(p: Proof, s: Session)
    requires Settled(p, PublishGitLab, s) && Settled(p, VerifyForges, s)
    ensures p.version in s.world.gitlabReleases && Matches(p, s.world.gitlabReleases[p.version])
    ensures p.version in s.world.gitlabTags && s.world.gitlabTags[p.version] == p.commit
  {
    var s' := Exec(p, PublishGitLab, s).session;
    assert p.version in s'.world.gitlabReleases;
  }

  /** The release that every other published version is smaller than, by its numbers, takes `latest` on all components
      and both forges. */
  lemma GreatestTakesLatest(p: Proof, log: Changelog, w: World)
    requires Finalize(p, log, w).ok
    requires forall u :: Shown(Finalize(p, log, w).session.world, u) && u != p.version ==> Smaller(u, p.version)
    ensures var w' := Finalize(p, log, w).session.world;
            && (Backend, Latest) in w'.images && w'.images[(Backend, Latest)] == p.backend
            && (Frontend, Latest) in w'.images && w'.images[(Frontend, Latest)] == p.frontend
            && (Scheduler, Latest) in w'.images && w'.images[(Scheduler, Latest)] == p.scheduler
            && w'.githubLatest == Some(p.version) == w'.gitlabLatest
  {
    var w' := Finalize(p, log, w).session.world;
    forall u | u in w'.githubReleases && Published(w', u) ensures AtMost(u, p.version) {
      assert Shown(w', u);
      OrderIsNumeric(u, p.version);
    }
    GreatestTakesAliases(p, log, w, Backend);
    GreatestTakesAliases(p, log, w, Frontend);
    GreatestTakesAliases(p, log, w, Scheduler);
  }

  /** The release with the greatest patch number among the published ones of its major and minor number takes their
      alias. */
  lemma GreatestPatchTakesMinor(p: Proof, log: Changelog, w: World)
    requires Finalize(p, log, w).ok
    requires var w', v := Finalize(p, log, w).session.world, p.version;
             forall u :: Shown(w', u) && u.major == v.major && u.minor == v.minor ==> u.patch <= v.patch
    ensures var w', t := Finalize(p, log, w).session.world, Minor(p.version.major, p.version.minor);
            && (Backend, t) in w'.images && w'.images[(Backend, t)] == p.backend
            && (Frontend, t) in w'.images && w'.images[(Frontend, t)] == p.frontend
            && (Scheduler, t) in w'.images && w'.images[(Scheduler, t)] == p.scheduler
  {
    var w' := Finalize(p, log, w).session.world;
    forall u | u in w'.githubReleases && Published(w', u) && SameMinor(u, p.version) ensures AtMost(u, p.version) {
      assert Shown(w', u);
    }
    GreatestTakesAliases(p, log, w, Backend);
    GreatestTakesAliases(p, log, w, Frontend);
    GreatestTakesAliases(p, log, w, Scheduler);
  }

  // ----- a smaller version takes nothing -----

  /** A published version stands above this one, and `latest` is not among the targets. */
  ghost predicate Overshadowed(p: Proof, s: Session, u: Version) {
    u != p.version && Shown(s.world, u) && Smaller(p.version, u) && Latest !in s.targets
  }

  ghost predicate SameLatest(w: World, w': World) {
    && (forall c :: (c, Latest) in w.images <==> (c, Latest) in w'.images)
    && (forall c :: (c, Latest) in w.images ==> w'.images[(c, Latest)] == w.images[(c, Latest)])
    && w'.githubLatest == w.githubLatest
  }

  lemma OvershadowedStep(p: Proof, step: Step, s: Session, s': Session, u: Version)
    requires Overshadowed(p, s, u) && Exec(p, step, s) == Done(s')
    ensures Overshadowed(p, s', u) && SameLatest(s.world, s'.world)
  {
    OthersPublished(p, step, s, s', u);
    OrderIsNumeric(u, p.version);
    assert Shown(s.world, u) && Shown(s'.world, u);
    if Rank(step) <= Rank(ComputeAliases) {
      PhaseFrame(p, step, s, s');
      EarlyImages(p, step, s, s');
    }
  }

  lemma EarlyImages(p: Proof, step: Step, s: Session, s': Session)
    requires Exec(p, step, s) == Done(s') && Rank(step) <= Rank(ComputeAliases)
    ensures forall c :: (c, Latest) in s.world.images <==> (c, Latest) in s'.world.images
    ensures forall c :: (c, Latest) in s.world.images ==>
              s'.world.images[(c, Latest)] == s.world.images[(c, Latest)]
  {
    if !step.Promote? {
      RegistryFrame(p, step, s, s');
    }
  }

  lemma {:induction false} OvershadowedRun(p: Proof, log: Changelog, steps: seq<Step>, w: World, u: Version)
    requires Overshadowed(p, Session(w, {}, log), u)
    ensures var s := RunSteps(p, log, steps, w).session; Overshadowed(p, s, u) && SameLatest(w, s.world)
  {
    if steps != [] {
      OvershadowedRun(p, log, Front(steps), w, u);
      var r := RunSteps(p, log, Front(steps), w);
      if r.ok && Exec(p, Last(steps), r.session).Done? {
        OvershadowedStep(p, Last(steps), r.session, Exec(p, Last(steps), r.session).session, u);
      }
    }
  }

  /** While a version with greater numbers is published, no attempt on a smaller one moves `latest` on any component or
      GitHub's pointer, whatever steps it takes, on any stores. */
  lemma SmallerTakesNothing(a: Attempt, w: World, u: Version)
    requires Shown(w, u) && Smaller(a.proof.version, u)
    ensures SameLatest(w, After(a, w))
  {
    OvershadowedRun(a.proof, a.changelog, Taken(a.n), w, u);
  }

  // ----- no alias goes back -----

  /** Over every history from safe stores the numbers of the versions behind the aliases and of GitHub's latest release
      never become smaller. */
  lemma {:induction false} NumbersNeverDecrease(cat: Catalog, history: seq<Attempt>, i: nat, w: World)
    requires Safe(cat, w) && Catalogued(cat, history) && i <= |history|
    ensures var before, after := Replay(history[..i], w), Replay(history, w);
            && (forall key :: key in before.behind ==>
                  key in after.behind && !Smaller(after.behind[key], before.behind[key]))
            && (before.githubLatest.Some? ==>
                  after.githubLatest.Some? && !Smaller(after.githubLatest.value, before.githubLatest.value))
  {
    AliasesNeverRegress(cat, history, i, w);
    var before, after := Replay(history[..i], w), Replay(history, w);
    forall key | key in before.behind
      ensures key in after.behind && !Smaller(after.behind[key], before.behind[key])
    {
      OrderIsNumeric(before.behind[key], after.behind[key]);
    }
    if before.githubLatest.Some? {
      OrderIsNumeric(before.githubLatest.value, after.githubLatest.value);
    }
  }

  // ----- the index -----

  /** Public on GitHub and there on GitLab. */
  predicate ListedTwice(w: World, v: Version) {
    && v in w.githubReleases && !w.githubReleases[v].draft && !w.githubReleases[v].prerelease
    && v in w.gitlabReleases
  }

  /** What the first check of the index accepts: a CHANGELOG with releases, of which all smaller ones are published, and
      no release listed on both forges without its GitHub tag. */
  lemma IndexSpelledOut(p: Proof, log: Changelog, w: World)
    ensures IndexComplete(p, log, w, false) <==>
            && (exists u :: u in log) && (forall u :: u in log && Smaller(u, p.version) ==> Shown(w, u))
            && (forall u :: ListedTwice(w, u) ==> u in w.githubTags)
  {
    forall u ensures AtMost(u, p.version) && u != p.version <==> Smaller(u, p.version) {
      OrderIsNumeric(u, p.version);
    }
    forall u ensures Published(w, u) <==> Shown(w, u) {
    }
  }

  /** A release whose CHANGELOG names a smaller version that is not published is refused before the first write. */
  lemma GapIsRefused(p: Proof, log: Changelog, w: World, u: Version)
    requires u in log && Smaller(u, p.version) && !Shown(w, u)
    ensures Finalize(p, log, w) == Run(Session(w, {}, log), false)
  {
    IndexSpelledOut(p, log, w);
    RefusedAtOnce(p, log, Program(), w);
  }
}
