/** What every history of finalisations keeps, whatever steps they crash after: immutability,
    the order of publication, and aliases that never go back. */
module ReleaseSafety {
  import opened Sequences
  import opened Release
  import opened ReleaseRetry

  /** One proof per version. */
  type Catalog = c: map<Version, Proof> | forall v :: v in c ==> c[v].version == v

  /** The promises about one version. */
  ghost predicate VersionSafe(p: Proof, w: World) {
    var v := p.version;
    // a stable image or package, if present, is the qualified one
    && (forall c :: (c, Stable(v)) in w.images ==> w.images[(c, Stable(v))] == p.Image(c))
    && (forall k :: (k, v) in w.packages ==> w.packages[(k, v)] == p.Content(k))
    // a GitHub tag implies all stable images and packages
    && (v in w.githubTags ==> w.githubTags[v] == p.commit && StableComplete(p, w))
    // a GitHub release has the tag and only verified assets; a public one has both
    && (v in w.githubReleases ==>
          && v in w.githubTags
          && w.githubReleases[v].body == p.githubNotes && !w.githubReleases[v].prerelease
          && (forall a :: a in w.githubReleases[v].assets ==> w.githubReleases[v].assets[a] == p.AssetDigest(a)))
    && (Public(w, v) ==> PublicComplete(p, w))
    // a GitLab release or tag implies the public GitHub release at the same commit
    && (v in w.gitlabReleases ==>
          && Matches(p, w.gitlabReleases[v])
          && v in w.gitlabTags && PublicComplete(p, w))
    && (v in w.gitlabTags ==> w.gitlabTags[v] == p.commit && v in w.gitlabReleases)
  }

  predicate InMinor(t: Tag, v: Version) {
    match t
    case Stable(_) => false
    case Minor(major, minor) => v.major == major && v.minor == minor
    case Latest => true
  }

  /** A moved alias serves a version published on both forges, and its qualified image. */
  ghost predicate AliasSafe(cat: Catalog, w: World, key: (Component, Tag)) {
    key in w.behind ==>
      && InMinor(key.1, w.behind[key]) && Published(w, w.behind[key])
      && (w.behind[key] in cat ==> key in w.images && w.images[key] == cat[w.behind[key]].Image(key.0))
  }

  ghost predicate Safe(cat: Catalog, w: World) {
    && (forall v :: v in cat ==> VersionSafe(cat[v], w))
    && (forall key :: AliasSafe(cat, w, key))
    && (w.githubLatest.Some? ==> Published(w, w.githubLatest.value))
  }

  /** Nothing of version `v` exists in any store. */
  ghost predicate Untouched(v: Version, w: World) {
    && (forall c :: (c, Stable(v)) !in w.images)
    && (forall k :: (k, v) !in w.packages)
    && v !in w.githubTags && v !in w.githubReleases && v !in w.gitlabTags && v !in w.gitlabReleases
  }

  /** A starting point: no catalogued version has any artifact, and the aliases in place serve published versions. */
  ghost predicate Fresh(cat: Catalog, w: World) {
    && (forall v :: v in cat ==> Untouched(v, w))
    && (forall key :: AliasSafe(cat, w, key))
    && (w.githubLatest.Some? ==> Published(w, w.githubLatest.value))
  }

  /** What the earlier steps of the same run have established when `step` is reached. */
  ghost predicate Reached(p: Proof, step: Step, s: Session) {
    && (Rank(step) >= Rank(EnsureTag) ==> StableComplete(p, s.world))
    && (Rank(step) > Rank(EnsureTag) ==> TagAt(p, s.world))
    && (Rank(step) > Rank(CreateDraft) ==> p.version in s.world.githubReleases)
    && (Rank(step) >= Rank(GoPublic) ==> forall a :: a in s.world.githubReleases[p.version].assets)
    && (Rank(step) > Rank(GoPublic) ==> Public(s.world, p.version))
    && (Rank(step) >= Rank(PublishGitLab) ==> PublicComplete(p, s.world))
    && (Rank(step) > Rank(PublishGitLab) ==> p.version in s.world.gitlabReleases)
    && (Rank(step) > Rank(ComputeAliases) ==> s.targets == Aliases(s.world, p) && Published(s.world, p.version))
  }

  ghost predicate SameGitLab(w: World, w': World) {
    w'.gitlabReleases == w.gitlabReleases && w'.gitlabTags == w.gitlabTags && w'.gitlabLatest == w.gitlabLatest
  }

  lemma TagFrame(p: Proof, step: Step, s: Session, s': Session)
    requires Exec(p, step, s) == Done(s')
    ensures Rank(step) != Rank(EnsureTag) ==> s'.world.githubTags == s.world.githubTags
    ensures step != PublishGitLab ==> SameGitLab(s.world, s'.world)
  {}

  lemma PointerFrame(p: Proof, step: Step, s: Session, s': Session)
    requires Exec(p, step, s) == Done(s')
    ensures !(Rank(CreateDraft) <= Rank(step) <= Rank(GoPublic)) ==> s'.world.githubReleases == s.world.githubReleases
    ensures Rank(step) <= Rank(ComputeAliases) ==>
              s'.world.behind == s.world.behind && s'.world.githubLatest == s.world.githubLatest
  {}

  /** Which of the forges' stores each phase may write. */
  lemma ForgeFrame(p: Proof, step: Step, s: Session, s': Session)
    requires Exec(p, step, s) == Done(s')
    ensures Rank(step) != Rank(EnsureTag) ==> s'.world.githubTags == s.world.githubTags
    ensures !(Rank(CreateDraft) <= Rank(step) <= Rank(GoPublic)) ==> s'.world.githubReleases == s.world.githubReleases
    ensures step != PublishGitLab ==> SameGitLab(s.world, s'.world)
    ensures Rank(step) <= Rank(ComputeAliases) ==>
              s'.world.behind == s.world.behind && s'.world.githubLatest == s.world.githubLatest
  {
    TagFrame(p, step, s, s');
    PointerFrame(p, step, s, s');
  }

  /** Which of the registries' stores each phase may write. */
  lemma RegistryFrame(p: Proof, step: Step, s: Session, s': Session)
    requires Exec(p, step, s) == Done(s')
    ensures Rank(step) != Rank(Push(BundlePackage)) ==> s'.world.packages == s.world.packages
    ensures !step.Promote? && Rank(step) <= Rank(ComputeAliases) ==> s'.world.images == s.world.images
    ensures !step.Promote? ==> SameStable(s.world, s'.world)
  {
    if Rank(step) > Rank(ComputeAliases) {
      AliasFrame(p, step, s, s');
    }
  }

  lemma PhaseFrame(p: Proof, step: Step, s: Session, s': Session)
    requires Exec(p, step, s) == Done(s')
    ensures Rank(step) != Rank(Push(BundlePackage)) ==> s'.world.packages == s.world.packages
    ensures Rank(step) != Rank(EnsureTag) ==> s'.world.githubTags == s.world.githubTags
    ensures !(Rank(CreateDraft) <= Rank(step) <= Rank(GoPublic)) ==> s'.world.githubReleases == s.world.githubReleases
    ensures step != PublishGitLab ==> SameGitLab(s.world, s'.world)
    ensures Rank(step) <= Rank(ComputeAliases) ==>
              s'.world.behind == s.world.behind && s'.world.githubLatest == s.world.githubLatest
    ensures !step.Promote? && Rank(step) <= Rank(ComputeAliases) ==> s'.world.images == s.world.images
    ensures forall c: Component, v :: !(step.Promote? && v == p.version) ==>
              ((c, Stable(v)) in s.world.images <==> (c, Stable(v)) in s'.world.images)
    ensures forall c: Component, v :: !(step.Promote? && v == p.version) && (c, Stable(v)) in s.world.images ==>
              s'.world.images[(c, Stable(v))] == s.world.images[(c, Stable(v))]
  {
    ForgeFrame(p, step, s, s');
    RegistryFrame(p, step, s, s');
  }

  lemma OwnVersionKeptRegistry(p: Proof, step: Step, s: Session, s': Session)
    requires VersionSafe(p, s.world) && Reached(p, step, s) && Exec(p, step, s) == Done(s') &&
             Rank(step) <= Rank(EnsureTag)
    ensures VersionSafe(p, s'.world)
  {
    match step
    case CheckIndex => assert s' == s;
    case Promote(c) =>
    case Push(k) =>
    case VerifyStable => assert s' == s;
    case EnsureTag =>
  }

  lemma OwnVersionKeptGitHub(p: Proof, step: Step, s: Session, s': Session)
    requires VersionSafe(p, s.world) && Reached(p, step, s) && Exec(p, step, s) == Done(s')
    requires Rank(EnsureTag) < Rank(step) <= Rank(GoPublic)
    ensures VersionSafe(p, s'.world)
  {
    match step
    case CreateDraft => OwnDraftKept(p, s, s');
    case Attach(a) => OwnAssetKept(p, a, s, s');
    case GoPublic => OwnReleaseKept(p, s, s');
  }

  lemma OwnDraftKept(p: Proof, s: Session, s': Session)
    requires VersionSafe(p, s.world) && Reached(p, CreateDraft, s) && Exec(p, CreateDraft, s) == Done(s')
    ensures VersionSafe(p, s'.world)
  {}

  lemma OwnAssetKept(p: Proof, a: Asset, s: Session, s': Session)
    requires VersionSafe(p, s.world) && Reached(p, Attach(a), s) && Exec(p, Attach(a), s) == Done(s')
    ensures VersionSafe(p, s'.world)
  {}

  lemma OwnReleaseKept(p: Proof, s: Session, s': Session)
    requires VersionSafe(p, s.world) && Reached(p, GoPublic, s) && Exec(p, GoPublic, s) == Done(s')
    ensures VersionSafe(p, s'.world)
  {}

  lemma OwnVersionKeptForges(p: Proof, step: Step, s: Session, s': Session)
    requires VersionSafe(p, s.world) && Reached(p, step, s) && Exec(p, step, s) == Done(s')
    requires Rank(EnsureTag) < Rank(step) <= Rank(ComputeAliases)
    ensures VersionSafe(p, s'.world)
  {
    if Rank(step) <= Rank(GoPublic) {
      OwnVersionKeptGitHub(p, step, s, s');
    } else if step == PublishGitLab {
      OwnVersionKeptGitLab(p, s, s');
    } else {
      assert s'.world == s.world;
    }
  }

  lemma OwnVersionKeptGitLab(p: Proof, s: Session, s': Session)
    requires VersionSafe(p, s.world) && Reached(p, PublishGitLab, s) && Exec(p, PublishGitLab, s) == Done(s')
    ensures VersionSafe(p, s'.world)
  {}

  lemma OwnVersionKept(p: Proof, step: Step, s: Session, s': Session)
    requires VersionSafe(p, s.world) && Reached(p, step, s) && Exec(p, step, s) == Done(s')
    ensures VersionSafe(p, s'.world)
  {
    if Rank(step) <= Rank(EnsureTag) {
      OwnVersionKeptRegistry(p, step, s, s');
    } else if Rank(step) <= Rank(ComputeAliases) {
      OwnVersionKeptForges(p, step, s, s');
    } else {
      PhaseFrame(p, step, s, s');
      VersionSafeDepends(p, s.world, s'.world);
    }
  }

  /** The promises about a version depend on that version's entries only. */
  lemma VersionSafeDepends(q: Proof, w: World, w': World)
    requires VersionSafe(q, w)
    requires forall c: Component :: (c, Stable(q.version)) in w.images <==> (c, Stable(q.version)) in w'.images
    requires forall c: Component :: (c, Stable(q.version)) in w.images ==>
               w'.images[(c, Stable(q.version))] == w.images[(c, Stable(q.version))]
    requires forall k: Package :: (k, q.version) in w.packages <==> (k, q.version) in w'.packages
    requires forall k: Package :: (k, q.version) in w.packages ==>
             w'.packages[(k, q.version)] == w.packages[(k, q.version)]
    requires SameAt(w.githubTags, w'.githubTags, q.version) && SameAt(w.githubReleases, w'.githubReleases, q.version)
    requires SameAt(w.gitlabTags, w'.gitlabTags, q.version) && SameAt(w.gitlabReleases, w'.gitlabReleases, q.version)
    ensures VersionSafe(q, w')
  {}

  ghost predicate SameAt<T>(m: map<Version, T>, m': map<Version, T>, v: Version) {
    (v in m <==> v in m') && (v in m ==> m'[v] == m[v])
  }

  /** A step touches the entries of its own version only. */
  lemma OtherPackages(p: Proof, step: Step, s: Session, s': Session, v: Version)
    requires v != p.version && Exec(p, step, s) == Done(s')
    ensures forall k: Package :: (k, v) in s.world.packages <==> (k, v) in s'.world.packages
    ensures forall k: Package :: (k, v) in s.world.packages ==> s'.world.packages[(k, v)] == s.world.packages[(k, v)]
  {
    if !step.Push? {
      PhaseFrame(p, step, s, s');
    }
  }

  lemma OtherGitHub(p: Proof, step: Step, s: Session, s': Session, v: Version)
    requires v != p.version && Exec(p, step, s) == Done(s')
    ensures SameAt(s.world.githubTags, s'.world.githubTags, v)
    ensures SameAt(s.world.githubReleases, s'.world.githubReleases, v)
  {
    if !(Rank(EnsureTag) <= Rank(step) <= Rank(GoPublic)) {
      PhaseFrame(p, step, s, s');
    }
  }

  lemma OtherGitLab(p: Proof, step: Step, s: Session, s': Session, v: Version)
    requires v != p.version && Exec(p, step, s) == Done(s')
    ensures SameAt(s.world.gitlabTags, s'.world.gitlabTags, v)
    ensures SameAt(s.world.gitlabReleases, s'.world.gitlabReleases, v)
  {
    if step != PublishGitLab {
      PhaseFrame(p, step, s, s');
    }
  }

  lemma OtherVersionKept(p: Proof, q: Proof, step: Step, s: Session, s': Session)
    requires VersionSafe(q, s.world) && q.version != p.version && Exec(p, step, s) == Done(s')
    ensures VersionSafe(q, s'.world)
  {
    PhaseFrame(p, step, s, s');
    OtherPackages(p, step, s, s', q.version);
    OtherGitHub(p, step, s, s', q.version);
    OtherGitLab(p, step, s, s', q.version);
    VersionSafeDepends(q, s.world, s'.world);
  }

  lemma AliasKeptBefore(cat: Catalog, p: Proof, step: Step, s: Session, s': Session, key: (Component, Tag))
    requires AliasSafe(cat, s.world, key) && Exec(p, step, s) == Done(s') && Rank(step) <= Rank(ComputeAliases)
    ensures AliasSafe(cat, s'.world, key)
  {
    PhaseFrame(p, step, s, s');
    if key in s.world.behind {
      PublishedGrows(p, step, s, s', s.world.behind[key]);
      if step.Promote? {
        assert key.1 != Stable(p.version);
      }
    }
  }

  lemma AliasKeptMoving(cat: Catalog, p: Proof, step: Step, s: Session, s': Session, key: (Component, Tag))
    requires p.version in cat && cat[p.version] == p && Rank(step) > Rank(ComputeAliases)
    requires AliasSafe(cat, s.world, key) && Reached(p, step, s) && Exec(p, step, s) == Done(s')
    ensures AliasSafe(cat, s'.world, key)
  {
    PublishedGrows(p, step, s, s', p.version);
    if key in s.world.behind {
      PublishedGrows(p, step, s, s', s.world.behind[key]);
    }
  }

  lemma StepKeepsSafe(cat: Catalog, p: Proof, step: Step, s: Session, s': Session)
    requires p.version in cat && cat[p.version] == p
    requires Safe(cat, s.world) && Reached(p, step, s) && Exec(p, step, s) == Done(s')
    ensures Safe(cat, s'.world)
  {
    forall v | v in cat ensures VersionSafe(cat[v], s'.world) {
      if v == p.version {
        OwnVersionKept(p, step, s, s');
      } else {
        OtherVersionKept(p, cat[v], step, s, s');
      }
    }
    forall key ensures AliasSafe(cat, s'.world, key) {
      if Rank(step) <= Rank(ComputeAliases) {
        AliasKeptBefore(cat, p, step, s, s', key);
      } else {
        AliasKeptMoving(cat, p, step, s, s', key);
      }
    }
    LatestKept(p, step, s, s');
  }

  lemma LatestKept(p: Proof, step: Step, s: Session, s': Session)
    requires s.world.githubLatest.Some? ==> Published(s.world, s.world.githubLatest.value)
    requires Reached(p, step, s) && Exec(p, step, s) == Done(s')
    ensures s'.world.githubLatest.Some? ==> Published(s'.world, s'.world.githubLatest.value)
  {
    if step == MakeLatest {
      PublishedGrows(p, step, s, s', p.version);
    }
    if s.world.githubLatest.Some? {
      PublishedGrows(p, step, s, s', s.world.githubLatest.value);
    }
  }

  // ----- runs and histories -----

  lemma EarlierSettled(p: Proof, log: Changelog, steps: seq<Step>, w: World, next: Step, a: Step)
    requires Phased(steps + [next]) && RunSteps(p, log, steps, w).ok && Rank(a) < Rank(next)
    ensures Settled(p, a, RunSteps(p, log, steps, w).session)
  {
    assert Front(steps + [next]) == steps;
    PhasedLast(steps + [next], a);
    StepsSettled(p, log, steps, w, a);
  }

  lemma ReachedStep(p: Proof, log: Changelog, steps: seq<Step>, w: World, next: Step)
    requires Phased(steps + [next]) && RunSteps(p, log, steps, w).ok
    ensures Reached(p, next, RunSteps(p, log, steps, w).session)
  {
    if Rank(next) > Rank(VerifyStable) { EarlierSettled(p, log, steps, w, next, VerifyStable); }
    if Rank(next) > Rank(EnsureTag) { EarlierSettled(p, log, steps, w, next, EnsureTag); }
    if Rank(next) > Rank(CreateDraft) { EarlierSettled(p, log, steps, w, next, CreateDraft); }
    if Rank(next) > Rank(Attach(Archive)) {
      forall a ensures Settled(p, Attach(a), RunSteps(p, log, steps, w).session) {
        EarlierSettled(p, log, steps, w, next, Attach(a));
      }
    }
    if Rank(next) > Rank(GoPublic) { EarlierSettled(p, log, steps, w, next, GoPublic); }
    if Rank(next) > Rank(VerifyPublic) { EarlierSettled(p, log, steps, w, next, VerifyPublic); }
    if Rank(next) > Rank(PublishGitLab) { EarlierSettled(p, log, steps, w, next, PublishGitLab); }
    if Rank(next) > Rank(ComputeAliases) { EarlierSettled(p, log, steps, w, next, ComputeAliases); }
    SettledGivesReached(p, next, RunSteps(p, log, steps, w).session);
  }

  /** The settled steps of the earlier phases are what a step relies on. */
  lemma SettledGivesReached(p: Proof, next: Step, s: Session)
    requires Rank(next) > Rank(VerifyStable) ==> Settled(p, VerifyStable, s)
    requires Rank(next) > Rank(EnsureTag) ==> Settled(p, EnsureTag, s)
    requires Rank(next) > Rank(CreateDraft) ==> Settled(p, CreateDraft, s)
    requires Rank(next) > Rank(Attach(Archive)) ==> forall a :: Settled(p, Attach(a), s)
    requires Rank(next) > Rank(GoPublic) ==> Settled(p, GoPublic, s)
    requires Rank(next) > Rank(VerifyPublic) ==> Settled(p, VerifyPublic, s)
    requires Rank(next) > Rank(PublishGitLab) ==> Settled(p, PublishGitLab, s)
    requires Rank(next) > Rank(ComputeAliases) ==> Settled(p, ComputeAliases, s)
    ensures Reached(p, next, s)
  {
    if Rank(next) > Rank(Attach(Archive)) {
      forall a ensures a in s.world.githubReleases[p.version].assets {
        assert Settled(p, Attach(a), s);
      }
    }
  }

  lemma {:induction false} RunKeepsSafe(cat: Catalog, p: Proof, log: Changelog, steps: seq<Step>, w: World)
    requires p.version in cat && cat[p.version] == p && Safe(cat, w) && Phased(steps)
    ensures Safe(cat, RunSteps(p, log, steps, w).session.world)
  {
    if steps != [] {
      PhasedLast(steps, CheckIndex);
      FrontLast(steps);
      RunKeepsSafe(cat, p, log, Front(steps), w);
      var r := RunSteps(p, log, Front(steps), w);
      if r.ok && Exec(p, Last(steps), r.session).Done? {
        ReachedStep(p, log, Front(steps), w, Last(steps));
        StepKeepsSafe(cat, p, Last(steps), r.session, Exec(p, Last(steps), r.session).session);
      }
    }
  }

  /** Attempts on catalogued proofs; the changelog of each is that of its own checkout. */
  ghost predicate Catalogued(cat: Catalog, history: seq<Attempt>) {
    forall i :: 0 <= i < |history| ==>
      history[i].proof.version in cat && cat[history[i].proof.version] == history[i].proof
  }

  /** Every history of attempts keeps every promise. */
  lemma {:induction false} ReplayKeepsSafe(cat: Catalog, history: seq<Attempt>, w: World)
    requires Safe(cat, w) && Catalogued(cat, history)
    ensures Safe(cat, Replay(history, w))
  {
    if history != [] {
      ReplayKeepsSafe(cat, Front(history), w);
      var a := Last(history);
      TakenIsPhased(a.n);
      RunKeepsSafe(cat, a.proof, a.changelog, Taken(a.n), Replay(Front(history), w));
    }
  }

  /** Where nothing of a version exists, nothing about it can be wrong. */
  lemma FreshIsSafe(cat: Catalog, w: World)
    requires Fresh(cat, w)
    ensures Safe(cat, w)
  {}

  /** Safety under crashes: whatever attempts ran, from whatever checkouts, and wherever each of them stopped, every
      promise holds. */
  lemma {:induction false} HistoryIsSafe(cat: Catalog, history: seq<Attempt>, w: World)
    requires Fresh(cat, w) && Catalogued(cat, history)
    ensures Safe(cat, Replay(history, w))
  {
    FreshIsSafe(cat, w);
    ReplayKeepsSafe(cat, history, w);
  }

  // ----- aliases never regress -----

  ghost predicate Advances(w: World, w': World) {
    && (forall key :: key in w.behind ==> key in w'.behind && AtMost(w.behind[key], w'.behind[key]))
    && (w.githubLatest.Some? ==> w'.githubLatest.Some? && AtMost(w.githubLatest.value, w'.githubLatest.value))
  }

  lemma AdvancesTransitive(a: World, b: World, c: World)
    requires Advances(a, b) && Advances(b, c)
    ensures Advances(a, c)
  {}

  /** A moving alias is among the targets only of a version at least as new as the one behind it. */
  lemma TargetsAreNewer(cat: Catalog, p: Proof, s: Session, key: (Component, Tag))
    requires AliasSafe(cat, s.world, key) && s.targets == Aliases(s.world, p)
    requires key in s.world.behind && key.1 in s.targets
    ensures AtMost(s.world.behind[key], p.version)
  {}

  lemma MoveAdvances(cat: Catalog, p: Proof, c: Component, t: Tag, s: Session, s': Session, key: (Component, Tag))
    requires AliasSafe(cat, s.world, key) && key in s.world.behind && s.targets == Aliases(s.world, p)
    requires MoveAlias(p, c, t, s) == Done(s')
    ensures key in s'.world.behind && AtMost(s.world.behind[key], s'.world.behind[key])
  {
    if key == (c, t) && t in s.targets {
      TargetsAreNewer(cat, p, s, key);
    }
  }

  lemma MovesAdvance(cat: Catalog, p: Proof, step: Step, s: Session, s': Session, key: (Component, Tag))
    requires AliasSafe(cat, s.world, key) && s.targets == Aliases(s.world, p) && Exec(p, step, s) == Done(s')
    requires key in s.world.behind && Rank(step) > Rank(ComputeAliases)
    ensures key in s'.world.behind && AtMost(s.world.behind[key], s'.world.behind[key])
  {
    match step
    case MoveMinor(c) => MoveAdvances(cat, p, c, p.MinorTag(), s, s', key);
    case MoveLatest(c) => MoveAdvances(cat, p, c, Latest, s, s', key);
    case MakeLatest => assert s'.world.behind == s.world.behind;
    case VerifyIndex => assert s' == s;
  }

  lemma LatestAdvances(p: Proof, step: Step, s: Session, s': Session)
    requires Exec(p, step, s) == Done(s') && s.world.githubLatest.Some?
    ensures s'.world.githubLatest.Some? && AtMost(s.world.githubLatest.value, s'.world.githubLatest.value)
  {}

  lemma StepAdvances(cat: Catalog, p: Proof, step: Step, s: Session, s': Session)
    requires (forall key :: AliasSafe(cat, s.world, key)) && Reached(p, step, s) && Exec(p, step, s) == Done(s')
    ensures Advances(s.world, s'.world)
  {
    if s.world.githubLatest.Some? {
      LatestAdvances(p, step, s, s');
    }
    forall key | key in s.world.behind
      ensures key in s'.world.behind && AtMost(s.world.behind[key], s'.world.behind[key])
    {
      if Rank(step) <= Rank(ComputeAliases) {
        PhaseFrame(p, step, s, s');
      } else {
        assert AliasSafe(cat, s.world, key);
        MovesAdvance(cat, p, step, s, s', key);
      }
    }
  }

  lemma {:induction false} RunAdvances(cat: Catalog, p: Proof, log: Changelog, steps: seq<Step>, w: World)
    requires p.version in cat && cat[p.version] == p && Safe(cat, w) && Phased(steps)
    ensures Advances(w, RunSteps(p, log, steps, w).session.world)
  {
    if steps != [] {
      PhasedLast(steps, CheckIndex);
      FrontLast(steps);
      RunAdvances(cat, p, log, Front(steps), w);
      var r := RunSteps(p, log, Front(steps), w);
      if r.ok && Exec(p, Last(steps), r.session).Done? {
        var s' := Exec(p, Last(steps), r.session).session;
        ReachedStep(p, log, Front(steps), w, Last(steps));
        RunKeepsSafe(cat, p, log, Front(steps), w);
        StepAdvances(cat, p, Last(steps), r.session, s');
        AdvancesTransitive(w, r.session.world, s'.world);
      }
    }
  }

  /** Over every serialised history the versions behind `latest`, behind each `X.Y` alias of each component
      and behind GitHub's latest pointer never decrease. */
  lemma {:induction false} AliasesNeverRegress(cat: Catalog, history: seq<Attempt>, i: nat, w: World)
    requires Safe(cat, w) && Catalogued(cat, history) && i <= |history|
    ensures Advances(Replay(history[..i], w), Replay(history, w))
  {
    if i < |history| {
      var before := Front(history);
      AliasesNeverRegress(cat, before, i, w);
      assert before[..i] == history[..i];
      ReplayKeepsSafe(cat, before, w);
      var a := Last(history);
      TakenIsPhased(a.n);
      RunAdvances(cat, a.proof, a.changelog, Taken(a.n), Replay(before, w));
      AdvancesTransitive(Replay(history[..i], w), Replay(before, w), Replay(history, w));
    } else {
      assert history[..i] == history;
    }
  }

  lemma FinalizeSettles(p: Proof, log: Changelog, w: World, a: Step)
    requires Finalize(p, log, w).ok
    ensures Settled(p, a, Finalize(p, log, w).session)
  {
    PositionInProgram(a);
    ProgramIsPhased();
    StepsSettled(p, log, Program(), w, a);
  }

  /** A completed finalisation of the greatest published version leaves every alias on it. */
  lemma GreatestTakesAliases(p: Proof, log: Changelog, w: World, c: Component)
    requires Finalize(p, log, w).ok
    ensures var w' := Finalize(p, log, w).session.world;
            && Published(w', p.version)
            && (IsNewestOfMinor(w', p.version) ==> ServedBy(p, w', c, p.MinorTag()))
            && (IsNewest(w', p.version) ==>
                  ServedBy(p, w', c, Latest) && w'.githubLatest == Some(p.version) == w'.gitlabLatest)
  {
    var s := Finalize(p, log, w).session;
    FinalizeSettles(p, log, w, ComputeAliases);
    FinalizeSettles(p, log, w, MoveMinor(c));
    FinalizeSettles(p, log, w, MoveLatest(c));
    FinalizeSettles(p, log, w, VerifyIndex);
    SettledTargets(p, s);
    if IsNewestOfMinor(s.world, p.version) {
      MinorTaken(p, s, c);
    }
    if IsNewest(s.world, p.version) {
      LatestTaken(p, s, c);
    }
  }

  lemma SettledTargets(p: Proof, s: Session)
    requires Settled(p, ComputeAliases, s)
    ensures s.targets == Aliases(s.world, p) && Published(s.world, p.version)
  {}

  lemma SettledLatest(p: Proof, s: Session)
    requires Settled(p, VerifyIndex, s) && Latest in s.targets
    ensures s.world.githubLatest == Some(p.version) == s.world.gitlabLatest
  {}

  lemma MinorTaken(p: Proof, s: Session, c: Component)
    requires Settled(p, ComputeAliases, s) && Settled(p, MoveMinor(c), s) && IsNewestOfMinor(s.world, p.version)
    ensures ServedBy(p, s.world, c, p.MinorTag())
  {
    SettledTargets(p, s);
    MovedAlias(p, c, p.MinorTag(), s);
  }

  lemma LatestTaken(p: Proof, s: Session, c: Component)
    requires Settled(p, ComputeAliases, s) && Settled(p, MoveLatest(c), s) && Settled(p, VerifyIndex, s)
    requires IsNewest(s.world, p.version)
    ensures ServedBy(p, s.world, c, Latest) && s.world.githubLatest == Some(p.version) == s.world.gitlabLatest
  {
    SettledTargets(p, s);
    SettledLatest(p, s);
    MovedAlias(p, c, Latest, s);
  }

  /** The alias serves this proof's version and image. */
  ghost predicate ServedBy(p: Proof, w: World, c: Component, t: Tag) {
    && (c, t) in w.behind && w.behind[(c, t)] == p.version
    && (c, t) in w.images && w.images[(c, t)] == p.Image(c)
  }

  lemma MovedAlias(p: Proof, c: Component, t: Tag, s: Session)
    requires MoveAlias(p, c, t, s) == Done(s) && t in s.targets
    ensures ServedBy(p, s.world, c, t)
  {
    var w := s.world;
    assert w == w.(images := w.images[(c, t) := p.Image(c)], behind := w.behind[(c, t) := p.version]);
    assert w.images == w.images[(c, t) := p.Image(c)] && w.behind == w.behind[(c, t) := p.version];
  }

  // ----- immutability -----

  ghost predicate Kept<K, V>(m: map<K, V>, m': map<K, V>) {
    forall k :: k in m ==> k in m' && m'[k] == m[k]
  }

  ghost predicate StableKept(w: World, w': World) {
    forall c: Component, v :: (c, Stable(v)) in w.images ==>
      (c, Stable(v)) in w'.images && w'.images[(c, Stable(v))] == w.images[(c, Stable(v))]
  }

  /** A release only gains assets while it is a draft, and never returns to draft. */
  ghost predicate Extends(r: GitHubRelease, r': GitHubRelease) {
    r'.body == r.body && r'.prerelease == r.prerelease && (!r.draft ==> r' == r) && Kept(r.assets, r'.assets)
  }

  ghost predicate ReleasesKept(w: World, w': World) {
    forall v :: v in w.githubReleases ==> v in w'.githubReleases && Extends(w.githubReleases[v], w'.githubReleases[v])
  }

  /** What exists under an immutable name is never replaced. */
  ghost predicate Immutable(w: World, w': World) {
    && StableKept(w, w') && Kept(w.packages, w'.packages) && Kept(w.githubTags, w'.githubTags)
    && Kept(w.gitlabTags, w'.gitlabTags) && Kept(w.gitlabReleases, w'.gitlabReleases) && ReleasesKept(w, w')
  }

  lemma StepKeepsRegistries(p: Proof, step: Step, s: Session, s': Session)
    requires Exec(p, step, s) == Done(s')
    ensures StableKept(s.world, s'.world) && Kept(s.world.packages, s'.world.packages)
  {
    if !step.Promote? && !step.Push? {
      RegistryFrame(p, step, s, s');
    }
  }

  lemma ReleaseStepKeeps(p: Proof, step: Step, s: Session, s': Session)
    requires Exec(p, step, s) == Done(s') && Rank(CreateDraft) <= Rank(step) <= Rank(GoPublic)
    ensures ReleasesKept(s.world, s'.world)
  {
    forall v | v in s.world.githubReleases
      ensures v in s'.world.githubReleases && Extends(s.world.githubReleases[v], s'.world.githubReleases[v])
    {
      if v != p.version {
        OtherGitHub(p, step, s, s', v);
      }
    }
  }

  lemma StepKeepsGitHub(p: Proof, step: Step, s: Session, s': Session)
    requires Exec(p, step, s) == Done(s')
    ensures Kept(s.world.githubTags, s'.world.githubTags) && ReleasesKept(s.world, s'.world)
  {
    if step != EnsureTag {
      ForgeFrame(p, step, s, s');
    }
    if Rank(CreateDraft) <= Rank(step) <= Rank(GoPublic) {
      ReleaseStepKeeps(p, step, s, s');
    } else {
      ForgeFrame(p, step, s, s');
    }
  }

  lemma StepKeepsGitLab(p: Proof, step: Step, s: Session, s': Session)
    requires Exec(p, step, s) == Done(s')
    ensures Kept(s.world.gitlabTags, s'.world.gitlabTags) && Kept(s.world.gitlabReleases, s'.world.gitlabReleases)
  {
    if step != PublishGitLab {
      PhaseFrame(p, step, s, s');
    }
  }

  lemma ReleasesKeptTransitive(a: World, b: World, c: World)
    requires ReleasesKept(a, b) && ReleasesKept(b, c)
    ensures ReleasesKept(a, c)
  {
    forall v | v in a.githubReleases
      ensures v in c.githubReleases && Extends(a.githubReleases[v], c.githubReleases[v])
    {
      assert v in b.githubReleases && Extends(a.githubReleases[v], b.githubReleases[v]);
      assert Extends(b.githubReleases[v], c.githubReleases[v]);
    }
  }

  lemma ImmutableTransitive(a: World, b: World, c: World)
    requires Immutable(a, b) && Immutable(b, c)
    ensures Immutable(a, c)
  {
    ReleasesKeptTransitive(a, b, c);
  }

  /** On any world and for any steps, safe or not, nothing immutable is replaced. */
  lemma {:induction false} RunIsImmutable(p: Proof, log: Changelog, steps: seq<Step>, w: World)
    ensures Immutable(w, RunSteps(p, log, steps, w).session.world)
  {
    if steps != [] {
      RunIsImmutable(p, log, Front(steps), w);
      var r := RunSteps(p, log, Front(steps), w);
      if r.ok && Exec(p, Last(steps), r.session).Done? {
        var s' := Exec(p, Last(steps), r.session).session;
        StepKeepsRegistries(p, Last(steps), r.session, s');
        StepKeepsGitHub(p, Last(steps), r.session, s');
        StepKeepsGitLab(p, Last(steps), r.session, s');
        ImmutableTransitive(w, r.session.world, s'.world);
      }
    }
  }
}
