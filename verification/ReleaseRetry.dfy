/** Interrupted finalisations: every step is idempotent and survives the later ones, so a retry
    replays what was done and continues where the crash happened. */
module ReleaseRetry {
  import opened Sequences
  import opened Release

  /** The step has taken effect: running it again changes nothing. */
  ghost predicate Settled(p: Proof, step: Step, s: Session) {
    Exec(p, step, s) == Done(s)
  }

  ghost predicate TagAt(p: Proof, w: World) {
    p.version in w.githubTags && w.githubTags[p.version] == p.commit
  }

  lemma StepSettles(p: Proof, step: Step, s: Session, s': Session)
    requires Exec(p, step, s) == Done(s')
    ensures Settled(p, step, s')
  {}

  lemma PublishedGrows(p: Proof, step: Step, s: Session, s': Session, v: Version)
    requires Exec(p, step, s) == Done(s') && Published(s.world, v)
    ensures Published(s'.world, v)
  {}

  lemma ListableStays(p: Proof, step: Step, s: Session, s': Session)
    requires Exec(p, step, s) == Done(s') && Listable(s.world)
    requires Rank(step) > Rank(EnsureTag) ==> TagAt(p, s.world)
    ensures Listable(s'.world)
  {}

  lemma IndexStays(p: Proof, step: Step, s: Session, s': Session, b: bool)
    requires Exec(p, step, s) == Done(s') && IndexComplete(p, s.changelog, s.world, b)
    requires Rank(step) > Rank(EnsureTag) ==> TagAt(p, s.world)
    ensures IndexComplete(p, s'.changelog, s'.world, b)
  {
    ListableStays(p, step, s, s');
    forall v | Published(s.world, v) ensures Published(s'.world, v) {
      PublishedGrows(p, step, s, s', v);
    }
  }

  lemma SettledStaysEarly(p: Proof, a: Step, b: Step, s: Session, s': Session)
    requires Settled(p, a, s) && Exec(p, b, s) == Done(s') && 0 < Rank(a) <= Rank(b) <= Rank(EnsureTag)
    ensures Settled(p, a, s')
  {
    match b
    case Promote(c) => assert a.Promote?;
    case Push(k) => assert s' == s.(world := s.world.(packages := s'.world.packages));
    case VerifyStable => assert s' == s;
    case EnsureTag => assert s' == s.(world := s.world.(githubTags := s'.world.githubTags));
  }

  lemma SettledStaysGitHub(p: Proof, a: Step, b: Step, s: Session, s': Session)
    requires Settled(p, a, s) && Exec(p, b, s) == Done(s') && 0 < Rank(a) <= Rank(b)
    requires Rank(CreateDraft) <= Rank(b) <= Rank(VerifyPublic)
    ensures Settled(p, a, s')
  {
    if Rank(a) <= Rank(EnsureTag) {
      ReleaseWrites(p, b, s, s');
      SettledBesideRelease(p, a, s, s');
    } else {
      SettledStaysDraft(p, a, b, s, s');
    }
  }

  lemma ReleaseWrites(p: Proof, b: Step, s: Session, s': Session)
    requires Exec(p, b, s) == Done(s') && Rank(CreateDraft) <= Rank(b) <= Rank(VerifyPublic)
    ensures s' == s.(world := s.world.(githubReleases := s'.world.githubReleases))
  {}

  lemma SettledBesideRelease(p: Proof, a: Step, s: Session, s': Session)
    requires Settled(p, a, s) && 0 < Rank(a) <= Rank(EnsureTag)
    requires s' == s.(world := s.world.(githubReleases := s'.world.githubReleases))
    ensures Settled(p, a, s')
  {}

  lemma SettledStaysDraft(p: Proof, a: Step, b: Step, s: Session, s': Session)
    requires Settled(p, a, s) && Exec(p, b, s) == Done(s')
    requires Rank(CreateDraft) <= Rank(a) <= Rank(b) <= Rank(VerifyPublic)
    ensures Settled(p, a, s')
  {
    match b
    case CreateDraft => assert a == CreateDraft;
    case Attach(x) => DraftSurvivesAttach(p, a, x, s, s');
    case GoPublic => DraftSurvivesPublication(p, a, s, s');
    case VerifyPublic => assert s' == s;
  }

  lemma DraftSurvivesAttach(p: Proof, a: Step, x: Asset, s: Session, s': Session)
    requires Settled(p, a, s) && Exec(p, Attach(x), s) == Done(s') && Rank(CreateDraft) <= Rank(a) <= Rank(Attach(x))
    ensures Settled(p, a, s')
  {}

  lemma DraftSurvivesPublication(p: Proof, a: Step, s: Session, s': Session)
    requires Settled(p, a, s) && Exec(p, GoPublic, s) == Done(s') && Rank(CreateDraft) <= Rank(a) <= Rank(GoPublic)
    ensures Settled(p, a, s')
  {}

  lemma SettledStaysGitLab(p: Proof, a: Step, b: Step, s: Session, s': Session)
    requires Settled(p, a, s) && Exec(p, b, s) == Done(s') && 0 < Rank(a) <= Rank(b)
    requires Rank(VerifyPublic) < Rank(b) <= Rank(ComputeAliases)
    ensures Settled(p, a, s')
  {
    match b
    case PublishGitLab => SettledSurvivesGitLab(p, a, s, s');
    case VerifyForges => assert s' == s;
    case ComputeAliases =>
      assert s' == s.(targets := s'.targets);
      if Rank(a) < Rank(ComputeAliases) {
        TargetsIrrelevant(p, a, s, s'.targets);
      } else {
        OnlyComputeAliases(a);
      }
  }

  lemma SettledSurvivesGitLab(p: Proof, a: Step, s: Session, s': Session)
    requires Settled(p, a, s) && Exec(p, PublishGitLab, s) == Done(s') && 0 < Rank(a) <= Rank(PublishGitLab)
    ensures Settled(p, a, s')
  {
    var w' := s'.world;
    var w := s.world.(gitlabTags := w'.gitlabTags, gitlabReleases := w'.gitlabReleases,
      gitlabLatest := w'.gitlabLatest);
    assert s' == Session(w, s'.targets, s'.changelog);
  }

  /** What the alias phase may write. */
  ghost predicate AliasWrites(s: Session, s': Session) {
    && s' == s.(world := s.world.(
                  images := s'.world.images, behind := s'.world.behind, githubLatest := s'.world.githubLatest))
    && SameStable(s.world, s'.world)
  }

  ghost predicate SameStable(w: World, w': World) {
    && (forall c: Component, v :: (c, Stable(v)) in w.images <==> (c, Stable(v)) in w'.images)
    && (forall c: Component, v :: (c, Stable(v)) in w.images ==> w'.images[(c, Stable(v))] == w.images[(c, Stable(v))])
  }

  lemma MoveFrame(p: Proof, c: Component, t: Tag, s: Session, s': Session)
    requires MoveAlias(p, c, t, s) == Done(s') && !t.Stable?
    ensures AliasWrites(s, s')
  {}

  /** The alias phase leaves the forges and the immutable tags alone. */
  lemma AliasFrame(p: Proof, b: Step, s: Session, s': Session)
    requires Exec(p, b, s) == Done(s') && Rank(ComputeAliases) < Rank(b)
    ensures AliasWrites(s, s')
  {
    match b
    case MoveMinor(c) => MoveFrame(p, c, p.MinorTag(), s, s');
    case MoveLatest(c) => MoveFrame(p, c, Latest, s, s');
    case MakeLatest => assert s' == s.(world := s.world.(githubLatest := s'.world.githubLatest));
    case VerifyIndex => assert s' == s;
  }

  /** A step before the alias phase reads nothing that the alias phase writes. */
  lemma SettledDepends(p: Proof, a: Step, s: Session, s': Session)
    requires Settled(p, a, s) && 0 < Rank(a) <= Rank(ComputeAliases)
    requires AliasWrites(s, s')
    ensures Settled(p, a, s')
  {
    if a == ComputeAliases {
      assert Aliases(s'.world, p) == Aliases(s.world, p);
    }
  }

  lemma SettledStaysLast(p: Proof, a: Step, b: Step, s: Session, s': Session)
    requires Settled(p, a, s) && Exec(p, b, s) == Done(s') && Rank(ComputeAliases) < Rank(a) <= Rank(b)
    ensures Settled(p, a, s')
  {
    match b
    case VerifyIndex => assert s' == s;
    case MakeLatest => assert s' == s.(world := s.world.(githubLatest := s'.world.githubLatest));
    case MoveLatest(c) => AliasMoveSettles(p, a, c, Latest, s, s');
    case MoveMinor(c) => AliasMoveSettles(p, a, c, p.MinorTag(), s, s');
  }

  /** Moving one alias does not undo another move of the same run. */
  lemma AliasMoveSettles(p: Proof, a: Step, c: Component, t: Tag, s: Session, s': Session)
    requires Settled(p, a, s) && MoveAlias(p, c, t, s) == Done(s') && (a.MoveMinor? || a.MoveLatest?)
    ensures Settled(p, a, s')
  {
    var key := if a.MoveMinor? then (a.c, p.MinorTag()) else (a.c, Latest);
    if key.1 in s.targets {
      assert s.world.images[key] == p.Image(key.0) && s.world.behind[key] == p.version;
    }
  }

  /** A settled step stays settled when a step of the same or a later phase runs. */
  lemma SettledStays(p: Proof, a: Step, b: Step, s: Session, s': Session)
    requires Settled(p, a, s) && Exec(p, b, s) == Done(s') && Rank(a) <= Rank(b)
    requires Rank(b) > Rank(EnsureTag) ==> TagAt(p, s.world)
    ensures Settled(p, a, s')
  {
    if a == CheckIndex {
      IndexStays(p, b, s, s', false);
    } else if Rank(b) <= Rank(EnsureTag) {
      SettledStaysEarly(p, a, b, s, s');
    } else if Rank(b) <= Rank(VerifyPublic) {
      SettledStaysGitHub(p, a, b, s, s');
    } else if Rank(b) <= Rank(ComputeAliases) {
      SettledStaysGitLab(p, a, b, s, s');
    } else if Rank(a) <= Rank(ComputeAliases) {
      AliasFrame(p, b, s, s');
      SettledDepends(p, a, s, s');
    } else {
      SettledStaysLast(p, a, b, s, s');
    }
  }

  // ----- runs -----

  /** After an accepted run all of its steps are settled. */
  lemma {:induction false} StepsSettled(p: Proof, log: Changelog, steps: seq<Step>, w: World, a: Step)
    requires Phased(steps) && RunSteps(p, log, steps, w).ok && a in steps
    ensures Settled(p, a, RunSteps(p, log, steps, w).session)
    decreases |steps|, Rank(a)
  {
    var b := Last(steps);
    var s, s' := RunSteps(p, log, Front(steps), w).session, RunSteps(p, log, steps, w).session;
    PhasedLast(steps, a);
    if a == b {
      StepSettles(p, b, s, s');
    } else {
      assert a in Front(steps);
      StepsSettled(p, log, Front(steps), w, a);
      if Rank(b) > Rank(EnsureTag) {
        PhasedLast(steps, EnsureTag);
        StepsSettled(p, log, Front(steps), w, EnsureTag);
      }
      SettledStays(p, a, b, s, s');
    }
  }

  /** Before the aliases are computed a step neither reads nor writes the targets. */
  lemma TargetsIrrelevant(p: Proof, step: Step, s: Session, t: set<Tag>)
    requires Rank(step) < Rank(ComputeAliases)
    ensures Settled(p, step, s) ==> Settled(p, step, s.(targets := t))
    ensures Exec(p, step, s).Done? ==> Exec(p, step, s).session.targets == s.targets
  {}

  lemma OnlyComputeAliases(step: Step)
    requires Rank(step) == Rank(ComputeAliases)
    ensures step == ComputeAliases
  {}

  lemma {:induction false} TargetsEmptyBefore(p: Proof, log: Changelog, steps: seq<Step>, w: World)
    requires Phased(steps) && ComputeAliases !in steps
    ensures RunSteps(p, log, steps, w).session.targets == {}
  {
    if steps != [] {
      PhasedLast(steps, ComputeAliases);
      TargetsEmptyBefore(p, log, Front(steps), w);
      if Rank(Last(steps)) == Rank(ComputeAliases) {
        OnlyComputeAliases(Last(steps));
      }
      TargetsIrrelevant(p, Last(steps), RunSteps(p, log, Front(steps), w).session, {});
    }
  }

  /** Re-running a prefix on the world it left behind is accepted and changes nothing. */
  lemma {:induction false} PrefixReplays(p: Proof, log: Changelog, steps: seq<Step>, w: World, m: nat)
    requires Phased(steps) && m <= |steps| && RunSteps(p, log, steps, w).ok
    ensures var s := RunSteps(p, log, steps, w).session;
            RunSteps(p, log, steps[..m], s.world) ==
              Run(if ComputeAliases in steps[..m] then s else s.(targets := {}), true)
  {
    var s := RunSteps(p, log, steps, w).session;
    if m > 0 {
      var step := steps[m - 1];
      assert Front(steps[..m]) == steps[..m - 1];
      PrefixReplays(p, log, steps, w, m - 1);
      PhasedPrefix(steps, m);
      PhasedLast(steps[..m], ComputeAliases);
      StepsSettled(p, log, steps, w, step);
      if ComputeAliases !in steps[..m] {
        if Rank(step) == Rank(ComputeAliases) {
          OnlyComputeAliases(step);
        }
        TargetsIrrelevant(p, step, s, {});
      } else if ComputeAliases !in steps[..m - 1] {
        assert step == ComputeAliases;
      }
    }
  }

  lemma {:induction false} ContinuesAlike(p: Proof, log: Changelog, steps: seq<Step>, n: nat, w: World)
    requires Phased(steps) && n <= |steps| && RunSteps(p, log, steps[..n], w).ok
    ensures RunSteps(p, log, steps, RunSteps(p, log, steps[..n], w).session.world) == RunSteps(p, log, steps, w)
    decreases |steps|
  {
    if n == |steps| {
      assert steps[..n] == steps;
      PrefixReplays(p, log, steps, w, n);
      if ComputeAliases !in steps {
        TargetsEmptyBefore(p, log, steps, w);
      }
    } else {
      PhasedPrefix(steps, |steps| - 1);
      assert Front(steps)[..n] == steps[..n];
      ContinuesAlike(p, log, Front(steps), n, w);
    }
  }

  /** A refused run stopped after some accepted prefix. */
  lemma {:induction false} RefusedPrefix(p: Proof, log: Changelog, steps: seq<Step>, w: World) returns (m: nat)
    ensures m <= |steps| && RunSteps(p, log, steps[..m], w).ok
    ensures RunSteps(p, log, steps[..m], w).session == RunSteps(p, log, steps, w).session
  {
    if RunSteps(p, log, steps, w).ok {
      m := |steps|;
      assert steps[..m] == steps;
    } else {
      m := RefusedPrefix(p, log, Front(steps), w);
      assert Front(steps)[..m] == steps[..m];
    }
  }

  /** After a crash at any step, finalising again from the same checkout takes exactly the course of an uninterrupted
      run. */
  lemma RetryConverges(p: Proof, log: Changelog, n: nat, w: World)
    ensures Finalize(p, log, After(Attempt(p, log, n), w)) == Finalize(p, log, w)
  {
    var m := RefusedPrefix(p, log, Taken(n), w);
    assert Taken(n)[..m] == Program()[..m];
    ProgramIsPhased();
    ContinuesAlike(p, log, Program(), m, w);
  }
}
