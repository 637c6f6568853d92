/** Resumed finalisations: a retry of one proof may run from a later checkout, with another changelog. Only the reads of
    the index see the changelog, and no attempt on this proof changes what they see of the other versions. */
module ReleaseResume {
  import opened Sequences
  import opened Release
  import opened ReleaseRetry
  import opened ReleaseSafety

  /** A step decides nothing about which other versions are published. */
  lemma OthersPublished(p: Proof, step: Step, s: Session, s': Session, u: Version)
    requires u != p.version && Exec(p, step, s) == Done(s')
    ensures u in s'.world.githubReleases <==> u in s.world.githubReleases
    ensures Published(s'.world, u) <==> Published(s.world, u)
  {
    OtherGitHub(p, step, s, s', u);
    OtherGitLab(p, step, s, s', u);
  }

  /** Whatever changelog it is read with, the first check of the index has one verdict before and after a step. */
  lemma IndexUnmovedByStep(p: Proof, other: Changelog, step: Step, s: Session, s': Session)
    requires Exec(p, step, s) == Done(s') && Listable(s.world)
    requires Rank(step) > Rank(EnsureTag) ==> TagAt(p, s.world)
    ensures IndexComplete(p, other, s'.world, false) <==> IndexComplete(p, other, s.world, false)
  {
    ListableStays(p, step, s, s');
    forall u | u != p.version ensures Published(s'.world, u) <==> Published(s.world, u) {
      OthersPublished(p, step, s, s', u);
    }
  }

  lemma {:induction false} IndexUnmoved(p: Proof, log: Changelog, other: Changelog, steps: seq<Step>, w: World)
    requires Phased(steps)
    ensures IndexComplete(p, other, RunSteps(p, log, steps, w).session.world, false) <==>
            IndexComplete(p, other, w, false)
  {
    if steps != [] {
      var before, next := Front(steps), Last(steps);
      PhasedLast(steps, CheckIndex);
      FrontLast(steps);
      IndexUnmoved(p, log, other, before, w);
      var r := RunSteps(p, log, before, w);
      if r.ok && Exec(p, next, r.session).Done? && next != CheckIndex {
        EarlierSettled(p, log, before, w, next, CheckIndex);
        if Rank(next) > Rank(EnsureTag) {
          EarlierSettled(p, log, before, w, next, EnsureTag);
        }
        IndexUnmovedByStep(p, other, next, r.session, Exec(p, next, r.session).session);
      }
    }
  }

  // ----- the same steps from another checkout -----

  /** Between the two checks of the index a step does not look at the changelog. */
  lemma ChangelogIrrelevant(p: Proof, step: Step, s: Session, other: Changelog)
    requires step != CheckIndex && step != VerifyIndex
    ensures Exec(p, step, s.(changelog := other)) ==
            match Exec(p, step, s) case Done(s') => Done(s'.(changelog := other)) case Refused => Refused
  {}

  /** An accepted prefix without the last check is accepted alike from every checkout whose index is complete. */
  lemma {:induction false} SameCourse(p: Proof, log: Changelog, other: Changelog, steps: seq<Step>, w: World)
    requires Phased(steps) && VerifyIndex !in steps && IndexComplete(p, other, w, false)
    requires RunSteps(p, log, steps, w).ok
    ensures RunSteps(p, other, steps, w) == Run(RunSteps(p, log, steps, w).session.(changelog := other), true)
  {
    if steps != [] {
      var before, next := Front(steps), Last(steps);
      PhasedLast(steps, CheckIndex);
      SameCourse(p, log, other, before, w);
      if next == CheckIndex {
        IndexUnmoved(p, log, other, before, w);
      } else {
        ChangelogIrrelevant(p, next, RunSteps(p, log, before, w).session, other);
      }
    }
  }

  lemma LastStep()
    ensures forall n: nat :: n < |Program()| ==> VerifyIndex !in Program()[..n]
    ensures Last(Program()) == VerifyIndex
  {
    forall n: nat | n < |Program()| ensures VerifyIndex !in Program()[..n] {
      if VerifyIndex in Program()[..n] {
        var i :| 0 <= i < n && Program()[i] == VerifyIndex;
        PositionAt(i);
      }
    }
  }

  /** Where an attempt stopped, without the last check, which writes nothing. */
  lemma StoppedPrefix(p: Proof, log: Changelog, n: nat, w: World) returns (m: nat)
    ensures m < |Program()| && RunSteps(p, log, Program()[..m], w).ok
    ensures RunSteps(p, log, Program()[..m], w).session.world == After(Attempt(p, log, n), w)
  {
    m := RefusedPrefix(p, log, Taken(n), w);
    assert Taken(n)[..m] == Program()[..m];
    if m == |Program()| {
      LastStep();
      assert Program()[..m] == Program() && Front(Program()) == Program()[..m - 1];
      m := m - 1;
    }
  }

  /** The first check refuses, and nothing is written. */
  lemma {:induction false} RefusedAtOnce(p: Proof, log: Changelog, steps: seq<Step>, w: World)
    requires steps != [] && steps[0] == CheckIndex && !IndexComplete(p, log, w, false)
    ensures RunSteps(p, log, steps, w) == Run(Session(w, {}, log), false)
  {
    if |steps| == 1 {
      assert RunSteps(p, log, Front(steps), w) == Run(Session(w, {}, log), true);
    } else {
      RefusedAtOnce(p, log, Front(steps), w);
    }
  }

  /** What a finalisation does after any attempts on its proof: it takes the course of an uninterrupted run on the
      first stores, or its index is incomplete there too and nothing is written. */
  ghost predicate Resumes(p: Proof, log: Changelog, w: World, w': World) {
    && (IndexComplete(p, log, w', false) <==> IndexComplete(p, log, w, false))
    && Finalize(p, log, w') ==
       (if IndexComplete(p, log, w, false) then Finalize(p, log, w) else Run(Session(w', {}, log), false))
  }

  lemma ResumeConverges(p: Proof, log: Changelog, first: Changelog, n: nat, w: World)
    ensures Resumes(p, log, w, After(Attempt(p, first, n), w))
  {
    var w' := After(Attempt(p, first, n), w);
    TakenIsPhased(n);
    IndexUnmoved(p, first, log, Taken(n), w);
    if IndexComplete(p, log, w, false) {
      var m := StoppedPrefix(p, first, n, w);
      ProgramIsPhased();
      PhasedPrefix(Program(), m);
      LastStep();
      SameCourse(p, first, log, Program()[..m], w);
      ContinuesAlike(p, log, Program(), m, w);
    } else {
      RefusedAtOnce(p, log, Program(), w');
    }
  }

  /** Retries converge: after any number of crashed attempts on one proof, from whatever checkouts, finalising from one
      more checkout completes exactly when it would have without them, and takes the same course. */
  lemma {:induction false} RetriesConverge(p: Proof, log: Changelog, history: seq<Attempt>, w: World)
    requires forall i :: 0 <= i < |history| ==> history[i].proof == p
    ensures Resumes(p, log, w, Replay(history, w))
    ensures Finalize(p, log, Replay(history, w)).ok <==> Finalize(p, log, w).ok
  {
    if history != [] {
      var before, a := Replay(Front(history), w), Last(history);
      RetriesConverge(p, log, Front(history), w);
      ResumeConverges(p, log, a.changelog, a.n, before);
      assert a == Attempt(p, a.changelog, a.n);
    }
    if !IndexComplete(p, log, w, false) {
      RefusedAtOnce(p, log, Program(), w);
    }
  }
}
