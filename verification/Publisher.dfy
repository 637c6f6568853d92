/** `finalize` as the program it is: methods that change the external stores in place, stopping at
    the first refusal, and equal to the step program they are proved against. */
module Publisher {
  import opened Sequences
  import opened Release
  import Text

  const COMPONENTS: seq<Component> := [Backend, Frontend, Scheduler]
  const ASSETS: seq<Asset> := [Archive, Checksum]

  /** The steps of a loop over a list. */
  function StepsOf<A>(step: A -> Step, items: seq<A>): (r: seq<Step>)
    ensures |r| == |items|
  {
    if items == [] then [] else StepsOf(step, Front(items)) + [step(Last(items))]
  }

  lemma StepsOfPrefix<A>(step: A -> Step, items: seq<A>, i: nat)
    requires i < |items|
    ensures StepsOf(step, items[..i + 1]) == StepsOf(step, items[..i]) + [step(items[i])]
  {
    assert Front(items[..i + 1]) == items[..i];
  }

  lemma {:induction false} RunSnoc(p: Proof, steps: seq<Step>, step: Step, s: Session)
    ensures RunFrom(p, steps + [step], s) ==
            var r := RunFrom(p, steps, s);
            if !r.ok then r
            else match Exec(p, step, r.session) case Done(s') => Run(s', true) case Refused => Run(r.session, false)
  {
    assert Front(steps + [step]) == steps;
  }

  lemma {:induction false} RunConcat(p: Proof, a: seq<Step>, b: seq<Step>, s: Session)
    ensures RunFrom(p, a + b, s) ==
            if RunFrom(p, a, s).ok then RunFrom(p, b, RunFrom(p, a, s).session) else RunFrom(p, a, s)
  {
    if b == [] {
      assert a + b == a;
    } else {
      RunConcat(p, a, Front(b), s);
      FrontLast(b);
      assert a + b == (a + Front(b)) + [Last(b)];
      RunSnoc(p, a + Front(b), Last(b), s);
    }
  }

  /** A refused prefix decides the whole run. */
  lemma {:induction false} RunStops(p: Proof, a: seq<Step>, whole: seq<Step>, s: Session)
    requires a <= whole && !RunFrom(p, a, s).ok
    ensures RunFrom(p, whole, s) == RunFrom(p, a, s)
  {
    assert whole == a + whole[|a|..];
    RunConcat(p, a, whole[|a|..], s);
  }

  lemma {:induction false} RunOne(p: Proof, step: Step, s: Session)
    ensures RunFrom(p, [step], s) ==
            match Exec(p, step, s) case Done(s') => Run(s', true) case Refused => Run(s, false)
  {
    assert Front([step]) == [];
  }

  /** One turn of a loop that runs a step per item. */
  lemma {:induction false} LoopStep<A>(p: Proof, step: A -> Step, items: seq<A>, i: nat, s0: Session, s: Session)
    requires i < |items| && RunFrom(p, StepsOf(step, items[..i]), s0) == Run(s, true)
    ensures RunFrom(p, StepsOf(step, items[..i + 1]), s0) == RunFrom(p, [step(items[i])], s)
  {
    RunConcat(p, StepsOf(step, items[..i]), [step(items[i])], s0);
    StepsOfPrefix(step, items, i);
  }

  /** A refused turn refuses the whole loop. */
  lemma LoopStops<A>(p: Proof, step: A -> Step, items: seq<A>, i: nat, s0: Session)
    requires i < |items| && !RunFrom(p, StepsOf(step, items[..i + 1]), s0).ok
    ensures RunFrom(p, StepsOf(step, items), s0) == RunFrom(p, StepsOf(step, items[..i + 1]), s0)
  {
    StepsOfMonotone(step, items, i + 1);
    RunStops(p, StepsOf(step, items[..i + 1]), StepsOf(step, items), s0);
  }

  function PromoteStep(c: Component): Step { Promote(c) }
  function AttachStep(a: Asset): Step { Attach(a) }
  function MinorStep(c: Component): Step { MoveMinor(c) }
  function LatestStep(c: Component): Step { MoveLatest(c) }
  function AliasStep(latest: bool): Component -> Step { if latest then LatestStep else MinorStep }

  function PromoteSteps(): seq<Step> {
    StepsOf(PromoteStep, COMPONENTS)
  }

  function StableSteps(): seq<Step> {
    PromoteSteps() + [Push(BundlePackage), Push(ChartPackage), VerifyStable]
  }

  function AttachSteps(): seq<Step> {
    StepsOf(AttachStep, ASSETS)
  }

  function GitHubSteps(): seq<Step> {
    [CreateDraft] + AttachSteps() + [GoPublic]
  }

  function AliasSteps(latest: bool): seq<Step> {
    StepsOf(AliasStep(latest), COMPONENTS)
  }

  function FirstSteps(): seq<Step> {
    [CheckIndex] + StableSteps() + [EnsureTag] + GitHubSteps()
  }

  function LaterSteps(): seq<Step> {
    [VerifyPublic, PublishGitLab, VerifyForges, ComputeAliases]
  }

  lemma ProgramParts()
    ensures Program() == FirstSteps() + LaterSteps() + AliasSteps(false) + AliasSteps(true) + [MakeLatest, VerifyIndex]
  {
    StepsOfThree(PromoteStep);
    StepsOfThree(AliasStep(false));
    StepsOfThree(AliasStep(true));
  }

  lemma StepsOfThree(step: Component -> Step)
    ensures StepsOf(step, COMPONENTS) == [step(Backend), step(Frontend), step(Scheduler)]
  {
    assert Front(COMPONENTS) == [Backend, Frontend];
    assert Front([Backend, Frontend]) == [Backend];
    assert Front([Backend]) == [];
  }

  class Forges {
    var world: World
    var targets: set<Tag>
    /** The changelog of the checkout that is at work. */
    var changelog: Changelog

    constructor (w: World)
      ensures world == w && targets == {} && changelog == {}
    {
      world, targets, changelog := w, {}, {};
    }

    ghost function Now(): Session
      reads this
    {
      Session(world, targets, changelog)
    }

    /** `copy_image`: leave an equal image, refuse to replace an immutable one, otherwise write and re-read. */
    method CopyImage(source: Digest, target: (Component, Tag), immutable: bool) returns (ok: bool)
      modifies this`world
      ensures ok <==> !(immutable && target in old(world).images && old(world).images[target] != source)
      ensures world == if ok then old(world).(images := old(world).images[target := source]) else old(world)
    {
      if target in world.images && world.images[target] == source {
        assert world.images == world.images[target := source];
        return true;
      }
      if target in world.images && immutable {
        return false;
      }
      world := world.(images := world.images[target := source]);
      ok := world.images[target] == source;
    }

    /** Push an immutable package: leave an equal one, refuse a different one. */
    method PushContent(p: Proof, k: Package) returns (ok: bool)
      modifies this`world
      ensures Run(Now(), ok) == RunFrom(p, [Push(k)], old(Now()))
    {
      RunOne(p, Push(k), Now());
      var key := (k, p.version);
      if key in world.packages {
        return world.packages[key] == p.Content(k);
      }
      world := world.(packages := world.packages[key := p.Content(k)]);
      ok := true;
    }

    method PromoteImage(p: Proof, c: Component) returns (ok: bool)
      modifies this`world
      ensures Run(Now(), ok) == RunFrom(p, [Promote(c)], old(Now()))
    {
      RunOne(p, Promote(c), Now());
      ok := CopyImage(p.Image(c), (c, Stable(p.version)), true);
      if ok && (c, Stable(p.version)) in old(world).images {
        assert world == old(world);
      }
    }

    method PromoteImages(p: Proof) returns (ok: bool)
      modifies this`world
      ensures Run(Now(), ok) == RunFrom(p, PromoteSteps(), old(Now()))
    {
      ghost var s0 := Now();
      ghost var step := PromoteStep;
      for i := 0 to |COMPONENTS|
        invariant Run(Now(), true) == RunFrom(p, StepsOf(step, COMPONENTS[..i]), s0)
      {
        LoopStep(p, step, COMPONENTS, i, s0, Now());
        ok := PromoteImage(p, COMPONENTS[i]);
        if !ok {
          LoopStops(p, step, COMPONENTS, i, s0);
          return;
        }
      }
      assert COMPONENTS[..|COMPONENTS|] == COMPONENTS;
      ok := true;
    }

    /** `promote_stable`: copy every image to its version tag, push bundle and chart, verify them all. */
    method PromoteStable(p: Proof) returns (ok: bool)
      modifies this`world
      ensures Run(Now(), ok) == RunFrom(p, StableSteps(), old(Now()))
    {
      ghost var s0 := Now();
      ghost var a, b, c := PromoteSteps(), [Push(BundlePackage)], [Push(ChartPackage)];
      assert StableSteps() == a + b + c + [VerifyStable];
      ok := PromoteImages(p);
      if !ok {
        RunStops(p, a, StableSteps(), s0);
        return;
      }
      RunConcat(p, a, b, s0);
      ok := PushContent(p, BundlePackage);
      if !ok {
        RunStops(p, a + b, StableSteps(), s0);
        return;
      }
      RunConcat(p, a + b, c, s0);
      ok := PushContent(p, ChartPackage);
      if !ok {
        RunStops(p, a + b + c, StableSteps(), s0);
        return;
      }
      RunSnoc(p, a + b + c, VerifyStable, s0);
      ok := StableComplete(p, world);
    }

    /** `ensure_tag`: create the GitHub tag once, and only at the validated commit. */
    method EnsureGitHubTag(p: Proof) returns (ok: bool)
      modifies this`world
      ensures Run(Now(), ok) == RunFrom(p, [EnsureTag], old(Now()))
    {
      RunOne(p, EnsureTag, Now());
      var v := p.version;
      if v in world.githubTags && world.githubTags[v] != p.commit {
        return false;
      }
      if v !in world.githubTags {
        world := world.(githubTags := world.githubTags[v := p.commit]);
      }
      ok := world.githubTags[v] == p.commit;
    }

    /** Attach one bundle asset, refusing a different one and refusing to complete a public release. */
    method AttachAsset(p: Proof, a: Asset) returns (ok: bool)
      requires p.version in world.githubReleases
      modifies this`world
      ensures Run(Now(), ok) == RunFrom(p, [Attach(a)], old(Now()))
      ensures p.version in world.githubReleases
    {
      RunOne(p, Attach(a), Now());
      var release := world.githubReleases[p.version];
      if a in release.assets {
        return release.assets[a] == p.AssetDigest(a);
      }
      if !release.draft {
        return false;
      }
      var attached := release.(assets := release.assets[a := p.AssetDigest(a)]);
      world := world.(githubReleases := world.githubReleases[p.version := attached]);
      ok := true;
    }

    method AttachAssets(p: Proof) returns (ok: bool)
      requires p.version in world.githubReleases
      modifies this`world
      ensures Run(Now(), ok) == RunFrom(p, AttachSteps(), old(Now()))
      ensures p.version in world.githubReleases
    {
      ghost var s0 := Now();
      ghost var step := AttachStep;
      for i := 0 to |ASSETS|
        invariant p.version in world.githubReleases
        invariant Run(Now(), true) == RunFrom(p, StepsOf(step, ASSETS[..i]), s0)
      {
        LoopStep(p, step, ASSETS, i, s0, Now());
        ok := AttachAsset(p, ASSETS[i]);
        if !ok {
          LoopStops(p, step, ASSETS, i, s0);
          return;
        }
      }
      assert ASSETS[..|ASSETS|] == ASSETS;
      ok := true;
    }

    /** GitHub `publish`: find or create the draft, attach its assets, then make it public. */
    method PublishGitHub(p: Proof) returns (ok: bool)
      modifies this`world
      ensures Run(Now(), ok) == RunFrom(p, GitHubSteps(), old(Now()))
    {
      ghost var s0 := Now();
      ghost var a, b := [CreateDraft], AttachSteps();
      assert GitHubSteps() == a + b + [GoPublic];
      RunOne(p, CreateDraft, s0);
      var v := p.version;
      ok := !Text.IsBlank(p.githubNotes) && v in world.githubTags && world.githubTags[v] == p.commit && p.bundleAgrees;
      if ok && v !in world.githubReleases {
        world := world.(githubReleases := world.githubReleases[v := GitHubRelease(true, false, p.githubNotes, map[])]);
      }
      ok := ok && world.githubReleases[v].body == p.githubNotes && !world.githubReleases[v].prerelease;
      if !ok {
        RunStops(p, a, GitHubSteps(), s0);
        return;
      }
      RunConcat(p, a, b, s0);
      ok := AttachAssets(p);
      if !ok {
        RunStops(p, a + b, GitHubSteps(), s0);
        return;
      }
      RunSnoc(p, a + b, GoPublic, s0);
      var release := world.githubReleases[v];
      if release.draft {
        world := world.(githubReleases := world.githubReleases[v := release.(draft := false)]);
      } else {
        assert release == release.(draft := false);
        assert world.githubReleases == world.githubReleases[v := release.(draft := false)];
      }
    }

    /** GitLab `publish`: create the release, and with it the tag, or accept an identical one. */
    method PublishOnGitLab(p: Proof) returns (ok: bool)
      modifies this`world
      ensures Run(Now(), ok) == RunFrom(p, [PublishGitLab], old(Now()))
    {
      RunOne(p, PublishGitLab, Now());
      var v := p.version;
      if Text.IsBlank(p.gitlabNotes) || (v in world.gitlabTags && world.gitlabTags[v] != p.commit) {
        return false;
      }
      if v !in world.gitlabReleases {
        world := world.(gitlabTags := world.gitlabTags[v := p.commit], gitlabLatest := Some(v),
                        gitlabReleases := world.gitlabReleases[v := p.OnGitLab()]);
      }
      ok := Matches(p, world.gitlabReleases[v]) && v in world.gitlabTags && world.gitlabTags[v] == p.commit;
    }

    method MoveAliasImage(p: Proof, c: Component, latest: bool)
      modifies this`world
      ensures Run(Now(), true) == RunFrom(p, [AliasStep(latest)(c)], old(Now()))
    {
      RunOne(p, AliasStep(latest)(c), Now());
      var alias := if latest then Latest else p.MinorTag();
      if alias in targets {
        var _ := CopyImage(p.Image(c), (c, alias), false);
        world := world.(behind := world.behind[(c, alias) := p.version]);
      }
    }

    /** Move one alias of every component, if it is among the targets. */
    method MoveAliasImages(p: Proof, latest: bool)
      modifies this`world
      ensures Run(Now(), true) == RunFrom(p, AliasSteps(latest), old(Now()))
    {
      ghost var s0 := Now();
      ghost var step := AliasStep(latest);
      for i := 0 to |COMPONENTS|
        invariant Run(Now(), true) == RunFrom(p, StepsOf(step, COMPONENTS[..i]), s0)
      {
        LoopStep(p, step, COMPONENTS, i, s0, Now());
        MoveAliasImage(p, COMPONENTS[i], latest);
      }
      assert COMPONENTS[..|COMPONENTS|] == COMPONENTS;
    }

    /** Check both tags and compute the aliases this version may take. */
    method ComputeTargets(p: Proof) returns (ok: bool)
      modifies this`targets
      ensures Run(Now(), ok) == RunFrom(p, [VerifyForges, ComputeAliases], old(Now()))
    {
      ghost var s0 := Now();
      RunOne(p, VerifyForges, s0);
      RunSnoc(p, [VerifyForges], ComputeAliases, s0);
      var v := p.version;
      ok := v in world.githubTags && world.githubTags[v] == p.commit && v in world.gitlabTags &&
        world.gitlabTags[v] == p.commit
            && Listable(world) && Published(world, v);
      if ok {
        targets := Aliases(world, p);
      }
    }

    /** Verify the public GitHub release, publish on GitLab, compute the alias targets. */
    method PublishElsewhere(p: Proof) returns (ok: bool)
      modifies this`world, this`targets
      ensures Run(Now(), ok) == RunFrom(p, LaterSteps(), old(Now()))
    {
      ghost var s0 := Now();
      ghost var a, b := [VerifyPublic], [PublishGitLab];
      assert LaterSteps() == a + b + [VerifyForges, ComputeAliases];
      RunOne(p, VerifyPublic, s0);
      ok := PublicComplete(p, world);
      if !ok {
        RunStops(p, a, LaterSteps(), s0);
        return;
      }
      RunConcat(p, a, b, s0);
      ok := PublishOnGitLab(p);
      if !ok {
        RunStops(p, a + b, LaterSteps(), s0);
        return;
      }
      RunConcat(p, a + b, [VerifyForges, ComputeAliases], s0);
      ok := ComputeTargets(p);
    }

    /** Point GitHub's latest release at this version unless a newer one is latest, then re-check the index. */
    method FinishIndex(p: Proof) returns (ok: bool)
      modifies this`world
      ensures Run(Now(), ok) == RunFrom(p, [MakeLatest, VerifyIndex], old(Now()))
    {
      ghost var s0 := Now();
      RunOne(p, MakeLatest, s0);
      RunSnoc(p, [MakeLatest], VerifyIndex, s0);
      if Latest in targets && (world.githubLatest.None? || AtMost(world.githubLatest.value, p.version)) {
        world := world.(githubLatest := Some(p.version));
      }
      ok := IndexComplete(p, changelog, world, true) &&
            (Latest in targets ==> world.githubLatest == Some(p.version) == world.gitlabLatest);
    }

    /** Images, packages, the GitHub tag and the GitHub release. */
    method PublishFirst(p: Proof) returns (ok: bool)
      modifies this`world
      ensures Run(Now(), ok) == RunFrom(p, FirstSteps(), old(Now()))
    {
      ghost var s0 := Now();
      ghost var a, b, c := [CheckIndex], StableSteps(), [EnsureTag];
      RunOne(p, CheckIndex, s0);
      ok := IndexComplete(p, changelog, world, false);
      if !ok {
        RunStops(p, a, FirstSteps(), s0);
        return;
      }
      RunConcat(p, a, b, s0);
      ok := PromoteStable(p);
      if !ok {
        RunStops(p, a + b, FirstSteps(), s0);
        return;
      }
      RunConcat(p, a + b, c, s0);
      ok := EnsureGitHubTag(p);
      if !ok {
        RunStops(p, a + b + c, FirstSteps(), s0);
        return;
      }
      RunConcat(p, a + b + c, GitHubSteps(), s0);
      ok := PublishGitHub(p);
    }

    /** `finalize`, uninterrupted: closed gates refuse, open ones let the step program run. */
    method FinalizeRelease(p: Proof, gates: Gates, from: Checkout) returns (ok: bool)
      modifies this
      ensures Run(Now(), ok) == GatedFinalize(p, gates, from, old(world))
    {
      targets, changelog := {}, from.changelog;
      if !gates.proofIsCurrent || gates.gitlabMain != from.head || gates.githubMain != from.head {
        return false;
      }
      if !gates.candidateAgrees {
        return false;
      }
      ok := RunProgram(p);
    }

    /** The step program, from the first read of the index to its last check. */
    method RunProgram(p: Proof) returns (ok: bool)
      modifies this`world, this`targets
      ensures Run(Now(), ok) == Finalize(p, changelog, old(world))
    {
      ProgramParts();
      targets := {};
      ghost var s0 := Now();
      ghost var a, b, c, d := FirstSteps(), LaterSteps(), AliasSteps(false), AliasSteps(true);
      assert Program() == a + b + c + d + [MakeLatest, VerifyIndex];
      ok := PublishFirst(p);
      if !ok {
        RunStops(p, a, Program(), s0);
        return;
      }
      RunConcat(p, a, b, s0);
      ok := PublishElsewhere(p);
      if !ok {
        RunStops(p, a + b, Program(), s0);
        return;
      }
      RunConcat(p, a + b, c, s0);
      MoveAliasImages(p, false);
      RunConcat(p, a + b + c, d, s0);
      MoveAliasImages(p, true);
      RunConcat(p, a + b + c + d, [MakeLatest, VerifyIndex], s0);
      ok := FinishIndex(p);
    }
  }

  lemma {:induction false} StepsOfMonotone<A>(step: A -> Step, items: seq<A>, i: nat)
    requires i <= |items|
    ensures StepsOf(step, items[..i]) <= StepsOf(step, items)
    decreases |items| - i
  {
    if i == |items| {
      assert items[..i] == items;
    } else {
      StepsOfPrefix(step, items, i);
      StepsOfMonotone(step, items, i + 1);
    }
  }
}
