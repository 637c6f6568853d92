/** Aligning historical tags (ops/release/align_history_tags.py): a compare-and-swap over all approved refs. */
module TagAlignment {
  import opened Sequences

  /** A remote ref: the object it names and, for an annotated tag, the commit that object points to. */
  datatype Ref = Ref(target: string, peeled: Option<string>)

  type Refs = map<string, Ref>

  datatype Entry = Entry(version: string, sha: string, previous: Option<string>)

  /** Move `ref` to `sha` if it is still at `expected`; the empty string means absent. */
  datatype Move = Move(ref: string, expected: string, sha: string)

  function RefName(version: string): string { "refs/tags/v" + version }

  function Current(refs: Refs, ref: string): string { if ref in refs then refs[ref].target else "" }

  function Resolved(refs: Refs, ref: string): string {
    if ref !in refs then "" else match refs[ref].peeled case Some(sha) => sha case None => refs[ref].target
  }

  predicate Aligned(refs: Refs, e: Entry) { RefName(e.version) in refs && Resolved(refs, RefName(e.version)) == e.sha }

  /** Absent, or on GitLab at the approved former commit. */
  predicate MayMove(refs: Refs, e: Entry, gitlab: bool) {
    var current := Current(refs, RefName(e.version));
    current == "" || (gitlab && e.previous == Some(current))
  }

  predicate Settled(refs: Refs, e: Entry, gitlab: bool) { Aligned(refs, e) || MayMove(refs, e, gitlab) }

  function MoveOf(refs: Refs, e: Entry): Move { Move(RefName(e.version), Current(refs, RefName(e.version)), e.sha) }

  function Moves(refs: Refs, entries: seq<Entry>): seq<Move> {
    if entries == [] then []
    else
      var r := Moves(refs, Front(entries));
      if Aligned(refs, Last(entries)) then r else r + [MoveOf(refs, Last(entries))]
  }

  ghost predicate AllSettled(refs: Refs, entries: seq<Entry>, gitlab: bool) {
    forall i :: 0 <= i < |entries| ==> Settled(refs, entries[i], gitlab)
  }

  /** `alignment`: the moves, or a refusal at the first unapproved divergence. */
  method Alignment(refs: Refs, entries: seq<Entry>, gitlab: bool) returns (r: Option<seq<Move>>)
    ensures r.Some? <==> AllSettled(refs, entries, gitlab)
    ensures r.Some? ==> r.value == Moves(refs, entries)
  {
    var moves: seq<Move> := [];
    for i := 0 to |entries|
      invariant AllSettled(refs, entries[..i], gitlab) && moves == Moves(refs, entries[..i])
    {
      assert Front(entries[..i + 1]) == entries[..i];
      var e := entries[i];
      if !Aligned(refs, e) {
        if !MayMove(refs, e, gitlab) {
          return None;
        }
        moves := moves + [MoveOf(refs, e)];
      }
    }
    assert entries[..|entries|] == entries;
    r := Some(moves);
  }

  ghost predicate Holds(refs: Refs, moves: seq<Move>) {
    forall i :: 0 <= i < |moves| ==> Current(refs, moves[i].ref) == moves[i].expected
  }

  function Moved(refs: Refs, moves: seq<Move>, local: Refs): Refs
    requires forall i :: 0 <= i < |moves| ==> moves[i].ref in local
  {
    if moves == [] then refs else Moved(refs, Front(moves), local)[Last(moves).ref := local[Last(moves).ref]]
  }

  /** `apply_alignment`: an atomic push of the local tags that happens only while every lease holds. */
  method ApplyAlignment(refs: Refs, moves: seq<Move>, local: Refs) returns (ok: bool, refs': Refs)
    requires forall i :: 0 <= i < |moves| ==> moves[i].ref in local
    ensures ok <==> Holds(refs, moves)
    ensures refs' == if ok then Moved(refs, moves, local) else refs
  {
    refs' := refs;
    for i := 0 to |moves|
      invariant Holds(refs, moves[..i])
    {
      if Current(refs, moves[i].ref) != moves[i].expected {
        return false, refs;
      }
    }
    for i := 0 to |moves|
      invariant refs' == Moved(refs, moves[..i], local)
    {
      assert Front(moves[..i + 1]) == moves[..i];
      refs' := refs'[moves[i].ref := local[moves[i].ref]];
    }
    assert moves[..|moves|] == moves;
    ok := true;
  }

  // ----- what an alignment does -----

  /** The local tags stand at the catalogued commits, as loading the catalogue checks. */
  ghost predicate LocalTags(local: Refs, entries: seq<Entry>) {
    forall i :: 0 <= i < |entries| ==> Aligned(local, entries[i])
  }

  /** Every move belongs to an entry that is not aligned. */
  lemma {:induction false} MoveHasEntry(refs: Refs, entries: seq<Entry>, k: nat) returns (i: nat)
    requires k < |Moves(refs, entries)|
    ensures i < |entries| && !Aligned(refs, entries[i]) && Moves(refs, entries)[k] == MoveOf(refs, entries[i])
  {
    var before := Moves(refs, Front(entries));
    if k < |before| {
      i := MoveHasEntry(refs, Front(entries), k);
    } else {
      i := |entries| - 1;
    }
  }

  lemma {:induction false} EntryHasMove(refs: Refs, entries: seq<Entry>, i: nat) returns (k: nat)
    requires i < |entries| && !Aligned(refs, entries[i])
    ensures k < |Moves(refs, entries)| && Moves(refs, entries)[k] == MoveOf(refs, entries[i])
  {
    if i == |entries| - 1 {
      k := |Moves(refs, entries)| - 1;
    } else {
      k := EntryHasMove(refs, Front(entries), i);
    }
  }

  lemma {:induction false} LocalHasMoves(refs: Refs, entries: seq<Entry>, local: Refs)
    requires LocalTags(local, entries)
    ensures forall k :: 0 <= k < |Moves(refs, entries)| ==> Moves(refs, entries)[k].ref in local
  {
    forall k | 0 <= k < |Moves(refs, entries)| ensures Moves(refs, entries)[k].ref in local {
      var i := MoveHasEntry(refs, entries, k);
      assert Aligned(local, entries[i]);
    }
  }

  /** A push changes exactly the refs it names, to the local tags. */
  lemma {:induction false} MovedAt(refs: Refs, moves: seq<Move>, local: Refs, ref: string)
    requires forall i :: 0 <= i < |moves| ==> moves[i].ref in local
    ensures (exists i :: 0 <= i < |moves| && moves[i].ref == ref) ==>
            ref in Moved(refs, moves, local) && Moved(refs, moves, local)[ref] == local[ref]
    ensures !(exists i :: 0 <= i < |moves| && moves[i].ref == ref) ==>
              (ref in Moved(refs, moves, local) <==> ref in refs) &&
                (ref in refs ==> Moved(refs, moves, local)[ref] == refs[ref])
  {
    if moves != [] {
      MovedAt(refs, Front(moves), local, ref);
      assert forall i :: 0 <= i < |moves| - 1 ==> Front(moves)[i] == moves[i];
    }
  }

  /** Unless the remote changed meanwhile, the leases hold. */
  lemma {:induction false} LeasesHold(refs: Refs, entries: seq<Entry>)
    ensures Holds(refs, Moves(refs, entries))
  {
    forall k | 0 <= k < |Moves(refs, entries)|
      ensures Current(refs, Moves(refs, entries)[k].ref) == Moves(refs, entries)[k].expected
    {
      var i := MoveHasEntry(refs, entries, k);
    }
  }

  lemma {:induction false} AlignedAfter(refs: Refs, entries: seq<Entry>, local: Refs, i: nat)
    requires LocalTags(local, entries) && i < |entries|
    requires forall k :: 0 <= k < |Moves(refs, entries)| ==> Moves(refs, entries)[k].ref in local
    ensures Aligned(Moved(refs, Moves(refs, entries), local), entries[i])
  {
    var moves, ref := Moves(refs, entries), RefName(entries[i].version);
    MovedAt(refs, moves, local, ref);
    assert Aligned(local, entries[i]);
    if !Aligned(refs, entries[i]) {
      var k := EntryHasMove(refs, entries, i);
      assert moves[k].ref == ref;
    }
  }

  lemma {:induction false} NoMovesWhenAligned(refs: Refs, entries: seq<Entry>)
    requires forall i :: 0 <= i < |entries| ==> Aligned(refs, entries[i])
    ensures Moves(refs, entries) == []
  {
    if entries != [] {
      NoMovesWhenAligned(refs, Front(entries));
      assert Aligned(refs, entries[|entries| - 1]);
    }
  }

  /** Applying an alignment leaves nothing to align, on either platform. */
  lemma {:induction false} AlignmentIsFinal(refs: Refs, entries: seq<Entry>, local: Refs, gitlab: bool)
    requires LocalTags(local, entries)
    requires forall k :: 0 <= k < |Moves(refs, entries)| ==> Moves(refs, entries)[k].ref in local
    ensures var after := Moved(refs, Moves(refs, entries), local);
            AllSettled(after, entries, gitlab) && Moves(after, entries) == []
  {
    var after := Moved(refs, Moves(refs, entries), local);
    forall i | 0 <= i < |entries| ensures Aligned(after, entries[i]) {
      AlignedAfter(refs, entries, local, i);
    }
    NoMovesWhenAligned(after, entries);
  }

  /** Only refs that were absent, or on GitLab at the approved former commit, are moved. */
  lemma OnlyApprovedRefsMove(refs: Refs, entries: seq<Entry>, local: Refs, gitlab: bool, ref: string) returns (i: nat)
    requires AllSettled(refs, entries, gitlab)
    requires forall k :: 0 <= k < |Moves(refs, entries)| ==> Moves(refs, entries)[k].ref in local
    requires ref in refs
    requires var after := Moved(refs, Moves(refs, entries), local); ref !in after || after[ref] != refs[ref]
    ensures i < |entries| && RefName(entries[i].version) == ref && MayMove(refs, entries[i], gitlab)
    ensures refs[ref].target == "" || (gitlab && entries[i].previous == Some(refs[ref].target))
  {
    var moves := Moves(refs, entries);
    MovedAt(refs, moves, local, ref);
    var k :| 0 <= k < |moves| && moves[k].ref == ref;
    i := MoveHasEntry(refs, entries, k);
    assert Settled(refs, entries[i], gitlab);
  }

  /** Whatever else changed, the entries that were to move stand at their commits after the push. */
  lemma {:induction false} MovedEntriesAligned(seen: Refs, now: Refs, entries: seq<Entry>, local: Refs)
    requires LocalTags(local, entries)
    requires forall k :: 0 <= k < |Moves(seen, entries)| ==> Moves(seen, entries)[k].ref in local
    ensures forall i :: 0 <= i < |entries| && !Aligned(seen, entries[i]) ==>
              Aligned(Moved(now, Moves(seen, entries), local), entries[i])
  {
    forall i | 0 <= i < |entries| && !Aligned(seen, entries[i])
      ensures Aligned(Moved(now, Moves(seen, entries), local), entries[i])
    {
      var k := EntryHasMove(seen, entries, i);
      assert Moves(seen, entries)[k].ref == RefName(entries[i].version) && Aligned(local, entries[i]);
      MovedAt(now, Moves(seen, entries), local, RefName(entries[i].version));
    }
  }

  // ----- the same in terms of the refs -----

  /** The version's tag is there and stands, itself or through the annotated tag, at the catalogued commit. */
  predicate StandsAt(refs: Refs, e: Entry) {
    var ref := "refs/tags/v" + e.version;
    && ref in refs
    && match refs[ref].peeled case Some(commit) => commit == e.sha case None => refs[ref].target == e.sha
  }

  /** The version has no tag, or GitLab's is still the approved former one. */
  predicate IsApproved(refs: Refs, e: Entry, gitlab: bool) {
    var ref := "refs/tags/v" + e.version;
    ref !in refs || refs[ref].target == "" || (gitlab && e.previous == Some(refs[ref].target))
  }

  /** The version's tag names the same object, or is still not there. */
  predicate IsUntouched(seen: Refs, now: Refs, e: Entry) {
    var ref := "refs/tags/v" + e.version;
    if ref in seen && seen[ref].target != "" then ref in now && now[ref].target == seen[ref].target
    else ref !in now || now[ref].target == ""
  }

  lemma StandsIff(refs: Refs, e: Entry, gitlab: bool)
    ensures Aligned(refs, e) <==> StandsAt(refs, e)
    ensures MayMove(refs, e, gitlab) <==> IsApproved(refs, e, gitlab)
  {}

  lemma SettledIff(refs: Refs, entries: seq<Entry>, gitlab: bool)
    ensures AllSettled(refs, entries, gitlab) <==>
            forall i :: 0 <= i < |entries| ==> StandsAt(refs, entries[i]) || IsApproved(refs, entries[i], gitlab)
  {
    forall i | 0 <= i < |entries|
      ensures Settled(refs, entries[i], gitlab) <==>
              StandsAt(refs, entries[i]) || IsApproved(refs, entries[i], gitlab)
    {
      StandsIff(refs, entries[i], gitlab);
    }
  }

  lemma {:induction false} HoldsIff(seen: Refs, now: Refs, entries: seq<Entry>)
    ensures Holds(now, Moves(seen, entries)) <==>
            forall i :: 0 <= i < |entries| && !StandsAt(seen, entries[i]) ==> IsUntouched(seen, now, entries[i])
  {
    var moves := Moves(seen, entries);
    if Holds(now, moves) {
      forall i | 0 <= i < |entries| && !StandsAt(seen, entries[i]) ensures IsUntouched(seen, now, entries[i]) {
        var k := EntryHasMove(seen, entries, i);
        assert Current(now, moves[k].ref) == moves[k].expected;
      }
    } else {
      var k :| 0 <= k < |moves| && Current(now, moves[k].ref) != moves[k].expected;
      var i := MoveHasEntry(seen, entries, k);
      assert !StandsAt(seen, entries[i]) && !IsUntouched(seen, now, entries[i]);
    }
  }

  /** The whole run against a remote that may have changed since it was read: all moves or none, and all only when
      every moved ref was still as approved. */
  method Align(seen: Refs, now: Refs, entries: seq<Entry>, local: Refs, gitlab: bool) returns (ok: bool, after: Refs)
    requires LocalTags(local, entries)
    ensures !AllSettled(seen, entries, gitlab) ==> !ok && after == now
    ensures !ok ==> after == now
    ensures AllSettled(seen, entries, gitlab) && now == seen ==> ok && Moves(after, entries) == []
    ensures ok <==> AllSettled(seen, entries, gitlab) && Holds(now, Moves(seen, entries))
    ensures forall k :: 0 <= k < |Moves(seen, entries)| ==> Moves(seen, entries)[k].ref in local
    ensures ok ==> after == Moved(now, Moves(seen, entries), local)
    ensures ok ==> forall i :: 0 <= i < |entries| && !Aligned(seen, entries[i]) ==> Aligned(after, entries[i])
    ensures ok <==>
            && (forall i :: 0 <= i < |entries| ==> StandsAt(seen, entries[i]) || IsApproved(seen, entries[i], gitlab))
            && (forall i :: 0 <= i < |entries| && !StandsAt(seen, entries[i]) ==> IsUntouched(seen, now, entries[i]))
    ensures ok ==> forall i :: 0 <= i < |entries| && !StandsAt(seen, entries[i]) ==> StandsAt(after, entries[i])
  {
    after := now;
    SettledIff(seen, entries, gitlab);
    HoldsIff(seen, now, entries);
    LocalHasMoves(seen, entries, local);
    var moves := Alignment(seen, entries, gitlab);
    if moves.None? {
      return false, now;
    }
    LeasesHold(seen, entries);
    AlignmentIsFinal(seen, entries, local, gitlab);
    ok, after := ApplyAlignment(now, moves.value, local);
    if ok {
      MovedEntriesAligned(seen, now, entries, local);
    }
  }
}
