/** Historical release notes (ops/release/publish_history.py): every conflict is found before the first
    write, notes are never overwritten, and a finished publication has nothing left to do. */
module History {
  import opened Sequences

  datatype Platform = GitHub | GitLab

  /** A release page; `hidden` is GitHub's draft or prerelease, `commit` is what GitLab reports. */
  datatype Release = Release(body: string, hidden: bool, commit: string, assets: seq<string>)

  /** One release page of one catalogued version. */
  datatype Slot = Slot(platform: Platform, version: string)
  datatype Task = Task(slot: Slot, sha: string, expected: string)

  /** The forges: release pages, resolved tags, and the version each shows as latest. */
  datatype World = World(pages: map<Slot, Release>, tags: map<Slot, string>, latest: map<Platform, string>)

  datatype Action = Create | Complete | Keep | Conflict

  function PageOf(w: World, slot: Slot): Option<Release> { if slot in w.pages then Some(w.pages[slot]) else None }

  /** `action`; `blank` says which notes count as missing. */
  function Decide(page: Option<Release>, task: Task, blank: string -> bool): Action {
    match page
    case None => Create
    case Some(r) =>
      if task.slot.platform == GitHub && r.hidden then Conflict
      else if task.slot.platform == GitLab && r.commit != task.sha then Conflict
      else if blank(r.body) then Complete
      else if r.body != task.expected then Conflict
      else Keep
  }

  /** Both forges' tags of the version stand at the catalogued commit. */
  predicate Tagged(w: World, task: Task) {
    var v := task.slot.version;
    && Slot(GitHub, v) in w.tags && w.tags[Slot(GitHub, v)] == task.sha
    && Slot(GitLab, v) in w.tags && w.tags[Slot(GitLab, v)] == task.sha
  }

  predicate LatestIs(w: World, latest: string) {
    GitHub in w.latest && w.latest[GitHub] == latest && GitLab in w.latest && w.latest[GitLab] == latest
  }

  /** What the inventory accepts for one page. */
  predicate Acceptable(w: World, task: Task, latest: string, blank: string -> bool) {
    var a := Decide(PageOf(w, task.slot), task, blank);
    Tagged(w, task) && a != Conflict && (task.slot.version == latest ==> a == Keep)
  }

  /** The page after its action; an existing page keeps everything but its notes. */
  function Written(w: World, task: Task, blank: string -> bool): World {
    match Decide(PageOf(w, task.slot), task, blank)
    case Create => w.(pages := w.pages[task.slot := Release(task.expected, false, task.sha, [])])
    case Complete => w.(pages := w.pages[task.slot := w.pages[task.slot].(body := task.expected)])
    case _ => w
  }

  datatype Outcome = Refused | Failed | Reported(actions: seq<Action>) | Published(actions: seq<Action>)

  // ----- the two phases -----

  ghost predicate AllAcceptable(w: World, tasks: seq<Task>, latest: string, blank: string -> bool) {
    forall i :: 0 <= i < |tasks| ==> Acceptable(w, tasks[i], latest, blank)
  }

  function Actions(w: World, tasks: seq<Task>, blank: string -> bool): seq<Action> {
    if tasks == [] then []
    else Actions(w, Front(tasks), blank) + [Decide(PageOf(w, Last(tasks).slot), Last(tasks), blank)]
  }

  function Publish(w: World, tasks: seq<Task>, blank: string -> bool): World {
    if tasks == [] then w else Written(Publish(w, Front(tasks), blank), Last(tasks), blank)
  }

  ghost predicate DistinctPages(tasks: seq<Task>) {
    forall i, j :: 0 <= i < j < |tasks| ==> tasks[i].slot != tasks[j].slot
  }

  ghost predicate HaveNotes(tasks: seq<Task>, blank: string -> bool) {
    forall i :: 0 <= i < |tasks| ==> !blank(tasks[i].expected)
  }

  /** The forges while a publication runs. */
  class Forges {
    var world: World

    constructor (w: World)
      ensures world == w
    {
      world := w;
    }

    /** The inventory only reads. */
    method Inventory(tasks: seq<Task>, latest: string, blank: string -> bool) returns (ok: bool, actions: seq<Action>)
      ensures ok <==> AllAcceptable(world, tasks, latest, blank)
      ensures ok ==> actions == Actions(world, tasks, blank)
    {
      actions := [];
      for i := 0 to |tasks|
        invariant AllAcceptable(world, tasks[..i], latest, blank) && actions == Actions(world, tasks[..i], blank)
      {
        assert Front(tasks[..i + 1]) == tasks[..i];
        if !Acceptable(world, tasks[i], latest, blank) {
          return false, [];
        }
        actions := actions + [Decide(PageOf(world, tasks[i].slot), tasks[i], blank)];
      }
      assert tasks[..|tasks|] == tasks;
      ok := true;
    }

    /** One page: read again, act, and verify what stands there. */
    method WritePage(task: Task, blank: string -> bool) returns (ok: bool)
      modifies this
      ensures world == old(world) || world == Written(old(world), task, blank)
      ensures ok ==> world == Written(old(world), task, blank) && Decide(PageOf(world, task.slot), task, blank) == Keep
      ensures ok <==> Writable(old(world), task, blank)
    {
      var a := Decide(PageOf(world, task.slot), task, blank);
      if a == Conflict || (a != Keep && !Tagged(world, task)) {
        return false;
      }
      world := Written(world, task, blank);
      ok := Decide(PageOf(world, task.slot), task, blank) == Keep;
    }

    /** The write loop. Before each page, and once more behind the last, the forges may be edited from outside; `last`
        is the number of pages that were written and verified. */
    method WritePages(tasks: seq<Task>, blank: string -> bool, outside: Outside) returns (ok: bool, ghost last: nat)
      modifies this
      ensures Course(old(world), world, tasks, last, blank, outside) && (ok <==> last == |tasks|)
      ensures NotesSurvive(old(world), world, tasks, last, blank, outside)
    {
      last := 0;
      world := outside(0, world);
      for i := 0 to |tasks|
        invariant last == i && world == Reread(old(world), tasks, i, blank, outside)
        invariant forall j :: 0 <= j < i ==> WritableAt(old(world), tasks, j, blank, outside)
      {
        var written := WritePage(tasks[i], blank);
        if !written {
          CourseStops(old(world), world, tasks, i, blank, outside);
          return false, last;
        }
        world := outside(i + 1, world);
        last := i + 1;
      }
      CourseStops(old(world), world, tasks, |tasks|, blank, outside);
      ok := true;
    }

    /** `publish_history`, while the forges may be edited from outside. */
    method PublishHistory(tasks: seq<Task>, latest: string, apply: bool, blank: string -> bool, outside: Outside)
        returns (r: Outcome, ghost last: nat)
      modifies this
      ensures !LatestIs(old(world), latest) || !AllAcceptable(old(world), tasks, latest, blank) ==>
                r == Refused && world == old(world)
      ensures LatestIs(old(world), latest) && AllAcceptable(old(world), tasks, latest, blank) && !apply ==>
                r == Reported(Actions(old(world), tasks, blank)) && world == old(world)
      ensures LatestIs(old(world), latest) && AllAcceptable(old(world), tasks, latest, blank) && apply ==>
                && Course(old(world), world, tasks, last, blank, outside)
                && NotesSurvive(old(world), world, tasks, last, blank, outside)
                && r == (if last == |tasks| && LatestIs(world, latest)
                         then Published(Actions(old(world), tasks, blank)) else Failed)
                && (r.Published? ==> SparedAreKept(world, tasks, blank, outside))
      ensures LatestIs(old(world), latest) && AllAcceptable(old(world), tasks, latest, blank) && apply ==>
              Quiet(outside) && DistinctPages(tasks) && HaveNotes(tasks, blank) ==>
                r == Published(Actions(old(world), tasks, blank)) && world == Publish(old(world), tasks, blank)
    {
      last := 0;
      if !LatestIs(world, latest) {
        return Refused, last;
      }
      var ok, actions := Inventory(tasks, latest, blank);
      if !ok {
        return Refused, last;
      }
      if !apply {
        return Reported(actions), last;
      }
      ghost var before := world;
      ok, last := WritePages(tasks, blank, outside);
      if Quiet(outside) && DistinctPages(tasks) && HaveNotes(tasks, blank) {
        QuietCourse(before, world, tasks, latest, last, blank, outside);
      }
      if !ok || !LatestIs(world, latest) {
        return Failed, last;
      }
      FinishedIsKept(before, world, tasks, blank, outside);
      r := Published(actions);
    }
  }

  // ----- edits from outside -----

  /** What others do to the forges before each re-read, and behind the last page. */
  type Outside = (nat, World) -> World

  /** Nobody else is at work. */
  ghost predicate Quiet(outside: Outside) { forall i: nat, w: World :: outside(i, w) == w }

  /** Outside edits leave this page as it is while it has notes; they may create it, or give it notes. */
  ghost predicate Spared(outside: Outside, slot: Slot, blank: string -> bool) {
    forall i: nat, w: World :: slot in w.pages && !blank(w.pages[slot].body) ==>
      slot in outside(i, w).pages && outside(i, w).pages[slot] == w.pages[slot]
  }

  /** The forges as the loop finds them when it re-reads page `i`, or behind the last page. */
  function Reread(w: World, tasks: seq<Task>, i: nat, blank: string -> bool, outside: Outside): World
    requires i <= |tasks|
  {
    outside(i, if i == 0 then w else Written(Reread(w, tasks, i - 1, blank, outside), tasks[i - 1], blank))
  }

  /** When its turn comes, page `i` can be written. */
  ghost predicate WritableAt(w: World, tasks: seq<Task>, i: nat, blank: string -> bool, outside: Outside)
    requires i < |tasks|
  {
    Writable(Reread(w, tasks, i, blank, outside), tasks[i], blank)
  }

  /** The loop wrote the first `last` pages and then came to its end, or to a page that it could not write or verify. */
  ghost predicate Course(before: World, now: World, tasks: seq<Task>, last: nat, blank: string -> bool,
      outside: Outside)
  {
    && last <= |tasks| && (forall i :: 0 <= i < last ==> WritableAt(before, tasks, i, blank, outside))
    && var w := Reread(before, tasks, last, blank, outside);
       if last == |tasks| then now == w
       else !WritableAt(before, tasks, last, blank, outside) && (now == w || now == Written(w, tasks[last], blank))
  }

  lemma {:induction false} CourseStops(
    before: World, now: World, tasks: seq<Task>, last: nat, blank: string -> bool, outside: Outside)
    requires last <= |tasks| && forall i :: 0 <= i < last ==> WritableAt(before, tasks, i, blank, outside)
    requires var w := Reread(before, tasks, last, blank, outside);
             if last == |tasks| then now == w
             else !Writable(w, tasks[last], blank) && (now == w || now == Written(w, tasks[last], blank))
    ensures Course(before, now, tasks, last, blank, outside)
    ensures NotesSurvive(before, now, tasks, last, blank, outside)
  {
    CourseKeepsNotes(before, now, tasks, last, blank, outside);
  }

  /** A page that had notes is what it was. */
  ghost predicate NotesKept(before: World, now: World, slot: Slot, blank: string -> bool) {
    slot in before.pages && !blank(before.pages[slot].body) ==>
      slot in now.pages && now.pages[slot] == before.pages[slot]
  }

  /** Notes that were there at the start, or that anybody had added by the time of any re-read, are still there. */
  ghost predicate NotesSurvive(before: World, now: World, tasks: seq<Task>, last: nat, blank: string -> bool,
      outside: Outside)
    requires last <= |tasks|
  {
    forall slot :: Spared(outside, slot, blank) ==>
      && NotesKept(before, now, slot, blank)
      && forall i :: 0 <= i <= last ==> NotesKept(Reread(before, tasks, i, blank, outside), now, slot, blank)
  }

  lemma KeptTransitive(a: World, b: World, c: World, slot: Slot, blank: string -> bool)
    requires NotesKept(a, b, slot, blank) && NotesKept(b, c, slot, blank)
    ensures NotesKept(a, c, slot, blank)
  {}

  /** Neither a write of the loop nor an edit that spares the page takes its notes away. */
  lemma TurnKeeps(w: World, task: Task, i: nat, slot: Slot, blank: string -> bool, outside: Outside)
    requires Spared(outside, slot, blank)
    ensures NotesKept(w, Written(w, task, blank), slot, blank)
    ensures NotesKept(w, outside(i, w), slot, blank) && NotesKept(w, outside(i, Written(w, task, blank)), slot, blank)
  {
    if slot in w.pages {
      NotesAreNeverOverwritten(w, task, slot, blank);
    }
  }

  lemma {:induction false} RereadKeeps(
    before: World, tasks: seq<Task>, i: nat, j: nat, slot: Slot, blank: string -> bool, outside: Outside)
    requires i <= j <= |tasks| && Spared(outside, slot, blank)
    ensures NotesKept(Reread(before, tasks, i, blank, outside), Reread(before, tasks, j, blank, outside), slot, blank)
  {
    if i < j {
      var first, w := Reread(before, tasks, i, blank, outside), Reread(before, tasks, j - 1, blank, outside);
      RereadKeeps(before, tasks, i, j - 1, slot, blank, outside);
      TurnKeeps(w, tasks[j - 1], j, slot, blank, outside);
      KeptTransitive(first, w, Reread(before, tasks, j, blank, outside), slot, blank);
    }
  }

  /** From any re-read to where the loop stopped. */
  lemma {:induction false} StopKeeps(
    before: World, now: World, tasks: seq<Task>, last: nat, i: nat, slot: Slot, blank: string -> bool,
      outside: Outside)
    requires Course(before, now, tasks, last, blank, outside) && i <= last && Spared(outside, slot, blank)
    ensures NotesKept(Reread(before, tasks, i, blank, outside), now, slot, blank)
  {
    var w := Reread(before, tasks, last, blank, outside);
    RereadKeeps(before, tasks, i, last, slot, blank, outside);
    if now != w {
      TurnKeeps(w, tasks[last], 0, slot, blank, outside);
      KeptTransitive(Reread(before, tasks, i, blank, outside), w, now, slot, blank);
    }
  }

  lemma CourseKeepsNotes(before: World, now: World, tasks: seq<Task>, last: nat, blank: string -> bool,
      outside: Outside)
    requires Course(before, now, tasks, last, blank, outside)
    ensures NotesSurvive(before, now, tasks, last, blank, outside)
  {
    forall slot | Spared(outside, slot, blank)
      ensures NotesKept(before, now, slot, blank)
      ensures forall i :: 0 <= i <= last ==> NotesKept(Reread(before, tasks, i, blank, outside), now, slot, blank)
    {
      forall i | 0 <= i <= last ensures NotesKept(Reread(before, tasks, i, blank, outside), now, slot, blank) {
        StopKeeps(before, now, tasks, last, i, slot, blank, outside);
      }
      assert NotesKept(before, outside(0, before), slot, blank);
      KeptTransitive(before, Reread(before, tasks, 0, blank, outside), now, slot, blank);
    }
  }

  /** Every catalogued page that outsiders spared is as expected. */
  ghost predicate SparedAreKept(now: World, tasks: seq<Task>, blank: string -> bool, outside: Outside) {
    forall i :: 0 <= i < |tasks| && Spared(outside, tasks[i].slot, blank) ==>
      Decide(PageOf(now, tasks[i].slot), tasks[i], blank) == Keep
  }

  /** A page that is kept has notes, so it stays as it is. */
  lemma KeptStays(before: World, now: World, task: Task, blank: string -> bool)
    requires Decide(PageOf(before, task.slot), task, blank) == Keep && NotesKept(before, now, task.slot, blank)
    ensures Decide(PageOf(now, task.slot), task, blank) == Keep
  {}

  lemma FinishedIsKept(before: World, now: World, tasks: seq<Task>, blank: string -> bool, outside: Outside)
    requires Course(before, now, tasks, |tasks|, blank, outside)
    ensures SparedAreKept(now, tasks, blank, outside)
  {
    forall i | 0 <= i < |tasks| && Spared(outside, tasks[i].slot, blank)
      ensures Decide(PageOf(now, tasks[i].slot), tasks[i], blank) == Keep
    {
      var w := Reread(before, tasks, i, blank, outside);
      var written, next := Written(w, tasks[i], blank), Reread(before, tasks, i + 1, blank, outside);
      assert WritableAt(before, tasks, i, blank, outside);
      WrittenIsKept(w, tasks[i], blank);
      KeptStays(written, next, tasks[i], blank);
      RereadKeeps(before, tasks, i + 1, |tasks|, tasks[i].slot, blank, outside);
      KeptStays(next, now, tasks[i], blank);
    }
  }

  // ----- nobody else at work -----

  lemma {:induction false} QuietReread(w: World, tasks: seq<Task>, i: nat, blank: string -> bool, outside: Outside)
    requires i <= |tasks| && Quiet(outside)
    ensures Reread(w, tasks, i, blank, outside) == Publish(w, tasks[..i], blank)
  {
    if i > 0 {
      QuietReread(w, tasks, i - 1, blank, outside);
      assert Front(tasks[..i]) == tasks[..i - 1];
    }
  }

  lemma {:induction false} QuietCourse(
    before: World, now: World, tasks: seq<Task>, latest: string, last: nat, blank: string -> bool,
      outside: Outside)
    requires DistinctPages(tasks) && HaveNotes(tasks, blank) && AllAcceptable(before, tasks, latest, blank)
    requires Quiet(outside) && Course(before, now, tasks, last, blank, outside)
    ensures last == |tasks| && now == Publish(before, tasks, blank) && now.latest == before.latest
  {
    QuietReread(before, tasks, last, blank, outside);
    if last < |tasks| {
      StillWritable(before, tasks, last, latest, blank);
    } else {
      assert tasks[..last] == tasks;
      PublishKeepsTags(before, tasks, blank);
    }
  }

  /** A page can be written and verified: no conflict, tags in place if there is something to write, and notes to
      write. */
  predicate Writable(w: World, task: Task, blank: string -> bool) {
    var a := Decide(PageOf(w, task.slot), task, blank);
    a == Keep || ((a == Create || a == Complete) && Tagged(w, task) && !blank(task.expected))
  }

  lemma WrittenIsKept(w: World, task: Task, blank: string -> bool)
    requires Decide(PageOf(w, task.slot), task, blank) != Conflict && !blank(task.expected)
    ensures Decide(PageOf(Written(w, task, blank), task.slot), task, blank) == Keep
  {}

  lemma OtherPagesStay(w: World, task: Task, slot: Slot, blank: string -> bool)
    requires slot != task.slot
    ensures PageOf(Written(w, task, blank), slot) == PageOf(w, slot)
  {}

  lemma TagsStay(w: World, task: Task, blank: string -> bool)
    ensures Written(w, task, blank).tags == w.tags && Written(w, task, blank).latest == w.latest
  {}

  lemma {:induction false} PublishKeepsTags(w: World, tasks: seq<Task>, blank: string -> bool)
    ensures Publish(w, tasks, blank).tags == w.tags && Publish(w, tasks, blank).latest == w.latest
  {
    if tasks != [] {
      PublishKeepsTags(w, Front(tasks), blank);
      TagsStay(Publish(w, Front(tasks), blank), Last(tasks), blank);
    }
  }

  lemma {:induction false} PublishKeepsOthers(w: World, tasks: seq<Task>, slot: Slot, blank: string -> bool)
    requires forall i :: 0 <= i < |tasks| ==> tasks[i].slot != slot
    ensures PageOf(Publish(w, tasks, blank), slot) == PageOf(w, slot)
  {
    if tasks != [] {
      PublishKeepsOthers(w, Front(tasks), slot, blank);
      OtherPagesStay(Publish(w, Front(tasks), blank), Last(tasks), slot, blank);
    }
  }

  /** What the inventory accepted can be written when its turn comes. */
  lemma {:induction false} StillWritable(w: World, tasks: seq<Task>, i: nat, latest: string, blank: string -> bool)
    requires i < |tasks| && DistinctPages(tasks) && HaveNotes(tasks, blank) && AllAcceptable(w, tasks, latest, blank)
    ensures Writable(Publish(w, tasks[..i], blank), tasks[i], blank)
  {
    var done := tasks[..i];
    assert Acceptable(w, tasks[i], latest, blank);
    forall j | 0 <= j < |done| ensures done[j].slot != tasks[i].slot {
      assert tasks[j].slot != tasks[i].slot;
    }
    PublishKeepsOthers(w, done, tasks[i].slot, blank);
    PublishKeepsTags(w, done, blank);
  }

  // ----- what a publication leaves -----

  /** Whatever else happens to the forges in between, a step never changes notes that are there, nor assets. */
  lemma NotesAreNeverOverwritten(w: World, task: Task, slot: Slot, blank: string -> bool)
    requires slot in w.pages
    ensures var w' := Written(w, task, blank);
            && slot in w'.pages && w'.pages[slot] == w.pages[slot].(body := w'.pages[slot].body)
            && (!blank(w.pages[slot].body) ==> w'.pages[slot] == w.pages[slot])
  {}

  /** After a complete publication every catalogued page is as expected. */
  lemma {:induction false} PublishedIsKept(w: World, tasks: seq<Task>, latest: string, blank: string -> bool, i: nat)
    requires DistinctPages(tasks) && HaveNotes(tasks, blank) && AllAcceptable(w, tasks, latest, blank) && i < |tasks|
    ensures Decide(PageOf(Publish(w, tasks, blank), tasks[i].slot), tasks[i], blank) == Keep
  {
    var before := Front(tasks);
    if i == |tasks| - 1 {
      assert tasks[..i] == before;
      StillWritable(w, tasks, i, latest, blank);
      WrittenIsKept(Publish(w, before, blank), tasks[i], blank);
    } else {
      assert forall k :: 0 <= k < |before| ==> before[k] == tasks[k];
      PublishedIsKept(w, before, latest, blank, i);
      assert tasks[i].slot != tasks[|tasks| - 1].slot;
      OtherPagesStay(Publish(w, before, blank), Last(tasks), tasks[i].slot, blank);
    }
  }

  /** The same without the actions: both tags stand at the commit; a page that exists is visible on GitHub, of the right
      commit on GitLab, and has no other notes; and the page of the latest version has its notes already. */
  predicate IsPublishable(w: World, task: Task, latest: string, blank: string -> bool) {
    var gitHubTag, gitLabTag := Slot(GitHub, task.slot.version), Slot(GitLab, task.slot.version);
    && gitHubTag in w.tags && w.tags[gitHubTag] == task.sha && gitLabTag in w.tags && w.tags[gitLabTag] == task.sha
    && (task.slot in w.pages ==> FitsPage(w.pages[task.slot], task, blank))
    && (task.slot.version == latest ==> task.slot in w.pages && !blank(w.pages[task.slot].body))
  }

  predicate FitsPage(page: Release, task: Task, blank: string -> bool) {
    && (if task.slot.platform == GitHub then !page.hidden else page.commit == task.sha)
    && (blank(page.body) || page.body == task.expected)
  }

  lemma AcceptableIff(w: World, task: Task, latest: string, blank: string -> bool)
    ensures Acceptable(w, task, latest, blank) <==> IsPublishable(w, task, latest, blank)
  {}

  /** The page as it should stand: new, or the old one with its notes. */
  function Finished(w: World, task: Task): Release {
    if task.slot in w.pages then w.pages[task.slot].(body := task.expected)
    else Release(task.expected, false, task.sha, [])
  }

  lemma WrittenIsFinished(w: World, task: Task, latest: string, blank: string -> bool)
    requires Acceptable(w, task, latest, blank)
    ensures PageOf(Written(w, task, blank), task.slot) == Some(Finished(w, task))
  {}

  /** A publication leaves every catalogued page with exactly its notes, and everything else as it was. */
  lemma {:induction false} PublishedPages(w: World, tasks: seq<Task>, latest: string, blank: string -> bool)
    requires DistinctPages(tasks) && AllAcceptable(w, tasks, latest, blank)
    ensures var p := Publish(w, tasks, blank);
            && p.tags == w.tags && p.latest == w.latest
            && (forall i :: 0 <= i < |tasks| ==> PageOf(p, tasks[i].slot) == Some(Finished(w, tasks[i])))
            && (forall slot ::
                  (forall i :: 0 <= i < |tasks| ==> tasks[i].slot != slot) ==> PageOf(p, slot) == PageOf(w, slot))
  {
    PublishKeepsTags(w, tasks, blank);
    forall slot | forall i :: 0 <= i < |tasks| ==> tasks[i].slot != slot
      ensures PageOf(Publish(w, tasks, blank), slot) == PageOf(w, slot)
    {
      PublishKeepsOthers(w, tasks, slot, blank);
    }
    if tasks != [] {
      var before, task := Front(tasks), Last(tasks);
      assert forall i :: 0 <= i < |before| ==> before[i] == tasks[i] && before[i].slot != task.slot;
      PublishedPages(w, before, latest, blank);
      PublishKeepsTags(w, before, blank);
      var p := Publish(w, before, blank);
      assert Acceptable(w, tasks[|tasks| - 1], latest, blank);
      assert PageOf(p, task.slot) == PageOf(w, task.slot);
      WrittenIsFinished(p, task, latest, blank);
      forall i | 0 <= i < |before|
        ensures PageOf(Written(p, task, blank), tasks[i].slot) == Some(Finished(w, tasks[i]))
      {
        OtherPagesStay(p, task, tasks[i].slot, blank);
      }
    }
  }

  lemma {:induction false} AllKept(w: World, tasks: seq<Task>, blank: string -> bool)
    requires forall i :: 0 <= i < |tasks| ==> Decide(PageOf(w, tasks[i].slot), tasks[i], blank) == Keep
    ensures Publish(w, tasks, blank) == w && |Actions(w, tasks, blank)| == |tasks|
    ensures forall i :: 0 <= i < |tasks| ==> Actions(w, tasks, blank)[i] == Keep
  {
    if tasks != [] {
      AllKept(w, Front(tasks), blank);
      assert Decide(PageOf(w, tasks[|tasks| - 1].slot), tasks[|tasks| - 1], blank) == Keep;
    }
  }

  /** The next run is accepted, reports only `keep` and writes nothing. */
  lemma {:induction false} PublishedOnceIsEnough(w: World, tasks: seq<Task>, latest: string, blank: string -> bool)
    requires DistinctPages(tasks) && HaveNotes(tasks, blank) && AllAcceptable(w, tasks, latest, blank)
    ensures var p := Publish(w, tasks, blank);
            && AllAcceptable(p, tasks, latest, blank)
            && Publish(p, tasks, blank) == p && |Actions(p, tasks, blank)| == |tasks|
            && forall i :: 0 <= i < |tasks| ==> Actions(p, tasks, blank)[i] == Keep
  {
    var p := Publish(w, tasks, blank);
    PublishKeepsTags(w, tasks, blank);
    forall i | 0 <= i < |tasks|
      ensures Decide(PageOf(p, tasks[i].slot), tasks[i], blank) == Keep
      ensures Acceptable(p, tasks[i], latest, blank)
    {
      assert Acceptable(w, tasks[i], latest, blank);
      PublishedIsKept(w, tasks, latest, blank, i);
    }
    AllKept(p, tasks, blank);
  }
}
