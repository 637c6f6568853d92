/** Account access roles: migration 0069 (one role per link) and 0122 (separate Manager and Portal roles). */
module AccountRoles {
  import opened Sequences

  datatype Role = PortalUser | PortalManager | AccountAdministrator | OtherRole(text: string)

  // ----- SQL truth values -----

  datatype Tri = True | False | Unknown

  function Of(b: bool): Tri { if b then True else False }

  function Not(a: Tri): Tri { if a == True then False else if a == False then True else Unknown }

  function And(a: Tri, b: Tri): Tri {
    if a == False || b == False then False else if a == True && b == True then True else Unknown
  }

  function Or(a: Tri, b: Tri): Tri {
    if a == True || b == True then True else if a == False && b == False then False else Unknown
  }

  /** `x IS TRUE`, `x IS FALSE`: never unknown. */
  function IsTrue(x: Option<bool>): Tri { Of(x == Some(true)) }
  function IsFalse(x: Option<bool>): Tri { Of(x == Some(false)) }

  /** `x = v`, `x IN (...)`: unknown for NULL. */
  function In(x: Option<Role>, roles: set<Role>): Tri { if x.None? then Unknown else Of(x.value in roles) }

  /** A WHERE clause selects a row only when it is true. */
  predicate Selects(a: Tri) { a == True }

  // ----- migration 0069 -----

  const PORTAL: set<Role> := {PortalUser, PortalManager}

  /** A link before 0069; a table without root flags has `root` absent everywhere. */
  datatype Legacy = Legacy(root: Option<bool>, admin: Option<bool>, accountRole: Option<Role>)

  /** The right a link gives: Manager, a Portal role, or nothing. */
  datatype Right = Manager | Portal(role: Role) | NoRight

  function RightOf(l: Legacy): Right {
    if l.root == Some(true) || l.admin == Some(true) then Manager
    else if l.admin == Some(false) && l.accountRole.Some? && l.accountRole.value in PORTAL
    then Portal(l.accountRole.value)
    else NoRight
  }

  /** The condition of `_has_links_without_rights`. */
  function WithoutRights(l: Legacy, rootCapable: bool): Tri {
    var has := Or(IsTrue(l.admin), And(IsFalse(l.admin), In(l.accountRole, PORTAL)));
    Not(if rootCapable then Or(IsTrue(l.root), has) else has)
  }

  /** `_has_links_without_rights`. */
  predicate GuardFires(links: map<int, Legacy>, rootCapable: bool) {
    exists id :: id in links && Selects(WithoutRights(links[id], rootCapable))
  }

  ghost predicate RootFits(links: map<int, Legacy>, rootCapable: bool) {
    rootCapable || forall id <- links :: links[id].root.None?
  }

  /** A link with its new role column. */
  datatype Draft = Draft(link: Legacy, role: Option<Role>)

  function SetAdministrator(d: Draft, rootCapable: bool): Draft {
    var where := if rootCapable then Or(IsTrue(d.link.root), IsTrue(d.link.admin)) else IsTrue(d.link.admin);
    if Selects(where) then d.(role := Some(AccountAdministrator)) else d
  }

  function SetPortalRole(d: Draft, role: Role): Draft {
    if Selects(And(And(Of(d.role.None?), IsFalse(d.link.admin)), In(d.link.accountRole, {role})))
    then d.(role := Some(role))
    else d
  }

  /** The three updates, in their order. */
  function Drafted(l: Legacy, rootCapable: bool): Draft {
    SetPortalRole(SetPortalRole(SetAdministrator(Draft(l, None), rootCapable), PortalManager), PortalUser)
  }

  /** The role stands for the link's right. */
  ghost predicate Carries(l: Legacy, role: Role) {
    role in PORTAL + {AccountAdministrator} &&
    RightOf(l) == if role == AccountAdministrator then Manager else Portal(role)
  }

  /** The links that remain, each with its role. */
  ghost predicate Migrated(links: map<int, Legacy>, roles: map<int, Role>) {
    && roles.Keys <= links.Keys && (forall id <- links :: id in roles <==> RightOf(links[id]) != NoRight)
    && (forall id <- roles :: Carries(links[id], roles[id]))
  }

  method DraftRoles(links: map<int, Legacy>, rootCapable: bool) returns (drafts: map<int, Draft>)
    ensures drafts.Keys == links.Keys && forall id <- links :: drafts[id] == Drafted(links[id], rootCapable)
  {
    var empty := map id | id in links :: Draft(links[id], None);
    var administrators := map id | id in empty :: SetAdministrator(empty[id], rootCapable);
    var managers := map id | id in administrators :: SetPortalRole(administrators[id], PortalManager);
    drafts := map id | id in managers :: SetPortalRole(managers[id], PortalUser);
  }

  /** `_migrate_account_links`: three updates, then the links without a role are deleted. */
  method MigrateAccountLinks(links: map<int, Legacy>, rootCapable: bool) returns (migrated: map<int, Role>)
    requires RootFits(links, rootCapable)
    ensures Migrated(links, migrated)
  {
    var drafts := DraftRoles(links, rootCapable);
    DraftsAreRights(links, rootCapable, drafts);
    migrated := map id | id in drafts && drafts[id].role.Some? :: drafts[id].role.value;
  }

  lemma DraftsAreRights(links: map<int, Legacy>, rootCapable: bool, drafts: map<int, Draft>)
    requires RootFits(links, rootCapable) && drafts.Keys == links.Keys
    requires forall id <- links :: drafts[id] == Drafted(links[id], rootCapable)
    ensures forall id <- links :: drafts[id].role == RoleFor(RightOf(links[id]))
  {
    forall id | id in links ensures drafts[id].role == RoleFor(RightOf(links[id])) {
      DraftIsRight(links[id], rootCapable);
    }
  }

  function RoleFor(r: Right): Option<Role> {
    match r
    case Manager => Some(AccountAdministrator)
    case Portal(role) => Some(role)
    case NoRight => None
  }

  lemma DraftIsRight(l: Legacy, rootCapable: bool)
    requires rootCapable || l.root.None?
    ensures Drafted(l, rootCapable).role == RoleFor(RightOf(l))
  {}

  /** A link that is deleted without the guard seeing it: no root, not an administrator, no role at all. */
  predicate Overlooked(l: Legacy) { l.root != Some(true) && l.admin == Some(false) && l.accountRole.None? }

  lemma GuardSees(l: Legacy, rootCapable: bool)
    requires rootCapable || l.root.None?
    ensures Selects(WithoutRights(l, rootCapable)) <==> RightOf(l) == NoRight && !Overlooked(l)
  {}

  ghost predicate Deletes(links: map<int, Legacy>) {
    exists id :: id in links && RightOf(links[id]) == NoRight
  }

  ghost predicate OverlooksAll(links: map<int, Legacy>) {
    && (exists id :: id in links && Overlooked(links[id]))
    && (forall id <- links :: RightOf(links[id]) == NoRight ==> Overlooked(links[id]))
  }

  /** On links of any kind the guard agrees with deletion unless all deleted links have a NULL role. */
  lemma GuardOverlooksNulls(links: map<int, Legacy>, rootCapable: bool)
    requires RootFits(links, rootCapable)
    ensures GuardFires(links, rootCapable) ==> Deletes(links)
    ensures (GuardFires(links, rootCapable) <==> Deletes(links)) <==> !OverlooksAll(links)
  {
    forall id | id in links
      ensures Selects(WithoutRights(links[id], rootCapable)) <==>
              RightOf(links[id]) == NoRight && !Overlooked(links[id])
    {
      GuardSees(links[id], rootCapable);
    }
    assert forall l :: Overlooked(l) ==> RightOf(l) == NoRight;
  }

  /** The NOT NULL columns of both link tables. */
  ghost predicate NoNulls(links: map<int, Legacy>) {
    forall id <- links :: links[id].accountRole.Some? && links[id].admin.Some?
  }

  /** Thanks to the NOT NULL columns the guard fires exactly when a link will be deleted. */
  lemma GuardIsExact(links: map<int, Legacy>, rootCapable: bool)
    requires RootFits(links, rootCapable) && NoNulls(links)
    ensures GuardFires(links, rootCapable) <==> Deletes(links)
  {
    GuardOverlooksNulls(links, rootCapable);
  }

  /** 0069's `upgrade` of both link tables: it refuses exactly when a link would be deleted and no backup was verified,
      and then nothing has changed. */
  method UpgradeRoles(users: map<int, Legacy>, groups: map<int, Legacy>, backupVerified: bool)
      returns (ok: bool, userRoles: map<int, Role>, groupRoles: map<int, Role>)
    requires NoNulls(users) && NoNulls(groups) && RootFits(groups, false)
    ensures ok <==> backupVerified || !(Deletes(users) || Deletes(groups))
    ensures ok ==> Migrated(users, userRoles) && Migrated(groups, groupRoles)
  {
    userRoles, groupRoles := map[], map[];
    GuardIsExact(users, true);
    GuardIsExact(groups, false);
    if (GuardFires(users, true) || GuardFires(groups, false)) && !backupVerified {
      return false, map[], map[];
    }
    userRoles := MigrateAccountLinks(users, true);
    groupRoles := MigrateAccountLinks(groups, false);
    ok := true;
  }

  // ----- migration 0122 -----

  /** A link; a column that does not exist holds nothing. */
  datatype Link = Link(
    role: Option<Role>, root: Option<bool>, manager: Option<Role>, portal: Option<Role>, browser: Option<bool>)

  datatype Check = ManagerRole | PortalRole | HasRole | ManagerBrowserRole

  /** A link table: rows, columns and check constraints. */
  datatype Table = Table(rows: map<int, Link>, hasRole: bool, hasRoot: bool, hasManager: bool, hasPortal: bool,
                         legacyCheck: bool, checks: set<Check>)

  /** The check conditions. */
  function Condition(c: Check, l: Link): Tri {
    match c
    case ManagerRole => Or(Of(l.manager.None?), In(l.manager, {AccountAdministrator}))
    case PortalRole => Or(Of(l.portal.None?), In(l.portal, PORTAL))
    case HasRole => Or(Of(l.manager.Some?), Of(l.portal.Some?))
    case ManagerBrowserRole => Or(IsFalse(l.browser), In(l.manager, {AccountAdministrator}))
  }

  datatype Step =
    | AddManager | AddPortal | SetManager | SetPortal | ClearBrowser
    | DropLegacyCheck | AddCheck(check: Check) | DropRole | DropRoot

  function WithManager(l: Link, rootFlag: bool): Link {
    var holds := In(l.role, {AccountAdministrator});
    if Selects(if rootFlag then Or(IsTrue(l.root), holds) else holds)
    then l.(manager := Some(AccountAdministrator))
    else l
  }

  function WithPortal(l: Link, rootFlag: bool): Link {
    var holds := In(l.role, PORTAL);
    if Selects(if rootFlag then And(holds, Not(IsTrue(l.root))) else holds) then l.(portal := l.role) else l
  }

  function WithBrowser(l: Link): Link { if l.manager.None? then l.(browser := Some(false)) else l }

  /** What a statement does to a row. */
  function RowExec(l: Link, s: Step, rootFlag: bool): Link {
    match s
    case SetManager => WithManager(l, rootFlag)
    case SetPortal => WithPortal(l, rootFlag)
    case ClearBrowser => WithBrowser(l)
    case DropRole => l.(role := None)
    case DropRoot => l.(root := None)
    case _ => l
  }

  function Rows(rows: map<int, Link>, s: Step, rootFlag: bool): map<int, Link> {
    map id | id in rows :: RowExec(rows[id], s, rootFlag)
  }

  /** And to columns and constraints. */
  function SchemaExec(t: Table, s: Step): Table {
    match s
    case AddManager => t.(hasManager := true)
    case AddPortal => t.(hasPortal := true)
    case DropLegacyCheck => t.(legacyCheck := false)
    case AddCheck(c) => t.(checks := t.checks + {c})
    case DropRole => t.(hasRole := false)
    case DropRoot => t.(hasRoot := false)
    case _ => t
  }

  /** When the migration issues the statement. */
  predicate Issues(t: Table, s: Step, rootFlag: bool) {
    match s
    case AddManager => t.hasRole && !t.hasManager
    case AddPortal => t.hasRole && !t.hasPortal
    case DropLegacyCheck => t.legacyCheck
    case AddCheck(c) => c !in t.checks
    case DropRoot => rootFlag && t.hasRoot
    case _ => t.hasRole
  }

  function Exec(t: Table, s: Step, rootFlag: bool): Table {
    if Issues(t, s, rootFlag) then SchemaExec(t, s).(rows := Rows(t.rows, s, rootFlag)) else t
  }

  const COUNT: nat := 12

  /** The statements in their order. */
  function StepAt(k: nat): Step
    requires k < COUNT
  {
    if k == 0 then AddManager else if k == 1 then AddPortal else if k == 2 then SetManager else if k == 3 then SetPortal
    else if k == 4 then ClearBrowser else if k == 5 then DropLegacyCheck else if k == 6 then AddCheck(ManagerRole)
    else if k == 7 then AddCheck(PortalRole) else if k == 8 then AddCheck(HasRole)
    else if k == 9 then AddCheck(ManagerBrowserRole)
    else if k == 10 then DropRole else DropRoot
  }

  /** The statements from number `k` up to `n`. */
  function Run(t: Table, k: nat, n: nat, rootFlag: bool): Table
    requires k <= n <= COUNT
    decreases n - k
  {
    if k == n then t else Run(Exec(t, StepAt(k), rootFlag), k + 1, n, rootFlag)
  }

  /** Neither the old column nor all the new ones: the migration refuses to guess. */
  predicate Broken(t: Table) { !t.hasRole && !(t.hasManager && t.hasPortal) }

  /** `_add_split_roles` with `_finalize_split_roles`. */
  method AddSplitRoles(t: Table, rootFlag: bool) returns (ok: bool, t': Table)
    ensures ok <==> !Broken(t)
    ensures t' == if ok then Run(t, 0, COUNT, rootFlag) else t
  {
    t' := t;
    if !t.hasRole {
      if !t.hasManager || !t.hasPortal {
        return false, t;
      }
    } else {
      if !t.hasManager {
        t' := t'.(hasManager := true);
      }
      if !t.hasPortal {
        t' := t'.(hasPortal := true);
      }
      t' := t'.(rows := Rows(t'.rows, SetManager, rootFlag));
      t' := t'.(rows := Rows(t'.rows, SetPortal, rootFlag));
      t' := t'.(rows := Rows(t'.rows, ClearBrowser, rootFlag));
    }
    FirstFive(t, rootFlag, t');
    t' := Finalize(t', rootFlag);
    RunSplits(t, 0, 5, COUNT, rootFlag);
    ok := true;
  }

  lemma RowsUntouched(rows: map<int, Link>, s: Step, rootFlag: bool)
    requires forall id <- rows :: RowExec(rows[id], s, rootFlag) == rows[id]
    ensures Rows(rows, s, rootFlag) == rows
  {
    var rows' := Rows(rows, s, rootFlag);
    assert rows'.Keys == rows.Keys;
    assert forall id <- rows :: rows'[id] == rows[id];
  }

  /** The rows after the three updates. */
  function UpdatedRows(rows: map<int, Link>, rootFlag: bool): map<int, Link> {
    Rows(Rows(Rows(rows, SetManager, rootFlag), SetPortal, rootFlag), ClearBrowser, rootFlag)
  }

  lemma {:induction false} FirstFive(t: Table, rootFlag: bool, t': Table)
    requires t' == if t.hasRole
                   then t.(hasManager := true, hasPortal := true, rows := UpdatedRows(t.rows, rootFlag))
                   else t
    ensures Run(t, 0, 5, rootFlag) == t'
  {
    RowsUntouched(t.rows, AddManager, rootFlag);
    RowsUntouched(t.rows, AddPortal, rootFlag);
    var t1 := Exec(t, AddManager, rootFlag);
    var t2 := Exec(t1, AddPortal, rootFlag);
    var t3 := Exec(t2, SetManager, rootFlag);
    var t4 := Exec(t3, SetPortal, rootFlag);
    var t5 := Exec(t4, ClearBrowser, rootFlag);
    assert Run(t4, 4, 5, rootFlag) == t5;
    assert Run(t3, 3, 5, rootFlag) == t5;
    assert Run(t2, 2, 5, rootFlag) == t5;
    assert Run(t1, 1, 5, rootFlag) == t5;
  }

  method Finalize(t: Table, rootFlag: bool) returns (t': Table)
    ensures t' == Run(t, 5, COUNT, rootFlag)
  {
    t' := t;
    for k := 5 to COUNT
      invariant Run(t', k, COUNT, rootFlag) == Run(t, 5, COUNT, rootFlag)
    {
      t' := Exec(t', StepAt(k), rootFlag);
    }
  }

  lemma {:induction false} RunSplits(t: Table, k: nat, m: nat, n: nat, rootFlag: bool)
    requires k <= m <= n <= COUNT
    ensures Run(t, k, n, rootFlag) == Run(Run(t, k, m, rootFlag), m, n, rootFlag)
    decreases m - k
  {
    if k < m {
      RunSplits(Exec(t, StepAt(k), rootFlag), k + 1, m, n, rootFlag);
    }
  }

  // ----- stopping and starting again -----

  predicate IsUpdate(s: Step) { s == SetManager || s == SetPortal || s == ClearBrowser }

  ghost predicate Fixed(rows: map<int, Link>, s: Step, rootFlag: bool) {
    forall id <- rows :: RowExec(rows[id], s, rootFlag) == rows[id]
  }

  /** The statement would not be issued again, or would change nothing. */
  ghost predicate Done(t: Table, s: Step, rootFlag: bool) {
    Issues(t, s, rootFlag) ==> IsUpdate(s) && Fixed(t.rows, s, rootFlag)
  }

  lemma DoneIsIdle(t: Table, s: Step, rootFlag: bool)
    requires Done(t, s, rootFlag)
    ensures Exec(t, s, rootFlag) == t
  {
    if Issues(t, s, rootFlag) {
      RowsUntouched(t.rows, s, rootFlag);
    }
  }

  lemma UpdateIsFixed(l: Link, s: Step, rootFlag: bool)
    requires IsUpdate(s)
    ensures RowExec(RowExec(l, s, rootFlag), s, rootFlag) == RowExec(l, s, rootFlag)
  {}

  lemma ExecIsDone(t: Table, s: Step, rootFlag: bool)
    ensures Done(Exec(t, s, rootFlag), s, rootFlag)
  {
    if Issues(t, s, rootFlag) && IsUpdate(s) {
      forall id | id in t.rows
        ensures RowExec(RowExec(t.rows[id], s, rootFlag), s, rootFlag) == RowExec(t.rows[id], s, rootFlag)
      {
        UpdateIsFixed(t.rows[id], s, rootFlag);
      }
    }
  }

  /** No statement makes another one necessary again. */
  lemma IssuedNoMore(t: Table, a: Step, b: Step, rootFlag: bool)
    requires Issues(Exec(t, b, rootFlag), a, rootFlag)
    ensures Issues(t, a, rootFlag)
  {}

  lemma FixedStays(l: Link, j: nat, k: nat, rootFlag: bool)
    requires j < k < 10 && IsUpdate(StepAt(j)) && RowExec(l, StepAt(j), rootFlag) == l
    ensures var l' := RowExec(l, StepAt(k), rootFlag); RowExec(l', StepAt(j), rootFlag) == l'
  {}

  /** What a statement did stays done under every later statement. */
  lemma DoneStays(t: Table, j: nat, k: nat, rootFlag: bool)
    requires j < k < COUNT && AllDone(t, k, rootFlag)
    ensures Done(Exec(t, StepAt(k), rootFlag), StepAt(j), rootFlag)
  {
    var t' := Exec(t, StepAt(k), rootFlag);
    assert Done(t, StepAt(j), rootFlag);
    if k >= 10 {
      LateStatements(t, k, rootFlag);
    }
    if Issues(t', StepAt(j), rootFlag) {
      IssuedNoMore(t, StepAt(j), StepAt(k), rootFlag);
      forall id | id in t'.rows ensures RowExec(t'.rows[id], StepAt(j), rootFlag) == t'.rows[id] {
        FixedStays(t.rows[id], j, k, rootFlag);
      }
    }
  }

  /** From the drop of the role column on no update is issued. */
  lemma LateStatements(t: Table, k: nat, rootFlag: bool)
    requires 10 <= k < COUNT && AllDone(t, k, rootFlag)
    ensures !Exec(t, StepAt(k), rootFlag).hasRole
  {
    if k == 11 {
      assert Done(t, StepAt(10), rootFlag);
    }
  }

  ghost predicate AllDone(t: Table, n: nat, rootFlag: bool)
    requires n <= COUNT
  {
    forall j :: 0 <= j < n ==> Done(t, StepAt(j), rootFlag)
  }

  lemma {:induction false} RunIsDone(t: Table, k: nat, n: nat, rootFlag: bool)
    requires k <= n <= COUNT && AllDone(t, k, rootFlag)
    ensures AllDone(Run(t, k, n, rootFlag), n, rootFlag)
    decreases n - k
  {
    if k < n {
      var t' := Exec(t, StepAt(k), rootFlag);
      ExecIsDone(t, StepAt(k), rootFlag);
      forall j | 0 <= j < k ensures Done(t', StepAt(j), rootFlag) {
        DoneStays(t, j, k, rootFlag);
      }
      assert AllDone(t', k + 1, rootFlag);
      RunIsDone(t', k + 1, n, rootFlag);
    }
  }

  lemma {:induction false} DoneRunIsIdle(t: Table, k: nat, n: nat, rootFlag: bool)
    requires k <= n <= COUNT && AllDone(t, n, rootFlag)
    ensures Run(t, k, n, rootFlag) == t
    decreases n - k
  {
    if k < n {
      DoneIsIdle(t, StepAt(k), rootFlag);
      DoneRunIsIdle(t, k + 1, n, rootFlag);
    }
  }

  /** A stopped run, started again and stopped again, is where one run would be after its longer part. */
  lemma {:induction false} RunAgain(t: Table, n: nat, m: nat, rootFlag: bool)
    requires n <= COUNT && m <= COUNT
    ensures Run(Run(t, 0, n, rootFlag), 0, m, rootFlag) == Run(t, 0, if n < m then m else n, rootFlag)
  {
    var t' := Run(t, 0, n, rootFlag);
    RunIsDone(t, 0, n, rootFlag);
    if m <= n {
      DoneRunIsIdle(t', 0, m, rootFlag);
    } else {
      DoneRunIsIdle(t', 0, n, rootFlag);
      RunSplits(t', 0, n, m, rootFlag);
      RunSplits(t, 0, n, m, rootFlag);
    }
  }

  function Stopped(t: Table, stops: seq<nat>, rootFlag: bool): Table
    requires forall i :: 0 <= i < |stops| ==> stops[i] <= COUNT
  {
    if stops == [] then t else Run(Stopped(t, Front(stops), rootFlag), 0, Last(stops), rootFlag)
  }

  function Furthest(stops: seq<nat>): (n: nat)
    requires forall i :: 0 <= i < |stops| ==> stops[i] <= COUNT
    ensures n <= COUNT
  {
    if stops == [] then 0
    else
      var n := Furthest(Front(stops));
      if n < Last(stops) then Last(stops) else n
  }

  lemma {:induction false} StoppedIsRun(t: Table, stops: seq<nat>, rootFlag: bool)
    requires forall i :: 0 <= i < |stops| ==> stops[i] <= COUNT
    ensures Stopped(t, stops, rootFlag) == Run(t, 0, Furthest(stops), rootFlag)
  {
    if stops != [] {
      StoppedIsRun(t, Front(stops), rootFlag);
      RunAgain(t, Furthest(Front(stops)), Last(stops), rootFlag);
    }
  }

  lemma {:induction false} NeverBroken(t: Table, k: nat, n: nat, rootFlag: bool)
    requires k <= n <= COUNT && !Broken(t) && AllDone(t, k, rootFlag)
    ensures !Broken(Run(t, k, n, rootFlag))
    decreases n - k
  {
    if k < n {
      var t' := Exec(t, StepAt(k), rootFlag);
      if k == 10 {
        assert Done(t, StepAt(0), rootFlag) && Done(t, StepAt(1), rootFlag);
      }
      RunIsDone(t, k, k + 1, rootFlag);
      assert Run(t, k, k + 1, rootFlag) == t';
      NeverBroken(t', k + 1, n, rootFlag);
    }
  }

  /** 0122 stopped between any of its statements, any number of times, and run again: it does not refuse, and it
      ends with the table of one uninterrupted run. */
  lemma {:induction false} SplitResumes(t: Table, stops: seq<nat>, rootFlag: bool)
    requires !Broken(t) && forall i :: 0 <= i < |stops| ==> stops[i] <= COUNT
    ensures !Broken(Stopped(t, stops, rootFlag))
    ensures Run(Stopped(t, stops, rootFlag), 0, COUNT, rootFlag) == Run(t, 0, COUNT, rootFlag)
  {
    StoppedIsRun(t, stops, rootFlag);
    NeverBroken(t, 0, Furthest(stops), rootFlag);
    RunAgain(t, Furthest(stops), COUNT, rootFlag);
  }

  // ----- rights -----

  /** A table as 0069 leaves it: one of three roles on every link, no split columns. */
  ghost predicate Canonical(t: Table, rootFlag: bool) {
    && t.hasRole && !t.hasManager && !t.hasPortal && t.checks == {} && t.hasRoot == rootFlag
    && forall id <- t.rows :: CanonicalLink(t.rows[id], rootFlag)
  }

  predicate CanonicalLink(l: Link, rootFlag: bool) {
    && l.role.Some? && l.role.value in PORTAL + {AccountAdministrator}
    && l.manager.None? && l.portal.None? && (rootFlag || l.root.None?)
  }

  function RightNow(l: Link): Right {
    if l.root == Some(true) || l.role == Some(AccountAdministrator) then Manager
    else if l.role.Some? then Portal(l.role.value) else NoRight
  }

  function SplitLink(l: Link): Link {
    match RightNow(l)
    case Manager => Link(None, None, Some(AccountAdministrator), None, l.browser)
    case Portal(role) => Link(None, None, None, Some(role), Some(false))
    case NoRight => l
  }

  /** The columns that 0122 keeps. */
  function Kept(l: Link): Link { l.(role := None, root := None) }

  function Updated(l: Link, rootFlag: bool): Link { WithBrowser(WithPortal(WithManager(l, rootFlag), rootFlag)) }

  lemma UpdatedIsSplit(l: Link, rootFlag: bool)
    requires CanonicalLink(l, rootFlag)
    ensures Kept(Updated(l, rootFlag)) == SplitLink(l)
    ensures forall c: Check :: Condition(c, Updated(l, rootFlag)) == True
  {
    forall c: Check ensures Condition(c, Updated(l, rootFlag)) == True {
      match c
      case ManagerRole =>
      case PortalRole =>
      case HasRole =>
      case ManagerBrowserRole =>
    }
  }

  ghost predicate SameKept(a: map<int, Link>, b: map<int, Link>) {
    a.Keys == b.Keys && forall id <- a :: Kept(a[id]) == Kept(b[id])
  }

  lemma LaterStepKeeps(t: Table, k: nat, rootFlag: bool)
    requires 5 <= k < COUNT
    ensures SameKept(t.rows, Exec(t, StepAt(k), rootFlag).rows)
  {
    assert !IsUpdate(StepAt(k));
  }

  /** After the updates the kept columns of the rows do not change any more. */
  lemma {:induction false} LaterStepsKeep(t: Table, k: nat, n: nat, rootFlag: bool)
    requires 5 <= k <= n <= COUNT
    ensures SameKept(t.rows, Run(t, k, n, rootFlag).rows)
    decreases n - k
  {
    if k < n {
      LaterStepKeeps(t, k, rootFlag);
      LaterStepsKeep(Exec(t, StepAt(k), rootFlag), k + 1, n, rootFlag);
    }
  }

  lemma UpdatedRowsAre(rows: map<int, Link>, rootFlag: bool)
    ensures UpdatedRows(rows, rootFlag).Keys == rows.Keys
    ensures forall id <- rows :: UpdatedRows(rows, rootFlag)[id] == Updated(rows[id], rootFlag)
  {
    var a := Rows(rows, SetManager, rootFlag);
    var b := Rows(a, SetPortal, rootFlag);
    assert forall id <- rows :: a[id] == WithManager(rows[id], rootFlag);
    assert forall id <- rows :: b[id] == WithPortal(a[id], rootFlag);
  }

  lemma {:induction false} RowsAfterUpdates(t: Table, n: nat, rootFlag: bool)
    requires Canonical(t, rootFlag) && 5 <= n <= COUNT
    ensures var r := Run(t, 0, n, rootFlag);
            r.rows.Keys == t.rows.Keys && forall id <- t.rows :: Kept(r.rows[id]) == Kept(Updated(t.rows[id], rootFlag))
  {
    var rows := UpdatedRows(t.rows, rootFlag);
    var t5 := t.(hasManager := true, hasPortal := true, rows := rows);
    FirstFive(t, rootFlag, t5);
    RunSplits(t, 0, 5, n, rootFlag);
    LaterStepsKeep(t5, 5, n, rootFlag);
    UpdatedRowsAre(t.rows, rootFlag);
  }

  lemma ConditionOfKept(c: Check, l: Link)
    ensures Condition(c, l) == Condition(c, Kept(l))
  {}

  /** Every check constraint in force is true of every link after every statement of every run. */
  lemma {:induction false} ChecksAlwaysHold(t: Table, n: nat, rootFlag: bool, c: Check, id: int)
    requires Canonical(t, rootFlag) && n <= COUNT
    requires c in Run(t, 0, n, rootFlag).checks && id in Run(t, 0, n, rootFlag).rows
    ensures Condition(c, Run(t, 0, n, rootFlag).rows[id]) == True
  {
    var r := Run(t, 0, n, rootFlag);
    if n < 5 {
      NoChecksYet(t, 0, n, rootFlag);
    } else {
      RowsAfterUpdates(t, n, rootFlag);
      UpdatedIsSplit(t.rows[id], rootFlag);
      ConditionOfKept(c, r.rows[id]);
      ConditionOfKept(c, Updated(t.rows[id], rootFlag));
    }
  }

  lemma {:induction false} NoChecksYet(t: Table, k: nat, n: nat, rootFlag: bool)
    requires k <= n <= 5 && t.checks == {}
    ensures Run(t, k, n, rootFlag).checks == {}
    decreases n - k
  {
    if k < n {
      NoChecksYet(Exec(t, StepAt(k), rootFlag), k + 1, n, rootFlag);
    }
  }

  lemma AllChecks(c: Check) returns (k: nat)
    ensures k < COUNT && StepAt(k) == AddCheck(c)
  {
    k := match c case ManagerRole => 6 case PortalRole => 7 case HasRole => 8 case ManagerBrowserRole => 9;
  }

  lemma ColumnsDone(t: Table, rootFlag: bool)
    requires AllDone(t, COUNT, rootFlag)
    ensures !t.hasRole && (rootFlag ==> !t.hasRoot)
  {
    assert Done(t, StepAt(10), rootFlag);
    assert Done(t, StepAt(11), rootFlag);
  }

  lemma RootStaysOnce(t: Table, s: Step)
    ensures Exec(t, s, false).hasRoot == t.hasRoot
  {}

  lemma {:induction false} ColumnsGone(t: Table, rootFlag: bool)
    requires t.hasRoot == rootFlag
    ensures var r := Run(t, 0, COUNT, rootFlag);
            !r.hasRole && !r.hasRoot && forall c: Check :: c in r.checks
  {
    RunIsDone(t, 0, COUNT, rootFlag);
    var r := Run(t, 0, COUNT, rootFlag);
    ColumnsDone(r, rootFlag);
    forall c: Check ensures c in r.checks {
      var k := AllChecks(c);
      assert Done(r, StepAt(k), rootFlag);
    }
    if !rootFlag {
      RootStays(t, 0, COUNT);
    }
  }

  lemma {:induction false} RootStays(t: Table, k: nat, n: nat)
    requires k <= n <= COUNT
    ensures Run(t, k, n, false).hasRoot == t.hasRoot
    decreases n - k
  {
    if k < n {
      RootStaysOnce(t, StepAt(k));
      RootStays(Exec(t, StepAt(k), false), k + 1, n);
    }
  }

  /** A column that is gone holds nothing. */
  ghost predicate GoneIsEmpty(t: Table, id: int) {
    id in t.rows && (!t.hasRole ==> t.rows[id].role.None?) && (!t.hasRoot ==> t.rows[id].root.None?)
  }

  lemma RowStaysEmpty(l: Link, s: Step, rootFlag: bool)
    ensures s != DropRole ==> RowExec(l, s, rootFlag).role == l.role
    ensures s != DropRoot ==> RowExec(l, s, rootFlag).root == l.root
  {}

  lemma SchemaDrops(t: Table, s: Step)
    ensures SchemaExec(t, s).hasRole == (t.hasRole && s != DropRole)
    ensures SchemaExec(t, s).hasRoot == (t.hasRoot && s != DropRoot)
  {}

  lemma GoneStaysEmpty(t: Table, s: Step, rootFlag: bool, id: int)
    requires GoneIsEmpty(t, id)
    ensures GoneIsEmpty(Exec(t, s, rootFlag), id)
  {
    RowStaysEmpty(t.rows[id], s, rootFlag);
    SchemaDrops(t, s);
  }

  lemma {:induction false} DroppedColumnsAreEmpty(t: Table, k: nat, n: nat, rootFlag: bool, id: int)
    requires k <= n <= COUNT && GoneIsEmpty(t, id)
    ensures GoneIsEmpty(Run(t, k, n, rootFlag), id)
    decreases n - k
  {
    if k < n {
      GoneStaysEmpty(t, StepAt(k), rootFlag, id);
      DroppedColumnsAreEmpty(Exec(t, StepAt(k), rootFlag), k + 1, n, rootFlag, id);
    }
  }

  /** After 0122 every link has exactly the right it had, in its own column, and all four checks hold. */
  lemma {:induction false} RightsArePreserved(t: Table, rootFlag: bool, id: int)
    requires Canonical(t, rootFlag) && id in t.rows
    ensures var r := Run(t, 0, COUNT, rootFlag);
            && r.rows.Keys == t.rows.Keys && r.rows[id] == SplitLink(t.rows[id])
            && (forall c: Check :: c in r.checks && Condition(c, r.rows[id]) == True)
  {
    RowsAfterUpdates(t, COUNT, rootFlag);
    UpdatedIsSplit(t.rows[id], rootFlag);
    ColumnsGone(t, rootFlag);
    DroppedColumnsAreEmpty(t, 0, COUNT, rootFlag, id);
    forall c: Check ensures Condition(c, Run(t, 0, COUNT, rootFlag).rows[id]) == True {
      ChecksAlwaysHold(t, COUNT, rootFlag, c, id);
    }
  }

  /** What a right looks like after 0122. */
  function SplitRight(r: Right, browser: Option<bool>): Link {
    match r
    case Manager => Link(None, None, Some(AccountAdministrator), None, browser)
    case Portal(role) => Link(None, None, None, Some(role), Some(false))
    case NoRight => Link(None, None, None, None, browser)
  }

  /** A link between the two migrations. */
  function Between(l: Legacy, role: Role, browser: Option<bool>): Link { Link(Some(role), l.root, None, None, browser) }

  lemma CarriesRight(l: Legacy, role: Role, browser: Option<bool>, rootFlag: bool)
    requires Carries(l, role) && (rootFlag || l.root.None?)
    ensures CanonicalLink(Between(l, role, browser), rootFlag)
    ensures SplitLink(Between(l, role, browser)) == SplitRight(RightOf(l), browser)
  {}

  lemma {:induction false} SplitKeepsRights(
    t: Table, links: map<int, Legacy>, roles: map<int, Role>, browser: map<int, Option<bool>>,
      rootFlag: bool)
    requires RootFits(links, rootFlag) && roles.Keys <= links.Keys <= browser.Keys && t.rows.Keys == roles.Keys
    requires forall id <- roles :: Carries(links[id], roles[id])
    requires forall id <- roles :: t.rows[id] == Between(links[id], roles[id], browser[id])
    requires t.hasRole && !t.hasManager && !t.hasPortal && t.checks == {} && t.hasRoot == rootFlag
    ensures var r := Run(t, 0, COUNT, rootFlag);
            r.rows.Keys == roles.Keys && forall id <- roles :: r.rows[id] == SplitRight(RightOf(links[id]), browser[id])
  {
    var r := Run(t, 0, COUNT, rootFlag);
    forall id | id in roles
      ensures CanonicalLink(t.rows[id], rootFlag)
      ensures SplitLink(t.rows[id]) == SplitRight(RightOf(links[id]), browser[id])
    {
      CarriesRight(links[id], roles[id], browser[id], rootFlag);
    }
    RowsAfterUpdates(t, COUNT, rootFlag);
    forall id | id in roles ensures r.rows[id] == SplitLink(t.rows[id]) {
      RightsArePreserved(t, rootFlag, id);
    }
  }

  /** What becomes of a link, column by column: an administrator or root gets the Manager role and keeps the browser
      flag, a Portal user or manager who is no administrator gets that Portal role and no browser, all others are
      removed. */
  predicate IsSplit(before: Legacy, browser: Option<bool>, after: Option<Link>) {
    if before.root == Some(true) || before.admin == Some(true)
    then after == Some(Link(None, None, Some(AccountAdministrator), None, browser))
    else if before.admin == Some(false) && before.accountRole == Some(PortalUser)
    then after == Some(Link(None, None, None, Some(PortalUser), Some(false)))
    else if before.admin == Some(false) && before.accountRole == Some(PortalManager)
    then after == Some(Link(None, None, None, Some(PortalManager), Some(false)))
    else after.None?
  }

  lemma RightIsSplit(l: Legacy, browser: Option<bool>)
    ensures IsSplit(l, browser, if RightOf(l) == NoRight then None else Some(SplitRight(RightOf(l), browser)))
  {}

  /** The four conditions without SQL's logic. */
  predicate Fits(c: Check, l: Link) {
    match c
    case ManagerRole => l.manager.None? || l.manager == Some(AccountAdministrator)
    case PortalRole => l.portal.None? || l.portal == Some(PortalUser) || l.portal == Some(PortalManager)
    case HasRole => l.manager.Some? || l.portal.Some?
    case ManagerBrowserRole => l.browser == Some(false) || l.manager == Some(AccountAdministrator)
  }

  lemma ConditionFits(c: Check, l: Link)
    ensures Condition(c, l) == True <==> Fits(c, l)
  {}

  /** From the links before 0069 to those after 0122: the same links but those without rights, each with its own right
      and browser access only for Managers. */
  method MigrateTwice(links: map<int, Legacy>, rootFlag: bool, browser: map<int, Option<bool>>)
      returns (rows: map<int, Link>)
    requires RootFits(links, rootFlag) && links.Keys <= browser.Keys
    ensures rows.Keys <= links.Keys && forall id <- links :: id in rows <==> RightOf(links[id]) != NoRight
    ensures forall id <- rows :: rows[id] == SplitRight(RightOf(links[id]), browser[id])
    ensures forall id <- links :: IsSplit(links[id], browser[id], if id in rows then Some(rows[id]) else None)
  {
    var roles := MigrateAccountLinks(links, rootFlag);
    var between := map id | id in roles :: Between(links[id], roles[id], browser[id]);
    var start := Table(between, true, rootFlag, false, false, true, {});
    SplitKeepsRights(start, links, roles, browser, rootFlag);
    var _, end := AddSplitRoles(start, rootFlag);
    rows := end.rows;
    forall id | id in links
      ensures IsSplit(links[id], browser[id], if id in rows then Some(rows[id]) else None)
    {
      RightIsSplit(links[id], browser[id]);
    }
  }
}
