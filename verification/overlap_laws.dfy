/**
 * What overlapping sessions keep of the finding-group lifecycle, and exactly when they do not
 * (backend/app/services/github_finding_closure_rules.py, github_finding_reconcile.py, github_finding_judge.py,
 * github_finding_closure.py, github_finding_head_suppression.py, github_publish.py).
 */
module OverlapLaws {
  import opened Options
  import opened Fingerprints
  import opened Findings
  import opened Reconcile
  import opened Identity
  import opened Closure
  import opened Lifecycle
  import opened Overlap

  /**
   * Dismissed groups keep their resolution; an unresolved group has no method or that of a HEAD contradiction; a
   * resolved group has a method.
   */
  datatype Law = DismissalsStay | ActiveMethods | ResolvedMethods

  predicate RowLaw(law: Law, g: Group) {
    match law
    case DismissalsStay => true
    case ActiveMethods => g.state != Resolved ==> g.resolution == None || HeadMethod(g)
    case ResolvedMethods => g.state == Resolved ==> g.resolution != None
  }

  predicate RowKept(law: Law, c: Group, after: Group) {
    RowLaw(law, after) && (law == DismissalsStay && Terminal(c) ==> SameResolution(c, after))
  }

  ghost predicate Lawful(law: Law, table: Table) {
    forall id | id in table.groups :: RowLaw(law, table.groups[id])
  }

  ghost predicate Keeps(law: Law, before: Table, after: Table) {
    && (forall id | id in before.groups :: id in after.groups && RowKept(law, before.groups[id], after.groups[id]))
    && Lawful(law, after)
  }

  // ---------- When a write breaks a law ----------

  /** The writer's method or revision is neither the one it loaded nor the one stored by now. */
  predicate BringsNews(writer: Writer, l: Group, c: Group)
    requires !writer.Reconciling? && !writer.Stamping?
  {
    || writer.Dismissing?
    || (l.resolution != MethodOf(writer) && c.resolution != MethodOf(writer))
    || (l.resolvedAt != Some(writer.revision) && c.resolvedAt != Some(writer.revision))
  }

  /** `l` is the row as loaded and selected by the writer, `c` the row as it is when the session writes. */
  predicate Endangers(law: Law, writer: Writer, l: Group, c: Group) {
    match law
    case DismissalsStay =>
      Terminal(c) && (!writer.Reconciling? && !writer.Stamping? ==> BringsNews(writer, l, c))
    case ActiveMethods => writer.Reconciling? && !ShouldReopen(l) && c.resolution != None && !HeadMethod(c)
    case ResolvedMethods =>
      !writer.Reconciling? && !writer.Stamping? && l.resolution == MethodOf(writer) && c.resolution == None
  }

  /**
   * The session loaded the group as one it writes, and the row has changed since so that this write breaks the law.
   * A reconciliation is only stored when no fingerprint it creates has been taken meanwhile.
   */
  ghost predicate Endangered(law: Law, scope: Scope, s: Shared, x: nat, id: GroupId) {
    x in s.open && id in s.table.groups &&
    var writer, loaded := s.open[x].writer, s.open[x].loaded;
    && Selects(scope, writer, loaded, s.table.nextId, id)
    && Endangers(law, writer, loaded.groups[id], s.table.groups[id])
    && (writer.Reconciling? ==>
          UniqueFingerprints(Stored(scope, s.table, loaded, ReconcileRun(writer.findings, writer.revision))))
  }

  // ---------- One row ----------

  lemma KeptRow(law: Law, l: Group, t: Group, c: Group)
    requires SameResolution(l, t) && RowLaw(law, c)
    ensures RowKept(law, c, MergedGroup(l, t, c))
  {
  }

  lemma ResolvedRow(law: Law, writer: Writer, l: Group, t: Group, c: Group)
    requires Resolution(writer, l, t) && RowLaw(law, c)
    ensures !Endangers(law, writer, l, c) ==> RowKept(law, c, MergedGroup(l, t, c))
    ensures Endangers(law, writer, l, c)
      && (writer.Dismissing? ==> t.resolvedAt != l.resolvedAt && t.resolvedAt != c.resolvedAt)
      ==> !RowKept(law, c, MergedGroup(l, t, c))
  {
  }

  lemma ActivatedRow(law: Law, writer: Writer, l: Group, t: Group, c: Group)
    requires writer.Reconciling? && Activation(l, t) && RowLaw(law, c)
    ensures RowKept(law, c, MergedGroup(l, t, c)) <==> !Endangers(law, writer, l, c)
  {
  }

  lemma SameRow(law: Law, c: Group)
    requires RowLaw(law, c)
    ensures RowKept(law, c, c)
  {
  }

  // ---------- One write ----------

  lemma NewRowIsLawful(law: Law, scope: Scope, loaded: Table, nextId: GroupId, writer: Writer, op: Op, id: GroupId)
    requires ValidTable(loaded) && loaded.nextId <= nextId && Decides(writer, op) && id !in loaded.groups
    requires id in Target(scope, loaded, nextId, op).groups
    ensures RowLaw(law, Target(scope, loaded, nextId, op).groups[id])
  {
    if op.ReconcileRun? {
      LinkedIsActivated(scope, loaded.(nextId := nextId), op.findings, op.revision, {}, id);
    } else {
      KeysKept(loaded.groups, op);
    }
  }

  /** A row nobody endangers is kept by any decision that is stored. */
  lemma WriteKeepsRow(law: Law, scope: Scope, s: Shared, x: nat, op: Op, id: GroupId)
    requires ValidShared(s) && Lawful(law, s.table) && x in s.open && Decides(s.open[x].writer, op)
    requires UniqueFingerprints(Stored(scope, s.table, s.open[x].loaded, op))
    requires id in s.table.groups && !Endangered(law, scope, s, x, id)
    ensures RowKept(law, s.table.groups[id], Stored(scope, s.table, s.open[x].loaded, op)[id])
  {
    var writer, loaded := s.open[x].writer, s.open[x].loaded;
    var c := s.table.groups[id];
    hide Target, MergedGroup, Selects, Resolution, Activation, Endangers, RowKept, RowLaw, SameResolution;
    SameRow(law, c);
    if id in loaded.groups {
      TargetChange(scope, loaded, s.table.nextId, writer, op, id);
      var l, t := loaded.groups[id], Target(scope, loaded, s.table.nextId, op).groups[id];
      if SameResolution(l, t) {
        KeptRow(law, l, t, c);
      } else if writer.Reconciling? {
        ActivatedRow(law, writer, l, t, c);
      } else {
        ResolvedRow(law, writer, l, t, c);
      }
    }
  }

  lemma UnendangeredWriteKeeps(law: Law, scope: Scope, s: Shared, x: nat, op: Op)
    requires ValidShared(s) && Lawful(law, s.table) && x in s.open && Decides(s.open[x].writer, op)
    requires forall id :: !Endangered(law, scope, s, x, id)
    ensures Keeps(law, s.table, Next(scope, s, Write(x, op)).table)
  {
    var writer, loaded := s.open[x].writer, s.open[x].loaded;
    var stored := Stored(scope, s.table, loaded, op);
    var after := Next(scope, s, Write(x, op)).table;
    hide Target, Endangered, RowKept, RowLaw;
    if UniqueFingerprints(stored) {
      assert after.groups == stored;
      forall id | id in s.table.groups ensures id in stored && RowKept(law, s.table.groups[id], stored[id]) {
        WriteKeepsRow(law, scope, s, x, op, id);
      }
      forall id | id in stored ensures RowLaw(law, stored[id]) {
        if id in s.table.groups {
          KeptIsLawful(law, s.table.groups[id], stored[id]);
        } else {
          NewRowIsLawful(law, scope, loaded, s.table.nextId, writer, op, id);
        }
      }
    } else {
      forall id | id in s.table.groups ensures RowKept(law, s.table.groups[id], s.table.groups[id]) {
        SameRow(law, s.table.groups[id]);
      }
    }
  }

  lemma KeptIsLawful(law: Law, c: Group, after: Group)
    requires RowKept(law, c, after)
    ensures RowLaw(law, after)
  {
  }

  /** A head revision the group has not been resolved at, before or now. */
  function NewHead(l: Group, c: Group): Revision {
    var before := if l.resolvedAt.Some? then l.resolvedAt.value else 0;
    var now := if c.resolvedAt.Some? then c.resolvedAt.value else 0;
    before + now + 1
  }

  lemma EndangeredWriteBreaks(law: Law, scope: Scope, s: Shared, x: nat, id: GroupId)
    requires ValidShared(s) && Lawful(law, s.table) && Endangered(law, scope, s, x, id)
    ensures exists op :: Decides(s.open[x].writer, op) && !Keeps(law, s.table, Next(scope, s, Write(x, op)).table)
  {
    var writer, loaded := s.open[x].writer, s.open[x].loaded;
    var l, c := loaded.groups[id], s.table.groups[id];
    var op := ResolvingOp(writer, l, id, NewHead(l, c));
    SelectedIsChanged(scope, loaded, s.table.nextId, writer, id, NewHead(l, c));
    var t := Target(scope, loaded, s.table.nextId, op).groups[id];
    if writer.Reconciling? {
      ActivatedRow(law, writer, l, t, c);
    } else {
      PlainWriteIsStored(scope, s.table, loaded, op);
      ResolvedRow(law, writer, l, t, c);
    }
    hide Target, Selects, MergedGroup, Endangers, RowKept, RowLaw, Resolution, Activation, UniqueFingerprints;
    var after := Next(scope, s, Write(x, op)).table;
    assert after.groups == Stored(scope, s.table, loaded, op);
    assert after.groups[id] == MergedGroup(l, t, c);
    assert !Keeps(law, s.table, after);
  }

  /**
   * From a lawful state, a session's write keeps the law in all decisions it may come to, if and only if it endangers
   * no group: none that it had loaded as one it writes has changed since in the way that breaks the law.
   */
  lemma WriteKeepsIff(law: Law, scope: Scope, s: Shared, x: nat)
    requires ValidShared(s) && Lawful(law, s.table) && x in s.open
    ensures (forall op | Decides(s.open[x].writer, op) :: Keeps(law, s.table, Next(scope, s, Write(x, op)).table))
       <==> (forall id :: !Endangered(law, scope, s, x, id))
  {
    hide Endangered, Keeps, Lawful, Next, Decides;
    if id :| Endangered(law, scope, s, x, id) {
      EndangeredWriteBreaks(law, scope, s, x, id);
    } else {
      forall op | Decides(s.open[x].writer, op) ensures Keeps(law, s.table, Next(scope, s, Write(x, op)).table) {
        UnendangeredWriteKeeps(law, scope, s, x, op);
      }
    }
  }

  /** An endangered group is one the load found in another state than it is in now. */
  lemma EndangeredHasChanged(law: Law, scope: Scope, s: Shared, x: nat, id: GroupId)
    requires Endangered(law, scope, s, x, id) && RowLaw(law, s.open[x].loaded.groups[id])
    requires law == ResolvedMethods ==> RowLaw(ActiveMethods, s.open[x].loaded.groups[id])
    ensures !SameResolution(s.open[x].loaded.groups[id], s.table.groups[id])
  {
    hide BindAll, Reports;
    if s.open[x].loaded.groups[id].state == Resolved {
      ResolvedKinds(s.open[x].loaded.groups[id]);
    }
  }

  // ---------- Schedules ----------

  /** At every write of the schedule, each decision the session may come to keeps the law. */
  ghost predicate KeptInAllDecisions(law: Law, scope: Scope, s: Shared, schedule: seq<Event>)
    decreases |schedule|
  {
    schedule != [] ==>
      && (schedule[0].Write? && schedule[0].session in s.open ==>
            forall op | Decides(s.open[schedule[0].session].writer, op) ::
              Keeps(law, s.table, Next(scope, s, Write(schedule[0].session, op)).table))
      && KeptInAllDecisions(law, scope, Next(scope, s, schedule[0]), schedule[1..])
  }

  /** No write of the schedule endangers a group: nothing that matters to it happened since its session's load. */
  ghost predicate NoneEndangered(law: Law, scope: Scope, s: Shared, schedule: seq<Event>)
    decreases |schedule|
  {
    schedule != [] ==>
      && (schedule[0].Write? ==> forall id :: !Endangered(law, scope, s, schedule[0].session, id))
      && NoneEndangered(law, scope, Next(scope, s, schedule[0]), schedule[1..])
  }

  lemma OneEventKeeps(law: Law, scope: Scope, s: Shared, e: Event)
    requires ValidShared(s) && Lawful(law, s.table)
    requires e.Write? ==> forall id :: !Endangered(law, scope, s, e.session, id)
    ensures Keeps(law, s.table, Next(scope, s, e).table)
  {
    hide Written, Endangered, ValidTable, RowKept, RowLaw;
    if e.Write? && e.session in s.open && Decides(s.open[e.session].writer, e.op) {
      UnendangeredWriteKeeps(law, scope, s, e.session, e.op);
    } else {
      forall id | id in s.table.groups ensures RowKept(law, s.table.groups[id], s.table.groups[id]) {
        SameRow(law, s.table.groups[id]);
      }
    }
  }

  /** Over every schedule of overlapping sessions the law is kept in all decisions if and only if no write endangers. */
  lemma {:induction false} LawKeptIff(law: Law, scope: Scope, s: Shared, schedule: seq<Event>)
    requires ValidShared(s) && Lawful(law, s.table)
    ensures KeptInAllDecisions(law, scope, s, schedule) <==> NoneEndangered(law, scope, s, schedule)
    decreases |schedule|
  {
    if schedule != [] {
      var e := schedule[0];
      if e.Write? && e.session in s.open {
        WriteKeepsIff(law, scope, s, e.session);
      }
      NextIsValid(scope, s, e);
      if e.Write? ==> forall id :: !Endangered(law, scope, s, e.session, id) {
        OneEventKeeps(law, scope, s, e);
        hide Next, ValidShared, Endangered, Decides;
        LawKeptIff(law, scope, Next(scope, s, e), schedule[1..]);
      }
    }
  }

  /** Then the law holds to the end of the schedule, and dismissed groups are as they were. */
  lemma {:induction false} LawSurvives(law: Law, scope: Scope, s: Shared, schedule: seq<Event>, id: GroupId)
    requires ValidShared(s) && Lawful(law, s.table) && NoneEndangered(law, scope, s, schedule)
    requires id in s.table.groups
    ensures var after := RunAll(scope, s, schedule).table;
      Lawful(law, after) && id in after.groups && RowKept(law, s.table.groups[id], after.groups[id])
    decreases |schedule|
  {
    if schedule == [] {
      SameRow(law, s.table.groups[id]);
    } else {
      var e := schedule[0];
      NextIsValid(scope, s, e);
      OneEventKeeps(law, scope, s, e);
      hide ValidShared, Next, Endangered, RowLaw;
      var next := Next(scope, s, e);
      LawSurvives(law, scope, next, schedule[1..], id);
      KeptTwice(law, s.table.groups[id], next.table.groups[id], RunAll(scope, next, schedule[1..]).table.groups[id]);
    }
  }

  lemma KeptTwice(law: Law, a: Group, b: Group, c: Group)
    requires RowKept(law, a, b) && RowKept(law, b, c)
    ensures RowKept(law, a, c)
  {
  }

  // ---------- Failing schedules ----------

  /** A session that loads the table, then two others that run alone one after the other, then its write. */
  function OverlappedTwice(writer: Writer, w1: Writer, op1: Op, w2: Writer, op2: Op, op: Op): seq<Event> {
    [Load(0, writer)] + (Alone(1, w1, op1) + (Alone(2, w2, op2) + [Write(0, op)]))
  }

  /** The same with one other session. */
  function OverlappedOnce(writer: Writer, w1: Writer, op1: Op, op: Op): seq<Event> {
    [Load(0, writer)] + (Alone(1, w1, op1) + [Write(0, op)])
  }

  lemma LastWrite(scope: Scope, s: Shared, op: Op, rest: seq<Event>)
    requires 0 in s.open && Decides(s.open[0].writer, op)
    ensures RunAll(scope, s, [Write(0, op)] + rest)
         == RunAll(scope, Shared(Written(scope, s.table, s.open[0].loaded, op), s.open - {0}), rest)
  {
    RunAllStep(scope, s, Write(0, op), rest);
  }

  lemma RunOverlappedOnce(scope: Scope, table: Table, writer: Writer, w1: Writer, op1: Op, op: Op, rest: seq<Event>)
    requires ValidTable(table) && Decides(writer, op) && Decides(w1, op1)
    ensures var s := Shared(Apply(scope, table, op1), map[0 := Session(writer, table)]);
      && ValidShared(s)
      && RunAll(scope, Shared(table, map[]), OverlappedOnce(writer, w1, op1, op) + rest)
           == RunAll(scope, Shared(Written(scope, s.table, table, op), map[]), rest)
  {
    var s0 := Shared(table, map[]);
    var s1 := Next(scope, s0, Load(0, writer));
    var s2 := Shared(Apply(scope, table, op1), s1.open);
    assert s1 == Shared(table, map[0 := Session(writer, table)]);
    assert OverlappedOnce(writer, w1, op1, op) + rest
        == [Load(0, writer)] + (Alone(1, w1, op1) + ([Write(0, op)] + rest));
    RunAllStep(scope, s0, Load(0, writer), Alone(1, w1, op1) + ([Write(0, op)] + rest));
    NextIsValid(scope, s0, Load(0, writer));
    hide RunAll, Apply, Next, ValidShared, Written, Decides;
    AloneIsAtomic(scope, s1, 1, w1, op1, [Write(0, op)] + rest);
    LastWrite(scope, s2, op, rest);
    assert s2.open - {0} == map[];
  }

  lemma RunOverlappedTwice(scope: Scope, table: Table, writer: Writer, w1: Writer, op1: Op, w2: Writer, op2: Op, op: Op)
    requires ValidTable(table) && Decides(writer, op) && Decides(w1, op1) && Decides(w2, op2)
    ensures var s := Shared(Apply(scope, Apply(scope, table, op1), op2), map[0 := Session(writer, table)]);
      && ValidShared(s)
      && RunAll(scope, Shared(table, map[]), OverlappedTwice(writer, w1, op1, w2, op2, op))
           == Shared(Written(scope, s.table, table, op), map[])
  {
    var s0 := Shared(table, map[]);
    var s1 := Next(scope, s0, Load(0, writer));
    var s2 := Shared(Apply(scope, table, op1), s1.open);
    var s3 := Shared(Apply(scope, s2.table, op2), s1.open);
    assert s1 == Shared(table, map[0 := Session(writer, table)]);
    RunAllStep(scope, s0, Load(0, writer), Alone(1, w1, op1) + (Alone(2, w2, op2) + [Write(0, op)]));
    NextIsValid(scope, s0, Load(0, writer));
    assert RunAll(scope, Shared(Written(scope, s3.table, table, op), map[]), [])
        == Shared(Written(scope, s3.table, table, op), map[]);
    hide RunAll, Apply, Next, ValidShared, Written, Decides;
    AloneIsAtomic(scope, s1, 1, w1, op1, Alone(2, w2, op2) + [Write(0, op)]);
    AloneIsAtomic(scope, s2, 2, w2, op2, [Write(0, op)]);
    LastWrite(scope, s3, op, []);
    assert [Write(0, op)] + [] == [Write(0, op)];
    assert s3.open - {0} == map[];
  }

  /** A finding whose fingerprint is stored binds to that group, and nothing else changes. */
  lemma BindsToOwnGroup(scope: Scope, table: Table, f: Finding, revision: Revision, id: GroupId)
    requires ValidTable(table) && id in table.groups && table.groups[id].fingerprint == FindingFingerprint(scope, f)
    ensures Apply(scope, table, ReconcileRun([f], revision))
         == table.(groups := table.groups[id := Rebound(scope, table.groups[id], f, revision, ByFingerprint)])
  {
    hide FindingFingerprint, FindingLegacy, Rebound;
    var first := Bind(scope, table, f, revision, {});
    assert first.link == Link(id, ByFingerprint);
    assert [f][0] == f && [f][1..] == [];
    assert BindAll(scope, first.table, [f][1..], revision, {} + {first.link.id}) == Linked(first.table, []);
    assert BindAll(scope, table, [f], revision, {}).table == first.table;
  }

  lemma StoredRow(scope: Scope, current: Table, loaded: Table, op: Op, id: GroupId)
    requires ValidTable(current) && Earlier(loaded, current) && id in loaded.groups
    requires Target(scope, loaded, current.nextId, op).groups.Keys == loaded.groups.Keys
    ensures var after := Written(scope, current, loaded, op).groups;
      && id in after
      && after[id] == MergedGroup(loaded.groups[id], Target(scope, loaded, current.nextId, op).groups[id],
                                  current.groups[id])
  {
    PlainWriteIsStored(scope, current, loaded, op);
    hide Target, MergedGroup, UniqueFingerprints;
  }

  /** The table after a writer overwrote the dismissal that a human made since its load. */
  lemma Overwritten(scope: Scope, table: Table, writer: Writer, id: GroupId, head: Revision)
    requires ValidTable(table) && Selects(scope, writer, table, table.nextId, id)
    requires !writer.Reconciling? && !writer.Dismissing?
    requires table.groups[id].state == Active && table.groups[id].resolution == None
    ensures var op := ResolvingOp(writer, table.groups[id], id, head);
      var after := Written(scope, Apply(scope, table, HumanDismissal(id, Some(head))), table, op);
      && Decides(writer, op) && ValidTable(after) && id in after.groups
      && after.groups[id].fingerprint == table.groups[id].fingerprint
      && after.groups[id].state == Resolved && after.groups[id].resolution == MethodOf(writer)
  {
    var l := table.groups[id];
    var dismissal, op := HumanDismissal(id, Some(head)), ResolvingOp(writer, l, id, head);
    var current := Apply(scope, table, dismissal);
    assert current == table.(groups := table.groups[id := ResolvedAs(l, HumanDismissed, head)]);
    SelectedIsChanged(scope, table, table.nextId, writer, id, head);
    hide Target, Selects, Written, Apply, ResolvingOp;
    StoredRow(scope, current, table, op, id);
    WriteIsLater(scope, current, table, op);
  }

  lemma RunNothing(scope: Scope, s: Shared)
    ensures RunAll(scope, s, []) == s
  {
  }

  /** Whatever a human dismisses between a writer's load and its write is resolved by that writer's method instead. */
  lemma DismissalIsOverwritten(scope: Scope, table: Table, writer: Writer, id: GroupId, head: Revision)
    requires ValidTable(table) && Selects(scope, writer, table, table.nextId, id)
    requires !writer.Reconciling? && !writer.Dismissing?
    requires table.groups[id].state == Active && table.groups[id].resolution == None
    ensures var schedule := OverlappedOnce(writer, Dismissing(id), HumanDismissal(id, Some(head)),
                                           ResolvingOp(writer, table.groups[id], id, head));
      var after := RunAll(scope, Shared(table, map[]), schedule).table.groups;
      && id in after && after[id].state == Resolved && after[id].resolution == MethodOf(writer) != Some(HumanDismissed)
  {
    var dismissal, op := HumanDismissal(id, Some(head)), ResolvingOp(writer, table.groups[id], id, head);
    assert Decides(Dismissing(id), dismissal);
    hide Selects, Written, RunAll, Apply, ResolvingOp, ValidTable, Decides;
    Overwritten(scope, table, writer, id, head);
    RunOverlappedOnce(scope, table, writer, Dismissing(id), dismissal, op, []);
    var schedule := OverlappedOnce(writer, Dismissing(id), dismissal, op);
    assert schedule + [] == schedule;
    RunNothing(scope, Shared(Written(scope, Apply(scope, table, dismissal), table, op), map[]));
  }

  lemma ReopenedRow(scope: Scope, table: Table, f: Finding, revision: Revision, id: GroupId)
    requires ValidTable(table) && id in table.groups && table.groups[id].fingerprint == FindingFingerprint(scope, f)
    requires ShouldReopen(table.groups[id])
    ensures var after := Apply(scope, table, ReconcileRun([f], revision));
      && after.groups.Keys == table.groups.Keys && after.nextId == table.nextId
      && after.groups[id].state == Active && after.groups[id].resolution == None
  {
    hide Apply, FindingFingerprint, ValidTable;
    BindsToOwnGroup(scope, table, f, revision, id);
  }

  lemma NextReportReopens(scope: Scope, table: Table, f: Finding, revision: Revision, id: GroupId)
    requires ValidTable(table) && id in table.groups && table.groups[id].fingerprint == FindingFingerprint(scope, f)
    requires ShouldReopen(table.groups[id])
    ensures var after := RunAll(scope, Shared(table, map[]),
                                Alone(2, Reconciling([f], revision), ReconcileRun([f], revision))).table.groups;
      id in after && after[id].state == Active && after[id].resolution == None
  {
    var bind, start := ReconcileRun([f], revision), Shared(table, map[]);
    var lone := Alone(2, Reconciling([f], revision), bind);
    hide RunAll, Apply, FindingFingerprint;
    ReopenedRow(scope, table, f, revision, id);
    assert lone + [] == lone;
    AloneIsAtomic(scope, start, 2, Reconciling([f], revision), bind, []);
    RunNothing(scope, Shared(Apply(scope, table, bind), map[]));
  }

  /** When Pass 2 overwrote the dismissal, the next report of the finding opens the group again. */
  lemma DismissedGroupIsReopened(scope: Scope, table: Table, writer: Writer, f: Finding, later: Revision, id: GroupId,
                                 head: Revision)
    requires ValidTable(table) && writer.ClosingAfterRun? && Selects(scope, writer, table, table.nextId, id)
    requires table.groups[id].resolution == None && table.groups[id].fingerprint == FindingFingerprint(scope, f)
    ensures var schedule := OverlappedOnce(writer, Dismissing(id), HumanDismissal(id, Some(head)),
                                           ResolvingOp(writer, table.groups[id], id, head))
                            + Alone(2, Reconciling([f], later), ReconcileRun([f], later));
      var after := RunAll(scope, Shared(table, map[]), schedule).table.groups;
      id in after && after[id].state == Active && after[id].resolution == None
  {
    var dismissal, op := HumanDismissal(id, Some(head)), ResolvingOp(writer, table.groups[id], id, head);
    assert Decides(Dismissing(id), dismissal);
    assert table.groups[id].state == Active;
    hide Selects, RunAll, Written, Apply, ResolvingOp, ValidTable, FindingFingerprint, Decides, Alone;
    Overwritten(scope, table, writer, id, head);
    var closed := Written(scope, Apply(scope, table, dismissal), table, op);
    RunOverlappedOnce(scope, table, writer, Dismissing(id), dismissal, op,
                      Alone(2, Reconciling([f], later), ReconcileRun([f], later)));
    NextReportReopens(scope, closed, f, later, id);
  }

  lemma BoundThenWritten(scope: Scope, table: Table, f: Finding, revision: Revision, op: Op, id: GroupId)
    requires ValidTable(table) && id in table.groups && table.groups[id].fingerprint == FindingFingerprint(scope, f)
    requires !op.ReconcileRun?
    ensures var bound := table.groups[id := Rebound(scope, table.groups[id], f, revision, ByFingerprint)];
      && Apply(scope, Apply(scope, table, ReconcileRun([f], revision)), op)
           == table.(groups := WrittenGroups(bound, op))
      && WrittenGroups(bound, op).Keys == table.groups.Keys
  {
    hide WrittenGroups, BindAll, Rebound, FindingFingerprint, ValidTable;
    BindsToOwnGroup(scope, table, f, revision, id);
    KeysKept(table.groups[id := Rebound(scope, table.groups[id], f, revision, ByFingerprint)], op);
  }

  /** A reconciliation that loaded the group as resolved by a HEAD contradiction only wants to set it active. */
  lemma ReactivationTarget(scope: Scope, table: Table, f: Finding, revision: Revision, id: GroupId)
    requires ValidTable(table) && id in table.groups && table.groups[id].fingerprint == FindingFingerprint(scope, f)
    requires table.groups[id].state == Resolved && HeadMethod(table.groups[id])
    ensures var target := Target(scope, table, table.nextId, ReconcileRun([f], revision)).groups;
      && target.Keys == table.groups.Keys
      && target[id].state == Active && target[id].resolution == table.groups[id].resolution
  {
    assert table.(nextId := table.nextId) == table;
    hide WrittenGroups, BindAll, FindingFingerprint, ValidTable;
    BindsToOwnGroup(scope, table, f, revision, id);
  }

  /** A new state with the loaded method goes beside whatever method is stored by now. */
  lemma OnlyStateChanged(l: Group, t: Group, c: Group)
    requires t.state != l.state && t.resolution == l.resolution
    ensures MergedGroup(l, t, c).state == t.state && MergedGroup(l, t, c).resolution == c.resolution
  {
  }

  /** The group as reconciled by another run and then resolved, between the load of a reconciliation and its write. */
  lemma LateActivation(scope: Scope, table: Table, f: Finding, revision: Revision, other: Revision, w2: Writer, op2: Op,
                       id: GroupId)
    requires ValidTable(table) && id in table.groups && table.groups[id].fingerprint == FindingFingerprint(scope, f)
    requires table.groups[id].state == Resolved && HeadMethod(table.groups[id])
    requires !op2.ReconcileRun? && Decides(w2, op2)
    ensures var schedule := OverlappedTwice(Reconciling([f], revision), Reconciling([f], other),
                                            ReconcileRun([f], other), w2, op2, ReconcileRun([f], revision));
      var bound := table.groups[id := Rebound(scope, table.groups[id], f, other, ByFingerprint)];
      var after := RunAll(scope, Shared(table, map[]), schedule).table.groups;
      && id in after && id in WrittenGroups(bound, op2)
      && after[id].state == Active && after[id].resolution == WrittenGroups(bound, op2)[id].resolution
  {
    var first, last := ReconcileRun([f], other), ReconcileRun([f], revision);
    var current := Apply(scope, Apply(scope, table, first), op2);
    assert Decides(Reconciling([f], revision), last) && Decides(Reconciling([f], other), first);
    hide Target, Written, RunAll, Apply, WrittenGroups, MergedGroup, FindingFingerprint, ValidTable, Decides, Rebound;
    BoundThenWritten(scope, table, f, other, op2, id);
    ReactivationTarget(scope, table, f, revision, id);
    RunOverlappedTwice(scope, table, Reconciling([f], revision), Reconciling([f], other), first, w2, op2, last);
    StoredRow(scope, current, table, last, id);
    OnlyStateChanged(table.groups[id], Target(scope, table, current.nextId, last).groups[id], current.groups[id]);
  }

  /**
   * Two runs load a group that a HEAD contradiction resolved; the first binds it and it is resolved again before the
   * second writes. The group ends active with the method of that resolution: dismissed by a human, or closed by Pass 2.
   */
  lemma ActiveWithForeignMethod(scope: Scope, table: Table, f: Finding, revision: Revision, other: Revision,
                                head: Revision, closing: Revision, id: GroupId)
    requires ValidTable(table) && id in table.groups && table.groups[id].fingerprint == FindingFingerprint(scope, f)
    requires table.groups[id].state == Resolved && HeadMethod(table.groups[id]) && table.groups[id].blocked == None
    requires closing != other
    ensures var late, first := Reconciling([f], revision), Reconciling([f], other);
      var start, bind, last := Shared(table, map[]), ReconcileRun([f], other), ReconcileRun([f], revision);
      var dismissal, closure := HumanDismissal(id, Some(head)), Pass2Closure([], closing, Some({other}), {});
      var pass2 := ClosingAfterRun([], closing, Some({other}));
      var dismissed := RunAll(scope, start, OverlappedTwice(late, first, bind, Dismissing(id), dismissal, last))
                         .table.groups;
      var closed := RunAll(scope, start, OverlappedTwice(late, first, bind, pass2, closure, last)).table.groups;
      && id in dismissed && dismissed[id].state == Active && dismissed[id].resolution == Some(HumanDismissed)
      && id in closed && closed[id].state == Active && closed[id].resolution == Some(AbsentAndAddressed)
  {
    var dismissal, closure := HumanDismissal(id, Some(head)), Pass2Closure([], closing, Some({other}), {});
    var bound := table.groups[id := Rebound(scope, table.groups[id], f, other, ByFingerprint)];
    assert WrittenGroups(bound, dismissal)[id].resolution == Some(HumanDismissed);
    assert WrittenGroups(bound, closure)[id].resolution == Some(AbsentAndAddressed);
    hide RunAll, WrittenGroups, Rebound, OverlappedTwice, ValidTable, FindingFingerprint;
    LateActivation(scope, table, f, revision, other, Dismissing(id), dismissal, id);
    LateActivation(scope, table, f, revision, other, ClosingAfterRun([], closing, Some({other})), closure, id);
  }

  lemma ClosedRow(scope: Scope, table: Table, closing: Revision, id: GroupId)
    requires ValidTable(table) && id in table.groups && table.groups[id].lastSeen != closing
    requires table.groups[id].state == Active && table.groups[id].blocked == None
    ensures var closed := Apply(scope, table, Pass2Closure([], closing, Some({table.groups[id].lastSeen}), {}));
      && ValidTable(closed) && closed.groups.Keys == table.groups.Keys && closed.nextId == table.nextId
      && closed.groups[id] == ResolvedAs(table.groups[id], AbsentAndAddressed, closing)
  {
    var closure := Pass2Closure([], closing, Some({table.groups[id].lastSeen}), {});
    ApplyKeepsValid(scope, table, closure);
    KeysKept(table.groups, closure);
    hide ValidTable;
  }

  /** A group that Pass 2 closes and the next report opens again. */
  lemma ClosedAndReopened(scope: Scope, table: Table, f: Finding, closing: Revision, reopening: Revision, id: GroupId)
    requires ValidTable(table) && id in table.groups && table.groups[id].fingerprint == FindingFingerprint(scope, f)
    requires table.groups[id].state == Active && table.groups[id].blocked == None
    requires table.groups[id].lastSeen != closing
    ensures var closed := Apply(scope, table, Pass2Closure([], closing, Some({table.groups[id].lastSeen}), {}));
      var after := Apply(scope, closed, ReconcileRun([f], reopening));
      && after.groups.Keys == table.groups.Keys && after.nextId == table.nextId
      && after.groups[id].state == Active && after.groups[id].resolution == None
  {
    var closed := Apply(scope, table, Pass2Closure([], closing, Some({table.groups[id].lastSeen}), {}));
    hide Apply, FindingFingerprint, ValidTable;
    ClosedRow(scope, table, closing, id);
    ReopenedRow(scope, closed, f, reopening, id);
  }

  lemma SuppressionTarget(scope: Scope, loaded: Table, nextId: GroupId, revision: Revision, id: GroupId)
    requires id in loaded.groups && loaded.groups[id].state == Active && PathOrEmpty(loaded.groups[id].filePath) != ""
    ensures var target := Target(scope, loaded, nextId, HeadSuppression({id}, revision)).groups;
      && target.Keys == loaded.groups.Keys
      && target[id].state == Resolved && target[id].resolution == Some(HeadContradiction)
  {
  }

  /** The suppression that loaded the method stores only the state, beside a method that is gone by now. */
  lemma SuppressedOverReopened(scope: Scope, loaded: Table, current: Table, revision: Revision, id: GroupId)
    requires ValidTable(current) && Earlier(loaded, current) && id in loaded.groups && HeadMethod(loaded.groups[id])
    requires loaded.groups[id].state == Active && PathOrEmpty(loaded.groups[id].filePath) != ""
    requires current.groups[id].resolution == None
    ensures var after := Written(scope, current, loaded, HeadSuppression({id}, revision));
      && ValidTable(after) && id in after.groups
      && after.groups[id].state == Resolved && after.groups[id].resolution == None
  {
    var op := HeadSuppression({id}, revision);
    hide Target, Written, ValidTable, MergedGroup;
    SuppressionTarget(scope, loaded, current.nextId, revision, id);
    StoredRow(scope, current, loaded, op, id);
    OnlyStateChanged(loaded.groups[id], Target(scope, loaded, current.nextId, op).groups[id], current.groups[id]);
    WriteIsLater(scope, current, loaded, op);
  }

  /**
   * A HEAD suppression loads an active group that carries the method of an earlier one; Pass 2 closes the group and a
   * run reopens it before the suppression writes. The group ends resolved without a method, so that no sequence of
   * writers ever changes that again, although nobody dismissed it.
   */
  lemma ResolvedWithoutMethod(scope: Scope, table: Table, f: Finding, revision: Revision, closing: Revision,
                              reopening: Revision, id: GroupId, later: seq<Op>)
    requires ValidTable(table) && id in table.groups && table.groups[id].fingerprint == FindingFingerprint(scope, f)
    requires table.groups[id].state == Active && HeadMethod(table.groups[id]) && table.groups[id].blocked == None
    requires PathOrEmpty(table.groups[id].filePath) != "" && table.groups[id].lastSeen != closing
    ensures var g := table.groups[id];
      var pairing := Some({g.lastSeen});
      var schedule := OverlappedTwice(Suppressing(revision), ClosingAfterRun([], closing, pairing),
                                      Pass2Closure([], closing, pairing, {}), Reconciling([f], reopening),
                                      ReconcileRun([f], reopening), HeadSuppression({id}, revision));
      var after := RunAll(scope, Shared(table, map[]), schedule).table;
      var end := Run(scope, after, later).groups;
      && id in after.groups && after.groups[id].state == Resolved && after.groups[id].resolution == None
      && id in end && end[id].state == Resolved && end[id].resolution == None
  {
    var pairing := Some({table.groups[id].lastSeen});
    var closure, bind := Pass2Closure([], closing, pairing, {}), ReconcileRun([f], reopening);
    var op := HeadSuppression({id}, revision);
    var current := Apply(scope, Apply(scope, table, closure), bind);
    assert Decides(Suppressing(revision), op) && Decides(Reconciling([f], reopening), bind);
    assert Decides(ClosingAfterRun([], closing, pairing), closure);
    hide Target, Written, Run, RunAll, Apply, FindingFingerprint, ValidTable, MergedGroup, Decides;
    ClosedAndReopened(scope, table, f, closing, reopening, id);
    RunOverlappedTwice(scope, table, Suppressing(revision), ClosingAfterRun([], closing, pairing), closure,
                       Reconciling([f], reopening), bind, op);
    SuppressedOverReopened(scope, table, current, revision, id);
    TerminalIsForever(scope, Written(scope, current, table, op), later, id);
  }
}
