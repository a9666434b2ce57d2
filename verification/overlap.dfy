/**
 * Group writers in overlapping sessions: each loads the groups, decides over slow calls, and then writes
 * (backend/app/services/github_finding_judge.py, github_finding_closure.py, github_finding_head_suppression.py,
 * github_publish.py, github_finding_reconcile.py). An update sets only the columns that changed since the load, and
 * nothing checks whether the row changed in between.
 */
module Overlap {
  import opened Options
  import opened Fingerprints
  import opened Findings
  import opened Reconcile
  import opened Identity
  import opened Closure
  import opened Lifecycle

  /**
   * What a session will do with the groups it loads, and all it knows by then: the findings of the run, its revision,
   * the revisions it pairs with, the groups a judge will be asked about.
   */
  datatype Writer =
    | Reconciling(findings: seq<Finding>, revision: Revision)
    | ClosingAfterRun(findings: seq<Finding>, revision: Revision, pairing: Option<set<Revision>>)
    | ClosingAfterPublish(ids: set<GroupId>, findings: seq<Finding>, revision: Revision)
    | Discovering(candidates: set<GroupId>, revision: Revision)
    | Verifying(candidates: set<GroupId>, revision: Revision)
    | Dismissing(id: GroupId)
    | Suppressing(revision: Revision)
    | Stamping

  /**
   * What the slow calls after the load leave open: which paths are absent, the verdicts, the head revision, which
   * groups the file texts contradict.
   */
  predicate Decides(writer: Writer, op: Op) {
    match writer
    case Reconciling(findings, revision) => op == ReconcileRun(findings, revision)
    case ClosingAfterRun(findings, revision, pairing) =>
      op.Pass2Closure? && op.findings == findings && op.revision == revision && op.pairing == pairing
    case ClosingAfterPublish(ids, findings, revision) =>
      op.PublishClosure? && op.ids == ids && op.findings == findings && op.revision == revision
    case Discovering(candidates, revision) =>
      op.DiscoveryJudge? && op.revision == revision && forall v | v in op.verdicts :: v.id in candidates
    case Verifying(candidates, revision) =>
      op.VerificationJudge? && op.revision == revision && op.rulings.Keys <= candidates
    case Dismissing(id) => op.HumanDismissal? && op.id == id
    case Suppressing(revision) => op.HeadSuppression? && op.revision == revision
    case Stamping => op.Pass1Stamp?
  }

  datatype Session = Session(writer: Writer, loaded: Table)

  datatype Shared = Shared(table: Table, open: map<nat, Session>)

  datatype Event = Load(session: nat, writer: Writer) | Write(session: nat, op: Op) | Abort(session: nat)

  // ---------- Writing what changed since the load ----------

  function Column<T(==)>(loaded: T, target: T, current: T): T {
    if target == loaded then current else target
  }

  function MergedGroup(l: Group, t: Group, c: Group): Group {
    Group(
      Column(l.fingerprint, t.fingerprint, c.fingerprint),
      Column(l.state, t.state, c.state),
      Column(l.severity, t.severity, c.severity),
      Column(l.category, t.category, c.category),
      Column(l.title, t.title, c.title),
      Column(l.message, t.message, c.message),
      Column(l.filePath, t.filePath, c.filePath),
      Column(l.startLine, t.startLine, c.startLine),
      Column(l.claimSlot, t.claimSlot, c.claimSlot),
      Column(l.lastSeen, t.lastSeen, c.lastSeen),
      Column(l.status, t.status, c.status),
      Column(l.resolution, t.resolution, c.resolution),
      Column(l.resolvedAt, t.resolvedAt, c.resolvedAt),
      Column(l.blocked, t.blocked, c.blocked))
  }

  function MergedGroups(loaded: Groups, target: Groups, current: Groups): Groups {
    map id | id in current.Keys + target.Keys ::
      if id !in current then target[id]
      else if id in loaded && id in target then MergedGroup(loaded[id], target[id], current[id])
      else current[id]
  }

  /** What the session wants to store; identifiers of new groups are drawn when it writes. */
  ghost function Target(scope: Scope, loaded: Table, nextId: GroupId, op: Op): Table {
    Apply(scope, loaded.(nextId := nextId), op)
  }

  /** The write of a session; a fingerprint that meanwhile exists violates the unique key and rolls it back. */
  ghost function Written(scope: Scope, current: Table, loaded: Table, op: Op): Table {
    var target := Target(scope, loaded, current.nextId, op);
    var groups := MergedGroups(loaded.groups, target.groups, current.groups);
    if UniqueFingerprints(groups) then Table(groups, target.nextId) else current
  }

  ghost function Next(scope: Scope, s: Shared, e: Event): Shared {
    match e
    case Load(x, writer) => if x in s.open then s else s.(open := s.open[x := Session(writer, s.table)])
    case Write(x, op) =>
      if x in s.open && Decides(s.open[x].writer, op)
      then Shared(Written(scope, s.table, s.open[x].loaded, op), s.open - {x}) else s
    case Abort(x) => s.(open := s.open - {x})
  }

  ghost function RunAll(scope: Scope, s: Shared, schedule: seq<Event>): Shared
    decreases |schedule|
  {
    if schedule == [] then s else RunAll(scope, Next(scope, s, schedule[0]), schedule[1..])
  }

  /** A session that aborted writes nothing any more. */
  lemma AbortedWritesNothing(scope: Scope, s: Shared, x: nat, op: Op)
    ensures var aborted := Next(scope, s, Abort(x));
      Next(scope, aborted, Write(x, op)) == aborted && aborted.table == s.table
  {
  }

  // ---------- Valid states ----------

  /** A loaded table is an earlier state: no group has gone since, and fingerprints never change. */
  predicate Earlier(loaded: Table, current: Table) {
    && ValidTable(loaded) && loaded.nextId <= current.nextId
    && forall id | id in loaded.groups ::
         id in current.groups && current.groups[id].fingerprint == loaded.groups[id].fingerprint
  }

  predicate ValidShared(s: Shared) {
    ValidTable(s.table) && forall x | x in s.open :: Earlier(s.open[x].loaded, s.table)
  }

  lemma TargetIsLater(scope: Scope, loaded: Table, nextId: GroupId, op: Op)
    requires ValidTable(loaded) && loaded.nextId <= nextId
    ensures var target := Target(scope, loaded, nextId, op);
      && ValidTable(target) && nextId <= target.nextId
      && (forall id | id in loaded.groups ::
            id in target.groups && target.groups[id].fingerprint == loaded.groups[id].fingerprint)
      && (forall id | id in target.groups && id !in loaded.groups :: nextId <= id)
  {
    var from := loaded.(nextId := nextId);
    ApplyKeepsValid(scope, from, op);
    hide BindAll, WrittenGroups, ValidTable;
    if op.ReconcileRun? {
      NewIdsAreDrawn(scope, from, op.findings, op.revision, {});
    } else {
      KeysKept(from.groups, op);
      forall id | id in from.groups ensures SameIdentity(from.groups[id], WrittenGroups(from.groups, op)[id]) {
        WriterEffect(from.groups, op, id);
      }
    }
  }

  lemma {:induction false} NewIdsAreDrawn(scope: Scope, table: Table, findings: seq<Finding>, revision: Revision,
                                          bound: set<GroupId>)
    requires ValidTable(table)
    ensures var after := BindAll(scope, table, findings, revision, bound).table;
      && table.nextId <= after.nextId
      && (forall id | id in table.groups ::
            id in after.groups && after.groups[id].fingerprint == table.groups[id].fingerprint)
      && (forall id | id in after.groups && id !in table.groups :: table.nextId <= id)
    decreases |findings|
  {
    if findings != [] {
      var first := Bind(scope, table, findings[0], revision, bound);
      BindDraws(scope, table, findings[0], revision, bound);
      hide Bind, ValidTable;
      NewIdsAreDrawn(scope, first.table, findings[1..], revision, bound + {first.link.id});
    }
  }

  lemma BindDraws(scope: Scope, table: Table, f: Finding, revision: Revision, bound: set<GroupId>)
    requires ValidTable(table)
    ensures var after := Bind(scope, table, f, revision, bound).table;
      && ValidTable(after) && table.nextId <= after.nextId
      && (forall id | id in table.groups ::
            id in after.groups && after.groups[id].fingerprint == table.groups[id].fingerprint)
      && (forall id | id in after.groups && id !in table.groups :: table.nextId <= id)
  {
    BindEffect(scope, table, f, revision, bound);
    hide FindingLegacy, ComputeFingerprint, ClaimSlotKey, LinkOf;
  }

  lemma WriteIsLater(scope: Scope, current: Table, loaded: Table, op: Op)
    requires ValidTable(current) && Earlier(loaded, current)
    ensures var after := Written(scope, current, loaded, op);
      && ValidTable(after) && current.nextId <= after.nextId
      && forall id | id in current.groups ::
           id in after.groups && after.groups[id].fingerprint == current.groups[id].fingerprint
  {
    TargetIsLater(scope, loaded, current.nextId, op);
    hide Target;
  }

  lemma NextIsValid(scope: Scope, s: Shared, e: Event)
    requires ValidShared(s)
    ensures ValidShared(Next(scope, s, e))
  {
    if e.Write? && e.session in s.open {
      WriteIsLater(scope, s.table, s.open[e.session].loaded, e.op);
    }
    hide Written, UniqueFingerprints;
  }

  // ---------- What a session can still do to a group it loaded ----------

  /** Closed when its path turns out to be absent, or at once when the run reports nothing in its key. */
  ghost predicate MayClose(g: Group, findings: seq<Finding>, revision: Revision) {
    && g.state == Active && g.lastSeen != revision && g.blocked == None
    && (GroupKey(g).path != "" || !Reports(findings, GroupKey(g)))
  }

  /** The guard with which the writer selects a loaded group to resolve, to reopen or to activate it. */
  ghost predicate Selects(scope: Scope, writer: Writer, loaded: Table, nextId: GroupId, id: GroupId) {
    id in loaded.groups &&
    var g := loaded.groups[id];
    match writer
    case Reconciling(findings, revision) =>
      && g.state != Active && !ShouldSkip(g)
      && Links(BindAll(scope, loaded.(nextId := nextId), findings, revision, {}).links, id)
    case ClosingAfterRun(findings, revision, pairing) =>
      pairing.Some? && InScope(g, pairing.value) && MayClose(g, findings, revision)
    case ClosingAfterPublish(ids, findings, revision) => id in ids && MayClose(g, findings, revision)
    case Discovering(candidates, _) => id in candidates && g.state != Resolved
    case Verifying(candidates, revision) => id in candidates && IsEscalation(g, revision)
    case Dismissing(other) => other == id && g.state == Active
    case Suppressing(_) => g.state == Active && PathOrEmpty(g.filePath) != ""
    case Stamping => false
  }

  /** The method a writer resolves with. */
  function MethodOf(writer: Writer): Option<Method> {
    match writer
    case Reconciling(_, _) => None
    case ClosingAfterRun(_, _, _) => Some(AbsentAndAddressed)
    case ClosingAfterPublish(_, _, _) => Some(AbsentAndAddressed)
    case Discovering(_, _) => Some(JudgeDismissed)
    case Verifying(_, _) => Some(VerificationDismissed)
    case Dismissing(_) => Some(HumanDismissed)
    case Suppressing(_) => Some(HeadContradiction)
    case Stamping => None
  }

  /** Resolved by the writer, from a loaded row that was not. */
  predicate Resolution(writer: Writer, l: Group, t: Group) {
    && writer != Stamping && !writer.Reconciling?
    && l.state != Resolved && t.state == Resolved && t.resolution == MethodOf(writer)
    && (!writer.Dismissing? ==> t.resolvedAt == Some(writer.revision))
  }

  /** Bound by reconciliation, from a loaded row that was neither active nor dismissed. */
  predicate Activation(l: Group, t: Group) {
    && l.state != Active && t.state == Active
    && t.resolution == if ShouldReopen(l) then None else l.resolution
  }

  // ---------- Reconciliation ----------

  lemma {:induction false} ActiveStaysAsItIs(scope: Scope, table: Table, findings: seq<Finding>, revision: Revision,
                                             bound: set<GroupId>, id: GroupId)
    requires ValidTable(table) && id in table.groups && table.groups[id].state == Active
    ensures var after := BindAll(scope, table, findings, revision, bound).table.groups;
      id in after && SameResolution(table.groups[id], after[id])
    decreases |findings|
  {
    if findings != [] {
      var first := Bind(scope, table, findings[0], revision, bound);
      BindEffect(scope, table, findings[0], revision, bound);
      hide Bind, ValidTable, ClaimSlotKey, FindingFingerprint;
      ActiveStaysAsItIs(scope, first.table, findings[1..], revision, bound + {first.link.id}, id);
    }
  }

  lemma BindActivates(scope: Scope, table: Table, f: Finding, revision: Revision, bound: set<GroupId>)
    requires ValidTable(table)
    ensures var b := Bind(scope, table, f, revision, bound);
      var g := b.table.groups[b.link.id];
      if b.link.id in table.groups
      then table.groups[b.link.id].state != Active && !ShouldSkip(table.groups[b.link.id]) ==>
             Activation(table.groups[b.link.id], g)
      else g.state == Active && g.resolution == None
  {
    BindEffect(scope, table, f, revision, bound);
    hide Bind, ValidTable, ClaimSlotKey, FindingFingerprint;
  }

  /** A linked group that was neither active nor dismissed is activated; one that is new is active without a method. */
  lemma {:induction false} LinkedIsActivated(scope: Scope, table: Table, findings: seq<Finding>, revision: Revision,
                                             bound: set<GroupId>, id: GroupId)
    requires ValidTable(table)
    ensures var r := BindAll(scope, table, findings, revision, bound);
      && (id in table.groups && table.groups[id].state != Active && !ShouldSkip(table.groups[id])
            && Links(r.links, id) ==>
            id in r.table.groups && Activation(table.groups[id], r.table.groups[id]))
      && (id !in table.groups && id in r.table.groups ==>
            r.table.groups[id].state == Active && r.table.groups[id].resolution == None)
    decreases |findings|
  {
    if findings != [] {
      var first := Bind(scope, table, findings[0], revision, bound);
      BindEffect(scope, table, findings[0], revision, bound);
      BindActivates(scope, table, findings[0], revision, bound);
      hide Bind, ValidTable, ShouldSkip, ShouldReopen;
      var rest := BindAll(scope, first.table, findings[1..], revision, bound + {first.link.id});
      LinkedIsActivated(scope, first.table, findings[1..], revision, bound + {first.link.id}, id);
      LinksCons(first.link, rest.links, id);
      if first.link.id == id {
        if id in first.table.groups && first.table.groups[id].state == Active {
          ActiveStaysAsItIs(scope, first.table, findings[1..], revision, bound + {first.link.id}, id);
        }
      }
    }
  }

  lemma ReconcileChange(scope: Scope, table: Table, findings: seq<Finding>, revision: Revision, id: GroupId)
    requires ValidTable(table) && id in table.groups
    ensures var r := BindAll(scope, table, findings, revision, {});
      var g := table.groups[id];
      && id in r.table.groups
      && (if g.state != Active && !ShouldSkip(g) && Links(r.links, id)
          then Activation(g, r.table.groups[id]) else SameResolution(g, r.table.groups[id]))
  {
    hide BindAll, ValidTable;
    RunEffect(scope, table, findings, revision, {}, id);
    LinkedIsActivated(scope, table, findings, revision, {}, id);
    if table.groups[id].state == Active {
      ActiveStaysAsItIs(scope, table, findings, revision, {}, id);
    }
  }

  // ---------- The target of a session ----------

  lemma {:induction false} UnjudgedStays(groups: Groups, candidates: set<GroupId>, verdicts: seq<Verdict>,
                                         revision: Revision, id: GroupId)
    requires id in groups && forall v | v in verdicts :: v.id != id
    ensures var after := JudgeAll(groups, candidates, verdicts, revision);
      id in after && after[id] == groups[id]
  {
    if verdicts != [] {
      var v := verdicts[0];
      var next := if v.id in candidates && v.id in groups
        then groups[v.id := Judged(groups[v.id], v.outcome, revision)] else groups;
      UnjudgedStays(next, candidates, verdicts[1..], revision, id);
    }
  }

  lemma WriterChange(scope: Scope, loaded: Table, nextId: GroupId, writer: Writer, op: Op, id: GroupId)
    requires id in loaded.groups && !op.ReconcileRun? && Decides(writer, op)
    ensures var t := WrittenGroups(loaded.groups, op);
      && id in t
      && (SameResolution(loaded.groups[id], t[id])
          || (Selects(scope, writer, loaded, nextId, id) && Resolution(writer, loaded.groups[id], t[id])))
  {
    hide Reports, JudgeAll, BindAll;
    match op {
      case DiscoveryJudge(verdicts, revision) =>
        JudgeEffect(loaded.groups, Unresolved(loaded.groups), verdicts, revision, id);
        if id !in writer.candidates {
          UnjudgedStays(loaded.groups, Unresolved(loaded.groups), verdicts, revision, id);
        }
      case _ =>
    }
  }

  /**
   * Whatever a session decides, the row it wants to store keeps the loaded resolution, or its guard selected the
   * loaded row and it resolves or activates it.
   */
  lemma TargetChange(scope: Scope, loaded: Table, nextId: GroupId, writer: Writer, op: Op, id: GroupId)
    requires ValidTable(loaded) && loaded.nextId <= nextId && id in loaded.groups && Decides(writer, op)
    ensures var t := Target(scope, loaded, nextId, op).groups;
      && id in t
      && (SameResolution(loaded.groups[id], t[id])
          || (Selects(scope, writer, loaded, nextId, id)
              && if writer.Reconciling? then Activation(loaded.groups[id], t[id])
                 else Resolution(writer, loaded.groups[id], t[id])))
  {
    if op.ReconcileRun? {
      hide BindAll, WrittenGroups;
      ReconcileChange(scope, loaded.(nextId := nextId), op.findings, op.revision, id);
    } else {
      hide Selects, Resolution, WrittenGroups;
      WriterChange(scope, loaded, nextId, writer, op, id);
    }
  }

  // ---------- Every selected row is resolved by some decision ----------

  /** The decision that resolves the selected group, at this head revision if a human dismisses it. */
  function ResolvingOp(writer: Writer, g: Group, id: GroupId, head: Revision): Op {
    match writer
    case Reconciling(findings, revision) => ReconcileRun(findings, revision)
    case ClosingAfterRun(findings, revision, pairing) => Pass2Closure(findings, revision, pairing, {GroupKey(g).path})
    case ClosingAfterPublish(ids, findings, revision) => PublishClosure(ids, findings, revision, {GroupKey(g).path})
    case Discovering(_, revision) => DiscoveryJudge([Verdict(id, Dismissed)], revision)
    case Verifying(_, revision) => VerificationJudge(map[id := Dismissed], revision)
    case Dismissing(_) => HumanDismissal(id, Some(head))
    case Suppressing(revision) => HeadSuppression({id}, revision)
    case Stamping => Pass1Stamp(map[])
  }

  lemma OneVerdict(groups: Groups, candidates: set<GroupId>, v: Verdict, revision: Revision)
    requires v.id in candidates && v.id in groups
    ensures JudgeAll(groups, candidates, [v], revision) == groups[v.id := Judged(groups[v.id], v.outcome, revision)]
  {
    assert [v][1..] == [];
    assert JudgeAll(groups[v.id := Judged(groups[v.id], v.outcome, revision)], candidates, [], revision)
        == groups[v.id := Judged(groups[v.id], v.outcome, revision)];
  }

  lemma ResolvingOpResolves(scope: Scope, writer: Writer, loaded: Table, nextId: GroupId, id: GroupId, head: Revision)
    requires !writer.Reconciling? && Selects(scope, writer, loaded, nextId, id)
    ensures var op := ResolvingOp(writer, loaded.groups[id], id, head);
      && Decides(writer, op) && !op.ReconcileRun?
      && id in WrittenGroups(loaded.groups, op)
      && Resolution(writer, loaded.groups[id], WrittenGroups(loaded.groups, op)[id])
      && (writer.Dismissing? ==> WrittenGroups(loaded.groups, op)[id].resolvedAt == Some(head))
  {
    hide BindAll, Reports;
    if writer.Discovering? {
      OneVerdict(loaded.groups, Unresolved(loaded.groups), Verdict(id, Dismissed), writer.revision);
    }
  }

  /** The decision of a selected row reaches the target as a resolution or an activation. */
  lemma SelectedIsChanged(scope: Scope, loaded: Table, nextId: GroupId, writer: Writer, id: GroupId, head: Revision)
    requires ValidTable(loaded) && loaded.nextId <= nextId && Selects(scope, writer, loaded, nextId, id)
    ensures var op := ResolvingOp(writer, loaded.groups[id], id, head);
      var t := Target(scope, loaded, nextId, op).groups;
      && Decides(writer, op) && id in t
      && (if writer.Reconciling? then Activation(loaded.groups[id], t[id])
          else Resolution(writer, loaded.groups[id], t[id])
               && t.Keys == loaded.groups.Keys && (writer.Dismissing? ==> t[id].resolvedAt == Some(head)))
  {
    if writer.Reconciling? {
      hide BindAll;
      ReconcileChange(scope, loaded.(nextId := nextId), writer.findings, writer.revision, id);
    } else {
      ResolvingOpResolves(scope, writer, loaded, nextId, id, head);
      KeysKept(loaded.groups, ResolvingOp(writer, loaded.groups[id], id, head));
      hide Selects, Resolution, WrittenGroups;
    }
  }

  // ---------- Stored writes ----------

  /** The groups a session would store, before the unique key is checked. */
  ghost function Stored(scope: Scope, current: Table, loaded: Table, op: Op): Groups {
    MergedGroups(loaded.groups, Target(scope, loaded, current.nextId, op).groups, current.groups)
  }

  /** A write that adds no group changes no fingerprint, so it is stored. */
  lemma PlainWriteIsStored(scope: Scope, current: Table, loaded: Table, op: Op)
    requires ValidTable(current) && Earlier(loaded, current)
    requires Target(scope, loaded, current.nextId, op).groups.Keys == loaded.groups.Keys
    ensures UniqueFingerprints(Stored(scope, current, loaded, op))
  {
    TargetIsLater(scope, loaded, current.nextId, op);
    hide Target;
    var groups := Stored(scope, current, loaded, op);
    forall id | id in groups ensures id in current.groups && groups[id].fingerprint == current.groups[id].fingerprint {
    }
  }

  // ---------- Sessions that do not overlap ----------

  lemma RunAllStep(scope: Scope, s: Shared, e: Event, rest: seq<Event>)
    ensures RunAll(scope, s, [e] + rest) == RunAll(scope, Next(scope, s, e), rest)
  {
    assert ([e] + rest)[1..] == rest;
  }

  function Alone(x: nat, writer: Writer, op: Op): seq<Event> {
    [Load(x, writer)] + [Write(x, op)]
  }

  /** A session that nobody overlaps does what its writer does in one step. */
  lemma AloneIsAtomic(scope: Scope, s: Shared, x: nat, writer: Writer, op: Op, rest: seq<Event>)
    requires ValidShared(s) && x !in s.open && Decides(writer, op)
    ensures RunAll(scope, s, Alone(x, writer, op) + rest)
         == RunAll(scope, Shared(Apply(scope, s.table, op), s.open), rest)
    ensures ValidShared(Shared(Apply(scope, s.table, op), s.open))
  {
    var loaded := s.(open := s.open[x := Session(writer, s.table)]);
    var done := Shared(Apply(scope, s.table, op), s.open);
    assert Next(scope, s, Load(x, writer)) == loaded;
    NextIsValid(scope, s, Load(x, writer));
    NextIsValid(scope, loaded, Write(x, op));
    WriteOnOwnLoad(scope, s.table, op);
    hide Written, RunAll, Apply, ValidTable, ValidShared;
    assert loaded.open - {x} == s.open;
    assert Next(scope, loaded, Write(x, op)) == done;
    assert Alone(x, writer, op) + rest == [Load(x, writer)] + ([Write(x, op)] + rest);
    RunAllStep(scope, s, Load(x, writer), [Write(x, op)] + rest);
    RunAllStep(scope, loaded, Write(x, op), rest);
  }

  lemma WriteOnOwnLoad(scope: Scope, table: Table, op: Op)
    requires ValidTable(table)
    ensures Written(scope, table, table, op) == Apply(scope, table, op)
  {
    var target := Target(scope, table, table.nextId, op);
    assert table.(nextId := table.nextId) == table;
    ApplyKeepsValid(scope, table, op);
    hide Apply;
    assert MergedGroups(table.groups, target.groups, table.groups) == target.groups;
  }
}
