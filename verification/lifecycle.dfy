/** What every sequence of group writers keeps: absorbing dismissals and resolution methods. */
module Lifecycle {
  import opened Options
  import opened Fingerprints
  import opened Findings
  import opened Reconcile
  import opened Identity
  import opened Closure

  datatype Stamp = Stamp(status: Option<Status>, blocked: Option<Blocked>)

  /** Everything that writes a group of one pull request. */
  datatype Op =
    | ReconcileRun(findings: seq<Finding>, revision: Revision)
    | Pass2Closure(findings: seq<Finding>, revision: Revision, pairing: Option<set<Revision>>, absent: set<string>)
    | PublishClosure(ids: set<GroupId>, findings: seq<Finding>, revision: Revision, absent: set<string>)
    | DiscoveryJudge(verdicts: seq<Verdict>, revision: Revision)
    | VerificationJudge(rulings: map<GroupId, Outcome>, revision: Revision)
    | HumanDismissal(id: GroupId, head: Option<Revision>)
    | HeadSuppression(contradicted: set<GroupId>, revision: Revision)
    | Pass1Stamp(stamps: map<GroupId, Stamp>)

  function Stamped(groups: Groups, stamps: map<GroupId, Stamp>): Groups {
    map id | id in groups ::
      if id in stamps then groups[id].(status := stamps[id].status, blocked := stamps[id].blocked) else groups[id]
  }

  ghost function WrittenGroups(groups: Groups, op: Op): Groups
    requires !op.ReconcileRun?
  {
    match op
    case Pass2Closure(findings, revision, pairing, absent) =>
      if pairing == None then groups else Pass2(groups, findings, revision, pairing.value, absent)
    case PublishClosure(ids, findings, revision, absent) => PublishClose(groups, ids, findings, revision, absent)
    case DiscoveryJudge(verdicts, revision) => JudgeAll(groups, Unresolved(groups), verdicts, revision)
    case VerificationJudge(rulings, revision) => VerifyAll(groups, rulings, revision)
    case HumanDismissal(id, head) =>
      var reply := DismissByHuman(groups, id, head);
      if reply.Dismissal? then groups[id := reply.group] else groups
    case HeadSuppression(contradicted, revision) => SuppressAll(groups, contradicted, revision)
    case Pass1Stamp(stamps) => Stamped(groups, stamps)
  }

  ghost function Apply(scope: Scope, table: Table, op: Op): Table {
    if op.ReconcileRun? then BindAll(scope, table, op.findings, op.revision, {}).table
    else table.(groups := WrittenGroups(table.groups, op))
  }

  ghost function Run(scope: Scope, table: Table, ops: seq<Op>): Table {
    if ops == [] then table else Apply(scope, Run(scope, table, ops[..|ops| - 1]), ops[|ops| - 1])
  }

  /** Whether the last reconciliation of `ops` bound a finding to the group at step `j`. */
  ghost predicate ReboundAt(scope: Scope, table: Table, ops: seq<Op>, j: nat, id: GroupId) {
    && j < |ops| && ops[j].ReconcileRun?
    && Links(BindAll(scope, Run(scope, table, ops[..j]), ops[j].findings, ops[j].revision, {}).links, id)
  }

  predicate SuppressedAt(ops: seq<Op>, i: nat, id: GroupId) {
    i < |ops| && ops[i].HeadSuppression? && id in ops[i].contradicted
  }

  // ---------- One writer, one group ----------

  /** The three fields that record how a group was resolved. */
  predicate SameResolution(g: Group, h: Group) {
    g.state == h.state && g.resolution == h.resolution && g.resolvedAt == h.resolvedAt
  }

  /** The part of a group no writer but reconciliation touches. */
  predicate SameIdentity(g: Group, h: Group) {
    g.fingerprint == h.fingerprint && g.filePath == h.filePath && g.category == h.category && g.lastSeen == h.lastSeen
  }

  /** Resolved from an unresolved state by one of the writers. */
  predicate Resolves(g: Group, h: Group, op: Op) {
    && g.state != Resolved && h.state == Resolved && h.resolvedAt.Some?
    && match op {
         case Pass2Closure(_, _, _, _) => h.resolution == Some(AbsentAndAddressed)
         case PublishClosure(_, _, _, _) => h.resolution == Some(AbsentAndAddressed)
         case DiscoveryJudge(_, _) => h.resolution == Some(JudgeDismissed)
         case VerificationJudge(_, _) => h.resolution == Some(VerificationDismissed)
         case HumanDismissal(_, _) => h.resolution == Some(HumanDismissed)
         case HeadSuppression(_, _) => h.resolution == Some(HeadContradiction)
         case Pass1Stamp(_) => false
         case ReconcileRun(_, _) => false
       }
  }

  lemma WriterEffect(groups: Groups, op: Op, id: GroupId)
    requires !op.ReconcileRun? && id in groups
    ensures var after := WrittenGroups(groups, op);
      && after.Keys == groups.Keys && SameIdentity(groups[id], after[id])
      && (SameResolution(groups[id], after[id]) || Resolves(groups[id], after[id], op))
      && (op.HeadSuppression? && !SameResolution(groups[id], after[id]) ==> id in op.contradicted)
  {
    hide Reports, JudgeAll;
    match op {
      case DiscoveryJudge(verdicts, revision) =>
        JudgeEffect(groups, Unresolved(groups), verdicts, revision, id);
      case _ =>
    }
  }

  /** A candidate is left alone or ends up dismissed by the judge; any other group is unchanged. */
  lemma {:induction false} JudgeEffect(groups: Groups, candidates: set<GroupId>, verdicts: seq<Verdict>,
                                       revision: Revision, id: GroupId)
    requires id in groups
    ensures var after := JudgeAll(groups, candidates, verdicts, revision);
      && after.Keys == groups.Keys && SameIdentity(groups[id], after[id])
      && (id !in candidates ==> after[id] == groups[id])
      && (SameResolution(groups[id], after[id])
          || (after[id].state == Resolved && after[id].resolution == Some(JudgeDismissed)
              && after[id].resolvedAt == Some(revision)))
  {
    if verdicts != [] {
      var v := verdicts[0];
      var next := if v.id in candidates && v.id in groups
        then groups[v.id := Judged(groups[v.id], v.outcome, revision)] else groups;
      JudgeEffect(next, candidates, verdicts[1..], revision, id);
    }
  }

  ghost predicate Ruled(verdicts: seq<Verdict>, id: GroupId, outcome: Outcome) {
    exists v | v in verdicts :: v.id == id && v.outcome == outcome
  }

  /** The discovery judge resolves what it dismisses and makes a warning of what it modifies, and nothing else. */
  lemma {:induction false} JudgedIff(groups: Groups, candidates: set<GroupId>, verdicts: seq<Verdict>,
                                     revision: Revision, id: GroupId)
    requires id in groups
    ensures var g, after := groups[id], JudgeAll(groups, candidates, verdicts, revision);
      var h := if id in candidates && Ruled(verdicts, id, Modified) then g.(severity := Warning) else g;
      && id in after
      && after[id] ==
           if id in candidates && Ruled(verdicts, id, Dismissed)
           then h.(state := Resolved, resolution := Some(JudgeDismissed), resolvedAt := Some(revision), blocked := None)
           else h
  {
    if verdicts != [] {
      var v, rest := verdicts[0], verdicts[1..];
      var next := if v.id in candidates && v.id in groups
        then groups[v.id := Judged(groups[v.id], v.outcome, revision)] else groups;
      JudgedIff(next, candidates, rest, revision, id);
      RuledCons(v, rest, id, Modified);
      RuledCons(v, rest, id, Dismissed);
      assert verdicts == [v] + rest;
      hide Ruled;
    }
  }

  lemma RuledCons(v: Verdict, rest: seq<Verdict>, id: GroupId, outcome: Outcome)
    ensures Ruled([v] + rest, id, outcome) <==> (v.id == id && v.outcome == outcome) || Ruled(rest, id, outcome)
  {
    assert forall w :: w in [v] + rest <==> w == v || w in rest;
  }

  /** What each of the other writers does to a group: which groups it changes, and all it changes about them. */
  lemma WriterExact(groups: Groups, op: Op, id: GroupId)
    requires !op.ReconcileRun? && !op.DiscoveryJudge? && id in groups
    ensures var g, after := groups[id], WrittenGroups(groups, op);
      && id in after
      && match op
         case Pass2Closure(findings, revision, pairing, absent) =>
           after == if pairing == None then groups else Pass2(groups, findings, revision, pairing.value, absent)
         case PublishClosure(ids, findings, revision, absent) =>
           after[id] == if id in ids then Pass2(groups, findings, revision, {g.lastSeen}, absent)[id] else g
         case VerificationJudge(rulings, revision) =>
           after[id] ==
             if id in rulings && rulings[id] == Dismissed && g.state == Active && g.status == Some(StillOpen)
                && g.blocked != Some(CompareFailed) && g.lastSeen != revision
             then g.(state := Resolved, resolution := Some(VerificationDismissed), resolvedAt := Some(revision),
                     blocked := None)
             else g
         case HumanDismissal(other, head) =>
           after[id] ==
             if id == other && g.state == Active && head.Some?
             then g.(state := Resolved, resolution := Some(HumanDismissed), resolvedAt := head, blocked := None)
             else g
         case HeadSuppression(contradicted, revision) =>
           after[id] ==
             if id in contradicted && g.state == Active && g.filePath.Some? && g.filePath.value != ""
             then g.(state := Resolved, resolution := Some(HeadContradiction), resolvedAt := Some(revision),
                     blocked := None, status := None)
             else g
         case Pass1Stamp(stamps) =>
           after[id] ==
             if id in stamps then g.(status := stamps[id].status, blocked := stamps[id].blocked) else g
         case _ => true
  {
    hide Reports;
  }

  lemma ApplyKeepsValid(scope: Scope, table: Table, op: Op)
    requires ValidTable(table)
    ensures ValidTable(Apply(scope, table, op)) && table.groups.Keys <= Apply(scope, table, op).groups.Keys
  {
    hide BindAll, WrittenGroups;
    if op.ReconcileRun? {
      RunEffect(scope, table, op.findings, op.revision, {}, 0);
      forall id | id in table.groups ensures id in Apply(scope, table, op).groups {
        RunEffect(scope, table, op.findings, op.revision, {}, id);
      }
    } else {
      KeysKept(table.groups, op);
      forall id | id in table.groups ensures SameIdentity(table.groups[id], WrittenGroups(table.groups, op)[id]) {
        WriterEffect(table.groups, op, id);
      }
    }
  }

  lemma KeysKept(groups: Groups, op: Op)
    requires !op.ReconcileRun?
    ensures WrittenGroups(groups, op).Keys == groups.Keys
  {
    if op.DiscoveryJudge? {
      JudgeKeys(groups, Unresolved(groups), op.verdicts, op.revision);
    }
  }

  lemma {:induction false} JudgeKeys(groups: Groups, candidates: set<GroupId>, verdicts: seq<Verdict>,
                                     revision: Revision)
    ensures JudgeAll(groups, candidates, verdicts, revision).Keys == groups.Keys
  {
    if verdicts != [] {
      var v := verdicts[0];
      var next := if v.id in candidates && v.id in groups
        then groups[v.id := Judged(groups[v.id], v.outcome, revision)] else groups;
      JudgeKeys(next, candidates, verdicts[1..], revision);
      assert next.Keys == groups.Keys;
    }
  }

  lemma {:induction false} RunKeepsValid(scope: Scope, table: Table, ops: seq<Op>)
    requires ValidTable(table)
    ensures ValidTable(Run(scope, table, ops)) && table.groups.Keys <= Run(scope, table, ops).groups.Keys
  {
    hide ValidTable, Apply;
    if ops != [] {
      RunKeepsValid(scope, table, ops[..|ops| - 1]);
      ApplyKeepsValid(scope, Run(scope, table, ops[..|ops| - 1]), ops[|ops| - 1]);
    }
  }

  // ---------- Absorbing states ----------

  /** Dismissed by a judge or a human, or resolved before methods were recorded. */
  predicate Terminal(g: Group) { ShouldSkip(g) }

  /**
   * Once a group is dismissed (or resolved without a method), no sequence of writers changes its state, its
   * method, or the revision it was resolved at.
   */
  lemma {:induction false} TerminalIsForever(scope: Scope, table: Table, ops: seq<Op>, id: GroupId)
    requires ValidTable(table) && id in table.groups && Terminal(table.groups[id])
    ensures var after := Run(scope, table, ops).groups;
      id in after && SameResolution(table.groups[id], after[id])
  {
    if ops != [] {
      var prior, op := Run(scope, table, ops[..|ops| - 1]), ops[|ops| - 1];
      TerminalIsForever(scope, table, ops[..|ops| - 1], id);
      RunKeepsValid(scope, table, ops[..|ops| - 1]);
      hide ValidTable, BindAll, WrittenGroups, Run;
      assert Run(scope, table, ops) == Apply(scope, prior, op) by { LastStep(scope, table, ops); }
      if op.ReconcileRun? {
        RunEffect(scope, prior, op.findings, op.revision, {}, id);
      } else {
        WriterEffect(prior.groups, op, id);
      }
    }
  }

  lemma LastStep(scope: Scope, table: Table, ops: seq<Op>)
    requires ops != []
    ensures Run(scope, table, ops) == Apply(scope, Run(scope, table, ops[..|ops| - 1]), ops[|ops| - 1])
  {
  }

  // ---------- Where an active group's method comes from ----------

  predicate HeadMethod(g: Group) { g.resolution == Some(HeadContradiction) }

  /** A table without HEAD-contradiction methods, whose unresolved groups carry no method. */
  predicate PlainTable(table: Table) {
    forall id | id in table.groups ::
      !HeadMethod(table.groups[id]) && (table.groups[id].state != Resolved ==> table.groups[id].resolution == None)
  }

  /** What binding does to a resolution: it is kept or cleared, and cleared when the group is reopened. */
  predicate KeepsOrClears(g: Group, h: Group) {
    && (h.resolution != None ==> h.resolution == g.resolution)
    && (ShouldReopen(g) ==> h.resolution == None || ShouldReopen(h))
  }

  lemma BindFields(scope: Scope, table: Table, f: Finding, revision: Revision, bound: set<GroupId>, id: GroupId)
    requires ValidTable(table) && id in Bind(scope, table, f, revision, bound).table.groups
    ensures var after := Bind(scope, table, f, revision, bound).table.groups;
      if id in table.groups then KeepsOrClears(table.groups[id], after[id]) else after[id].resolution == None
  {
    BindEffect(scope, table, f, revision, bound);
    hide Bind, ValidTable, ClaimSlotKey, FindingFingerprint;
  }

  lemma {:induction false} ReboundFields(scope: Scope, table: Table, findings: seq<Finding>, revision: Revision,
                                         bound: set<GroupId>, id: GroupId)
    requires ValidTable(table) && id in BindAll(scope, table, findings, revision, bound).table.groups
    ensures var after := BindAll(scope, table, findings, revision, bound).table.groups;
      if id in table.groups then KeepsOrClears(table.groups[id], after[id]) else after[id].resolution == None
    decreases |findings|
  {
    if findings != [] {
      var first := Bind(scope, table, findings[0], revision, bound);
      BindEffect(scope, table, findings[0], revision, bound);
      hide Bind, ValidTable;
      ReboundFields(scope, first.table, findings[1..], revision, bound + {first.link.id}, id);
      if id in first.table.groups {
        BindFields(scope, table, findings[0], revision, bound, id);
      }
    }
  }

  ghost predicate Explained(scope: Scope, table: Table, ops: seq<Op>, id: GroupId) {
    exists i: nat, j: nat :: i < j && SuppressedAt(ops, i, id) && ReboundAt(scope, table, ops, j, id)
  }

  ghost predicate WasSuppressed(ops: seq<Op>, id: GroupId) {
    exists i: nat :: SuppressedAt(ops, i, id)
  }

  /**
   * An unresolved group carries a resolution method only as HEAD contradiction, and only when an earlier
   * suppression named it and a later reconciliation bound a finding to it.
   */
  lemma {:induction false} ActiveMethodIsHeadContradiction(scope: Scope, table: Table, ops: seq<Op>, id: GroupId)
    requires ValidTable(table) && PlainTable(table) && id in Run(scope, table, ops).groups
    ensures var g := Run(scope, table, ops).groups[id];
      && (HeadMethod(g) ==> WasSuppressed(ops, id))
      && (g.state != Resolved && g.resolution != None ==> HeadMethod(g) && Explained(scope, table, ops, id))
  {
    if ops == [] {
    } else {
      var prefix, op := ops[..|ops| - 1], ops[|ops| - 1];
      assert prefix + [op] == ops;
      LastStep(scope, table, ops);
      RunKeepsValid(scope, table, prefix);
      if id in Run(scope, table, prefix).groups {
        ActiveMethodIsHeadContradiction(scope, table, prefix, id);
      }
      hide ValidTable, BindAll, WrittenGroups, Run, PlainTable;
      if op.ReconcileRun? {
        MethodAfterReconcile(scope, table, prefix, op, id);
      } else {
        MethodAfterWriter(scope, table, prefix, op, id);
      }
    }
  }

  lemma MethodAfterWriter(scope: Scope, table: Table, prefix: seq<Op>, op: Op, id: GroupId)
    requires !op.ReconcileRun?
    requires var prior := Run(scope, table, prefix);
      id in prior.groups ==>
        var g := prior.groups[id];
        && (HeadMethod(g) ==> WasSuppressed(prefix, id))
        && (g.state != Resolved && g.resolution != None ==> HeadMethod(g) && Explained(scope, table, prefix, id))
    ensures var after := Apply(scope, Run(scope, table, prefix), op).groups;
      id in after ==>
        var g := after[id];
        && (HeadMethod(g) ==> WasSuppressed(prefix + [op], id))
        && (g.state != Resolved && g.resolution != None ==> HeadMethod(g) && Explained(scope, table, prefix + [op], id))
  {
    var prior := Run(scope, table, prefix);
    HistoryGrows(scope, table, prefix, op, id);
    KeysKept(prior.groups, op);
    hide WrittenGroups, Run, Explained, SameIdentity;
    if id in prior.groups {
      WriterEffect(prior.groups, op, id);
      assert op.HeadSuppression? && id in op.contradicted ==> SuppressedAt(prefix + [op], |prefix|, id);
    }
  }

  lemma HistoryGrows(scope: Scope, table: Table, prefix: seq<Op>, op: Op, id: GroupId)
    ensures WasSuppressed(prefix, id) ==> WasSuppressed(prefix + [op], id)
    ensures Explained(scope, table, prefix, id) ==> Explained(scope, table, prefix + [op], id)
  {
    hide Run, BindAll;
    var ops := prefix + [op];
    if i: nat :| SuppressedAt(prefix, i, id) {
      assert SuppressedAt(ops, i, id);
    }
    if i: nat, j: nat :| i < j && SuppressedAt(prefix, i, id) && ReboundAt(scope, table, prefix, j, id) {
      assert SuppressedAt(ops, i, id);
      assert ops[..j] == prefix[..j];
      assert ReboundAt(scope, table, ops, j, id);
    }
  }

  lemma OpenedByReconcile(g: Group, h: Group)
    requires g.state == Resolved && h.state != Resolved && h.resolution != None && h.resolution == g.resolution
    requires ShouldSkip(g) ==> h == g
    requires ShouldReopen(g) ==> h.resolution == None || ShouldReopen(h)
    ensures HeadMethod(g)
  {
    ResolvedKinds(g);
  }

  /** Reconciliation skips, reopens, or (after a HEAD contradiction) reactivates a resolved group. */
  lemma ResolvedKinds(g: Group)
    requires g.state == Resolved
    ensures ShouldSkip(g) || ShouldReopen(g) || HeadMethod(g)
  {
    match g.resolution {
      case Some(AbsentAndAddressed) =>
      case Some(HeadContradiction) =>
      case _ =>
    }
  }

  lemma MethodAfterReconcile(scope: Scope, table: Table, prefix: seq<Op>, op: Op, id: GroupId)
    requires op.ReconcileRun? && ValidTable(Run(scope, table, prefix))
    requires var prior := Run(scope, table, prefix);
      id in prior.groups ==>
        var g := prior.groups[id];
        && (HeadMethod(g) ==> WasSuppressed(prefix, id))
        && (g.state != Resolved && g.resolution != None ==> HeadMethod(g) && Explained(scope, table, prefix, id))
    ensures var after := Apply(scope, Run(scope, table, prefix), op).groups;
      id in after ==>
        var g := after[id];
        && (HeadMethod(g) ==> WasSuppressed(prefix + [op], id))
        && (g.state != Resolved && g.resolution != None ==> HeadMethod(g) && Explained(scope, table, prefix + [op], id))
  {
    hide ValidTable, BindAll, Run;
    var prior := Run(scope, table, prefix);
    var after := Apply(scope, prior, op).groups;
    var ops := prefix + [op];
    if id in after {
      ReboundFields(scope, prior, op.findings, op.revision, {}, id);
    }
    RunEffect(scope, prior, op.findings, op.revision, {}, id);
    HistoryGrows(scope, table, prefix, op, id);
    if id in after && after[id].resolution != None && after[id].state != Resolved
       && prior.groups[id].state == Resolved {
      assert Links(BindAll(scope, prior, op.findings, op.revision, {}).links, id);
      OpenedByReconcile(prior.groups[id], after[id]);
      var i: nat :| SuppressedAt(prefix, i, id);
      assert SuppressedAt(ops, i, id);
      assert ops[..|prefix|] == prefix;
      assert ReboundAt(scope, table, ops, |prefix|, id);
    }
  }
}
