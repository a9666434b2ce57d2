/**
 * The writers that close groups: Pass 2, the publish job, the judges, a human, and HEAD suppression
 * (backend/app/services/github_finding_closure.py, github_publish.py, github_finding_judge.py,
 * github_finding_head_suppression.py).
 */
module Closure {
  import opened Options
  import opened Fingerprints
  import opened Findings
  import opened Reconcile
  import opened Identity

  type Groups = map<GroupId, Group>

  datatype Verdict = Verdict(id: GroupId, outcome: Outcome)

  ghost predicate Reports(findings: seq<Finding>, key: Key) {
    exists i :: 0 <= i < |findings| && FindingKey(findings[i]) == key
  }

  /** Paths absent at HEAD; the empty path is never looked up. */
  predicate PathGone(path: string, absent: set<string>) {
    path != "" && path in absent
  }

  /** Closed by Pass 2 or by the publish job at `revision`. */
  ghost predicate Closes(g: Group, findings: seq<Finding>, revision: Revision, absent: set<string>) {
    && g.state == Active
    && g.lastSeen != revision
    && g.blocked == None
    && (PathGone(GroupKey(g).path, absent) || !Reports(findings, GroupKey(g)))
  }

  predicate InScope(g: Group, pairing: set<Revision>) {
    g.lastSeen in pairing || g.status == Some(Addressed)
  }

  ghost function CloseOne(g: Group, selected: bool, findings: seq<Finding>, revision: Revision,
                          absent: set<string>): Group {
    if selected && Closes(g, findings, revision, absent) then ResolvedAs(g, AbsentAndAddressed, revision) else g
  }

  ghost function Pass2(groups: Groups, findings: seq<Finding>, revision: Revision, pairing: set<Revision>,
                       absent: set<string>): Groups {
    map id | id in groups :: CloseOne(groups[id], InScope(groups[id], pairing), findings, revision, absent)
  }

  ghost function PublishClose(groups: Groups, ids: set<GroupId>, findings: seq<Finding>, revision: Revision,
                              absent: set<string>): Groups {
    map id | id in groups :: CloseOne(groups[id], id in ids, findings, revision, absent)
  }

  /** HEAD suppression clears the Pass 1 status; `contradicted` holds the groups whose file matches a rule. */
  function Suppress(g: Group, contradicted: bool, revision: Revision): Group {
    if g.state == Active && PathOrEmpty(g.filePath) != "" && contradicted then
      ResolvedAs(g, HeadContradiction, revision).(status := None)
    else g
  }

  function SuppressAll(groups: Groups, contradicted: set<GroupId>, revision: Revision): Groups {
    map id | id in groups :: Suppress(groups[id], id in contradicted, revision)
  }

  function Judged(g: Group, outcome: Outcome, revision: Revision): Group {
    match outcome
    case Dismissed => ResolvedAs(g, JudgeDismissed, revision)
    case Modified => g.(severity := Warning)
    case Upheld => g
  }

  /** Verdicts of the discovery judge, which only reach groups that were unresolved when candidates were loaded. */
  function JudgeAll(groups: Groups, candidates: set<GroupId>, verdicts: seq<Verdict>, revision: Revision): Groups {
    if verdicts == [] then groups
    else
      var v := verdicts[0];
      var next := if v.id in candidates && v.id in groups
        then groups[v.id := Judged(groups[v.id], v.outcome, revision)] else groups;
      JudgeAll(next, candidates, verdicts[1..], revision)
  }

  function Unresolved(groups: Groups): set<GroupId> {
    set id | id in groups && groups[id].state != Resolved
  }

  predicate IsEscalation(g: Group, revision: Revision) {
    g.state == Active && g.status == Some(StillOpen) && g.blocked != Some(CompareFailed) && g.lastSeen != revision
  }

  /** A verification verdict; `modified` counts as a failed call. */
  function Verified(g: Group, outcome: Outcome, revision: Revision): Group {
    if outcome == Dismissed then ResolvedAs(g, VerificationDismissed, revision) else g
  }

  function VerifyAll(groups: Groups, verdicts: map<GroupId, Outcome>, revision: Revision): Groups {
    map id | id in groups ::
      if id in verdicts && IsEscalation(groups[id], revision) then Verified(groups[id], verdicts[id], revision)
      else groups[id]
  }

  datatype DismissReply = Dismissal(group: Group) | NotFound | NotActive

  function DismissByHuman(groups: Groups, id: GroupId, head: Option<Revision>): DismissReply {
    if id !in groups then NotFound
    else if groups[id].state != Active then NotActive
    else if head == None then NotFound
    else Dismissal(ResolvedAs(groups[id], HumanDismissed, head.value))
  }

  // ---------- Per-key counts ----------

  type Row = (Option<string>, Category)

  function RowOf(f: Finding): Row { (f.filePath, f.category) }

  function RowKey(row: Row): Key { KeyOf(row.0, row.1) }

  function RowCount(findings: seq<Finding>, row: Row): nat {
    if findings == [] then 0
    else (if RowOf(findings[0]) == row then 1 else 0) + RowCount(findings[1..], row)
  }

  lemma {:induction false} RowCountPositive(findings: seq<Finding>, row: Row)
    ensures RowCount(findings, row) > 0 <==> exists i :: 0 <= i < |findings| && RowOf(findings[i]) == row
  {
    if findings != [] {
      RowCountPositive(findings[1..], row);
      if i :| 0 <= i < |findings| && RowOf(findings[i]) == row {
        assert i > 0 ==> findings[1..][i - 1] == findings[i];
      }
      if RowCount(findings[1..], row) > 0 {
        var i :| 0 <= i < |findings[1..]| && RowOf(findings[1..][i]) == row;
        assert findings[i + 1] == findings[1..][i];
      }
    }
  }

  /**
   * Counts grouped by stored path and category, then keyed with a missing path as empty. A missing and an empty
   * path share a key, so one count may hide the other, but a key is present exactly when it is reported.
   */
  method FindingCountsByFileCategory(findings: seq<Finding>) returns (counts: map<Key, nat>)
    ensures forall key :: key in counts <==> Reports(findings, key)
    ensures forall key | key in counts :: counts[key] > 0
  {
    counts := map[];
    var rows := set f | f in findings :: RowOf(f);
    ghost var done: set<Row> := {};
    while rows != {}
      invariant done !! rows && done + rows == set f | f in findings :: RowOf(f)
      invariant forall key :: key in counts <==> exists row :: row in done && RowKey(row) == key
      invariant forall key | key in counts :: counts[key] > 0
      decreases |rows|
    {
      var row :| row in rows;
      RowCountPositive(findings, row);
      counts := counts[RowKey(row) := RowCount(findings, row)];
      rows, done := rows - {row}, done + {row};
    }
    forall key ensures key in counts <==> Reports(findings, key) {
      if i :| 0 <= i < |findings| && FindingKey(findings[i]) == key {
        assert RowOf(findings[i]) in done && RowKey(RowOf(findings[i])) == key;
      }
    }
  }

  // ---------- The writers ----------

  lemma RuleIsClosure(g: Group, findings: seq<Finding>, revision: Revision, absent: set<string>, count: nat)
    requires count > 0 <==> Reports(findings, GroupKey(g))
    ensures ShouldClose(g.state, g.lastSeen == revision, count, PathGone(GroupKey(g).path, absent), g.blocked)
      <==> Closes(g, findings, revision, absent)
  {
  }

  /** The groups that HEAD suppression resolves. */
  function Suppressed(groups: Groups, contradicted: set<GroupId>): set<GroupId> {
    set id | id in contradicted && id in groups && groups[id].state == Active && PathOrEmpty(groups[id].filePath) != ""
  }

  lemma SuppressNone(groups: Groups, ids: set<GroupId>, revision: Revision)
    requires forall id | id in ids && id in groups :: groups[id].state != Active
    ensures SuppressAll(groups, ids, revision) == groups && Suppressed(groups, ids) == {}
  {
  }

  lemma SuppressActive(g: Group, contradicted: bool, revision: Revision)
    requires g.state == Active
    ensures Suppress(g, contradicted, revision)
      == if PathOrEmpty(g.filePath) != "" && contradicted
         then ResolvedAs(g, HeadContradiction, revision).(status := None) else g
  {
  }

  lemma SuppressStep(groups: Groups, contradicted: set<GroupId>, todo: set<GroupId>, id: GroupId, revision: Revision)
    requires id in todo && id in groups && groups[id].state == Active
    ensures var now := SuppressAll(groups, contradicted - todo, revision);
      && now[id] == groups[id]
      && SuppressAll(groups, contradicted - (todo - {id}), revision)
           == now[id := Suppress(groups[id], id in contradicted, revision)]
      && id !in Suppressed(groups, contradicted - todo)
      && Suppressed(groups, contradicted - (todo - {id}))
           == Suppressed(groups, contradicted - todo)
              + if PathOrEmpty(groups[id].filePath) != "" && id in contradicted then {id} else {}
  {
    hide ResolvedAs;
  }

  /** The selected groups that the rule closes. */
  ghost function Due(groups: Groups, selected: set<GroupId>, findings: seq<Finding>, revision: Revision,
                     absent: set<string>): set<GroupId> {
    set id | id in selected && id in groups && Closes(groups[id], findings, revision, absent)
  }

  ghost function WithClosed(groups: Groups, closed: set<GroupId>, revision: Revision): Groups {
    map id | id in groups :: if id in closed then ResolvedAs(groups[id], AbsentAndAddressed, revision) else groups[id]
  }

  function Changed(before: Groups, after: Groups): set<GroupId> {
    set id | id in before && id in after && before[id] != after[id]
  }

  lemma DueIsChanged(groups: Groups, selected: set<GroupId>, findings: seq<Finding>, revision: Revision,
                     absent: set<string>)
    ensures Due(groups, selected, findings, revision, absent)
         == Changed(groups, WithClosed(groups, Due(groups, selected, findings, revision, absent), revision))
  {
    hide Reports;
  }

  lemma NothingClosed(groups: Groups, findings: seq<Finding>, revision: Revision, absent: set<string>)
    ensures Due(groups, {}, findings, revision, absent) == {}
    ensures WithClosed(groups, {}, revision) == groups
  {
  }

  lemma CloseStep(groups: Groups, done: set<GroupId>, id: GroupId, findings: seq<Finding>, revision: Revision,
                  absent: set<string>)
    requires id in groups && id !in done
    ensures var due := Due(groups, done, findings, revision, absent);
      var now := WithClosed(groups, due, revision);
      && id in now && now[id] == groups[id] && id !in due
      && Due(groups, done + {id}, findings, revision, absent)
           == (if Closes(groups[id], findings, revision, absent) then due + {id} else due)
      && WithClosed(groups, due + {id}, revision) == now[id := ResolvedAs(groups[id], AbsentAndAddressed, revision)]
  {
    hide Closes, ResolvedAs;
  }

  lemma AllClosed(groups: Groups, selected: set<GroupId>, findings: seq<Finding>, revision: Revision,
                  absent: set<string>)
    ensures WithClosed(groups, Due(groups, selected, findings, revision, absent), revision)
         == map id | id in groups :: CloseOne(groups[id], id in selected, findings, revision, absent)
  {
    hide Closes, ResolvedAs;
  }

  /** The rows of one pull request, updated in place. */
  class GroupStore {
    var groups: Groups

    constructor (groups: Groups)
      ensures this.groups == groups
    {
      this.groups := groups;
    }

    method CloseSelected(selected: set<GroupId>, findings: seq<Finding>, revision: Revision, absent: set<string>)
      returns (closed: nat)
      requires forall id | id in selected :: id in groups && groups[id].state == Active
      modifies this
      ensures groups == old(map id | id in groups :: CloseOne(groups[id], id in selected, findings, revision, absent))
      ensures closed == old(|Due(groups, selected, findings, revision, absent)|) == |Changed(old(groups), groups)|
    {
      hide ResolvedAs, Closes, ShouldClose, Reports, Due, WithClosed;
      var boundIds := set id | id in groups && groups[id].lastSeen == revision;
      var counts := FindingCountsByFileCategory(findings);
      var todo := selected;
      ghost var before := groups;
      NothingClosed(before, findings, revision, absent);
      assert selected - todo == {};
      closed := 0;
      while todo != {}
        invariant todo <= selected
        invariant groups == WithClosed(before, Due(before, selected - todo, findings, revision, absent), revision)
        invariant closed == |Due(before, selected - todo, findings, revision, absent)|
        decreases |todo|
      {
        var id :| id in todo;
        ghost var done := selected - todo;
        CloseStep(before, done, id, findings, revision, absent);
        assert selected - (todo - {id}) == done + {id};
        var g := groups[id];
        todo := todo - {id};
        var count := if GroupKey(g) in counts then counts[GroupKey(g)] else 0;
        RuleIsClosure(g, findings, revision, absent, count);
        if ShouldClose(g.state, id in boundIds, count, PathGone(GroupKey(g).path, absent), g.blocked) {
          groups := groups[id := ResolvedAs(g, AbsentAndAddressed, revision)];
          closed := closed + 1;
        }
      }
      assert selected - todo == selected;
      AllClosed(before, selected, findings, revision, absent);
      DueIsChanged(before, selected, findings, revision, absent);
    }

    /** Pass 2; without an earlier published revision to pair with it does nothing. */
    method ApplyPass2Closure(findings: seq<Finding>, revision: Revision, pairing: Option<set<Revision>>,
                             absent: set<string>)
      returns (closed: nat)
      modifies this
      ensures pairing == None ==> groups == old(groups) && closed == 0
      ensures pairing.Some? ==> groups == old(Pass2(groups, findings, revision, pairing.value, absent))
      ensures closed == |Changed(old(groups), groups)|
    {
      if pairing == None {
        assert Changed(groups, groups) == {};
        return 0;
      }
      var selected := set id | id in groups && groups[id].state == Active && InScope(groups[id], pairing.value);
      closed := CloseSelected(selected, findings, revision, absent);
    }

    method CloseActiveGroupsForFingerprints(ids: set<GroupId>, findings: seq<Finding>, revision: Revision,
                                            absent: set<string>)
      returns (closed: nat)
      modifies this
      ensures groups == old(PublishClose(groups, ids, findings, revision, absent))
      ensures closed == |Changed(old(groups), groups)|
    {
      var selected := set id | id in groups && id in ids && groups[id].state == Active;
      closed := CloseSelected(selected, findings, revision, absent);
    }

    method SuppressHeadContradictions(contradicted: set<GroupId>, revision: Revision) returns (suppressed: nat)
      modifies this
      ensures groups == old(SuppressAll(groups, contradicted, revision))
      ensures suppressed == old(|Suppressed(groups, contradicted)|)
    {
      hide Suppressed, Suppress, ResolvedAs;
      var todo := set id | id in groups && groups[id].state == Active;
      ghost var before := groups;
      suppressed := 0;
      SuppressNone(groups, contradicted - todo, revision);
      while todo != {}
        invariant forall id | id in todo :: id in before && before[id].state == Active
        invariant groups == SuppressAll(before, contradicted - todo, revision)
        invariant suppressed == |Suppressed(before, contradicted - todo)|
        decreases |todo|
      {
        var id :| id in todo;
        SuppressStep(before, contradicted, todo, id, revision);
        SuppressActive(before[id], id in contradicted, revision);
        var g := groups[id];
        todo := todo - {id};
        if PathOrEmpty(g.filePath) != "" && id in contradicted {
          groups := groups[id := ResolvedAs(g, HeadContradiction, revision).(status := None)];
          suppressed := suppressed + 1;
        }
      }
      assert contradicted - todo == contradicted;
    }

    /**
     * A dismissal goes through exactly for a known active group of a pull request with a revision; the group is then
     * one that reconciliation skips for good. In every other case nothing changes.
     */
    method DismissFindingGroup(id: GroupId, head: Option<Revision>) returns (reply: DismissReply)
      modifies this
      ensures reply.Dismissal? <==> id in old(groups) && old(groups)[id].state == Active && head.Some?
      ensures reply == NotActive <==> id in old(groups) && old(groups)[id].state != Active
      ensures reply.Dismissal? ==>
        && id in groups && groups[id] == reply.group && ShouldSkip(groups[id])
        && groups[id].resolution == Some(HumanDismissed) && groups[id].resolvedAt == head
        && Changed(old(groups), groups) == {id} && groups.Keys == old(groups.Keys)
      ensures !reply.Dismissal? ==> groups == old(groups)
      ensures reply == old(DismissByHuman(groups, id, head))
    {
      if id !in groups {
        return NotFound;
      }
      var g := groups[id];
      if g.state != Active {
        return NotActive;
      }
      if head == None {
        return NotFound;
      }
      g := ResolvedAs(g, HumanDismissed, head.value);
      groups := groups[id := g];
      return Dismissal(g);
    }
  }

  // ---------- Closing is decided by (file, category) ----------

  lemma {:induction false} LinkedKeysAreReported(scope: Scope, rule: LegacyRule, table: Table, findings: seq<Finding>,
                                                 revision: Revision, id: GroupId)
    requires ValidScope(scope) && OwnedTable(scope, rule, table) && SafeFindings(rule, findings)
    requires id in table.groups && Links(BindAll(scope, table, findings, revision, {}).links, id)
    ensures Reports(findings, GroupKey(table.groups[id]))
  {
    hide BindAll, OwnedTable;
    var r := BindAll(scope, table, findings, revision, {});
    RunKeepsIdentity(scope, rule, table, findings, revision, {});
    var i :| 0 <= i < |r.links| && r.links[i].id == id;
    assert FindingKey(findings[i]) == GroupKey(table.groups[id]);
  }

  /** An active group Pass 2 may close, and that no earlier run of this revision has seen. */
  predicate Closable(g: Group, revision: Revision, pairing: set<Revision>) {
    && g.state == Active && g.blocked == None && g.lastSeen != revision
    && (g.lastSeen in pairing || g.status == Some(Addressed))
  }

  /** Pass 2 closes exactly the closable groups whose file is gone or in whose (path, category) nothing is reported. */
  lemma Pass2ClosesIff(groups: Groups, findings: seq<Finding>, revision: Revision, pairing: set<Revision>,
                       absent: set<string>, id: GroupId)
    requires id in groups
    ensures var g, after := groups[id], Pass2(groups, findings, revision, pairing, absent);
      var path := if g.filePath.Some? then g.filePath.value else "";
      var reported := exists f | f in findings ::
        (if f.filePath.Some? then f.filePath.value else "") == path && f.category == g.category;
      && after.Keys == groups.Keys
      && after[id] ==
           if Closable(g, revision, pairing) && ((path != "" && path in absent) || !reported)
           then g.(state := Resolved, resolution := Some(AbsentAndAddressed), resolvedAt := Some(revision),
                   blocked := None)
           else g
  {
    var g := groups[id];
    if Reports(findings, GroupKey(g)) {
      var i :| 0 <= i < |findings| && FindingKey(findings[i]) == GroupKey(g);
      assert findings[i] in findings;
    }
  }

  /**
   * After reconciliation and Pass 2, a closable group whose path still exists is closed exactly when the run
   * reports nothing in its (path, category), whichever groups the findings were bound to.
   */
  lemma ClosureIsDecidedByKey(scope: Scope, rule: LegacyRule, table: Table, findings: seq<Finding>, revision: Revision,
                              pairing: set<Revision>, absent: set<string>, id: GroupId)
    requires ValidScope(scope) && OwnedTable(scope, rule, table) && SafeFindings(rule, findings)
    requires id in table.groups && Closable(table.groups[id], revision, pairing)
    requires !PathGone(GroupKey(table.groups[id]).path, absent)
    ensures var bound := BindAll(scope, table, findings, revision, {}).table;
      var after := Pass2(bound.groups, findings, revision, pairing, absent);
      && id in after
      && (after[id].state != Active <==> !Reports(findings, GroupKey(table.groups[id])))
      && (after[id].state != Active ==> after[id] == ResolvedAs(table.groups[id], AbsentAndAddressed, revision))
  {
    hide BindAll, OwnedTable, ResolvedAs;
    var r := BindAll(scope, table, findings, revision, {});
    OwnedIsValid(scope, rule, table);
    RunEffect(scope, table, findings, revision, {}, id);
    if Links(r.links, id) {
      LinkedKeysAreReported(scope, rule, table, findings, revision, id);
      LinkedStaysOpen(scope, table, findings, revision, id);
    } else {
      ResolvedAsResolves(table.groups[id], revision);
    }
  }

  /** When the path is gone, a closable group is closed exactly when no finding was bound to it. */
  lemma ClosureOfGonePaths(scope: Scope, table: Table, findings: seq<Finding>, revision: Revision,
                           pairing: set<Revision>, absent: set<string>, id: GroupId)
    requires ValidTable(table)
    requires id in table.groups && Closable(table.groups[id], revision, pairing)
    requires PathGone(GroupKey(table.groups[id]).path, absent)
    ensures var r := BindAll(scope, table, findings, revision, {});
      var after := Pass2(r.table.groups, findings, revision, pairing, absent);
      id in after && (after[id].state != Active <==> !Links(r.links, id))
  {
    hide BindAll, ValidTable, Reports;
    var r := BindAll(scope, table, findings, revision, {});
    RunEffect(scope, table, findings, revision, {}, id);
    if Links(r.links, id) {
      LinkedStaysOpen(scope, table, findings, revision, id);
    }
  }

  lemma OwnedIsValid(scope: Scope, rule: LegacyRule, table: Table)
    requires OwnedTable(scope, rule, table)
    ensures ValidTable(table)
  {
  }

  lemma ResolvedAsResolves(g: Group, revision: Revision)
    ensures ResolvedAs(g, AbsentAndAddressed, revision).state == Resolved
  {
  }

  predicate SeenOpen(g: Group, revision: Revision) {
    g.state == Active && g.lastSeen == revision
  }

  /** A group that was not resolved and is bound in a run is active and last seen at its revision. */
  lemma {:induction false} BoundIsOpen(scope: Scope, table: Table, findings: seq<Finding>, revision: Revision,
                                       bound: set<GroupId>, id: GroupId)
    requires ValidTable(table) && id in table.groups && table.groups[id].state == Active
    ensures var r := BindAll(scope, table, findings, revision, bound);
      && id in r.table.groups && r.table.groups[id].state == Active
      && (Links(r.links, id) || table.groups[id].lastSeen == revision ==> SeenOpen(r.table.groups[id], revision))
    decreases |findings|
  {
    if findings != [] {
      var first := Bind(scope, table, findings[0], revision, bound);
      BindEffect(scope, table, findings[0], revision, bound);
      hide Bind, ValidTable;
      var rest := BindAll(scope, first.table, findings[1..], revision, bound + {first.link.id});
      BoundIsOpen(scope, first.table, findings[1..], revision, bound + {first.link.id}, id);
      LinksCons(first.link, rest.links, id);
    }
  }

  lemma LinkedStaysOpen(scope: Scope, table: Table, findings: seq<Finding>, revision: Revision, id: GroupId)
    requires ValidTable(table) && id in table.groups && table.groups[id].state == Active
    requires Links(BindAll(scope, table, findings, revision, {}).links, id)
    ensures var after := BindAll(scope, table, findings, revision, {}).table.groups;
      id in after && SeenOpen(after[id], revision)
  {
    hide BindAll;
    BoundIsOpen(scope, table, findings, revision, {}, id);
  }
}
