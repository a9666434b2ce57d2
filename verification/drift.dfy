/** Identity survives changing titles: one finding per run in a file and category keeps one group. */
module Drift {
  import opened Options
  import opened Fingerprints
  import opened Findings
  import opened Reconcile
  import opened Identity
  import opened Closure
  import opened Lifecycle

  /** One review run and the writers that follow it before the next run. */
  datatype Round = Round(findings: seq<Finding>, revision: Revision, writers: seq<Op>)

  function CountKey(findings: seq<Finding>, key: Key): nat {
    if findings == [] then 0
    else (if FindingKey(findings[0]) == key then 1 else 0) + CountKey(findings[1..], key)
  }

  ghost predicate SpeaksForKey(findings: seq<Finding>, key: Key, absent: set<string>) {
    Reports(findings, key) && !PathGone(key.path, absent)
  }

  /**
   * Nothing dismisses or suppresses the group. A closure runs at the revision of the round, or it looks at findings
   * that report the key while the path exists.
   */
  ghost predicate CalmWriter(op: Op, revision: Revision, key: Key, id: GroupId) {
    match op
    case ReconcileRun(_, _) => false
    case Pass2Closure(findings, r, _, absent) => r == revision || SpeaksForKey(findings, key, absent)
    case PublishClosure(_, findings, r, absent) => r == revision || SpeaksForKey(findings, key, absent)
    case DiscoveryJudge(verdicts, _) => Verdict(id, Dismissed) !in verdicts
    case VerificationJudge(rulings, _) => !(id in rulings && rulings[id] == Dismissed)
    case HumanDismissal(other, _) => other != id
    case HeadSuppression(contradicted, _) => id !in contradicted
    case Pass1Stamp(_) => true
  }

  ghost predicate CalmWriters(ops: seq<Op>, revision: Revision, key: Key, id: GroupId) {
    forall i | 0 <= i < |ops| :: CalmWriter(ops[i], revision, key, id)
  }

  ghost predicate QuietRound(rule: LegacyRule, round: Round, key: Key, id: GroupId) {
    && SafeFindings(rule, round.findings)
    && CountKey(round.findings, key) == 1
    && CalmWriters(round.writers, round.revision, key, id)
  }

  ghost function Play(scope: Scope, table: Table, round: Round): Table {
    Run(scope, BindAll(scope, table, round.findings, round.revision, {}).table, round.writers)
  }

  /** The group `id` is active and the only one of its (path, category). */
  ghost predicate SoleGroup(table: Table, key: Key, id: GroupId) {
    && id in table.groups && table.groups[id].state == Active && GroupKey(table.groups[id]) == key
    && forall other | other in table.groups && GroupKey(table.groups[other]) == key :: other == id
  }

  predicate BindsOnly(findings: seq<Finding>, links: seq<Link>, key: Key, id: GroupId) {
    |links| == |findings| && forall i | 0 <= i < |findings| && FindingKey(findings[i]) == key :: links[i].id == id
  }

  /** In every round the finding of this key binds to `id`, which stays the only group of the key. */
  ghost predicate BindsEvery(scope: Scope, table: Table, rounds: seq<Round>, key: Key, id: GroupId)
    decreases |rounds|
  {
    rounds == [] ||
    var r := BindAll(scope, table, rounds[0].findings, rounds[0].revision, {});
    && BindsOnly(rounds[0].findings, r.links, key, id)
    && SoleGroup(r.table, key, id)
    && BindsEvery(scope, Play(scope, table, rounds[0]), rounds[1..], key, id)
  }

  ghost function PlayAll(scope: Scope, table: Table, rounds: seq<Round>): Table
    decreases |rounds|
  {
    if rounds == [] then table else PlayAll(scope, Play(scope, table, rounds[0]), rounds[1..])
  }

  // ---------- One run ----------

  lemma SoleGroupIsLinked(scope: Scope, rule: LegacyRule, table: Table, f: Finding, bound: set<GroupId>, key: Key,
                          id: GroupId)
    requires ValidScope(scope) && OwnedTable(scope, rule, table) && SafeFinding(rule, f)
    requires SoleGroup(table, key, id) && FindingKey(f) == key && key.path != "" && id !in bound
    ensures LinkOf(scope, table, f, bound).id == id && LinkOf(scope, table, f, bound).via != ByCreation
  {
    LinkIsOwn(scope, rule, table, f, bound);
    assert Leftovers(table.groups, f, bound) == {id};
  }

  lemma BindKeepsSole(scope: Scope, rule: LegacyRule, table: Table, f: Finding, revision: Revision, bound: set<GroupId>,
                      key: Key, id: GroupId)
    requires ValidScope(scope) && OwnedTable(scope, rule, table) && SafeFinding(rule, f)
    requires SoleGroup(table, key, id) && key.path != "" && (FindingKey(f) == key ==> id !in bound)
    ensures var b := Bind(scope, table, f, revision, bound);
      && OwnedTable(scope, rule, b.table) && SoleGroup(b.table, key, id)
      && b.table.groups[id].fingerprint == table.groups[id].fingerprint
      && (FindingKey(f) == key <==> b.link.id == id)
      && b.table.groups[id].lastSeen == (if FindingKey(f) == key then revision else table.groups[id].lastSeen)
  {
    var b := Bind(scope, table, f, revision, bound);
    BindKeepsIdentity(scope, rule, table, f, revision, bound);
    BindEffect(scope, table, f, revision, bound);
    if FindingKey(f) == key {
      SoleGroupIsLinked(scope, rule, table, f, bound, key, id);
    }
    hide Owned, ClaimSlotKey, ComputeFingerprint, LinkOf, UniqueFingerprints;
  }

  lemma {:induction false} RunKeepsSole(scope: Scope, rule: LegacyRule, table: Table, findings: seq<Finding>,
                                        revision: Revision, bound: set<GroupId>, key: Key, id: GroupId)
    requires ValidScope(scope) && OwnedTable(scope, rule, table) && SafeFindings(rule, findings)
    requires SoleGroup(table, key, id) && key.path != ""
    requires CountKey(findings, key) <= 1 && (CountKey(findings, key) == 1 ==> id !in bound)
    ensures var r := BindAll(scope, table, findings, revision, bound);
      && OwnedTable(scope, rule, r.table) && SoleGroup(r.table, key, id)
      && r.table.groups[id].fingerprint == table.groups[id].fingerprint
      && BindsOnly(findings, r.links, key, id)
      && r.table.groups[id].lastSeen == (if CountKey(findings, key) == 1 then revision else table.groups[id].lastSeen)
    decreases |findings|
  {
    if findings != [] {
      var first := Bind(scope, table, findings[0], revision, bound);
      BindKeepsSole(scope, rule, table, findings[0], revision, bound, key, id);
      hide OwnedTable, Bind, SafeFinding, SoleGroup, BindsOnly, FindingKey;
      var rest := BindAll(scope, first.table, findings[1..], revision, bound + {first.link.id});
      RunKeepsSole(scope, rule, first.table, findings[1..], revision, bound + {first.link.id}, key, id);
      SoleIsPresent(rest.table, key, id);
      BindsOnlyCons(findings, first.link, rest.links, key, id);
    } else {
      BindsOnlyNothing(key, id);
    }
  }

  lemma SoleIsPresent(table: Table, key: Key, id: GroupId)
    requires SoleGroup(table, key, id)
    ensures id in table.groups
  {
  }

  lemma BindsOnlyNothing(key: Key, id: GroupId)
    ensures BindsOnly([], [], key, id)
  {
  }

  lemma BindsOnlyCons(findings: seq<Finding>, first: Link, rest: seq<Link>, key: Key, id: GroupId)
    requires findings != [] && BindsOnly(findings[1..], rest, key, id)
    requires (FindingKey(findings[0]) == key ==> first.id == id)
    ensures BindsOnly(findings, [first] + rest, key, id)
  {
    forall i | 0 <= i < |findings| && FindingKey(findings[i]) == key ensures ([first] + rest)[i].id == id {
      assert i > 0 ==> findings[1..][i - 1] == findings[i];
    }
  }

  // ---------- The writers between runs ----------

  lemma {:induction false} UndismissedStaysActive(groups: Groups, candidates: set<GroupId>, verdicts: seq<Verdict>,
                                                  revision: Revision, id: GroupId)
    requires id in groups && groups[id].state == Active && Verdict(id, Dismissed) !in verdicts
    ensures var after := JudgeAll(groups, candidates, verdicts, revision);
      id in after && after[id].state == Active
  {
    if verdicts != [] {
      var v := verdicts[0];
      assert v == Verdict(v.id, v.outcome);
      var next := if v.id in candidates && v.id in groups
        then groups[v.id := Judged(groups[v.id], v.outcome, revision)] else groups;
      UndismissedStaysActive(next, candidates, verdicts[1..], revision, id);
    }
  }

  lemma CalmWriterKeepsActive(groups: Groups, op: Op, revision: Revision, key: Key, id: GroupId)
    requires id in groups && SeenOpen(groups[id], revision) && GroupKey(groups[id]) == key
    requires CalmWriter(op, revision, key, id)
    ensures var after := WrittenGroups(groups, op);
      id in after && SeenOpen(after[id], revision)
  {
    hide Reports, JudgeAll;
    WriterEffect(groups, op, id);
    match op {
      case DiscoveryJudge(verdicts, r) =>
        UndismissedStaysActive(groups, Unresolved(groups), verdicts, r, id);
      case _ =>
    }
  }

  lemma WriterKeepsOwned(scope: Scope, rule: LegacyRule, table: Table, op: Op)
    requires !op.ReconcileRun? && OwnedTable(scope, rule, table)
    ensures OwnedTable(scope, rule, Apply(scope, table, op)) && KeepsIdentity(table, Apply(scope, table, op))
    ensures Apply(scope, table, op).groups.Keys == table.groups.Keys
  {
    hide WrittenGroups, Owned;
    var after := Apply(scope, table, op);
    ApplyKeepsValid(scope, table, op);
    KeysKept(table.groups, op);
    forall id | id in after.groups
      ensures Owned(scope, rule, after.groups[id]) && SameIdentity(table.groups[id], after.groups[id])
    {
      WriterEffect(table.groups, op, id);
      OwnedByKey(scope, rule, table.groups[id], after.groups[id]);
    }
  }

  lemma {:induction false} WritersKeepSole(scope: Scope, rule: LegacyRule, table: Table, ops: seq<Op>,
                                           revision: Revision, key: Key, id: GroupId)
    requires OwnedTable(scope, rule, table) && SoleGroup(table, key, id) && table.groups[id].lastSeen == revision
    requires CalmWriters(ops, revision, key, id)
    ensures var after := Run(scope, table, ops);
      && OwnedTable(scope, rule, after) && SoleGroup(after, key, id) && after.groups[id].lastSeen == revision
      && after.groups[id].fingerprint == table.groups[id].fingerprint
  {
    if ops != [] {
      var prefix, op := ops[..|ops| - 1], ops[|ops| - 1];
      var prior := Run(scope, table, prefix);
      WritersKeepSole(scope, rule, table, prefix, revision, key, id);
      LastStep(scope, table, ops);
      hide OwnedTable, WrittenGroups, Run;
      WriterKeepsOwned(scope, rule, prior, op);
      CalmWriterKeepsActive(prior.groups, op, revision, key, id);
    }
  }

  // ---------- Any number of runs ----------

  lemma RoundKeepsSole(scope: Scope, rule: LegacyRule, table: Table, round: Round, key: Key, id: GroupId)
    requires ValidScope(scope) && OwnedTable(scope, rule, table) && SoleGroup(table, key, id) && key.path != ""
    requires QuietRound(rule, round, key, id)
    ensures var r := BindAll(scope, table, round.findings, round.revision, {});
      var after := Play(scope, table, round);
      && BindsOnly(round.findings, r.links, key, id) && SoleGroup(r.table, key, id)
      && OwnedTable(scope, rule, after) && SoleGroup(after, key, id)
      && after.groups[id].fingerprint == table.groups[id].fingerprint
  {
    hide OwnedTable, BindAll, Run, SafeFindings, CalmWriters, CountKey;
    RunKeepsSole(scope, rule, table, round.findings, round.revision, {}, key, id);
    WritersKeepSole(scope, rule, BindAll(scope, table, round.findings, round.revision, {}).table, round.writers,
                    round.revision, key, id);
  }

  /**
   * When every run reports exactly one finding for a file and category, under any titles, and nothing dismisses or
   * suppresses it in between, every run binds the one same group, and its fingerprint never changes.
   */
  lemma {:induction false} TitleDriftKeepsIdentity(scope: Scope, rule: LegacyRule, table: Table, rounds: seq<Round>,
                                                   key: Key, id: GroupId)
    requires ValidScope(scope) && OwnedTable(scope, rule, table) && SoleGroup(table, key, id) && key.path != ""
    requires QuietRounds(rule, rounds, key, id)
    ensures BindsEvery(scope, table, rounds, key, id)
    ensures var after := PlayAll(scope, table, rounds);
      SoleGroup(after, key, id) && after.groups[id].fingerprint == table.groups[id].fingerprint
    decreases |rounds|
  {
    hide OwnedTable, BindAll, Play, QuietRound;
    if rounds != [] {
      RoundKeepsSole(scope, rule, table, rounds[0], key, id);
      TitleDriftKeepsIdentity(scope, rule, Play(scope, table, rounds[0]), rounds[1..], key, id);
    }
  }

  ghost predicate NoGroup(table: Table, key: Key) {
    forall id | id in table.groups :: GroupKey(table.groups[id]) != key
  }

  /** The first report of a file and category creates its only group. */
  lemma {:induction false} FirstReportCreates(scope: Scope, rule: LegacyRule, table: Table, findings: seq<Finding>,
                                              revision: Revision, bound: set<GroupId>, key: Key) returns (id: GroupId)
    requires ValidScope(scope) && OwnedTable(scope, rule, table) && SafeFindings(rule, findings)
    requires NoGroup(table, key) && key.path != "" && CountKey(findings, key) == 1
    ensures var r := BindAll(scope, table, findings, revision, bound);
      && id !in table.groups && OwnedTable(scope, rule, r.table) && SoleGroup(r.table, key, id)
      && r.table.groups[id].lastSeen == revision && BindsOnly(findings, r.links, key, id)
    decreases |findings|
  {
    hide OwnedTable, Bind, SafeFinding, SoleGroup, BindsOnly, FindingKey, NoGroup;
    var first := Bind(scope, table, findings[0], revision, bound);
    if FindingKey(findings[0]) == key {
      id := first.link.id;
      FirstBindCreates(scope, rule, table, findings[0], revision, bound, key);
      RunKeepsSole(scope, rule, first.table, findings[1..], revision, bound + {id}, key, id);
    } else {
      OtherBindKeepsNone(scope, rule, table, findings[0], revision, bound, key);
      id := FirstReportCreates(scope, rule, first.table, findings[1..], revision, bound + {first.link.id}, key);
    }
    BindsOnlyCons(findings, first.link,
                  BindAll(scope, first.table, findings[1..], revision, bound + {first.link.id}).links, key, id);
  }

  lemma FirstBindCreates(scope: Scope, rule: LegacyRule, table: Table, f: Finding, revision: Revision,
                         bound: set<GroupId>, key: Key)
    requires ValidScope(scope) && OwnedTable(scope, rule, table) && SafeFinding(rule, f)
    requires NoGroup(table, key) && FindingKey(f) == key
    ensures var b := Bind(scope, table, f, revision, bound);
      && b.link.id !in table.groups && OwnedTable(scope, rule, b.table) && SoleGroup(b.table, key, b.link.id)
      && b.table.groups[b.link.id].lastSeen == revision
  {
    LinkIsOwn(scope, rule, table, f, bound);
    BindKeepsIdentity(scope, rule, table, f, revision, bound);
    BindEffect(scope, table, f, revision, bound);
    NewGroupKey(scope, f, revision);
    hide Owned, Bind, NewGroup, SafeFinding, UniqueFingerprints;
  }

  lemma OtherBindKeepsNone(scope: Scope, rule: LegacyRule, table: Table, f: Finding, revision: Revision,
                           bound: set<GroupId>, key: Key)
    requires ValidScope(scope) && OwnedTable(scope, rule, table) && SafeFinding(rule, f)
    requires NoGroup(table, key) && FindingKey(f) != key
    ensures var b := Bind(scope, table, f, revision, bound);
      && OwnedTable(scope, rule, b.table) && NoGroup(b.table, key)
      && forall id | id in table.groups :: id in b.table.groups
  {
    BindKeepsIdentity(scope, rule, table, f, revision, bound);
    BindEffect(scope, table, f, revision, bound);
    hide Owned, Bind, NewGroup, SafeFinding, UniqueFingerprints;
  }

  lemma NewGroupKey(scope: Scope, f: Finding, revision: Revision)
    ensures GroupKey(NewGroup(scope, f, revision)) == FindingKey(f) && NewGroup(scope, f, revision).state == Active
    ensures NewGroup(scope, f, revision).lastSeen == revision
  {
  }

  /**
   * From a table that has no group for a file and category: when every run reports exactly one finding for it, under
   * any titles, and nothing dismisses or suppresses its group, the first run creates one group and all runs bind it.
   */
  lemma OneGroupFromTheStart(scope: Scope, rule: LegacyRule, table: Table, rounds: seq<Round>, key: Key)
    returns (id: GroupId)
    requires ValidScope(scope) && OwnedTable(scope, rule, table) && NoGroup(table, key) && key.path != ""
    requires rounds != [] && SafeFindings(rule, rounds[0].findings) && CountKey(rounds[0].findings, key) == 1
    requires forall g | SoleGroup(AfterFirstRun(scope, table, rounds), key, g) :: QuietRounds(rule, rounds, key, g)
    ensures id !in table.groups && BindsEvery(scope, table, rounds, key, id)
    ensures SoleGroup(PlayAll(scope, table, rounds), key, id)
  {
    hide OwnedTable, BindAll, Run, SafeFindings, CountKey, CalmWriters, SoleGroup, NoGroup, QuietRound, BindsOnly;
    var round := rounds[0];
    id := FirstReportCreates(scope, rule, table, round.findings, round.revision, {}, key);
    var r := BindAll(scope, table, round.findings, round.revision, {});
    assert SoleGroup(AfterFirstRun(scope, table, rounds), key, id);
    QuietOnes(rule, rounds, key, id);
    WritersKeepSole(scope, rule, r.table, round.writers, round.revision, key, id);
    TitleDriftKeepsIdentity(scope, rule, Play(scope, table, round), rounds[1..], key, id);
  }

  ghost predicate QuietRounds(rule: LegacyRule, rounds: seq<Round>, key: Key, id: GroupId) {
    forall i | 0 <= i < |rounds| :: QuietRound(rule, rounds[i], key, id)
  }

  lemma QuietOnes(rule: LegacyRule, rounds: seq<Round>, key: Key, id: GroupId)
    requires rounds != [] && QuietRounds(rule, rounds, key, id)
    ensures CalmWriters(rounds[0].writers, rounds[0].revision, key, id)
    ensures forall i | 0 <= i < |rounds[1..]| :: QuietRound(rule, rounds[1..][i], key, id)
  {
    assert QuietRound(rule, rounds[0], key, id);
  }

  ghost function AfterFirstRun(scope: Scope, table: Table, rounds: seq<Round>): Table
    requires rounds != []
  {
    BindAll(scope, table, rounds[0].findings, rounds[0].revision, {}).table
  }

  // ---------- Returning to a known claim ----------

  lemma {:induction false} RunKeepsFingerprint(scope: Scope, table: Table, findings: seq<Finding>, revision: Revision,
                                               bound: set<GroupId>, id: GroupId)
    requires ValidTable(table) && id in table.groups
    ensures var after := BindAll(scope, table, findings, revision, bound).table;
      id in after.groups && after.groups[id].fingerprint == table.groups[id].fingerprint
    decreases |findings|
  {
    if findings != [] {
      var first := Bind(scope, table, findings[0], revision, bound);
      BindEffect(scope, table, findings[0], revision, bound);
      hide Bind, ValidTable, ClaimSlotKey;
      RunKeepsFingerprint(scope, first.table, findings[1..], revision, bound + {first.link.id}, id);
    }
  }

  lemma {:induction false} OpsKeepFingerprint(scope: Scope, table: Table, ops: seq<Op>, id: GroupId)
    requires ValidTable(table) && id in table.groups
    ensures var after := Run(scope, table, ops);
      id in after.groups && after.groups[id].fingerprint == table.groups[id].fingerprint
  {
    if ops != [] {
      var prior, op := Run(scope, table, ops[..|ops| - 1]), ops[|ops| - 1];
      OpsKeepFingerprint(scope, table, ops[..|ops| - 1], id);
      RunKeepsValid(scope, table, ops[..|ops| - 1]);
      LastStep(scope, table, ops);
      hide ValidTable, BindAll, WrittenGroups, Run;
      if op.ReconcileRun? {
        RunKeepsFingerprint(scope, prior, op.findings, op.revision, {}, id);
      } else {
        WriterEffect(prior.groups, op, id);
      }
    }
  }

  /** After any writers, a finding with the claim of a group goes back to that group, whatever else is left over. */
  lemma ClaimReturnsToItsGroup(scope: Scope, table: Table, ops: seq<Op>, f: Finding, bound: set<GroupId>, id: GroupId)
    requires ValidTable(table) && id in table.groups && table.groups[id].fingerprint == FindingFingerprint(scope, f)
    ensures LinkOf(scope, Run(scope, table, ops), f, bound) == Link(id, ByFingerprint)
  {
    hide Run, FindingFingerprint, FindingLegacy, SoleLeftover;
    OpsKeepFingerprint(scope, table, ops, id);
    RunKeepsValid(scope, table, ops);
  }
}
