/** What reconciliation keeps: every finding binds inside its own (path, category), and groups never change theirs. */
module Identity {
  import opened Options
  import opened Fingerprints
  import opened Findings
  import opened Reconcile

  /** Rows from before the cutover carry legacy fingerprints, safe when titles or paths have no separator. */
  datatype LegacyRule = NoLegacyRows | SafeTitles | SafePaths

  predicate SafeText(rule: LegacyRule, filePath: Option<string>, title: string) {
    LegacySafe(rule == SafeTitles, filePath, title)
  }

  predicate SafeFinding(rule: LegacyRule, f: Finding) {
    rule == NoLegacyRows || SafeText(rule, f.filePath, f.title)
  }

  ghost predicate SafeFindings(rule: LegacyRule, findings: seq<Finding>) {
    forall i | 0 <= i < |findings| :: SafeFinding(rule, findings[i])
  }

  predicate HasSlot(scope: Scope, g: Group, slot: string) {
    IsSlot(slot) && g.fingerprint == ComputeFingerprint(scope, g.filePath, g.category, slot)
  }

  predicate HasLegacy(scope: Scope, rule: LegacyRule, g: Group, title: string, line: Option<Line>) {
    && SafeText(rule, g.filePath, title)
    && g.fingerprint == ComputeLegacyFingerprint(scope, g.filePath, g.category, title, line)
  }

  /** The stored fingerprint is one of the group's own (path, category). */
  ghost predicate Owned(scope: Scope, rule: LegacyRule, g: Group) {
    || (exists slot :: HasSlot(scope, g, slot))
    || (rule != NoLegacyRows && exists title, line :: HasLegacy(scope, rule, g, title, line))
  }

  ghost predicate OwnedTable(scope: Scope, rule: LegacyRule, table: Table) {
    ValidTable(table) && forall id | id in table.groups :: Owned(scope, rule, table.groups[id])
  }

  // ---------- One group, one fingerprint ----------

  lemma FoundByFingerprintIsOwn(scope: Scope, rule: LegacyRule, g: Group, f: Finding)
    requires ValidScope(scope) && Owned(scope, rule, g) && g.fingerprint == FindingFingerprint(scope, f)
    ensures GroupKey(g) == FindingKey(f)
  {
    hide ComputeFingerprint, ComputeLegacyFingerprint;
    var slot := ClaimSlotKey(scope, f.title);
    assert IsSlot(slot);
    if s :| HasSlot(scope, g, s) {
      FingerprintInjective(scope, g.filePath, g.category, s, f.filePath, f.category, slot);
    } else {
      var title, line :| HasLegacy(scope, rule, g, title, line);
      CurrentIsNotLegacy(scope, f.filePath, f.category, slot, g.filePath, g.category, title, line);
    }
  }

  lemma FoundByLegacyIsOwn(scope: Scope, rule: LegacyRule, g: Group, f: Finding)
    requires ValidScope(scope) && Owned(scope, rule, g) && SafeFinding(rule, f)
    requires g.fingerprint == FindingLegacy(scope, f)
    ensures rule != NoLegacyRows && GroupKey(g) == FindingKey(f)
  {
    hide ComputeFingerprint, ComputeLegacyFingerprint, LegacySafe;
    if s :| HasSlot(scope, g, s) {
      CurrentIsNotLegacy(scope, g.filePath, g.category, s, f.filePath, f.category, f.title, f.startLine);
    } else {
      var title, line :| HasLegacy(scope, rule, g, title, line);
      LegacyInjective(scope, rule == SafeTitles, g.filePath, g.category, title, line, f.filePath, f.category, f.title,
                      f.startLine);
    }
  }

  lemma LinkIsOwn(scope: Scope, rule: LegacyRule, table: Table, f: Finding, bound: set<GroupId>)
    requires ValidScope(scope) && OwnedTable(scope, rule, table) && SafeFinding(rule, f)
    ensures var link := LinkOf(scope, table, f, bound);
      link.via != ByCreation ==> GroupKey(table.groups[link.id]) == FindingKey(f)
  {
    hide FindingFingerprint, FindingLegacy, Owned, SafeFinding;
    var link := LinkOf(scope, table, f, bound);
    if link.via == ByFingerprint {
      FoundByFingerprintIsOwn(scope, rule, table.groups[link.id], f);
    } else if link.via == ByLegacy {
      FoundByLegacyIsOwn(scope, rule, table.groups[link.id], f);
    }
  }

  lemma OwnedByKey(scope: Scope, rule: LegacyRule, g: Group, h: Group)
    requires Owned(scope, rule, g) && GroupKey(g) == GroupKey(h) && g.fingerprint == h.fingerprint
    ensures Owned(scope, rule, h)
  {
    if s :| HasSlot(scope, g, s) {
      assert HasSlot(scope, h, s);
    } else {
      var title, line :| HasLegacy(scope, rule, g, title, line);
      assert HasLegacy(scope, rule, h, title, line);
    }
  }

  lemma NewGroupIsOwned(scope: Scope, rule: LegacyRule, f: Finding, revision: Revision)
    requires ValidScope(scope)
    ensures Owned(scope, rule, NewGroup(scope, f, revision))
  {
    var g := NewGroup(scope, f, revision);
    assert IsSlot(ClaimSlotKey(scope, f.title));
    assert HasSlot(scope, g, ClaimSlotKey(scope, f.title));
  }

  // ---------- One binding, then a run ----------

  /** No group of `before` is lost, and none changes its fingerprint or its (path, category). */
  ghost predicate KeepsIdentity(before: Table, after: Table) {
    forall id | id in before.groups ::
      && id in after.groups
      && after.groups[id].fingerprint == before.groups[id].fingerprint
      && GroupKey(after.groups[id]) == GroupKey(before.groups[id])
  }

  lemma BindEffect(scope: Scope, table: Table, f: Finding, revision: Revision, bound: set<GroupId>)
    requires ValidTable(table)
    ensures var b := Bind(scope, table, f, revision, bound);
      && ValidTable(b.table)
      && (forall id | id in table.groups :: id in b.table.groups)
      && (forall id | id in b.table.groups && id != b.link.id ::
            id in table.groups && b.table.groups[id] == table.groups[id])
      && b.link.id in b.table.groups
      && (b.link.id in table.groups ==>
            b.table.groups[b.link.id] == Rebound(scope, table.groups[b.link.id], f, revision, b.link.via))
      && (b.link.id !in table.groups ==> b.table.groups[b.link.id] == NewGroup(scope, f, revision))
  {
    hide FindingLegacy, ComputeFingerprint, ClaimSlotKey;
  }

  lemma BindsToOwn(scope: Scope, table: Table, f: Finding, revision: Revision, bound: set<GroupId>)
    requires ValidTable(table)
    requires var link := LinkOf(scope, table, f, bound);
      link.via != ByCreation ==> GroupKey(table.groups[link.id]) == FindingKey(f)
    ensures var b := Bind(scope, table, f, revision, bound);
      && b.link.id in b.table.groups && GroupKey(b.table.groups[b.link.id]) == FindingKey(f)
      && (b.link.id in table.groups ==>
            && GroupKey(table.groups[b.link.id]) == FindingKey(f)
            && b.table.groups[b.link.id].fingerprint == table.groups[b.link.id].fingerprint)
  {
    hide FindingLegacy, ComputeFingerprint, ClaimSlotKey, LinkOf;
  }

  lemma BindKeepsIdentity(scope: Scope, rule: LegacyRule, table: Table, f: Finding, revision: Revision,
                          bound: set<GroupId>)
    requires ValidScope(scope) && OwnedTable(scope, rule, table) && SafeFinding(rule, f)
    ensures var b := Bind(scope, table, f, revision, bound);
      && OwnedTable(scope, rule, b.table) && KeepsIdentity(table, b.table)
      && b.link.id in b.table.groups && GroupKey(b.table.groups[b.link.id]) == FindingKey(f)
  {
    var b := Bind(scope, table, f, revision, bound);
    LinkIsOwn(scope, rule, table, f, bound);
    NewGroupIsOwned(scope, rule, f, revision);
    BindEffect(scope, table, f, revision, bound);
    BindsToOwn(scope, table, f, revision, bound);
    hide Owned, Bind, Rebound, NewGroup, SafeFinding, ValidTable;
    if b.link.id in table.groups {
      OwnedByKey(scope, rule, table.groups[b.link.id], b.table.groups[b.link.id]);
    }
  }

  /**
   * Over a whole run, each finding ends bound to a group of its own (path, category), and no group changes its
   * fingerprint or its pair.
   */
  lemma {:induction false} RunKeepsIdentity(scope: Scope, rule: LegacyRule, table: Table, findings: seq<Finding>,
                                            revision: Revision, bound: set<GroupId>)
    requires ValidScope(scope) && OwnedTable(scope, rule, table) && SafeFindings(rule, findings)
    ensures var r := BindAll(scope, table, findings, revision, bound);
      && OwnedTable(scope, rule, r.table) && KeepsIdentity(table, r.table) && |r.links| == |findings|
      && forall i | 0 <= i < |findings| ::
           r.links[i].id in r.table.groups && GroupKey(r.table.groups[r.links[i].id]) == FindingKey(findings[i])
    decreases |findings|
  {
    hide OwnedTable, Bind, SafeFinding;
    if findings != [] {
      var first := Bind(scope, table, findings[0], revision, bound);
      BindKeepsIdentity(scope, rule, table, findings[0], revision, bound);
      RunKeepsIdentity(scope, rule, first.table, findings[1..], revision, bound + {first.link.id});
    }
  }

  // ---------- What a run leaves behind ----------

  /** The state of a group after some findings of a run were bound to it. */
  predicate Settled(g: Group, revision: Revision) {
    ShouldSkip(g) || (g.state == Active && g.lastSeen == revision)
  }

  ghost predicate Links(links: seq<Link>, id: GroupId) {
    exists i :: 0 <= i < |links| && links[i].id == id
  }

  /**
   * A group that no finding was bound to is unchanged; a bound one is active and last seen at this revision,
   * unless it was dismissed before, in which case it is unchanged.
   */
  lemma {:induction false} RunEffect(scope: Scope, table: Table, findings: seq<Finding>, revision: Revision,
                                     bound: set<GroupId>, id: GroupId)
    requires ValidTable(table)
    ensures var r := BindAll(scope, table, findings, revision, bound);
      && ValidTable(r.table)
      && (id in table.groups ==> id in r.table.groups)
      && (Links(r.links, id) ==> id in r.table.groups && Settled(r.table.groups[id], revision))
      && (id in r.table.groups && !Links(r.links, id) ==> id in table.groups && r.table.groups[id] == table.groups[id])
      && (id in table.groups && ShouldSkip(table.groups[id]) ==> r.table.groups[id] == table.groups[id])
      && (id in table.groups && Settled(table.groups[id], revision) ==> Settled(r.table.groups[id], revision))
    decreases |findings|
  {
    if findings != [] {
      var first := Bind(scope, table, findings[0], revision, bound);
      BindEffect(scope, table, findings[0], revision, bound);
      hide Bind, ValidTable;
      var rest := BindAll(scope, first.table, findings[1..], revision, bound + {first.link.id});
      RunEffect(scope, first.table, findings[1..], revision, bound + {first.link.id}, id);
      LinksCons(first.link, rest.links, id);
    }
  }

  lemma LinksCons(first: Link, rest: seq<Link>, id: GroupId)
    ensures Links([first] + rest, id) <==> first.id == id || Links(rest, id)
  {
    if i :| 0 <= i < |rest| && rest[i].id == id {
      assert ([first] + rest)[i + 1].id == id;
    }
    assert ([first] + rest)[0] == first;
  }

  predicate FreshContinuations(links: seq<Link>, bound: set<GroupId>) {
    forall j | 0 <= j < |links| && links[j].via == ByContinuation ::
      links[j].id !in bound && forall i | 0 <= i < j :: links[i].id != links[j].id
  }

  lemma FreshCons(first: Link, rest: seq<Link>, bound: set<GroupId>)
    requires first.via == ByContinuation ==> first.id !in bound
    requires FreshContinuations(rest, bound + {first.id})
    ensures FreshContinuations([first] + rest, bound)
  {
    var links := [first] + rest;
    forall j | 0 <= j < |links| && links[j].via == ByContinuation
      ensures links[j].id !in bound && forall i | 0 <= i < j :: links[i].id != links[j].id
    {
      if j > 0 {
        assert links[j] == rest[j - 1];
        assert forall i | 0 < i < j :: links[i] == rest[i - 1];
      }
    }
  }

  /** A continuation never takes a group that an earlier finding of the same run was bound to. */
  lemma {:induction false} ContinuationTargetsAreFresh(scope: Scope, table: Table, findings: seq<Finding>,
                                                       revision: Revision, bound: set<GroupId>)
    ensures FreshContinuations(BindAll(scope, table, findings, revision, bound).links, bound)
    decreases |findings|
  {
    hide Lookup, SoleLeftover, Touched, FindingFingerprint, FindingLegacy;
    if findings != [] {
      var first := Bind(scope, table, findings[0], revision, bound);
      ContinuationTargetsAreFresh(scope, first.table, findings[1..], revision, bound + {first.link.id});
      FreshCons(first.link, BindAll(scope, first.table, findings[1..], revision, bound + {first.link.id}).links, bound);
    }
  }

  // ---------- Which group a finding goes to ----------

  ghost predicate IsKnown(groups: map<GroupId, Group>, fingerprint: Fingerprint) {
    exists id :: id in groups && groups[id].fingerprint == fingerprint
  }

  /** The only active group of the finding's path and category that no finding of the run is bound to yet. */
  ghost predicate OnlyLeftover(groups: map<GroupId, Group>, f: Finding, bound: set<GroupId>, id: GroupId) {
    && f.filePath.Some? && f.filePath.value != "" && id in groups && id !in bound
    && (forall other | other in groups && other !in bound :: other == id <==>
          groups[other].filePath == f.filePath && groups[other].category == f.category && groups[other].state == Active)
  }

  /**
   * The group that already has the finding's fingerprint wins, then the one with its legacy fingerprint, then the only
   * leftover of its path and category; only when there is none of them a new group is made.
   */
  lemma LinkPriority(scope: Scope, table: Table, f: Finding, bound: set<GroupId>)
    requires ValidTable(table)
    ensures var link := LinkOf(scope, table, f, bound);
      var own, legacy := FindingFingerprint(scope, f), FindingLegacy(scope, f);
      if IsKnown(table.groups, own) then
        link.via == ByFingerprint && link.id in table.groups && table.groups[link.id].fingerprint == own
      else if IsKnown(table.groups, legacy) then
        link.via == ByLegacy && link.id in table.groups && table.groups[link.id].fingerprint == legacy
      else if exists id: GroupId :: OnlyLeftover(table.groups, f, bound, id) then
        link.via == ByContinuation && OnlyLeftover(table.groups, f, bound, link.id)
      else link.via == ByCreation && link.id !in table.groups
  {
    hide FindingFingerprint, FindingLegacy, UniqueFingerprints;
    var own, legacy := FindingFingerprint(scope, f), FindingLegacy(scope, f);
    if !IsKnown(table.groups, own) && !IsKnown(table.groups, legacy) {
      LeftoverIsOnly(table.groups, f, bound);
    }
  }

  lemma LeftoverIsOnly(groups: map<GroupId, Group>, f: Finding, bound: set<GroupId>)
    ensures var sole := SoleLeftover(groups, f, bound);
      && (sole.Some? ==> OnlyLeftover(groups, f, bound, sole.value))
      && (forall id: GroupId | OnlyLeftover(groups, f, bound, id) :: sole == Some(id))
  {
    var candidates := Leftovers(groups, f, bound);
    if |candidates| == 1 {
      var id :| id in candidates;
      SoleElement(candidates, id);
      assert forall other | other in groups && other !in bound :: other == id <==> other in candidates;
    }
    forall id: GroupId | OnlyLeftover(groups, f, bound, id) ensures candidates == {id} {
    }
  }

  // ---------- What a linked group says afterwards ----------

  /** The group shows what this finding reports. */
  predicate Shows(g: Group, f: Finding, revision: Revision) {
    && g.severity == f.severity && g.category == f.category && g.title == f.title && g.message == f.message
    && g.filePath == f.filePath && g.startLine == f.startLine && g.state == Active && g.lastSeen == revision
  }

  lemma BindAt(scope: Scope, table: Table, f: Finding, revision: Revision, bound: set<GroupId>, id: GroupId)
    requires ValidTable(table)
    ensures var b := Bind(scope, table, f, revision, bound);
      && ValidTable(b.table) && b.link.id in b.table.groups && (id in table.groups ==> id in b.table.groups)
      && (id in b.table.groups && id != b.link.id ==> id in table.groups && b.table.groups[id] == table.groups[id])
  {
    BindEffect(scope, table, f, revision, bound);
    hide Bind, ValidTable;
  }

  lemma BindShows(scope: Scope, table: Table, f: Finding, revision: Revision, bound: set<GroupId>)
    requires ValidTable(table)
    ensures var b := Bind(scope, table, f, revision, bound);
      && b.link.id in b.table.groups
      && (b.link.id in table.groups ==>
            ShouldSkip(table.groups[b.link.id]) || Shows(b.table.groups[b.link.id], f, revision))
      && (b.link.id !in table.groups ==> Shows(b.table.groups[b.link.id], f, revision))
  {
    BindEffect(scope, table, f, revision, bound);
    hide Bind, ValidTable, FindingFingerprint, ClaimSlotKey;
  }

  /** The last link of its group, and the first one. */
  predicate IsLast(links: seq<Link>, j: nat) {
    j < |links| && forall k | j < k < |links| :: links[k].id != links[j].id
  }

  predicate IsFirst(links: seq<Link>, j: nat) {
    j < |links| && forall k | 0 <= k < j :: links[k].id != links[j].id
  }

  lemma InRest(first: Link, rest: seq<Link>, j: nat)
    requires 0 < j <= |rest|
    ensures ([first] + rest)[j] == rest[j - 1]
    ensures IsLast([first] + rest, j) ==> IsLast(rest, j - 1)
    ensures IsFirst([first] + rest, j) ==> IsFirst(rest, j - 1) && first.id != rest[j - 1].id
  {
    var links := [first] + rest;
    assert forall k | 0 <= k < |rest| :: rest[k] == links[k + 1];
    assert links[0] == first;
  }

  lemma OnlyFirst(first: Link, rest: seq<Link>)
    requires IsLast([first] + rest, 0)
    ensures !Links(rest, first.id)
  {
    assert forall k | 0 <= k < |rest| :: rest[k] == ([first] + rest)[k + 1];
  }

  /**
   * A linked group that was not dismissed ends with severity, category, title, message, path and line of the last
   * finding linked to it, active and last seen at this revision.
   */
  lemma {:induction false} LinkedTakesLast(scope: Scope, table: Table, findings: seq<Finding>, revision: Revision,
                                           bound: set<GroupId>, j: nat)
    requires ValidTable(table) && j < |findings| && IsLast(BindAll(scope, table, findings, revision, bound).links, j)
    requires var id := BindAll(scope, table, findings, revision, bound).links[j].id;
      id in table.groups ==> !ShouldSkip(table.groups[id])
    ensures var r := BindAll(scope, table, findings, revision, bound);
      r.links[j].id in r.table.groups && Shows(r.table.groups[r.links[j].id], findings[j], revision)
    decreases |findings|
  {
    hide Bind, BindAll, ValidTable, Shows, ShouldSkip, IsLast, IsFirst;
    var f, rest := findings[0], findings[1..];
    var first := Bind(scope, table, f, revision, bound);
    var after := BindAll(scope, first.table, rest, revision, bound + {first.link.id});
    BindAllStep(scope, table, findings, revision, bound);
    LinkCount(scope, table, findings, revision, bound);
    var id := ([first.link] + after.links)[j].id;
    BindAt(scope, table, f, revision, bound, id);
    BindShows(scope, table, f, revision, bound);
    ShownIsNotSkipped(first.table.groups[first.link.id], f, revision);
    if j == 0 {
      OnlyFirst(first.link, after.links);
      RunEffect(scope, first.table, rest, revision, bound + {first.link.id}, id);
    } else {
      InRest(first.link, after.links, j);
      LinkedTakesLast(scope, first.table, rest, revision, bound + {first.link.id}, j - 1);
    }
  }

  lemma {:induction false} LinkCount(scope: Scope, table: Table, findings: seq<Finding>, revision: Revision,
                                     bound: set<GroupId>)
    ensures |BindAll(scope, table, findings, revision, bound).links| == |findings|
    decreases |findings|
  {
    hide Bind;
    if findings != [] {
      var first := Bind(scope, table, findings[0], revision, bound);
      LinkCount(scope, first.table, findings[1..], revision, bound + {first.link.id});
    }
  }

  lemma ShownIsNotSkipped(g: Group, f: Finding, revision: Revision)
    ensures Shows(g, f, revision) ==> !ShouldSkip(g)
  {
  }

  /** What binding does to the other columns of a group that was not dismissed. */
  predicate OtherColumns(g: Group, after: Group) {
    && after.fingerprint == g.fingerprint && after.status == g.status
    && (g.claimSlot.Some? ==> after.claimSlot == g.claimSlot)
    && if ShouldReopen(g) then after.resolvedAt == None && after.blocked == None && after.resolution == None
       else after.resolvedAt == g.resolvedAt && after.blocked == g.blocked && after.resolution == g.resolution
  }

  lemma BindColumns(scope: Scope, table: Table, f: Finding, revision: Revision, bound: set<GroupId>)
    requires ValidTable(table)
    ensures var b := Bind(scope, table, f, revision, bound);
      var g := b.table.groups[b.link.id];
      if b.link.id in table.groups
      then !ShouldSkip(table.groups[b.link.id]) ==> g.state == Active && OtherColumns(table.groups[b.link.id], g)
      else g == Group(FindingFingerprint(scope, f), Active, f.severity, f.category, f.title, f.message, f.filePath,
                      f.startLine, Some(ClaimSlotKey(scope, f.title)), revision, None, None, None, None)
  {
    BindEffect(scope, table, f, revision, bound);
    hide Bind, ValidTable, FindingFingerprint, ClaimSlotKey;
  }

  /**
   * Over a run, a linked group that was not dismissed keeps its fingerprint, status and claim slot; its resolution,
   * with revision and block, is cleared when it was closed as absent and kept otherwise.
   */
  lemma {:induction false} LinkedKeepsColumns(scope: Scope, table: Table, findings: seq<Finding>, revision: Revision,
                                              bound: set<GroupId>, id: GroupId)
    requires ValidTable(table) && id in table.groups && !ShouldSkip(table.groups[id])
    ensures var r := BindAll(scope, table, findings, revision, bound);
      && id in r.table.groups
      && (Links(r.links, id) || table.groups[id].state == Active ==> OtherColumns(table.groups[id], r.table.groups[id]))
    decreases |findings|
  {
    if findings != [] {
      var f, rest := findings[0], findings[1..];
      var first := Bind(scope, table, f, revision, bound);
      BindEffect(scope, table, f, revision, bound);
      BindColumns(scope, table, f, revision, bound);
      hide Bind, ValidTable;
      var after := BindAll(scope, first.table, rest, revision, bound + {first.link.id});
      LinksCons(first.link, after.links, id);
      LinkedKeepsColumns(scope, first.table, rest, revision, bound + {first.link.id}, id);
    }
  }

  /** A group that a run creates has the fingerprint and the claim slot of the first finding linked to it. */
  lemma {:induction false} CreatedIsFirst(scope: Scope, table: Table, findings: seq<Finding>, revision: Revision,
                                          bound: set<GroupId>, j: nat)
    requires ValidTable(table) && j < |findings| && IsFirst(BindAll(scope, table, findings, revision, bound).links, j)
    requires BindAll(scope, table, findings, revision, bound).links[j].id !in table.groups
    ensures var r := BindAll(scope, table, findings, revision, bound);
      r.links[j].id in r.table.groups &&
      var g := r.table.groups[r.links[j].id];
      && g.fingerprint == FindingFingerprint(scope, findings[j])
      && g.claimSlot == Some(ClaimSlotKey(scope, findings[j].title))
      && g.status == None && g.blocked == None && g.resolution == None && g.resolvedAt == None
    decreases |findings|
  {
    hide Bind, BindAll, ValidTable, FindingFingerprint, ClaimSlotKey, IsLast, IsFirst;
    var f, rest := findings[0], findings[1..];
    var first := Bind(scope, table, f, revision, bound);
    var after := BindAll(scope, first.table, rest, revision, bound + {first.link.id});
    BindAllStep(scope, table, findings, revision, bound);
    LinkCount(scope, table, findings, revision, bound);
    var id := ([first.link] + after.links)[j].id;
    BindAt(scope, table, f, revision, bound, id);
    if j == 0 {
      BindColumns(scope, table, f, revision, bound);
      LinkedKeepsColumns(scope, first.table, rest, revision, bound + {first.link.id}, id);
    } else {
      InRest(first.link, after.links, j);
      CreatedIsFirst(scope, first.table, rest, revision, bound + {first.link.id}, j - 1);
    }
  }
}
