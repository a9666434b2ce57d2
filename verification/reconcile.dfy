/** Binding the findings of a review run to persistent groups (backend/app/services/github_finding_reconcile.py). */
module Reconcile {
  import opened Options
  import opened Fingerprints
  import opened Findings

  datatype Via = ByFingerprint | ByLegacy | ByContinuation | ByCreation
  datatype Link = Link(id: GroupId, via: Via)
  datatype Bound = Bound(table: Table, link: Link)
  datatype Linked = Linked(table: Table, links: seq<Link>)

  predicate UniqueFingerprints(groups: map<GroupId, Group>) {
    forall a, b | a in groups && b in groups && groups[a].fingerprint == groups[b].fingerprint :: a == b
  }

  predicate ValidTable(table: Table) {
    UniqueFingerprints(table.groups) && forall id | id in table.groups :: id < table.nextId
  }

  // ---------- What one binding does ----------

  ghost function Lookup(groups: map<GroupId, Group>, fingerprint: Fingerprint): Option<GroupId> {
    if id: GroupId :| id in groups && groups[id].fingerprint == fingerprint then Some(id) else None
  }

  predicate IsLeftover(g: Group, f: Finding) {
    g.filePath == f.filePath && g.category == f.category && g.state == Active
  }

  function Leftovers(groups: map<GroupId, Group>, f: Finding, bound: set<GroupId>): set<GroupId> {
    if PathOrEmpty(f.filePath) == "" then {}
    else set id | id in groups && IsLeftover(groups[id], f) && id !in bound
  }

  ghost function SoleLeftover(groups: map<GroupId, Group>, f: Finding, bound: set<GroupId>): Option<GroupId> {
    var candidates := Leftovers(groups, f, bound);
    if |candidates| == 1 then
      var id :| id in candidates;
      Some(id)
    else None
  }

  function FindingFingerprint(scope: Scope, f: Finding): Fingerprint {
    ComputeFingerprint(scope, f.filePath, f.category, ClaimSlotKey(scope, f.title))
  }

  function FindingLegacy(scope: Scope, f: Finding): Fingerprint {
    ComputeLegacyFingerprint(scope, f.filePath, f.category, f.title, f.startLine)
  }

  /** The link of a finding: its own fingerprint, then the legacy one, then the sole leftover, then a new group. */
  ghost function LinkOf(scope: Scope, table: Table, f: Finding, bound: set<GroupId>): (link: Link)
    ensures link.via == ByCreation ==> link.id == table.nextId
    ensures link.via != ByCreation ==> link.id in table.groups
    ensures link.via == ByContinuation ==> link.id !in bound
  {
    var own := Lookup(table.groups, FindingFingerprint(scope, f));
    var legacy := Lookup(table.groups, FindingLegacy(scope, f));
    var leftover := SoleLeftover(table.groups, f, bound);
    if own.Some? then Link(own.value, ByFingerprint)
    else if legacy.Some? then Link(legacy.value, ByLegacy)
    else if leftover.Some? then Link(leftover.value, ByContinuation)
    else Link(table.nextId, ByCreation)
  }

  function NewGroup(scope: Scope, f: Finding, revision: Revision): Group {
    Group(FindingFingerprint(scope, f), Active, f.severity, f.category, f.title, f.message, f.filePath, f.startLine,
          Some(ClaimSlotKey(scope, f.title)), revision, None, None, None, None)
  }

  function WithFinding(g: Group, f: Finding, revision: Revision): Group {
    g.(lastSeen := revision, severity := f.severity, category := f.category, title := f.title, message := f.message,
       filePath := f.filePath, startLine := f.startLine)
  }

  /** An existing group after a finding is bound to it. */
  function Rebound(scope: Scope, g: Group, f: Finding, revision: Revision, via: Via): Group {
    if ShouldSkip(g) then g
    else
      var touched := WithFinding(if ShouldReopen(g) then Reopened(g) else g.(state := Active), f, revision);
      if via == ByLegacy && touched.claimSlot == None then touched.(claimSlot := Some(ClaimSlotKey(scope, f.title)))
      else touched
  }

  function Touched(scope: Scope, table: Table, f: Finding, revision: Revision, link: Link): Table
    requires link.via != ByCreation ==> link.id in table.groups
  {
    if link.via == ByCreation then
      Table(table.groups[table.nextId := NewGroup(scope, f, revision)], table.nextId + 1)
    else
      table.(groups := table.groups[link.id := Rebound(scope, table.groups[link.id], f, revision, link.via)])
  }

  ghost function Bind(scope: Scope, table: Table, f: Finding, revision: Revision, bound: set<GroupId>): Bound {
    var link := LinkOf(scope, table, f, bound);
    Bound(Touched(scope, table, f, revision, link), link)
  }

  /** Binding a list of findings in order, given the groups bound so far in this run. */
  ghost function BindAll(scope: Scope, table: Table, findings: seq<Finding>, revision: Revision,
                         bound: set<GroupId>): Linked
    decreases |findings|
  {
    if findings == [] then Linked(table, [])
    else
      var first := Bind(scope, table, findings[0], revision, bound);
      var rest := BindAll(scope, first.table, findings[1..], revision, bound + {first.link.id});
      Linked(rest.table, [first.link] + rest.links)
  }

  // ---------- The session: unflushed objects beside stored rows ----------

  /**
   * Within one run the session does not flush before a query, so queries see `stored` rows while attribute
   * reads see `live` objects.
   */
  class Reconciler {
    const scope: Scope
    var live: map<GroupId, Group>
    var stored: map<GroupId, Group>
    var nextId: GroupId
    var bound: set<GroupId>

    constructor (scope: Scope, table: Table)
      requires ValidTable(table)
      ensures this.scope == scope && Current() == table && stored == live && bound == {}
    {
      this.scope := scope;
      live := table.groups;
      stored := table.groups;
      nextId := table.nextId;
      bound := {};
    }

    function Current(): Table
      reads `live, `nextId
    {
      Table(live, nextId)
    }

    /** Stored rows lag behind only for groups already bound in this run, and never in their fingerprint. */
    ghost predicate Lagging(unflushed: set<GroupId>)
      reads `live, `stored, `nextId
    {
      && ValidTable(Current())
      && live.Keys == stored.Keys
      && (forall id | id in live :: stored[id].fingerprint == live[id].fingerprint)
      && (forall id | id in live && id !in unflushed :: stored[id] == live[id])
    }

    method LoadGroupByFingerprint(fingerprint: Fingerprint) returns (found: Option<GroupId>)
      requires Lagging(bound)
      ensures found == Lookup(live, fingerprint)
      ensures found.Some? ==> found.value in live
    {
      if id :| id in stored && stored[id].fingerprint == fingerprint {
        return Some(id);
      } else {
        return None;
      }
    }

    /** The stored rows a query sees give the same candidate as the unflushed objects would. */
    method ContinuationCandidate(f: Finding) returns (candidate: Option<GroupId>)
      requires Lagging(bound)
      ensures candidate == SoleLeftover(live, f, bound)
      ensures candidate.Some? ==> candidate.value in live && candidate.value !in bound
    {
      if f.filePath == None || f.filePath.value == "" {
        return None;
      }
      var candidates := set id | id in stored && IsLeftover(stored[id], f) && id !in bound;
      assert candidates == Leftovers(live, f, bound);
      if |candidates| != 1 {
        return None;
      }
      var id :| id in candidates;
      SoleElement(candidates, id);
      return Some(id);
    }

    method FindGroup(f: Finding) returns (link: Link)
      requires Lagging(bound)
      ensures link == LinkOf(scope, Current(), f, bound)
    {
      var fingerprint := ComputeFingerprint(scope, f.filePath, f.category, ClaimSlotKey(scope, f.title));
      var group := LoadGroupByFingerprint(fingerprint);
      if group.Some? {
        return Link(group.value, ByFingerprint);
      }
      var legacy := ComputeLegacyFingerprint(scope, f.filePath, f.category, f.title, f.startLine);
      group := LoadGroupByFingerprint(legacy);
      if group.Some? {
        return Link(group.value, ByLegacy);
      }
      group := ContinuationCandidate(f);
      if group.Some? {
        return Link(group.value, ByContinuation);
      }
      return Link(nextId, ByCreation);
    }

    method CreateGroup(f: Finding, revision: Revision)
      requires Lagging(bound) && Lookup(live, FindingFingerprint(scope, f)) == None
      modifies `live, `stored, `nextId
      ensures Current() == old(Touched(scope, Current(), f, revision, Link(nextId, ByCreation)))
      ensures Lagging(bound)
    {
      live := live[nextId := NewGroup(scope, f, revision)];
      stored := live;
      nextId := nextId + 1;
    }

    /** The writes to one existing group: skipped, reopened, or made active, then the finding copied over. */
    method TouchObject(group: Group, f: Finding, revision: Revision, via: Via) returns (g: Group)
      ensures g == Rebound(scope, group, f, revision, via)
    {
      g := group;
      if ShouldSkip(g) {
        return;
      }
      if ShouldReopen(g) {
        g := Reopened(g);
      } else {
        g := g.(state := Active);
      }
      g := WithFinding(g, f, revision);
      if via == ByLegacy && g.claimSlot == None {
        g := g.(claimSlot := Some(ClaimSlotKey(scope, f.title)));
      }
    }

    method TouchGroup(f: Finding, revision: Revision, link: Link)
      requires Lagging(bound) && link.via != ByCreation && link.id in live
      modifies `live
      ensures Current() == old(Touched(scope, Current(), f, revision, link))
      ensures Lagging(bound + {link.id})
    {
      var g := TouchObject(live[link.id], f, revision, link.via);
      ReboundKeepsFingerprint(scope, live[link.id], f, revision, link.via);
      hide Rebound;
      live := live[link.id := g];
    }

    method BindGroupForFinding(f: Finding, revision: Revision) returns (link: Link)
      requires Lagging(bound)
      modifies `live, `stored, `nextId
      ensures Bound(Current(), link) == old(Bind(scope, Current(), f, revision, bound))
      ensures Lagging(bound + {link.id})
    {
      link := FindGroup(f);
      if link.via == ByCreation {
        CreateGroup(f, revision);
      } else {
        TouchGroup(f, revision, link);
      }
    }

    method ReconcileReviewRun(findings: seq<Finding>, revision: Revision) returns (links: seq<Link>)
      requires ValidTable(Current()) && stored == live && bound == {}
      modifies this
      ensures Linked(Current(), links) == old(BindAll(scope, Current(), findings, revision, {}))
      ensures ValidTable(Current()) && stored == live
    {
      hide Bind, Lagging, ValidTable, UniqueFingerprints;
      links := [];
      StartsFlushed();
      ghost var all := BindAll(scope, Current(), findings, revision, {});
      for i := 0 to |findings|
        invariant Lagging(bound)
        invariant all.table == BindAll(scope, Current(), findings[i..], revision, bound).table
        invariant all.links == links + BindAll(scope, Current(), findings[i..], revision, bound).links
      {
        ghost var before, boundBefore := Current(), bound;
        assert findings[i..][0] == findings[i] && findings[i..][1..] == findings[i + 1..];
        var link := BindGroupForFinding(findings[i], revision);
        BindAllStep(scope, before, findings[i..], revision, boundBefore);
        links := links + [link];
        bound := bound + {link.id};
      }
      EndsValid();
      stored := live;
    }

    lemma StartsFlushed()
      requires ValidTable(Current()) && stored == live
      ensures Lagging({})
    {
    }

    lemma EndsValid()
      requires Lagging(bound)
      ensures ValidTable(Current())
    {
    }
  }

  lemma ReboundKeepsFingerprint(scope: Scope, g: Group, f: Finding, revision: Revision, via: Via)
    ensures Rebound(scope, g, f, revision, via).fingerprint == g.fingerprint
  {
  }

  lemma BindAllStep(scope: Scope, table: Table, findings: seq<Finding>, revision: Revision, bound: set<GroupId>)
    requires findings != []
    ensures var first := Bind(scope, table, findings[0], revision, bound);
      var rest := BindAll(scope, first.table, findings[1..], revision, bound + {first.link.id});
      BindAll(scope, table, findings, revision, bound) == Linked(rest.table, [first.link] + rest.links)
  {
  }

  lemma SoleElement<T>(s: set<T>, x: T)
    requires |s| == 1 && x in s
    ensures s == {x}
  {
    assert |s - {x}| == 0;
  }
}
