/**
 * Finding groups and the closure rules that decide their state
 * (backend/app/services/github_finding_closure_rules.py).
 */
module Findings {
  import opened Options
  import opened Fingerprints

  type GroupId = nat
  type Revision = nat

  datatype State = Active | Superseded | Resolved
  datatype Method = AbsentAndAddressed | JudgeDismissed | VerificationDismissed | HumanDismissed | HeadContradiction
  datatype Severity = Info | Warning | Error | Critical
  datatype Status = Addressed | StillOpen | StatusJudgeDismissed
  datatype Blocked = CompareFailed | HeadCheckFailed
  datatype Outcome = Upheld | Dismissed | Modified

  /** A finding of one review run. */
  datatype Finding = Finding(filePath: Option<string>, category: Category, title: string, message: string,
                             severity: Severity, startLine: Option<Line>)

  /** A persistent finding group of one pull request. */
  datatype Group = Group(
    fingerprint: Fingerprint,
    state: State,
    severity: Severity,
    category: Category,
    title: string,
    message: string,
    filePath: Option<string>,
    startLine: Option<Line>,
    claimSlot: Option<string>,
    lastSeen: Revision,
    status: Option<Status>,
    resolution: Option<Method>,
    resolvedAt: Option<Revision>,
    blocked: Option<Blocked>)

  /** The rows of one pull request; `nextId` stands for the next random identifier. */
  datatype Table = Table(groups: map<GroupId, Group>, nextId: GroupId)

  /** The (file, category) pair that closure decisions are made on; a missing path is the empty path. */
  datatype Key = Key(path: string, category: Category)

  function KeyOf(filePath: Option<string>, category: Category): Key {
    Key(PathOrEmpty(filePath), category)
  }

  function GroupKey(g: Group): Key { KeyOf(g.filePath, g.category) }

  function FindingKey(f: Finding): Key { KeyOf(f.filePath, f.category) }

  // ---------- Rules ----------

  predicate ShouldClose(state: State, boundThisRun: bool, findingCount: nat, pathGone: bool, blocked: Option<Blocked>) {
    && state == Active
    && !boundThisRun
    && (pathGone || findingCount == 0)
    && blocked == None
  }

  function ResolvedAs(g: Group, how: Method, revision: Revision): Group {
    g.(state := Resolved, resolution := Some(how), resolvedAt := Some(revision), blocked := None)
  }

  predicate ShouldReopen(g: Group) {
    g.state == Resolved && g.resolution == Some(AbsentAndAddressed)
  }

  function Reopened(g: Group): Group {
    g.(state := Active, resolution := None, resolvedAt := None, blocked := None)
  }

  /** Groups that reconciliation leaves alone: the dismissed ones and the resolved ones without a method. */
  predicate ShouldSkip(g: Group) {
    && g.state == Resolved
    && (g.resolution == None || g.resolution.value in {JudgeDismissed, VerificationDismissed, HumanDismissed})
  }
}
