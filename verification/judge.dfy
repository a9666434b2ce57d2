/**
 * Judge outcomes of one review run, its judge status, and what publishing withholds
 * (backend/app/services/github_finding_judge.py, github_finding_closure.py, github_publish.py).
 */
module Judge {
  import opened Options
  import opened Findings

  const JUDGE_MAX_PER_RUN: nat := 10
  const VERIFICATION_JUDGE_MAX_PER_RUN: nat := 5

  datatype JudgeStatus = NotApplicable | SkippedDisabled | SkippedUnavailable | Completed

  /** A finding of the run: its group, if linked, and whether its severity and category call for a judge. */
  datatype LinkedFinding = LinkedFinding(group: Option<GroupId>, escalates: bool)

  type States = map<GroupId, State>

  /** What one call of the judge gives; `None` is a failed call. */
  type Reply = Option<Outcome>

  /** The outcome rows of the run by purpose, each naming its group. */
  datatype Outcomes = Outcomes(discovery: seq<GroupId>, verification: seq<GroupId>)

  predicate HasOutcome(outcomes: Outcomes, g: GroupId) {
    g in outcomes.discovery || g in outcomes.verification
  }

  predicate HasAnyOutcome(outcomes: Outcomes) { outcomes.discovery != [] || outcomes.verification != [] }

  predicate IsUnresolved(states: States, g: GroupId) {
    g in states && states[g] != Resolved
  }

  predicate IsCandidate(f: LinkedFinding, states: States) {
    f.group.Some? && f.escalates && IsUnresolved(states, f.group.value)
  }

  /** The groups of the escalating findings whose group is not resolved, one entry per finding. */
  function Candidates(findings: seq<LinkedFinding>, states: States): seq<GroupId> {
    if findings == [] then []
    else
      (if IsCandidate(findings[0], states) then [findings[0].group.value] else [])
        + Candidates(findings[1..], states)
  }

  lemma {:induction false} CandidatesExact(findings: seq<LinkedFinding>, states: States, g: GroupId)
    ensures g in Candidates(findings, states) <==>
      exists i :: 0 <= i < |findings| && IsCandidate(findings[i], states) && findings[i].group == Some(g)
  {
    if findings != [] {
      CandidatesExact(findings[1..], states, g);
      if g in Candidates(findings[1..], states) {
        var i :| 0 <= i < |findings[1..]| && IsCandidate(findings[1..][i], states) && findings[1..][i].group == Some(g);
        assert findings[i + 1] == findings[1..][i];
      }
      if i :| 0 <= i < |findings| && IsCandidate(findings[i], states) && findings[i].group == Some(g) {
        assert i > 0 ==> findings[1..][i - 1] == findings[i];
      }
    }
  }

  predicate MissingOutcome(candidates: seq<GroupId>, states: States, outcomes: Outcomes) {
    exists i :: 0 <= i < |candidates| && IsUnresolved(states, candidates[i]) && !HasOutcome(outcomes, candidates[i])
  }

  /** States after judging: some groups became resolved, nothing else changed. */
  predicate OnlyResolves(before: States, after: States) {
    before.Keys == after.Keys && forall g | g in before :: after[g] == before[g] || after[g] == Resolved
  }

  predicate Distinct(s: seq<GroupId>) {
    forall i, j | 0 <= i < j < |s| :: s[i] != s[j]
  }

  /** The first `limit` of the ranked groups that have no verification outcome yet. */
  function Escalations(ranked: seq<GroupId>, judged: seq<GroupId>, limit: nat): (r: seq<GroupId>)
    ensures |r| <= limit
    ensures forall i | 0 <= i < |r| :: r[i] in ranked && r[i] !in judged
  {
    if ranked == [] || limit == 0 then []
    else if ranked[0] in judged then Escalations(ranked[1..], judged, limit)
    else [ranked[0]] + Escalations(ranked[1..], judged, limit - 1)
  }

  /** How many of these groups have no outcome yet. */
  function Unjudged(ranked: seq<GroupId>, judged: seq<GroupId>): nat {
    if ranked == [] then 0 else (if ranked[0] in judged then 0 else 1) + Unjudged(ranked[1..], judged)
  }

  /** The escalated groups are the first ones without an outcome, as many as the limit allows, in rank order. */
  lemma {:induction false} EscalationsExact(ranked: seq<GroupId>, judged: seq<GroupId>, limit: nat, i: nat)
    requires Distinct(ranked) && i < |ranked|
    ensures var r, before := Escalations(ranked, judged, limit), Unjudged(ranked[..i], judged);
      && (ranked[i] in r <==> ranked[i] !in judged && before < limit)
      && (ranked[i] in r ==> before < |r| && r[before] == ranked[i])
  {
    if limit > 0 {
      var rest := ranked[1..];
      var next := if ranked[0] in judged then limit else limit - 1;
      if i == 0 {
        assert forall g | g in Escalations(rest, judged, next) :: g in rest;
      } else {
        assert rest[i - 1] == ranked[i] && ranked[..i][1..] == rest[..i - 1];
        EscalationsExact(rest, judged, next, i - 1);
      }
    }
  }

  lemma {:induction false} EscalationsDistinct(ranked: seq<GroupId>, judged: seq<GroupId>, limit: nat)
    requires Distinct(ranked)
    ensures Distinct(Escalations(ranked, judged, limit))
  {
    if ranked != [] && limit > 0 {
      EscalationsDistinct(ranked[1..], judged, if ranked[0] in judged then limit else limit - 1);
    }
  }

  const SUCCESSES: set<Reply> := {Some(Upheld), Some(Dismissed), Some(Modified)}
  const RULINGS: set<Reply> := {Some(Upheld), Some(Dismissed)}
  const DISMISSALS: set<Reply> := {Some(Dismissed)}

  /** The groups among the first `n` entries without a stored outcome whose call gave one of these replies. */
  function Answered(entries: seq<GroupId>, replies: nat -> Reply, stored: Outcomes, n: nat,
                    wanted: set<Reply>): set<GroupId>
    requires n <= |entries|
  {
    set i | 0 <= i < n && replies(i) in wanted && !HasOutcome(stored, entries[i]) :: entries[i]
  }

  function Resolving(states: States, groups: set<GroupId>): States {
    map g | g in states :: if g in groups then Resolved else states[g]
  }

  /** The discovery outcomes added are those of the first ten entries that had none and whose call succeeded. */
  ghost predicate JudgedExactly(candidates: seq<GroupId>, replies: nat -> Reply, before: Outcomes, after: Outcomes) {
    var first := Prefix(candidates, 10);
    forall g :: g in after.discovery <==>
      || g in before.discovery
      || g in Answered(first, replies, before, |first|, SUCCESSES)
  }

  /** And the groups resolved are those of them whose verdict was a dismissal. */
  predicate DismissedExactly(candidates: seq<GroupId>, replies: nat -> Reply, stored: Outcomes, before: States,
                             after: States) {
    var first := Prefix(candidates, 10);
    after == Resolving(before, Answered(first, replies, stored, |first|, DISMISSALS))
  }

  /**
   * The verification outcomes added are those of the escalated groups whose call upheld or dismissed; `modified`
   * counts as a failed call. The groups resolved are the dismissed ones.
   */
  ghost predicate VerifiedExactly(ranked: seq<GroupId>, replies: nat -> Reply, before: seq<GroupId>,
                                  after: seq<GroupId>,
                                  states: States, now: States)
    requires |before| <= 5
  {
    var groups := Escalations(ranked, before, 5 - |before|);
    var stored := Outcomes([], before);
    && (forall g :: g in after <==> g in before || g in Answered(groups, replies, stored, |groups|, RULINGS))
    && now == Resolving(states, Answered(groups, replies, stored, |groups|, DISMISSALS))
  }

  lemma OutcomeOf(stored: seq<GroupId>, g: GroupId)
    ensures HasOutcome(Outcomes([], stored), g) <==> g in stored
  {
  }

  lemma AnsweredNext(entries: seq<GroupId>, replies: nat -> Reply, stored: Outcomes, i: nat, wanted: set<Reply>)
    requires i < |entries|
    ensures var now := Answered(entries, replies, stored, i, wanted);
      Answered(entries, replies, stored, i + 1, wanted)
        == if replies(i) in wanted && !HasOutcome(stored, entries[i]) then now + {entries[i]} else now
  {
  }

  lemma NothingAnswered(entries: seq<GroupId>, replies: nat -> Reply, stored: Outcomes, states: States)
    ensures forall wanted :: Answered(entries, replies, stored, 0, wanted) == {}
    ensures Resolving(states, {}) == states
  {
  }

  lemma ResolvingOne(states: States, groups: set<GroupId>, g: GroupId)
    requires g in states
    ensures Resolving(states, groups + {g}) == Resolving(states, groups)[g := Resolved]
  {
  }

  lemma ReplyKinds(reply: Reply)
    ensures reply in SUCCESSES <==> reply.Some?
    ensures reply in RULINGS <==> reply == Some(Upheld) || reply == Some(Dismissed)
    ensures reply in DISMISSALS <==> reply == Some(Dismissed)
  {
    if reply.Some? {
      match reply.value {
        case Upheld =>
        case Dismissed =>
        case Modified =>
      }
    }
  }

  lemma ResolvingResolves(states: States, groups: set<GroupId>)
    ensures OnlyResolves(states, Resolving(states, groups))
  {
  }

  // ---------- What publishing withholds ----------

  /** Whether publishing shows the group of a finding. */
  predicate Publishes(f: LinkedFinding, states: States, outcomes: Outcomes) {
    && f.group.Some? && f.group.value in states && states[f.group.value] != Superseded
    && (states[f.group.value] == Resolved || !f.escalates || HasOutcome(outcomes, f.group.value))
  }

  predicate Known(f: LinkedFinding, states: States) { f.group.Some? && f.group.value in states }

  /** Every group of the run is published, except superseded ones, which never are. */
  ghost predicate WithholdsNothing(findings: seq<LinkedFinding>, states: States, outcomes: Outcomes) {
    forall i | 0 <= i < |findings| && Known(findings[i], states) && states[findings[i].group.value] != Superseded ::
      Publishes(findings[i], states, outcomes)
  }

  /** The judge asks for outcomes of superseded candidates as well. */
  ghost predicate SupersededJudged(findings: seq<LinkedFinding>, states: States, outcomes: Outcomes) {
    forall i |
      0 <= i < |findings| && IsCandidate(findings[i], states) && states[findings[i].group.value] == Superseded ::
      HasOutcome(outcomes, findings[i].group.value)
  }

  /**
   * No candidate lacks an outcome if and only if publishing withholds nothing and no superseded candidate lacks one
   * either; candidates are those of the load, and judging since then only resolved groups.
   */
  lemma NothingMissingIff(findings: seq<LinkedFinding>, loaded: States, states: States, outcomes: Outcomes)
    requires OnlyResolves(loaded, states)
    ensures !MissingOutcome(Candidates(findings, loaded), states, outcomes)
       <==> WithholdsNothing(findings, states, outcomes) && SupersededJudged(findings, states, outcomes)
  {
    var c := Candidates(findings, loaded);
    if !MissingOutcome(c, states, outcomes) {
      forall i | 0 <= i < |findings| && IsCandidate(findings[i], states)
        ensures HasOutcome(outcomes, findings[i].group.value)
      {
        CandidatesExact(findings, loaded, findings[i].group.value);
        assert IsCandidate(findings[i], loaded);
        var k :| 0 <= k < |c| && c[k] == findings[i].group.value;
      }
    } else {
      var k :| 0 <= k < |c| && IsUnresolved(states, c[k]) && !HasOutcome(outcomes, c[k]);
      CandidatesExact(findings, loaded, c[k]);
      var i :| 0 <= i < |findings| && IsCandidate(findings[i], loaded) && findings[i].group == Some(c[k]);
      assert IsCandidate(findings[i], states);
    }
  }

  // ---------- The run ----------

  class JudgeRun {
    var states: States
    var outcomes: Outcomes
    var status: JudgeStatus

    constructor (states: States)
      ensures this.states == states && outcomes == Outcomes([], []) && Capped()
    {
      this.states := states;
      outcomes := Outcomes([], []);
      status := NotApplicable;
    }

    /** At most five verification outcomes, on distinct groups. */
    predicate Capped()
      reads `outcomes
    {
      |outcomes.verification| <= 5 && Distinct(outcomes.verification)
    }

    /** The verification judge: `ranked` are the rows its query would give without the limit, in order. */
    method VerifyStillOpenEscalations(ranked: seq<GroupId>, replies: nat -> Reply) returns (judged: nat)
      requires Capped() && Distinct(ranked) && forall i | 0 <= i < |ranked| :: ranked[i] in states
      modifies `states, `outcomes
      ensures Capped() && OnlyResolves(old(states), states)
      ensures outcomes.discovery == old(outcomes.discovery)
      ensures old(outcomes.verification) <= outcomes.verification
      ensures judged == |outcomes.verification| - |old(outcomes.verification)|
      ensures VerifiedExactly(ranked, replies, old(outcomes.verification), outcomes.verification, old(states), states)
    {
      hide OnlyResolves, Answered, Resolving, HasOutcome, RULINGS, DISMISSALS, Distinct, Escalations;
      judged := 0;
      var stored := outcomes.verification;
      var groups := Escalations(ranked, stored, VERIFICATION_JUDGE_MAX_PER_RUN - |stored|);
      EscalationsDistinct(ranked, stored, VERIFICATION_JUDGE_MAX_PER_RUN - |stored|);
      NothingAnswered(groups, replies, Outcomes([], stored), states);
      var added: seq<GroupId> := [];
      assert stored + added == stored;
      for i := 0 to |groups|
        invariant outcomes == old(outcomes)
        invariant judged == |added| <= i && Distinct(stored + added)
        invariant forall j | 0 <= j < |added| :: added[j] in groups[..i]
        invariant forall g :: g in added <==> g in Answered(groups, replies, Outcomes([], stored), i, RULINGS)
        invariant states == Resolving(old(states), Answered(groups, replies, Outcomes([], stored), i, DISMISSALS))
      {
        var g := groups[i];
        AnsweredNext(groups, replies, Outcomes([], stored), i, RULINGS);
        AnsweredNext(groups, replies, Outcomes([], stored), i, DISMISSALS);
        ReplyKinds(replies(i));
        OutcomeOf(stored, g);
        ResolvingOne(old(states), Answered(groups, replies, Outcomes([], stored), i, DISMISSALS), g);
        if g in stored || replies(i) == None || replies(i) == Some(Modified) {
          continue;
        }
        AddedIsNew(stored, added, groups, i);
        added := added + [g];
        judged := judged + 1;
        if replies(i) == Some(Dismissed) {
          states := states[g := Resolved];
        }
      }
      outcomes := outcomes.(verification := stored + added);
      ResolvingResolves(old(states), Answered(groups, replies, Outcomes([], stored), |groups|, DISMISSALS));
    }

    /**
     * The discovery judge looks at the first ten candidate entries. It sees the outcomes stored before, not the ones
     * it adds, so two findings of one group are judged twice.
     */
    method RunJudgeLoop(candidates: seq<GroupId>, replies: nat -> Reply) returns (judged: nat)
      requires forall i | 0 <= i < |candidates| :: candidates[i] in states
      modifies `states, `outcomes
      ensures OnlyResolves(old(states), states) && outcomes.verification == old(outcomes.verification)
      ensures old(outcomes.discovery) <= outcomes.discovery
      ensures judged == |outcomes.discovery| - |old(outcomes.discovery)| <= 10
      ensures JudgedExactly(candidates, replies, old(outcomes), outcomes)
      ensures DismissedExactly(candidates, replies, old(outcomes), old(states), states)
    {
      hide OnlyResolves, Answered, Resolving, HasOutcome, SUCCESSES, DISMISSALS;
      judged := 0;
      var stored := outcomes;
      var added: seq<GroupId> := [];
      var first := Prefix(candidates, JUDGE_MAX_PER_RUN);
      NothingAnswered(first, replies, stored, states);
      for i := 0 to |first|
        invariant outcomes == old(outcomes) && judged == |added| <= i
        invariant forall g :: g in added <==> g in Answered(first, replies, stored, i, SUCCESSES)
        invariant states == Resolving(old(states), Answered(first, replies, stored, i, DISMISSALS))
      {
        AnsweredNext(first, replies, stored, i, SUCCESSES);
        AnsweredNext(first, replies, stored, i, DISMISSALS);
        ReplyKinds(replies(i));
        ResolvingOne(old(states), Answered(first, replies, stored, i, DISMISSALS), first[i]);
        if HasOutcome(stored, first[i]) || replies(i) == None {
          continue;
        }
        added := added + [first[i]];
        judged := judged + 1;
        if replies(i) == Some(Dismissed) {
          states := states[first[i] := Resolved];
        }
      }
      outcomes := outcomes.(discovery := stored.discovery + added);
      ResolvingResolves(old(states), Answered(first, replies, stored, |first|, DISMISSALS));
    }

    method CandidatesMissingOutcome(candidates: seq<GroupId>) returns (missing: bool)
      requires forall i | 0 <= i < |candidates| :: candidates[i] in states
      ensures missing <==> MissingOutcome(candidates, states, outcomes)
    {
      for i := 0 to |candidates|
        invariant forall j | 0 <= j < i :: !IsUnresolved(states, candidates[j]) || HasOutcome(outcomes, candidates[j])
      {
        if states[candidates[i]] == Resolved {
          continue;
        }
        if !HasOutcome(outcomes, candidates[i]) {
          return true;
        }
      }
      return false;
    }

    /** The status shortcut: any outcome of the run counts as completed. */
    method ShortcutStatus(otherwise: JudgeStatus)
      modifies `status
      ensures status == if HasAnyOutcome(outcomes) then Completed else otherwise
    {
      status := if HasAnyOutcome(outcomes) then Completed else otherwise;
    }

    /**
     * Once the loop ran, the status is completed exactly when every candidate that is still unresolved has an
     * outcome. The other branches settle for any outcome at all.
     */
    method RecordJudgeStatus(findings: seq<LinkedFinding>, runCompleted: bool, enabled: bool, model: bool,
                             replies: nat -> Reply)
      returns (judged: nat, looped: bool)
      modifies this
      ensures OnlyResolves(old(states), states) && outcomes.verification == old(outcomes.verification)
      ensures looped <==> runCompleted && enabled && model && Candidates(findings, old(states)) != []
      ensures looped ==> (status == Completed <==> !MissingOutcome(Candidates(findings, old(states)), states, outcomes))
      ensures looped ==>
        (status == Completed
         <==> WithholdsNothing(findings, states, outcomes) && SupersededJudged(findings, states, outcomes))
      ensures looped ==> status == Completed || status == SkippedUnavailable
      ensures looped ==>
        && JudgedExactly(Candidates(findings, old(states)), replies, old(outcomes), outcomes)
        && DismissedExactly(Candidates(findings, old(states)), replies, old(outcomes), old(states), states)
      ensures !looped ==> states == old(states) && outcomes == old(outcomes)
      ensures !looped && (outcomes.discovery != [] || outcomes.verification != []) ==> status == Completed
      ensures judged == |outcomes.discovery| - |old(outcomes.discovery)|
      ensures !looped && outcomes.discovery == [] && outcomes.verification == [] ==>
        && (!runCompleted || Candidates(findings, states) == [] ==> status == NotApplicable)
        && (runCompleted && Candidates(findings, states) != [] ==>
              status == if enabled then SkippedUnavailable else SkippedDisabled)
    {
      judged := 0;
      looped := false;
      CandidatesKnown(findings, states);
      var candidates := if runCompleted then Candidates(findings, states) else [];
      if !runCompleted || candidates == [] {
        ShortcutStatus(NotApplicable);
        return;
      }
      if !enabled {
        ShortcutStatus(SkippedDisabled);
        return;
      }
      if !model {
        ShortcutStatus(SkippedUnavailable);
        return;
      }
      looped := true;
      judged := RunJudgeLoop(candidates, replies);
      var missing := CandidatesMissingOutcome(candidates);
      NothingMissingIff(findings, old(states), states, outcomes);
      status := if missing then SkippedUnavailable else Completed;
    }

    /** After verification: an unavailable run whose candidates all have outcomes by now becomes completed. */
    method FinalizeJudgeStatus(findings: seq<LinkedFinding>, runCompleted: bool)
      modifies `status
      ensures old(status) != SkippedUnavailable ==> status == old(status)
      ensures old(status) == SkippedUnavailable ==>
        (status == Completed <==> !runCompleted || !MissingOutcome(Candidates(findings, states), states, outcomes))
      ensures old(status) == SkippedUnavailable && runCompleted ==>
        (status == Completed
         <==> WithholdsNothing(findings, states, outcomes) && SupersededJudged(findings, states, outcomes))
    {
      if status != SkippedUnavailable {
        return;
      }
      CandidatesKnown(findings, states);
      var candidates := if runCompleted then Candidates(findings, states) else [];
      var missing := CandidatesMissingOutcome(candidates);
      NothingMissingIff(findings, states, states, outcomes);
      if !missing {
        status := Completed;
      }
    }

    /** Any number of verification passes over any rankings. */
    method VerifyRepeatedly(rankings: seq<seq<GroupId>>, replies: nat -> nat -> Reply)
      requires Capped()
      requires forall i | 0 <= i < |rankings| ::
        Distinct(rankings[i]) && forall j | 0 <= j < |rankings[i]| :: rankings[i][j] in states
      modifies `states, `outcomes
      ensures Capped() && OnlyResolves(old(states), states) && outcomes.discovery == old(outcomes.discovery)
    {
      for i := 0 to |rankings|
        invariant Capped() && OnlyResolves(old(states), states) && outcomes.discovery == old(outcomes.discovery)
      {
        var judged := VerifyStillOpenEscalations(rankings[i], replies(i));
      }
    }
  }

  function Prefix(s: seq<GroupId>, n: nat): seq<GroupId> {
    if |s| <= n then s else s[..n]
  }

  lemma CandidatesKnown(findings: seq<LinkedFinding>, states: States)
    ensures forall i | 0 <= i < |Candidates(findings, states)| :: Candidates(findings, states)[i] in states
  {
    forall i | 0 <= i < |Candidates(findings, states)| ensures Candidates(findings, states)[i] in states {
      CandidatesExact(findings, states, Candidates(findings, states)[i]);
    }
  }

  lemma AddedIsNew(stored: seq<GroupId>, added: seq<GroupId>, groups: seq<GroupId>, i: nat)
    requires Distinct(stored + added) && Distinct(groups) && i < |groups| && groups[i] !in stored
    requires forall j | 0 <= j < |added| :: added[j] in groups[..i]
    ensures Distinct(stored + (added + [groups[i]]))
  {
    var s := stored + (added + [groups[i]]);
    assert s == (stored + added) + [groups[i]];
    forall j | 0 <= j < |stored + added| ensures (stored + added)[j] != groups[i] {
      if j >= |stored| {
        assert added[j - |stored|] in groups[..i];
      }
    }
  }

  // ---------- Publishing ----------

  method PublishableGroups(findings: seq<LinkedFinding>, states: States,
                           outcomes: Outcomes) returns (publishable: set<GroupId>)
    ensures publishable == set f | f in findings && Publishes(f, states, outcomes) :: f.group.value
  {
    publishable := {};
    for i := 0 to |findings|
      invariant publishable == set f | f in findings[..i] && Publishes(f, states, outcomes) :: f.group.value
    {
      var f := findings[i];
      assert findings[..i + 1] == findings[..i] + [f];
      if f.group == None || f.group.value !in states || states[f.group.value] == Superseded {
        continue;
      }
      if states[f.group.value] == Resolved || !f.escalates || HasOutcome(outcomes, f.group.value) {
        publishable := publishable + {f.group.value};
      }
    }
    assert findings[..|findings|] == findings;
  }

  /**
   * When no unresolved candidate lacks an outcome, publishing withholds no group of the run except superseded ones,
   * also later, as long as outcomes stay and no resolved group is reopened.
   */
  lemma CompletedWithholdsNothing(findings: seq<LinkedFinding>, loaded: States, judged: States, outcomes: Outcomes,
                                  states: States, later: Outcomes, f: LinkedFinding)
    requires !MissingOutcome(Candidates(findings, loaded), judged, outcomes)
    requires forall g | g in states && states[g] != Resolved :: IsUnresolved(loaded, g) && IsUnresolved(judged, g)
    requires forall g | HasOutcome(outcomes, g) :: HasOutcome(later, g)
    requires f in findings && f.group.Some? && f.group.value in states && states[f.group.value] != Superseded
    ensures Publishes(f, states, later)
  {
    var g := f.group.value;
    if states[g] != Resolved && f.escalates {
      CandidatesExact(findings, loaded, g);
      var i :| 0 <= i < |Candidates(findings, loaded)| && Candidates(findings, loaded)[i] == g;
      assert HasOutcome(outcomes, g);
    }
  }

  /** In a table without superseded groups, completion after the loop is exactly what publishing needs. */
  lemma CompletionIsPublication(findings: seq<LinkedFinding>, loaded: States, states: States, outcomes: Outcomes)
    requires OnlyResolves(loaded, states) && forall g | g in loaded :: loaded[g] != Superseded
    ensures !MissingOutcome(Candidates(findings, loaded), states, outcomes)
       <==> WithholdsNothing(findings, states, outcomes)
  {
    NothingMissingIff(findings, loaded, states, outcomes);
  }

  /**
   * The shortcut is weaker, on every run with two different candidate groups of which a later one is active: when the
   * first call succeeds, the others fail, and the judge is then switched off, the run ends completed while that group
   * is withheld.
   */
  method DisabledAfterOneVerdict(findings: seq<LinkedFinding>, states: States, later: nat) returns (run: JudgeRun)
    requires var c := Candidates(findings, states);
      0 < later < |c| && c[later] != c[0] && states.Keys >= {c[later]} && states[c[later]] == Active
    ensures run.status == Completed && !WithholdsNothing(findings, run.states, run.outcomes)
  {
    var c := Candidates(findings, states);
    CandidatesKnown(findings, states);
    run := new JudgeRun(states);
    var onlyFirst: nat -> Reply := (i: nat) => if i == 0 then Some(Upheld) else None;
    var judged, looped := run.RecordJudgeStatus(findings, true, true, true, onlyFirst);
    OnlyFirstAnswered(c, onlyFirst);
    assert run.states == states && run.outcomes.verification == [];
    assert forall g :: g in run.outcomes.discovery <==> g == c[0];
    judged, looped := run.RecordJudgeStatus(findings, true, false, true, onlyFirst);
    CandidatesExact(findings, states, c[later]);
    ghost var i :| 0 <= i < |findings| && IsCandidate(findings[i], states) && findings[i].group == Some(c[later]);
    assert run.outcomes.discovery != [] by {
      assert c[0] in run.outcomes.discovery;
    }
    assert !Publishes(findings[i], run.states, run.outcomes);
  }

  lemma OnlyFirstAnswered(c: seq<GroupId>, replies: nat -> Reply)
    requires c != [] && forall i: nat :: replies(i) == if i == 0 then Some(Upheld) else None
    ensures var first := Prefix(c, 10);
      && Answered(first, replies, Outcomes([], []), |first|, SUCCESSES) == {c[0]}
      && Answered(first, replies, Outcomes([], []), |first|, DISMISSALS) == {}
  {
    var first := Prefix(c, 10);
    assert first[0] == c[0] && replies(0) == Some(Upheld);
    assert forall i | 0 < i < |first| :: replies(i) == None;
  }
}
