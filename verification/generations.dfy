/**
 * Superseding the in-flight work of a pull request on a synchronize event, while workers keep moving their own jobs
 * between the statements (backend/app/services/github_generation_lifecycle.py, github_pull_requests.py).
 */
module Generations {
  import opened Options
  import Revisions

  type Sha = string
  type Id = nat

  /** For index jobs `Superseded` is the failed status with the supersession message. */
  datatype Status = Pending | Processing | Completed | Failed | Superseded

  /** A review run or an index job, on the revision with this number. */
  datatype Job = Job(revision: nat, status: Status)

  type Jobs = map<Id, Job>

  const FINISHED: set<Status> := {Completed, Failed, Superseded}

  predicate IsActive(job: Job) { job.status == Pending || job.status == Processing }

  /** A worker claims, requeues, completes or fails its own job by compare-and-set; only unfinished jobs move. */
  datatype Move = Claim(id: Id) | Requeue(id: Id) | Complete(id: Id) | Fail(id: Id)

  function Moved(jobs: Jobs, move: Move): Jobs {
    if move.id in jobs && IsActive(jobs[move.id]) then
      var to := match move
        case Claim(_) => Processing
        case Requeue(_) => Pending
        case Complete(_) => Completed
        case Fail(_) => Failed;
      jobs[move.id := jobs[move.id].(status := to)]
    else jobs
  }

  function MovedAll(jobs: Jobs, moves: seq<Move>): Jobs {
    if moves == [] then jobs else MovedAll(Moved(jobs, moves[0]), moves[1..])
  }

  /** A move takes an unfinished job where it says, and leaves all others alone. */
  lemma MoveEffect(jobs: Jobs, move: Move, id: Id)
    requires id in jobs
    ensures Moved(jobs, move).Keys == jobs.Keys
    ensures Moved(jobs, move)[id] ==
      if id == move.id && jobs[id].status !in FINISHED
      then Job(jobs[id].revision, match move
        case Claim(_) => Processing
        case Requeue(_) => Pending
        case Complete(_) => Completed
        case Fail(_) => Failed)
      else jobs[id]
  {
  }

  /** Moves are made one after the other. */
  lemma {:induction false} MovesInOrder(jobs: Jobs, moves: seq<Move>, move: Move)
    ensures MovedAll(jobs, moves + [move]) == Moved(MovedAll(jobs, moves), move)
    decreases |moves|
  {
    hide Moved;
    if moves == [] {
      assert [] + [move] == [move] && [move][1..] == [];
      assert MovedAll(Moved(jobs, move), []) == Moved(jobs, move);
    } else {
      assert (moves + [move])[0] == moves[0] && (moves + [move])[1..] == moves[1..] + [move];
      MovesInOrder(Moved(jobs, moves[0]), moves[1..], move);
    }
  }

  /** What moves of workers keep: finished jobs stay, and none becomes superseded. */
  predicate WorkersMoved(before: Jobs, after: Jobs) {
    && before.Keys == after.Keys
    && forall id | id in before ::
         && after[id].revision == before[id].revision
         && (!IsActive(before[id]) ==> after[id] == before[id])
         && (after[id].status == Superseded ==> before[id].status == Superseded)
  }

  lemma {:induction false} MovesOfWorkers(jobs: Jobs, moves: seq<Move>)
    ensures WorkersMoved(jobs, MovedAll(jobs, moves))
  {
    if moves != [] {
      MovesOfWorkers(Moved(jobs, moves[0]), moves[1..]);
    }
  }

  /** What is left of a list of rounds after `n` of them. */
  function Later(rounds: seq<seq<Move>>, n: nat): seq<seq<Move>> {
    if n <= |rounds| then rounds[n..] else []
  }

  // ---------- Scope of a supersession ----------

  datatype Scope = Below(number: nat) | Exactly(number: nat)

  predicate InScope(scope: Scope, job: Job) {
    match scope
    case Below(number) => job.revision < number
    case Exactly(number) => job.revision == number
  }

  function Flip(job: Job): Job { job.(status := Superseded) }

  /** The jobs that became superseded. */
  function Flipped(before: Jobs, after: Jobs): set<Id> {
    set id | id in before && id in after && before[id].status != Superseded && after[id].status == Superseded
  }

  /** No unfinished job is left in scope, only jobs in scope were superseded, and finished jobs are as before. */
  ghost predicate SupersededIn(scope: Scope, before: Jobs, after: Jobs) {
    && before.Keys == after.Keys
    && forall id | id in before ::
         && after[id].revision == before[id].revision
         && (before[id].status in FINISHED ==> after[id] == before[id])
         && (InScope(scope, before[id]) ==> after[id].status in FINISHED)
         && (after[id].status == Superseded && before[id].status != Superseded ==> InScope(scope, before[id]))
  }

  /** Without other workers the outcome is determined: exactly the unfinished jobs in scope are superseded. */
  function FlipAll(scope: Scope, jobs: Jobs): Jobs {
    map id | id in jobs :: if InScope(scope, jobs[id]) && IsActive(jobs[id]) then Flip(jobs[id]) else jobs[id]
  }

  lemma AloneIsExact(scope: Scope, before: Jobs, after: Jobs)
    requires SupersededIn(scope, before, after)
    requires OnlyFlips(before, after)
    ensures after == FlipAll(scope, before)
  {
  }

  /** After trying these ids: none of them is unfinished, and only they were superseded. */
  ghost predicate Tried(ids: set<Id>, before: Jobs, after: Jobs) {
    && before.Keys == after.Keys
    && forall id | id in before ::
         && after[id].revision == before[id].revision
         && (!IsActive(before[id]) ==> after[id] == before[id])
         && (id in ids ==> !IsActive(after[id]))
         && (id !in ids && after[id].status == Superseded ==> before[id].status == Superseded)
  }

  ghost predicate OnlyFlips(before: Jobs, after: Jobs) {
    before.Keys == after.Keys && forall id | id in before :: after[id] == before[id] || after[id] == Flip(before[id])
  }

  /** A list of exactly these ids, each once. */
  ghost predicate Listed(list: seq<Id>, ids: set<Id>) {
    && (forall i | 0 <= i < |list| :: list[i] in ids)
    && (forall id | id in ids :: id in list)
    && forall i, j | 0 <= i < j < |list| :: list[i] != list[j]
  }

  lemma NothingTried(jobs: Jobs)
    ensures Tried({}, jobs, jobs) && OnlyFlips(jobs, jobs) && Listed([], Flipped(jobs, jobs))
  {
  }

  lemma WorkersKeepTried(ids: set<Id>, first: Jobs, before: Jobs, after: Jobs)
    requires Tried(ids, first, before) && WorkersMoved(before, after)
    ensures after.Keys == before.Keys == first.Keys && Tried(ids, first, after)
    ensures Flipped(first, after) == Flipped(first, before)
  {
    forall id | id in first ensures after[id].status == Superseded <==> before[id].status == Superseded {
      assert !IsActive(before[id]) ==> after[id] == before[id];
    }
  }

  lemma TriedOne(ids: set<Id>, first: Jobs, jobs: Jobs, id: Id)
    requires Tried(ids, first, jobs) && id in jobs
    ensures !IsActive(jobs[id]) ==> Tried(ids + {id}, first, jobs)
    ensures IsActive(jobs[id]) ==>
      var next := jobs[id := Flip(jobs[id])];
      && Tried(ids + {id}, first, next) && id !in Flipped(first, jobs)
      && Flipped(first, next) == Flipped(first, jobs) + {id}
      && (OnlyFlips(first, jobs) ==> OnlyFlips(first, next))
  {
  }

  lemma ListedSnoc(list: seq<Id>, ids: set<Id>, id: Id)
    requires Listed(list, ids) && id !in ids
    ensures Listed(list + [id], ids + {id})
  {
  }

  // ---------- One table of jobs ----------

  class JobTable {
    var jobs: Jobs
    /** What the other workers do before each next statement. */
    var others: seq<seq<Move>>

    constructor (jobs: Jobs, others: seq<seq<Move>>)
      ensures this.jobs == jobs && this.others == others
    {
      this.jobs := jobs;
      this.others := others;
    }

    method LetOthersMove()
      modifies this
      ensures WorkersMoved(old(jobs), jobs)
      ensures old(others) == [] ==> jobs == old(jobs) && others == []
      ensures old(others) != [] ==> jobs == old(MovedAll(jobs, others[0])) && others == old(others[1..])
    {
      if others != [] {
        MovesOfWorkers(jobs, others[0]);
        jobs := MovedAll(jobs, others[0]);
        others := others[1..];
      }
    }

    /** Compare-and-set one by one, for the ids found unfinished earlier. */
    method MarkSupersededCas(ids: set<Id>) returns (superseded: seq<Id>)
      requires ids <= jobs.Keys
      modifies this
      ensures Tried(ids, old(jobs), jobs)
      ensures Listed(superseded, Flipped(old(jobs), jobs))
      ensures old(others) == [] ==> others == [] && OnlyFlips(old(jobs), jobs)
      ensures others == Later(old(others), |ids|)
    {
      hide Listed, Flipped, Tried, OnlyFlips, WorkersMoved;
      superseded := [];
      var todo := ids;
      NothingTried(jobs);
      assert ids - todo == {};
      while todo != {}
        invariant todo <= ids <= jobs.Keys && |todo| <= |ids|
        invariant others == Later(old(others), |ids| - |todo|)
        invariant Tried(ids - todo, old(jobs), jobs)
        invariant Listed(superseded, Flipped(old(jobs), jobs))
        invariant old(others) == [] ==> others == [] && OnlyFlips(old(jobs), jobs)
        decreases |todo|
      {
        var id :| id in todo;
        ghost var done, before := ids - todo, jobs;
        todo := todo - {id};
        assert ids - todo == done + {id};
        LetOthersMove();
        WorkersKeepTried(done, old(jobs), before, jobs);
        ghost var moved := jobs;
        TriedOne(done, old(jobs), moved, id);
        if IsActive(jobs[id]) {
          ListedSnoc(superseded, Flipped(old(jobs), moved), id);
          jobs := jobs[id := Flip(jobs[id])];
          superseded := superseded + [id];
        }
      }
      assert ids - todo == ids;
    }

    /** Select the unfinished jobs in scope, then supersede them; a job that finished in between is left alone. */
    method SupersedeScope(scope: Scope) returns (superseded: seq<Id>)
      modifies this
      ensures SupersededIn(scope, old(jobs), jobs)
      ensures Listed(superseded, Flipped(old(jobs), jobs))
      ensures old(others) == [] ==> others == [] && jobs == old(FlipAll(scope, jobs))
      ensures exists n :: 0 < n && others == Later(old(others), n)
    {
      LetOthersMove();
      var ids := set id | id in jobs && InScope(scope, jobs[id]) && IsActive(jobs[id]);
      ghost var selected := jobs;
      superseded := MarkSupersededCas(ids);
      assert others == Later(old(others), 1 + |ids|);
      ThroughSelection(scope, old(jobs), selected, jobs, ids);
      if old(others) == [] {
        AloneIsExact(scope, old(jobs), jobs);
      }
    }
  }

  lemma ThroughSelection(scope: Scope, before: Jobs, selected: Jobs, after: Jobs, ids: set<Id>)
    requires WorkersMoved(before, selected) && after.Keys == selected.Keys
    requires ids == set id | id in selected && InScope(scope, selected[id]) && IsActive(selected[id])
    requires Tried(ids, selected, after)
    ensures SupersededIn(scope, before, after)
    ensures Flipped(before, after) == Flipped(selected, after)
  {
    assert forall id | id in before :: before[id].status == Superseded <==> selected[id].status == Superseded;
  }

  // ---------- The pull request ----------

  ghost predicate GoodRevisions(count: nat, revisions: map<nat, Sha>) {
    && (forall n :: n in revisions <==> 1 <= n <= count)
    && forall m, n | m in revisions && n in revisions && revisions[m] == revisions[n] :: m == n
  }

  class PullRequestStore {
    var head: Sha
    var count: nat
    var revisions: map<nat, Sha>
    const runs: JobTable
    const indexJobs: JobTable

    constructor (head: Sha, count: nat, revisions: map<nat, Sha>, runs: JobTable, indexJobs: JobTable)
      requires GoodRevisions(count, revisions) && runs != indexJobs
      ensures Valid()
    {
      this.head := head;
      this.count := count;
      this.revisions := revisions;
      this.runs := runs;
      this.indexJobs := indexJobs;
    }

    ghost predicate Valid()
      reads this
    {
      GoodRevisions(count, revisions) && runs != indexJobs
    }

    method RevisionForHeadSha(sha: Sha) returns (number: nat)
      requires Valid()
      ensures number == 0 <==> forall n | n in revisions :: revisions[n] != sha
      ensures number != 0 ==> number in revisions && revisions[number] == sha
    {
      if n :| n in revisions && revisions[n] == sha {
        return n;
      } else {
        return 0;
      }
    }

    /** The revision of a synchronize event: a known one of this sha, or a new one. */
    method RevisionForSynchronize(sha: Sha) returns (kept: nat)
      requires Valid()
      modifies this
      ensures Valid() && head == sha && kept in revisions && revisions[kept] == sha
      ensures count ==
        if (forall n | n in old(revisions) :: old(revisions)[n] != sha) then old(count) + 1 else old(count)
      ensures count > old(count) ==> kept == count
      ensures forall n | n in old(revisions) :: n in revisions && revisions[n] == old(revisions)[n]
    {
      kept := RevisionForHeadSha(sha);
      if kept == 0 {
        kept := count + 1;
        revisions := revisions[kept := sha];
        count := kept;
      }
      head := sha;
    }

    method SupersedeStaleGenerations(kept: nat) returns (superseded: (seq<Id>, seq<Id>))
      requires Valid()
      modifies runs, indexJobs
      ensures SupersededIn(Below(kept), old(runs.jobs), runs.jobs)
      ensures SupersededIn(Below(kept), old(indexJobs.jobs), indexJobs.jobs)
      ensures Listed(superseded.0, Flipped(old(runs.jobs), runs.jobs))
      ensures Listed(superseded.1, Flipped(old(indexJobs.jobs), indexJobs.jobs))
      ensures old(runs.others) == [] ==> runs.jobs == old(FlipAll(Below(kept), runs.jobs))
      ensures old(indexJobs.others) == [] ==> indexJobs.jobs == old(FlipAll(Below(kept), indexJobs.jobs))
    {
      var runIds := runs.SupersedeScope(Below(kept));
      var jobIds := indexJobs.SupersedeScope(Below(kept));
      superseded := (runIds, jobIds);
    }

    method SupersedeActiveGenerations(kept: nat) returns (superseded: (seq<Id>, seq<Id>))
      requires Valid()
      modifies runs, indexJobs
      ensures SupersededIn(Exactly(kept), old(runs.jobs), runs.jobs)
      ensures SupersededIn(Exactly(kept), old(indexJobs.jobs), indexJobs.jobs)
      ensures Listed(superseded.0, Flipped(old(runs.jobs), runs.jobs))
      ensures Listed(superseded.1, Flipped(old(indexJobs.jobs), indexJobs.jobs))
    {
      var runIds := runs.SupersedeScope(Exactly(kept));
      var jobIds := indexJobs.SupersedeScope(Exactly(kept));
      superseded := (runIds, jobIds);
    }

    /**
     * Nothing unfinished is left below the kept revision, nor on it unless it counts as new; revisions above it keep
     * their work. The returned ids are the superseded ones.
     */
    method SupersedeFor(kept: nat, created: bool) returns (superseded: (seq<Id>, seq<Id>))
      requires Valid()
      modifies runs, indexJobs
      ensures SynchronizedJobs(kept, created, old(runs.jobs), runs.jobs)
      ensures SynchronizedJobs(kept, created, old(indexJobs.jobs), indexJobs.jobs)
      ensures Listed(superseded.0, Flipped(old(runs.jobs), runs.jobs))
      ensures Listed(superseded.1, Flipped(old(indexJobs.jobs), indexJobs.jobs))
      ensures created && old(runs.others) == [] ==> runs.jobs == old(FlipAll(Below(kept), runs.jobs))
      ensures created && old(indexJobs.others) == [] ==> indexJobs.jobs == old(FlipAll(Below(kept), indexJobs.jobs))
    {
      superseded := SupersedeStaleGenerations(kept);
      ghost var midRuns, midJobs := runs.jobs, indexJobs.jobs;
      if !created {
        var more := SupersedeActiveGenerations(kept);
        TwoScopes(kept, old(runs.jobs), midRuns, runs.jobs, superseded.0, more.0);
        TwoScopes(kept, old(indexJobs.jobs), midJobs, indexJobs.jobs, superseded.1, more.1);
        superseded := (superseded.0 + more.0, superseded.1 + more.1);
      }
    }

    /**
     * The returned revision's sha is the head. Nothing unfinished is left below it, nor on it unless it is new;
     * revisions above it (when an old sha came back) keep their work. The returned ids are the superseded ones.
     */
    method Synchronize(sha: Sha) returns (kept: nat, created: bool, superseded: (seq<Id>, seq<Id>))
      requires Valid()
      modifies this, runs, indexJobs
      ensures Valid() && head == sha && kept in revisions && revisions[kept] == sha
      ensures created <==> forall n | n in old(revisions) :: old(revisions)[n] != sha
      ensures SynchronizedJobs(kept, created, old(runs.jobs), runs.jobs)
      ensures SynchronizedJobs(kept, created, old(indexJobs.jobs), indexJobs.jobs)
      ensures Listed(superseded.0, Flipped(old(runs.jobs), runs.jobs))
      ensures Listed(superseded.1, Flipped(old(indexJobs.jobs), indexJobs.jobs))
    {
      var priorCount := count;
      kept := RevisionForSynchronize(sha);
      created := count > priorCount;
      superseded := SupersedeFor(kept, created);
    }
  }

  ghost predicate SynchronizedJobs(kept: nat, created: bool, before: Jobs, after: Jobs) {
    && before.Keys == after.Keys
    && forall id | id in before ::
         && after[id].revision == before[id].revision
         && (before[id].status in FINISHED ==> after[id] == before[id])
         && (before[id].revision < kept || (before[id].revision == kept && !created) ==> after[id].status in FINISHED)
         && (after[id].status == Superseded && before[id].status != Superseded
             ==> before[id].revision < kept || (before[id].revision == kept && !created))
  }

  lemma TwoScopes(kept: nat, before: Jobs, mid: Jobs, after: Jobs, first: seq<Id>, second: seq<Id>)
    requires SupersededIn(Below(kept), before, mid) && SupersededIn(Exactly(kept), mid, after)
    requires Listed(first, Flipped(before, mid)) && Listed(second, Flipped(mid, after))
    ensures SynchronizedJobs(kept, false, before, after)
    ensures Listed(first + second, Flipped(before, after))
  {
    FlippedTwice(kept, before, mid, after);
    ListedConcat(first, second, Flipped(before, mid), Flipped(mid, after));
  }

  lemma FlippedTwice(kept: nat, before: Jobs, mid: Jobs, after: Jobs)
    requires SupersededIn(Below(kept), before, mid) && SupersededIn(Exactly(kept), mid, after)
    ensures Flipped(before, after) == Flipped(before, mid) + Flipped(mid, after)
    ensures Flipped(before, mid) !! Flipped(mid, after)
  {
    forall id | id in before
      ensures id in Flipped(before, after) <==> id in Flipped(before, mid) || id in Flipped(mid, after)
    {
      assert !IsActive(mid[id]) ==> after[id] == mid[id];
      assert !IsActive(before[id]) ==> mid[id] == before[id];
    }
  }

  lemma ListedConcat(a: seq<Id>, b: seq<Id>, s: set<Id>, t: set<Id>)
    requires Listed(a, s) && Listed(b, t) && s !! t
    ensures Listed(a + b, s + t)
  {
  }

  // ---------- With rival deliveries ----------

  /**
   * Among any deliveries, in any interleaving: when a delivery has superseded work by what it reports, unfinished work
   * at or below its revision is left only on that revision, and only if the delivery added it itself or was misled by
   * a lost race.
   */
  lemma WorkLeftIsNew(s: Revisions.State, schedule: seq<Revisions.Event>, d: nat, kept: nat, before: Jobs, after: Jobs,
                      id: Id)
    requires Revisions.Consistent(s)
    requires var t := Revisions.Run(s, schedule);
      && d < |t.deliveries| && t.deliveries[d].pc.Done? && t.deliveries[d].pc.revision == Some(kept)
      && SynchronizedJobs(kept, Revisions.ReportsNew(t.deliveries[d]), before, after)
    requires id in after && after[id].revision <= kept && IsActive(after[id])
    ensures var me := Revisions.Run(s, schedule).deliveries[d];
      after[id].revision == kept && Revisions.ReportsNew(me) && (me.pc.inserted || Revisions.Misled(me))
  {
    Revisions.ReportIsRightIff(s, schedule, d);
    hide Revisions.Run, Revisions.Consistent;
  }

  /**
   * The failing schedule: two deliveries of one new sha at the same time. The second, which added nothing, reports a
   * new revision, so work that was started on it for the first is not superseded.
   */
  lemma RivalWorkSurvives(s: Revisions.State, sha: Sha, before: Jobs, id: Id)
    requires Revisions.Consistent(s) && |s.deliveries| == 2 && s.db.pr.Some?
    requires Revisions.Unstarted(s.deliveries[0], sha) && Revisions.Unstarted(s.deliveries[1], sha)
    requires Revisions.NotAmong(s.db, s.db.pr.value.count, sha)
    requires id in before && before[id].revision == s.db.pr.value.count + 1 && IsActive(before[id])
    ensures var kept, t := s.db.pr.value.count + 1, Revisions.Run(s, Revisions.SAME_TIME);
      && |t.deliveries| == 2 && t.deliveries[1].pc.Done?
      && t.deliveries[1].pc.revision == Some(kept) && !t.deliveries[1].pc.inserted
      && SynchronizedJobs(kept, Revisions.ReportsNew(t.deliveries[1]), before, FlipAll(Below(kept), before))
      && IsActive(FlipAll(Below(kept), before)[id])
  {
    Revisions.OneRevisionReportedTwice(s, sha);
    hide Revisions.Run, Revisions.Consistent, Revisions.NotAmong;
  }
}
