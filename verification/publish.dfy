/**
 * One publish job: authority rechecks between external writes, and what is posted under crashes and retries
 * (backend/app/services/github_publish.py, backend/app/workers/publish_tasks.py).
 */
module Publish {
  import opened Options

  type Sha = string
  type FindingId = nat
  type Key = nat
  type CommentId = nat

  datatype Status = Pending | Processing | Completed | Failed | SkippedNotHead | SkippedSuperseded

  predicate Terminal(status: Status) { status != Pending && status != Processing }

  predicate Skipped(status: Status) { status == SkippedNotHead || status == SkippedSuperseded }

  /** The job row; `threads` is the thread map of its summary, keyed by group. */
  datatype Row = Row(status: Status, check: Option<CommentId>, comment: Option<CommentId>, inlineDone: bool,
                     threads: map<Key, CommentId>)

  datatype Spec = Spec(finding: FindingId, key: Key)

  /** What the build of one attempt supplies; `threads` are those of earlier jobs. */
  datatype Build = Build(
    threads: map<Key, CommentId>,
    posts: seq<Spec>,
    existingCheck: Option<CommentId>,
    existingComment: Option<CommentId>,
    priorComment: Option<CommentId>,
    otherPosted: bool,
    stale: set<Key>)

  /** `Transient(true)` is a crash or timeout after the call took effect. */
  datatype Reply = Ok | Recoverable | Permanent | Transient(took: bool)

  datatype Move = NewHead(sha: Sha) | SupersedeRun

  datatype Surface = Body | Neutral

  /** What GitHub shows: the check runs, the issue comments, and the inline comments with the finding of each. */
  datatype Site = Site(checks: map<CommentId, Surface>, comments: map<CommentId, Surface>,
                       inline: map<CommentId, FindingId>)

  /** A point in the log, and the site then. */
  datatype Mark = Mark(length: nat, site: Site)

  /** The external writes and commits of the job, in order. */
  datatype Event =
    | Recheck(head: Sha, superseded: bool)
    | IndexThreads
    | ResolveThreads(keys: set<Key>)
    | WriteCheck(id: CommentId)
    | WriteComment(id: CommentId)
    | PostInline(finding: FindingId, id: CommentId)
    | AppendBlocks(keys: set<Key>)
    | Reverted
    | Committed
    | RolledBack

  datatype Signal = Proceed | Skip | Crash | Fail

  // ---------- Counting in the log ----------

  function Bit(b: bool): nat { if b then 1 else 0 }

  function Posts(log: seq<Event>, f: FindingId): nat {
    if log == [] then 0
    else
      var e := log[|log| - 1];
      Posts(log[..|log| - 1], f) + Bit(e.PostInline? && e.finding == f)
  }

  /** Posts whose very next event is a rollback: the created comment was never recorded. */
  function Lost(log: seq<Event>, f: FindingId): nat {
    if |log| < 2 then 0
    else
      var e, next := log[|log| - 2], log[|log| - 1];
      Lost(log[..|log| - 1], f) + Bit(next.RolledBack? && e.PostInline? && e.finding == f)
  }

  function Collapses(log: seq<Event>, key: Key): nat {
    if log == [] then 0
    else
      var e := log[|log| - 1];
      Collapses(log[..|log| - 1], key) + Bit(e.ResolveThreads? && key in e.keys)
  }

  predicate EndsWithPost(log: seq<Event>, f: FindingId) {
    log != [] && log[|log| - 1].PostInline? && log[|log| - 1].finding == f
  }

  lemma LogGrows(log: seq<Event>, e: Event)
    ensures forall f :: Posts(log + [e], f) == Posts(log, f) + Bit(e.PostInline? && e.finding == f)
    ensures forall f :: Lost(log + [e], f) == Lost(log, f) + Bit(e.RolledBack? && EndsWithPost(log, f))
    ensures forall k :: Collapses(log + [e], k) == Collapses(log, k) + Bit(e.ResolveThreads? && k in e.keys)
  {
    assert (log + [e])[..|log|] == log;
  }

  // ---------- Authority ----------

  predicate Passed(e: Event, jobHead: Sha) {
    e.Recheck? && !e.superseded && e.head == jobHead
  }

  /** What must directly precede an external write. */
  predicate MayFollow(log: seq<Event>, e: Event, jobHead: Sha) {
    var n := |log|;
    match e
    case ResolveThreads(_) => n >= 1 && Passed(log[n - 1], jobHead)
    case WriteCheck(_) => n >= 1 && Passed(log[n - 1], jobHead)
    case WriteComment(_) => n >= 2 && log[n - 1].WriteCheck? && Passed(log[n - 2], jobHead)
    case PostInline(_, _) => n >= 1 && Passed(log[n - 1], jobHead)
    case _ => true
  }

  /**
   * The check-and-comment write, the thread resolution, and every inline post directly follow a recheck of their
   * own that passed.
   */
  predicate Guarded(log: seq<Event>, jobHead: Sha) {
    forall i | 0 <= i < |log| :: MayFollow(log[..i], log[i], jobHead)
  }

  lemma GuardedGrows(log: seq<Event>, e: Event, jobHead: Sha)
    requires Guarded(log, jobHead) && MayFollow(log, e, jobHead)
    ensures Guarded(log + [e], jobHead)
  {
    forall i | 0 <= i < |log + [e]| ensures MayFollow((log + [e])[..i], (log + [e])[i], jobHead) {
      assert (log + [e])[..i] == if i < |log| then log[..i] else log;
    }
  }

  /** Whether the last recheck in the log passed. */
  predicate LastRecheckPassed(log: seq<Event>, jobHead: Sha) {
    log != [] &&
    var e := log[|log| - 1];
    if e.Recheck? then Passed(e, jobHead) else LastRecheckPassed(log[..|log| - 1], jobHead)
  }

  lemma LastRecheckGrows(log: seq<Event>, e: Event, jobHead: Sha)
    ensures LastRecheckPassed(log + [e], jobHead)
         == if e.Recheck? then Passed(e, jobHead) else LastRecheckPassed(log, jobHead)
  {
    assert (log + [e])[..|log|] == log;
  }

  // ---------- Crash and retry accounting ----------

  /** A created comment is recorded by key in the stored row, or it was lost to a crash, or its thread was collapsed. */
  ghost predicate Accounted(log: seq<Event>, threads: map<Key, CommentId>, keyOf: FindingId -> Key) {
    forall f: FindingId :: Posts(log, f) <= Lost(log, f) + Collapses(log, keyOf(f)) + Bit(keyOf(f) in threads)
  }

  /** At most one comment per finding, apart from lost ones and collapsed threads. */
  ghost predicate PostedOnce(log: seq<Event>, keyOf: FindingId -> Key) {
    forall f: FindingId :: Posts(log, f) <= Lost(log, f) + Collapses(log, keyOf(f)) + 1
  }

  /** The findings still to be posted from `i` on have no comment that the log does not explain. */
  ghost predicate Unposted(log: seq<Event>, posts: seq<Spec>, i: nat, retryPosted: map<Key, CommentId>) {
    forall j | i <= j < |posts| && posts[j].key !in retryPosted ::
      Posts(log, posts[j].finding) <= Lost(log, posts[j].finding) + Collapses(log, posts[j].key)
  }

  /** One entry per finding, keyed by the finding's group. */
  predicate GoodPosts(posts: seq<Spec>, keyOf: FindingId -> Key) {
    && (forall i | 0 <= i < |posts| :: posts[i].key == keyOf(posts[i].finding))
    && (forall i, j | 0 <= i < j < |posts| :: posts[i].finding != posts[j].finding)
  }

  // ---------- Events that leave the accounts alone ----------

  ghost predicate SameCounts(before: seq<Event>, after: seq<Event>) {
    && (forall f: FindingId :: Posts(after, f) == Posts(before, f) && Lost(after, f) == Lost(before, f))
    && (forall k: Key :: Collapses(after, k) == Collapses(before, k))
  }

  predicate Quiet(log: seq<Event>, e: Event) {
    !e.PostInline? && !e.ResolveThreads? && (e.RolledBack? ==> log == [] || !log[|log| - 1].PostInline?)
  }

  lemma QuietGrows(log: seq<Event>, e: Event)
    requires Quiet(log, e)
    ensures SameCounts(log, log + [e])
  {
    LogGrows(log, e);
    hide Posts, Lost, Collapses;
  }

  lemma SameCountsTrans(a: seq<Event>, b: seq<Event>, c: seq<Event>)
    requires SameCounts(a, b) && SameCounts(b, c)
    ensures SameCounts(a, c)
  {
    hide Posts, Lost, Collapses;
  }

  lemma AccountsKept(before: seq<Event>, after: seq<Event>, threads: map<Key, CommentId>, keyOf: FindingId -> Key)
    requires SameCounts(before, after) && Accounted(before, threads, keyOf)
    ensures Accounted(after, threads, keyOf)
  {
    hide Posts, Lost, Collapses;
  }

  lemma UnpostedKept(before: seq<Event>, after: seq<Event>, posts: seq<Spec>, i: nat, retryPosted: map<Key, CommentId>)
    requires SameCounts(before, after) && Unposted(before, posts, i, retryPosted)
    ensures Unposted(after, posts, i, retryPosted)
  {
    hide Posts, Lost, Collapses;
  }

  lemma AccountedIsPostedOnce(log: seq<Event>, threads: map<Key, CommentId>, keyOf: FindingId -> Key)
    requires Accounted(log, threads, keyOf)
    ensures PostedOnce(log, keyOf)
  {
    hide Posts, Lost, Collapses;
  }

  lemma StartsUnposted(log: seq<Event>, build: Build, threads: map<Key, CommentId>, keyOf: FindingId -> Key)
    requires Accounted(log, threads, keyOf) && GoodPosts(build.posts, keyOf)
    ensures Unposted(log, build.posts, 0, threads)
  {
    hide Posts, Lost, Collapses;
  }

  /** Resolving threads takes their keys out of the map; the log then explains the comments they had. */
  lemma ResolveKeepsAccounts(log: seq<Event>, closed: set<Key>, threads: map<Key, CommentId>,
                             merged: map<Key, CommentId>, posts: seq<Spec>, keyOf: FindingId -> Key)
    requires Accounted(log, threads, keyOf) && Unposted(log, posts, 0, threads) && threads.Keys <= merged.Keys
    ensures var after := log + [ResolveThreads(closed)];
      && Accounted(after, threads, keyOf) && Accounted(after, merged - closed, keyOf)
      && Unposted(after, posts, 0, threads)
  {
    LogGrows(log, ResolveThreads(closed));
    hide Posts, Lost, Collapses;
  }

  // ---------- One post ----------

  ghost predicate OneMore(before: seq<Event>, after: seq<Event>, finding: FindingId) {
    && (forall f: FindingId ::
          Posts(after, f) == Posts(before, f) + Bit(f == finding) && Lost(after, f) == Lost(before, f))
    && (forall k: Key :: Collapses(after, k) == Collapses(before, k))
  }

  lemma PostGrows(log: seq<Event>, finding: FindingId, id: CommentId)
    ensures OneMore(log, log + [PostInline(finding, id)], finding)
  {
    LogGrows(log, PostInline(finding, id));
    hide Posts, Lost, Collapses;
  }

  /** A crash right after the post: the comment is lost. */
  lemma LostPostIsAccounted(log: seq<Event>, finding: FindingId, id: CommentId, threads: map<Key, CommentId>,
                            keyOf: FindingId -> Key)
    requires Accounted(log, threads, keyOf)
    ensures Accounted(log + [PostInline(finding, id)] + [RolledBack], threads, keyOf)
  {
    PostGrows(log, finding, id);
    LogGrows(log + [PostInline(finding, id)], RolledBack);
    hide Posts, Lost, Collapses;
  }

  /** The commit records the comment under the key of its group. */
  lemma CommittedPostIsAccounted(log: seq<Event>, after: seq<Event>, posts: seq<Spec>, i: nat,
                                 retryPosted: map<Key, CommentId>,
                                 stored: map<Key, CommentId>, threads: map<Key, CommentId>, keyOf: FindingId -> Key)
    requires i < |posts| && posts[i].key == keyOf(posts[i].finding) && posts[i].key !in retryPosted
    requires OneMore(log, after, posts[i].finding)
    requires Accounted(log, stored, keyOf) && Unposted(log, posts, i, retryPosted)
    requires stored.Keys <= threads.Keys && posts[i].key in threads
    requires forall j | i < j < |posts| :: posts[i].finding != posts[j].finding
    ensures Accounted(after, threads, keyOf) && Unposted(after, posts, i + 1, retryPosted)
  {
    hide Posts, Lost, Collapses;
  }

  lemma UnpostedNext(log: seq<Event>, posts: seq<Spec>, i: nat, retryPosted: map<Key, CommentId>)
    requires Unposted(log, posts, i, retryPosted)
    ensures Unposted(log, posts, i + 1, retryPosted)
  {
    hide Posts, Lost, Collapses;
  }

  /** Each of the first `n` findings has a tracked comment or goes into the issue comment instead. */
  predicate AllHandled(posts: seq<Spec>, n: nat, threads: map<Key, CommentId>, recovered: set<Key>)
    requires n <= |posts|
  {
    forall i | 0 <= i < n :: posts[i].key in threads || posts[i].key in recovered
  }

  // ---------- What a skip must clean up ----------

  predicate AllTrue(bits: seq<bool>) { forall i | 0 <= i < |bits| :: bits[i] }

  predicate NothingToClean(e: Event) { !e.WriteCheck? && !e.WriteComment? && !e.PostInline? }

  /** Nothing was written since the mark. */
  predicate NoWrites(log: seq<Event>, from: Mark, now: Site) {
    from.length <= |log| && now == from.site && forall i | from.length <= i < |log| :: NothingToClean(log[i])
  }

  /** The site with the job's own check and comment set. */
  function WithSurface(site: Site, row: Row, surface: Surface): Site
    requires row.check.Some? && row.comment.Some?
  {
    site.(checks := site.checks[row.check.value := surface], comments := site.comments[row.comment.value := surface])
  }

  predicate WroteCheck(log: seq<Event>, from: Mark) {
    exists i | from.length <= i < |log| :: log[i].WriteCheck?
  }

  /**
   * Since the mark the job wrote its own check and comment and the listed inline comments, and nothing else; the inline
   * comments of before are still there.
   */
  predicate OwnWrites(log: seq<Event>, from: Mark, row: Row, written: seq<CommentId>, now: Site) {
    && from.length <= |log| && WroteCheck(log, from) && row.check.Some? && row.comment.Some?
    && now == WithSurface(from.site, row, Body).(inline := now.inline)
    && now.inline.Keys == from.site.inline.Keys + (set id | id in written)
    && (forall id | id in from.site.inline :: id !in written && now.inline[id] == from.site.inline[id])
    && forall i | from.length <= i < |log| ::
         match log[i]
         case WriteCheck(id) => row.check == Some(id)
         case WriteComment(id) => row.comment == Some(id)
         case PostInline(_, id) => id in written
         case _ => true
  }

  /**
   * Every write since the mark was taken back: check and comment are neutral, inline comments deleted. Whatever else
   * was on the site at the mark is still as it was.
   */
  predicate Cleaned(log: seq<Event>, from: Mark, row: Row, now: Site) {
    && (forall i | from.length <= i < |log| ::
          match log[i]
          case WriteCheck(id) => id in now.checks && now.checks[id] == Neutral
          case WriteComment(id) => id in now.comments && now.comments[id] == Neutral
          case PostInline(_, id) => id !in now.inline
          case _ => true)
    && if WroteCheck(log, from)
       then row.check.Some? && row.comment.Some? && now == WithSurface(from.site, row, Neutral)
       else now == from.site
  }

  lemma OwnSurface(log: seq<Event>, from: Mark, row: Row, written: seq<CommentId>, now: Site)
    requires OwnWrites(log, from, row, written, now)
    ensures from.length <= |log| && row.check.Some? && row.comment.Some?
  {
  }

  lemma OwnIsShown(log: seq<Event>, from: Mark, row: Row, written: seq<CommentId>, now: Site)
    requires OwnWrites(log, from, row, written, now)
    ensures Shown(row, now)
  {
  }

  lemma OwnWritesGrow(log: seq<Event>, e: Event, from: Mark, row: Row, written: seq<CommentId>, now: Site, after: Row)
    requires OwnWrites(log, from, row, written, now) && NothingToClean(e)
    requires after.check == row.check && after.comment == row.comment
    ensures OwnWrites(log + [e], from, after, written, now)
  {
    WroteCheckGrows(log, e, from);
  }

  lemma WroteCheckGrows(log: seq<Event>, e: Event, from: Mark)
    requires !e.WriteCheck?
    ensures WroteCheck(log, from) <==> WroteCheck(log + [e], from)
  {
    if i :| from.length <= i < |log| && log[i].WriteCheck? {
      assert (log + [e])[i].WriteCheck?;
    }
    if i :| from.length <= i < |log + [e]| && (log + [e])[i].WriteCheck? {
      assert log[i].WriteCheck?;
    }
  }

  lemma OwnWritesGrowPost(log: seq<Event>, finding: FindingId, id: CommentId, from: Mark, row: Row,
                          written: seq<CommentId>, now: Site, after: Row)
    requires OwnWrites(log, from, row, written, now) && id !in now.inline
    requires after.check == row.check && after.comment == row.comment
    ensures OwnWrites(log + [PostInline(finding, id)], from, after, written + [id],
                      now.(inline := now.inline[id := finding]))
  {
    WroteCheckGrows(log, PostInline(finding, id), from);
  }

  /** With check and comment neutral and the listed inline comments gone, the own writes are taken back. */
  lemma OwnWritesCleaned(log: seq<Event>, from: Mark, row: Row, written: seq<CommentId>, now: Site, after: Site)
    requires OwnWrites(log, from, row, written, now)
    requires after == WithSurface(now, row, Neutral).(inline := now.inline - set id | id in written)
    ensures Cleaned(log, from, row, after)
  {
    assert after.inline == from.site.inline;
    assert after.checks == from.site.checks[row.check.value := Neutral];
    assert after.comments == from.site.comments[row.comment.value := Neutral];
  }

  predicate AllNeutral(site: Site) {
    && (forall id | id in site.checks :: site.checks[id] == Neutral)
    && (forall id | id in site.comments :: site.comments[id] == Neutral)
    && site.inline == map[]
  }

  /**
   * After a cleaned skip nothing of the job is left on GitHub if and only if no inline comment of an earlier attempt
   * was there, and every check and comment that earlier attempts left published is one the skipping attempt wrote.
   */
  lemma SkipIsNeutralIff(log: seq<Event>, from: Mark, row: Row, now: Site)
    requires Cleaned(log, from, row, now)
    ensures AllNeutral(now) <==>
      && from.site.inline == map[]
      && (forall id | id in from.site.checks && from.site.checks[id] == Body ::
            WroteCheck(log, from) && row.check == Some(id))
      && (forall id | id in from.site.comments && from.site.comments[id] == Body ::
            WroteCheck(log, from) && row.comment == Some(id))
  {
    if WroteCheck(log, from) {
      assert now.checks[row.check.value] == Neutral && now.comments[row.comment.value] == Neutral;
    }
    forall id | id in from.site.checks ensures id in now.checks {
    }
    forall id | id in from.site.comments ensures id in now.comments {
    }
  }

  /** The log went on from `before` without an inline post. */
  predicate PostFree(before: seq<Event>, after: seq<Event>) {
    before <= after && forall i | |before| <= i < |after| :: !after[i].PostInline?
  }

  lemma PostFreeGrows(before: seq<Event>, log: seq<Event>, e: Event)
    requires PostFree(before, log) && !e.PostInline?
    ensures PostFree(before, log + [e])
  {
  }

  lemma PostFreeRefl(log: seq<Event>)
    ensures PostFree(log, log)
  {
  }

  lemma PostFreeTransIf(a: seq<Event>, b: seq<Event>, c: seq<Event>)
    requires PostFree(b, c)
    ensures PostFree(a, b) ==> PostFree(a, c)
  {
  }

  lemma PostFreeTrans(a: seq<Event>, b: seq<Event>, c: seq<Event>)
    requires PostFree(a, b) && PostFree(b, c)
    ensures PostFree(a, c)
  {
  }

  /**
   * What a job writes to: its own, else what an earlier job left for this head, else something new, for which numbers
   * below `next` are taken.
   */
  predicate Chosen(own: Option<CommentId>, other: Option<CommentId>, used: Option<CommentId>, next: CommentId) {
    && (own.Some? ==> used == own)
    && (own == None && other.Some? ==> used == other)
    && (own == None && other == None ==> used.Some? && used.value >= next)
  }

  /** The check and the comment written to; those of an earlier job for this head are used only with its check. */
  predicate Targets(before: Row, build: Build, updateFromOther: bool, after: Row, next: CommentId) {
    && Chosen(before.check, build.existingCheck, after.check, next)
    && Chosen(before.comment, if updateFromOther then build.existingComment else None, after.comment, next)
  }

  /** The same for a whole attempt, in which an earlier comment on the pull request comes first. */
  predicate Reuses(before: Row, build: Build, after: Row, next: CommentId) {
    && Chosen(before.check, build.existingCheck, after.check, next)
    && Chosen(if before.comment.Some? then before.comment else build.priorComment,
              if before.check == None && build.existingCheck.Some? then build.existingComment else None,
              after.comment, next)
  }

  /** The job's check and comment show its results. */
  predicate Shown(row: Row, now: Site) {
    && row.check.Some? && row.comment.Some?
    && row.check.value in now.checks && now.checks[row.check.value] == Body
    && row.comment.value in now.comments && now.comments[row.comment.value] == Body
  }

  lemma WithoutClosed(tracked: map<Key, CommentId>, stale: set<Key>)
    ensures tracked - stale * tracked.Keys == tracked - stale
  {
  }

  // ---------- What a completed job has delivered ----------

  predicate PostedSince(log: seq<Event>, from: nat, f: FindingId) {
    exists i | from <= i < |log| :: log[i].PostInline? && log[i].finding == f
  }

  predicate InIssueComment(log: seq<Event>, from: nat, key: Key) {
    exists i | from <= i < |log| :: log[i].AppendBlocks? && key in log[i].keys
  }

  /**
   * Each of the first `n` findings was tracked before the attempt, or is posted in it, or waits for the issue comment.
   */
  predicate Delivered(log: seq<Event>, from: nat, posts: seq<Spec>, n: nat, tracked: set<Key>, recovered: set<Key>)
    requires n <= |posts|
  {
    forall i | 0 <= i < n ::
      posts[i].key in tracked || PostedSince(log, from, posts[i].finding) || posts[i].key in recovered
  }

  /** Each finding was tracked before the attempt, or is posted in it, or is in its issue comment. */
  predicate AllDelivered(log: seq<Event>, from: nat, posts: seq<Spec>, tracked: set<Key>) {
    forall i | 0 <= i < |posts| ::
      posts[i].key in tracked || PostedSince(log, from, posts[i].finding) || InIssueComment(log, from, posts[i].key)
  }

  lemma PostIsThere(log: seq<Event>, e: Event, from: nat)
    requires from <= |log| && e.PostInline?
    ensures PostedSince(log + ([e] + [Committed]), from, e.finding)
  {
    assert (log + ([e] + [Committed]))[|log|] == e;
  }

  lemma PostedSinceGrows(log: seq<Event>, more: seq<Event>, from: nat, f: FindingId)
    requires PostedSince(log, from, f)
    ensures PostedSince(log + more, from, f)
  {
    var i :| from <= i < |log| && log[i].PostInline? && log[i].finding == f;
    assert (log + more)[i] == log[i];
  }

  lemma DeliveredGrows(log: seq<Event>, more: seq<Event>, from: nat, posts: seq<Spec>, n: nat, tracked: set<Key>,
                       recovered: set<Key>)
    requires n <= |posts| && Delivered(log, from, posts, n, tracked, recovered)
    ensures Delivered(log + more, from, posts, n, tracked, recovered)
  {
    forall i | 0 <= i < n && PostedSince(log, from, posts[i].finding)
      ensures PostedSince(log + more, from, posts[i].finding)
    {
      PostedSinceGrows(log, more, from, posts[i].finding);
    }
  }

  lemma AllDeliveredGrows(log: seq<Event>, more: seq<Event>, from: nat, posts: seq<Spec>, tracked: set<Key>)
    requires AllDelivered(log, from, posts, tracked)
    ensures AllDelivered(log + more, from, posts, tracked)
  {
    forall i | 0 <= i < |posts|
      ensures posts[i].key in tracked || PostedSince(log + more, from, posts[i].finding)
              || InIssueComment(log + more, from, posts[i].key)
    {
      if PostedSince(log, from, posts[i].finding) {
        PostedSinceGrows(log, more, from, posts[i].finding);
      } else if InIssueComment(log, from, posts[i].key) {
        var k :| from <= k < |log| && log[k].AppendBlocks? && posts[i].key in log[k].keys;
        assert (log + more)[k] == log[k];
      }
    }
  }

  /** One more finding is dealt with. */
  lemma DeliveredNext(log: seq<Event>, from: nat, posts: seq<Spec>, i: nat, tracked: set<Key>, before: set<Key>,
                      recovered: set<Key>)
    requires i < |posts| && before <= recovered && Delivered(log, from, posts, i, tracked, before)
    requires posts[i].key in tracked || PostedSince(log, from, posts[i].finding) || posts[i].key in recovered
    ensures Delivered(log, from, posts, i + 1, tracked, recovered)
  {
    hide PostedSince;
  }

  lemma PostDelivers(log: seq<Event>, id: CommentId, from: nat, posts: seq<Spec>, i: nat, tracked: set<Key>,
                     recovered: set<Key>)
    requires i < |posts| && from <= |log| && Delivered(log, from, posts, i, tracked, recovered)
    ensures var after := log + [PostInline(posts[i].finding, id)] + [Committed];
      PostedSince(after, from, posts[i].finding) && Delivered(after, from, posts, i, tracked, recovered)
  {
    var post := PostInline(posts[i].finding, id);
    hide Delivered, PostedSince;
    assert log + ([post] + [Committed]) == log + [post] + [Committed];
    DeliveredGrows(log, [post] + [Committed], from, posts, i, tracked, recovered);
    PostIsThere(log, post, from);
  }

  lemma HandledNext(posts: seq<Spec>, i: nat, threads: map<Key, CommentId>, before: set<Key>,
                    after: map<Key, CommentId>, recovered: set<Key>)
    requires i < |posts| && before <= recovered && threads.Keys <= after.Keys && AllHandled(posts, i, threads, before)
    requires posts[i].key in after || posts[i].key in recovered
    ensures AllHandled(posts, i + 1, after, recovered)
  {
  }

  /** Appending the recovered findings to the issue comment delivers the rest. */
  lemma BlocksDeliver(log: seq<Event>, from: nat, posts: seq<Spec>, tracked: set<Key>, recovered: set<Key>)
    requires from <= |log| && Delivered(log, from, posts, |posts|, tracked, recovered)
    ensures recovered == {} ==> AllDelivered(log, from, posts, tracked)
    ensures AllDelivered(log + [AppendBlocks(recovered)], from, posts, tracked)
  {
    var after := log + [AppendBlocks(recovered)];
    DeliveredGrows(log, [AppendBlocks(recovered)], from, posts, |posts|, tracked, recovered);
    forall i | 0 <= i < |posts| && posts[i].key in recovered ensures InIssueComment(after, from, posts[i].key) {
      assert after[|log|].AppendBlocks?;
    }
  }

  // ---------- The order of an attempt ----------

  /** A recheck, the check, the comment, a recheck, a commit, and another recheck. */
  predicate SurfaceFollows(log: seq<Event>, n: nat) {
    && n + 6 <= |log| && log[n].Recheck? && log[n + 1].WriteCheck? && log[n + 2].WriteComment? && log[n + 3].Recheck?
    && log[n + 4] == Committed && log[n + 5].Recheck?
  }

  /** The review threads are read between two rechecks, and the stale ones resolved right after the second. */
  predicate ThreadsFollow(log: seq<Event>, n: nat) {
    && n + 4 <= |log| && log[n].Recheck? && log[n + 1] == IndexThreads && log[n + 2].Recheck?
    && log[n + 3].ResolveThreads?
  }

  /** The rechecks at the gate and after the build, then the threads and the surface. */
  predicate InOrder(log: seq<Event>, n: nat) {
    && n + 12 <= |log| && log[n].Recheck? && log[n + 1].Recheck?
    && ThreadsFollow(log, n + 2) && SurfaceFollows(log, n + 6)
  }

  lemma OrderGrows(before: seq<Event>, after: seq<Event>, n: nat)
    requires before <= after
    ensures ThreadsFollow(before, n) ==> ThreadsFollow(after, n)
    ensures SurfaceFollows(before, n) ==> SurfaceFollows(after, n)
  {
  }

  lemma InOrderGrows(before: seq<Event>, after: seq<Event>, n: nat)
    requires before <= after && InOrder(before, n)
    ensures InOrder(after, n)
  {
    OrderGrows(before, after, n + 2);
    OrderGrows(before, after, n + 6);
  }

  lemma StatusOnly(before: Row, build: Build, row: Row, status: Status, now: Site, next: CommentId)
    requires Shown(row, now) && Reuses(before, build, row, next)
    ensures Shown(row.(status := status), now) && Reuses(before, build, row.(status := status), next)
  {
    hide Chosen;
  }

  // ---------- What others and the calls do ----------

  /** The head and the run after these moves. */
  function AfterMoves(head: Sha, superseded: bool, moves: seq<Move>): (Sha, bool) {
    if moves == [] then (head, superseded)
    else
      var (h, s) := AfterMoves(head, superseded, moves[..|moves| - 1]);
      match moves[|moves| - 1]
      case NewHead(sha) => (sha, s)
      case SupersedeRun => (h, true)
  }

  /** The reply of the call after `i` more calls; those not listed succeed. */
  function ReplyAt(replies: seq<Reply>, i: nat): Reply {
    if i < |replies| then replies[i] else Ok
  }

  function Rest(replies: seq<Reply>, n: nat): seq<Reply> {
    if n <= |replies| then replies[n..] else []
  }

  /** Whether a call with this reply took effect. */
  predicate TookEffect(r: Reply) { r == Ok || r == Transient(true) }

  /** What a call that is not repeated means for the attempt. */
  function SignalOf(r: Reply): Signal {
    match r
    case Ok => Proceed
    case Transient(_) => Crash
    case _ => Fail
  }

  /** The reply to an inline post: a line that GitHub refuses is tried once more on the nearest one. */
  function Decisive(replies: seq<Reply>): Reply {
    if ReplyAt(replies, 0) == Recoverable then ReplyAt(replies, 1) else ReplyAt(replies, 0)
  }

  predicate AllOk(replies: seq<Reply>) { forall i | 0 <= i < |replies| :: replies[i] == Ok }

  // ---------- The job ----------

  datatype End = Returned | MustRetry

  /** The statuses of a job that still has to be published. */
  const OPEN: set<Status> := {Pending, Processing}

  /** An attempt posts inline comments unless that is done, or an earlier job for this head did it. */
  predicate PostsInline(row: Row, build: Build) {
    !row.inlineDone && !(row.check == None && build.existingCheck.Some? && build.otherPosted)
  }

  class PublishJob {
    const jobHead: Sha
    const keyOf: FindingId -> Key
    var row: Row
    var stored: Row
    /** The pull request head and the run's status, which webhooks change at any time. */
    var prHead: Sha
    var superseded: bool
    var moves: seq<seq<Move>>
    /** What happens to each next call or commit, and to each best-effort clean-up call. */
    var replies: seq<Reply>
    var reverts: seq<bool>
    /** GitHub. */
    var checks: map<CommentId, Surface>
    var comments: map<CommentId, Surface>
    var inline: map<CommentId, FindingId>
    var nextId: CommentId
    ghost var log: seq<Event>

    constructor (jobHead: Sha, keyOf: FindingId -> Key, row: Row, prHead: Sha, moves: seq<seq<Move>>,
                 replies: seq<Reply>, reverts: seq<bool>)
      requires row.status == Pending
      ensures this.row == row && Sound()
    {
      this.jobHead := jobHead;
      this.keyOf := keyOf;
      this.row := row;
      stored := row;
      this.prHead := prHead;
      superseded := false;
      this.moves := moves;
      this.replies := replies;
      this.reverts := reverts;
      checks, comments, inline := map[], map[], map[];
      nextId := 0;
      log := [];
    }

    /** Identifiers of comments were drawn before. */
    ghost predicate Drawn()
      reads `inline, `nextId
    {
      forall id | id in inline :: id < nextId
    }

    ghost function Here(): Site
      reads `checks, `comments, `inline
    {
      Site(checks, comments, inline)
    }

    /** From now on every call succeeds, nobody moves the head, and the run is not superseded. */
    ghost predicate Calm()
      reads `replies, `moves, `superseded, `prHead
    {
      && (forall i | 0 <= i < |replies| :: replies[i] == Ok) && (forall i | 0 <= i < |moves| :: moves[i] == [])
      && !superseded && prHead == jobHead
    }

    /** During an attempt. */
    ghost predicate Steady()
      reads `log, `stored, `inline, `nextId
    {
      Guarded(log, jobHead) && Accounted(log, stored.threads, keyOf) && Drawn()
    }

    /** Between attempts: nothing is unflushed, and everything promised of the log holds. */
    ghost predicate Sound()
      reads `log, `stored, `row, `inline, `nextId
    {
      && row == stored && Drawn()
      && Guarded(log, jobHead)
      && PostedOnce(log, keyOf)
      && (Terminal(stored.status) || Accounted(log, stored.threads, keyOf))
      && (stored.status == Completed ==> LastRecheckPassed(log, jobHead))
    }

    method LetOthersMove()
      modifies `prHead, `superseded, `moves
      ensures old(superseded) ==> superseded
      ensures old(moves) == [] ==> moves == [] && prHead == old(prHead) && superseded == old(superseded)
      ensures old(moves) != [] ==>
        moves == old(moves[1..]) && (prHead, superseded) == old(AfterMoves(prHead, superseded, moves[0]))
      ensures old(Calm()) ==> Calm()
    {
      if moves != [] {
        assert old(Calm()) ==> moves[0] == [];
        var now := moves[0];
        assert forall i | 0 <= i < |moves[1..]| :: moves[1..][i] == moves[i + 1];
        moves := moves[1..];
        for i := 0 to |now|
          invariant old(superseded) ==> superseded
          invariant moves == old(moves)[1..]
          invariant (prHead, superseded) == AfterMoves(old(prHead), old(superseded), now[..i])
          invariant old(Calm()) ==> !superseded && prHead == jobHead
        {
          assert now[..i + 1][..i] == now[..i];
          match now[i] {
            case NewHead(sha) => prHead := sha;
            case SupersedeRun => superseded := true;
          }
        }
        assert now[..|now|] == now;
      }
    }

    method NextReply() returns (r: Reply)
      modifies `replies
      ensures r == old(ReplyAt(replies, 0)) && replies == old(Rest(replies, 1))
      ensures old(Calm()) ==> r == Ok && Calm()
      ensures AllOk(old(replies)) ==> AllOk(replies) && r == Ok
    {
      r := Ok;
      if replies != [] {
        r := replies[0];
        replies := replies[1..];
      }
    }

    method NextRevert() returns (fine: bool)
      modifies `reverts
      ensures old(reverts) == [] ==> fine && reverts == []
      ensures old(reverts) != [] ==> fine == old(reverts[0]) && reverts == old(reverts[1..])
      ensures AllTrue(old(reverts)) ==> fine && AllTrue(reverts)
    {
      fine := true;
      if reverts != [] {
        fine := reverts[0];
        reverts := reverts[1..];
      }
    }

    /** Read the head and the run as they are by now. */
    method ReadAuthority()
      requires Guarded(log, jobHead)
      modifies `prHead, `superseded, `moves, `log
      ensures log == old(log) + [Event.Recheck(prHead, superseded)]
      ensures Guarded(log, jobHead) && SameCounts(old(log), log) && PostFree(old(log), log)
      ensures LastRecheckPassed(log, jobHead) <==> Passed(log[|log| - 1], jobHead)
      ensures old(moves) == [] ==> prHead == old(prHead) && superseded == old(superseded)
      ensures old(moves) != [] ==> (prHead, superseded) == old(AfterMoves(prHead, superseded, moves[0]))
      ensures old(Calm()) ==> Calm()
    {
      hide AfterMoves, Calm;
      LetOthersMove();
      GuardedGrows(log, Event.Recheck(prHead, superseded), jobHead);
      QuietGrows(log, Event.Recheck(prHead, superseded));
      LastRecheckGrows(log, Event.Recheck(prHead, superseded), jobHead);
      PostFreeRefl(log);
      PostFreeGrows(log, log, Event.Recheck(prHead, superseded));
      hide Guarded, SameCounts, LastRecheckPassed, PostFree;
      log := log + [Event.Recheck(prHead, superseded)];
    }

    /** Refresh the run and the pull request; without authority the job becomes skipped. */
    method Recheck() returns (ok: bool, raised: bool)
      requires Guarded(log, jobHead)
      modifies `prHead, `superseded, `moves, `row, `log, `reverts
      ensures log == old(log) + [Event.Recheck(prHead, superseded)]
      ensures Guarded(log, jobHead) && SameCounts(old(log), log)
      ensures ok <==> Passed(log[|log| - 1], jobHead)
      ensures LastRecheckPassed(log, jobHead) <==> ok
      ensures old(moves) == [] ==> prHead == old(prHead) && superseded == old(superseded)
      ensures old(moves) != [] ==> (prHead, superseded) == old(AfterMoves(prHead, superseded, moves[0]))
      ensures ok ==> row == old(row)
      ensures !ok ==> row == old(row).(status := if superseded then SkippedSuperseded else SkippedNotHead)
      ensures raised <==> !ok && old(reverts) != [] && !old(reverts[0])
      ensures reverts == if ok || old(reverts) == [] then old(reverts) else old(reverts[1..])
      ensures AllTrue(old(reverts)) ==> !raised && AllTrue(reverts)
      ensures old(Calm()) ==> ok && Calm()
      ensures PostFree(old(log), log)
    {
      hide Guarded, SameCounts, LastRecheckPassed, PostFree, AfterMoves;
      ReadAuthority();
      ok, raised := true, false;
      if superseded {
        row := row.(status := SkippedSuperseded);
        ok := false;
      } else if jobHead != prHead {
        row := row.(status := SkippedNotHead);
        ok := false;
      }
      if !ok {
        var fine := NextRevert();
        raised := !fine;
      }
    }

    /** The worker rolls back before a retry. */
    method RollBack()
      requires Guarded(log, jobHead)
      modifies `row, `log
      ensures row == stored && log == old(log) + [RolledBack] && Guarded(log, jobHead)
      ensures LastRecheckPassed(log, jobHead) == LastRecheckPassed(old(log), jobHead)
      ensures PostFree(old(log), log)
    {
      GuardedGrows(log, RolledBack, jobHead);
      LastRecheckGrows(log, RolledBack, jobHead);
      hide Guarded, LastRecheckPassed;
      log := log + [RolledBack];
      row := stored;
    }

    /** A commit either happens, or fails, or happens and the worker crashes before going on. */
    method CommitProgress() returns (fine: bool)
      requires Guarded(log, jobHead)
      modifies `row, `stored, `replies, `log
      ensures Guarded(log, jobHead)
      ensures fine <==> old(ReplyAt(replies, 0)) == Ok
      ensures stored == if TookEffect(old(ReplyAt(replies, 0))) then old(row) else old(stored)
      ensures replies == old(Rest(replies, 1))
      ensures fine ==> stored == row == old(row) && log == old(log) + [Committed]
      ensures !fine ==> row == stored
      ensures !fine ==>
        || (stored == old(stored) && log == old(log) + [RolledBack])
        || (stored == old(row) && log == old(log) + [Committed] + [RolledBack])
      ensures LastRecheckPassed(log, jobHead) == LastRecheckPassed(old(log), jobHead)
      ensures old(Calm()) ==> fine && Calm()
      ensures PostFree(old(log), log)
      ensures AllOk(old(replies)) ==> AllOk(replies) && fine
    {
      GuardedGrows(log, Committed, jobHead);
      LastRecheckGrows(log, Committed, jobHead);
      PostFreeRefl(log);
      PostFreeGrows(log, log, Committed);
      PostFreeGrows(log, log, RolledBack);
      PostFreeGrows(log, log + [Committed], RolledBack);
      hide Guarded, LastRecheckPassed, Calm, PostFree;
      var r := NextReply();
      fine := r == Ok;
      if r == Ok || r == Transient(true) {
        stored := row;
        log := log + [Committed];
      }
      if r != Ok {
        RollBack();
      }
    }

    /** A write to the check or the comment; a crash or timeout rolls the worker back, whether or not it took effect. */
    method Send(e: Event) returns (sig: Signal, took: bool)
      requires Steady() && MayFollow(log, e, jobHead) && (e.WriteCheck? || e.WriteComment?)
      requires log != [] && !log[|log| - 1].PostInline?
      modifies `row, `replies, `log
      ensures Steady() && SameCounts(old(log), log) && PostFree(old(log), log)
      ensures sig == SignalOf(old(ReplyAt(replies, 0))) && took == TookEffect(old(ReplyAt(replies, 0)))
      ensures sig == Proceed ==> took && log == old(log) + [e] && row == old(row)
      ensures sig == Fail ==> !took && log == old(log) && row == old(row)
      ensures sig == Crash ==> row == stored && log == old(log) + (if took then [e] else []) + [RolledBack]
      ensures old(Calm()) ==> sig == Proceed && Calm()
      ensures AllOk(old(replies)) ==> AllOk(replies) && sig == Proceed
    {
      ghost var start := log;
      Grow(e);
      PostFreeRefl(log);
      PostFreeGrows(log, log, e);
      SameCountsRefl(log);
      hide SameCounts, Guarded, Accounted, PostFree, Calm, AllOk, Drawn, MayFollow;
      var r := NextReply();
      took := r == Ok || r == Transient(true);
      if took {
        log := log + [e];
      }
      sig := if r == Ok then Proceed else if r.Transient? then Crash else Fail;
      if sig == Crash {
        ghost var written := log;
        RollBackSteady();
        SameCountsTrans(start, written, log);
        PostFreeTrans(start, written, log);
      }
    }

    /** The job's own check, the one of an earlier job for this head, or a new one. */
    method TargetCheck(build: Build) returns (id: CommentId)
      modifies `row, `nextId
      ensures row == old(row).(check := row.check) && nextId >= old(nextId)
      ensures row.check.Some? ==> row.check == Some(id)
      ensures row.check == if old(row.check).Some? then old(row.check) else build.existingCheck
      ensures row.check == None ==> id == old(nextId) && nextId == old(nextId) + 1
    {
      id := nextId;
      if row.check.Some? {
        id := row.check.value;
      } else if build.existingCheck.Some? {
        id := build.existingCheck.value;
        row := row.(check := build.existingCheck);
      } else {
        nextId := nextId + 1;
      }
    }

    method WriteCheckRun(build: Build) returns (sig: Signal)
      requires log != [] && Passed(log[|log| - 1], jobHead) && Steady()
      modifies `row, `replies, `checks, `nextId, `log
      ensures Steady() && SameCounts(old(log), log) && sig != Skip
      ensures sig == Proceed ==>
        && row.check.Some? && row == old(row).(check := row.check)
        && log == old(log) + [WriteCheck(row.check.value)] && checks == old(checks)[row.check.value := Body]
      ensures sig == Proceed ==> Chosen(old(row.check), build.existingCheck, row.check, old(nextId))
      ensures sig == Fail ==> row.status == old(row.status) && log == old(log)
      ensures sig == Crash ==> row == stored
      ensures old(Calm()) ==> sig == Proceed && Calm()
      ensures PostFree(old(log), log)
      ensures AllOk(old(replies)) ==> AllOk(replies) && sig == Proceed
      ensures sig == SignalOf(old(ReplyAt(replies, 0)))
      ensures sig == Crash && !TookEffect(old(ReplyAt(replies, 0))) ==>
        log == old(log) + [RolledBack] && checks == old(checks)
      ensures sig == Crash && TookEffect(old(ReplyAt(replies, 0))) ==>
        && |log| == |old(log)| + 2 && log[|old(log)|].WriteCheck? && log[|old(log)| + 1] == RolledBack
        && checks == old(checks)[log[|old(log)|].id := Body]
      ensures nextId >= old(nextId)
    {
      hide SameCounts, Guarded, Accounted, PostFree, Calm, AllOk;
      var id := TargetCheck(build);
      var took;
      sig, took := Send(WriteCheck(id));
      if took {
        checks := checks[id := Body];
      }
      if sig == Proceed {
        row := row.(check := Some(id));
      }
    }

    /** The job's own issue comment, the one of an earlier job for this head, or a new one. */
    method TargetComment(build: Build, updateFromOther: bool) returns (id: CommentId)
      modifies `row, `nextId
      ensures row == old(row).(comment := row.comment) && nextId >= old(nextId)
      ensures row.comment.Some? ==> row.comment == Some(id)
      ensures row.comment == if old(row.comment).Some? then old(row.comment)
                             else if updateFromOther then build.existingComment else None
      ensures row.comment == None ==> id == old(nextId) && nextId == old(nextId) + 1
    {
      id := nextId;
      if row.comment.Some? {
        id := row.comment.value;
      } else if updateFromOther && build.existingComment.Some? {
        id := build.existingComment.value;
        row := row.(comment := build.existingComment);
      } else {
        nextId := nextId + 1;
      }
    }

    method WriteIssueComment(build: Build, updateFromOther: bool) returns (sig: Signal)
      requires |log| >= 2 && log[|log| - 1].WriteCheck? && Passed(log[|log| - 2], jobHead) && Steady()
      modifies `row, `replies, `comments, `nextId, `log
      ensures Steady() && SameCounts(old(log), log) && sig != Skip
      ensures sig == Proceed ==>
        && row.comment.Some? && row == old(row).(comment := row.comment)
        && log == old(log) + [WriteComment(row.comment.value)] && comments == old(comments)[row.comment.value := Body]
      ensures sig == Proceed ==>
        Chosen(old(row.comment), if updateFromOther then build.existingComment else None, row.comment, old(nextId))
      ensures sig == Fail ==> row.status == old(row.status) && log == old(log)
      ensures sig == Crash ==> row == stored
      ensures old(Calm()) ==> sig == Proceed && Calm()
      ensures PostFree(old(log), log)
      ensures AllOk(old(replies)) ==> AllOk(replies) && sig == Proceed
      ensures sig == SignalOf(old(ReplyAt(replies, 0)))
      ensures sig == Crash && !TookEffect(old(ReplyAt(replies, 0))) ==>
        log == old(log) + [RolledBack] && comments == old(comments)
      ensures sig == Crash && TookEffect(old(ReplyAt(replies, 0))) ==>
        && |log| == |old(log)| + 2 && log[|old(log)|].WriteComment? && log[|old(log)| + 1] == RolledBack
        && comments == old(comments)[log[|old(log)|].id := Body]
      ensures nextId >= old(nextId)
    {
      hide SameCounts, Guarded, Accounted, PostFree, Calm, AllOk;
      var id := TargetComment(build, updateFromOther);
      var took;
      sig, took := Send(WriteComment(id));
      if took {
        comments := comments[id := Body];
      }
      if sig == Proceed {
        row := row.(comment := Some(id));
      }
    }

    /** Appending an event that is not a post and not a thread resolution keeps a steady state. */
    lemma Grow(e: Event)
      requires Steady() && MayFollow(log, e, jobHead) && Quiet(log, e)
      ensures Guarded(log + [e], jobHead) && Accounted(log + [e], stored.threads, keyOf) && SameCounts(log, log + [e])
    {
      GuardedGrows(log, e, jobHead);
      QuietGrows(log, e);
      AccountsKept(log, log + [e], stored.threads, keyOf);
    }

    method DeleteInline(written: seq<CommentId>)
      modifies `reverts, `inline
      ensures inline.Keys <= old(inline.Keys)
      ensures AllTrue(old(reverts)) ==> AllTrue(reverts) && inline == old(inline) - set id | id in written
    {
      for i := 0 to |written|
        invariant inline.Keys <= old(inline.Keys)
        invariant AllTrue(old(reverts)) ==> AllTrue(reverts) && inline == old(inline) - set id | id in written[..i]
      {
        assert written[..i + 1] == written[..i] + [written[i]];
        var fine := NextRevert();
        if fine {
          inline := inline - {written[i]};
        }
      }
    }

    method RollBackSteady()
      requires Steady() && Quiet(log, RolledBack)
      modifies `row, `log
      ensures row == stored && Steady() && SameCounts(old(log), log)
      ensures PostFree(old(log), log)
      ensures log == old(log) + [RolledBack]
    {
      Grow(RolledBack);
      RollBack();
    }

    /** Best effort: neutral check and comment, this flush's inline comments deleted. */
    method Revert(written: seq<CommentId>, ghost from: Mark)
      requires OwnWrites(log, from, row, written, Here()) && Steady() && Quiet(log, Reverted)
      modifies `reverts, `checks, `comments, `inline, `log
      ensures Steady() && SameCounts(old(log), log)
      ensures AllTrue(old(reverts)) ==> Cleaned(log, from, row, Here())
      ensures PostFree(old(log), log)
    {
      hide SameCounts, Guarded, Accounted, OwnWrites, Cleaned, AllTrue;
      ghost var allFine, was := AllTrue(reverts), Here();
      OwnSurface(log, from, row, written, was);
      if row.check.Some? {
        var fine := NextRevert();
        if fine {
          checks := checks[row.check.value := Neutral];
        }
      }
      if row.comment.Some? {
        var fine := NextRevert();
        if fine {
          comments := comments[row.comment.value := Neutral];
        }
      }
      DeleteInline(written);
      Grow(Reverted);
      OwnWritesGrow(log, Reverted, from, row, written, was, row);
      log := log + [Reverted];
      if allFine {
        OwnWritesCleaned(log, from, row, written, was, Here());
      }
    }

    /** The create call on the given line, and when GitHub refuses that line, on the nearest one. */
    method TryLines() returns (r: Reply)
      modifies `replies
      ensures r == Decisive(old(replies))
      ensures old(Calm()) ==> r == Ok && Calm()
      ensures AllOk(old(replies)) ==> r == Ok && AllOk(replies)
    {
      r := NextReply();
      if r == Recoverable {
        r := NextReply();
      }
    }

    /**
     * Post one inline comment, on the given line and then on the nearest one, and commit the thread map that
     * records it. Nothing is posted when GitHub accepts neither line.
     */
    method CreateInlineComment(posts: seq<Spec>, i: nat, threads: map<Key, CommentId>,
                               ghost retryPosted: map<Key, CommentId>)
      returns (sig: Signal, after: map<Key, CommentId>, posted: Option<CommentId>)
      requires i < |posts| && posts[i].key !in retryPosted && GoodPosts(posts, keyOf)
      requires log != [] && Passed(log[|log| - 1], jobHead)
      requires Steady() && Unposted(log, posts, i, retryPosted) && stored.threads.Keys <= threads.Keys
      modifies `row, `stored, `replies, `inline, `nextId, `log
      ensures Steady() && sig != Skip
      ensures sig == Crash ==>
        row == stored && (stored.status == old(stored.status) || stored.status == old(row.status))
      ensures sig == Fail ==> row == old(row) && log == old(log) && stored == old(stored)
      ensures sig == Proceed ==> Unposted(log, posts, i + 1, retryPosted) && LastRecheckPassed(log, jobHead)
      ensures sig == Proceed && posted == None ==>
        log == old(log) && row == old(row) && stored == old(stored) && after == threads && inline == old(inline)
      ensures sig == Proceed && posted.Some? ==>
        && log == old(log) + [PostInline(posts[i].finding, posted.value)] + [Committed]
        && after == threads[posts[i].key := posted.value] && row == stored == old(row).(threads := after)
        && posted.value !in old(inline) && inline == old(inline)[posted.value := posts[i].finding]
      ensures old(Calm()) ==> sig == Proceed && posted.Some? && Calm()
      ensures AllOk(old(replies)) ==> AllOk(replies) && sig == Proceed && posted.Some?
      ensures sig == Proceed && posted == None <==> Decisive(old(replies)) == Recoverable
      ensures sig == Fail <==> Decisive(old(replies)) == Permanent
      ensures Decisive(old(replies)).Transient? ==> sig == Crash
      ensures old(log) <= log
    {
      hide Calm, AllOk, Decisive, PostFree, ReplyAt, Rest;
      hide Guarded, Accounted, Unposted, LastRecheckPassed, SameCounts, OneMore;
      var spec := posts[i];
      after, posted := threads, None;
      PassedIsLast(log, jobHead);
      var r := TryLines();
      if r == Recoverable {
        UnpostedNext(log, posts, i, retryPosted);
        return Proceed, after, posted;
      }
      if r == Permanent {
        return Fail, after, posted;
      }
      var id := nextId;
      ghost var start := log;
      if r == Ok || r == Transient(true) {
        nextId := nextId + 1;
        inline := inline[id := spec.finding];
        PostSteps(start, spec.finding, id, posts, i, retryPosted, threads);
        log := log + [PostInline(spec.finding, id)];
      }
      if r != Ok {
        if r == Transient(false) {
          RollBackSteady();
        } else {
          RollBack();
        }
        return Crash, after, posted;
      }
      after := threads[spec.key := id];
      posted := Some(id);
      row := row.(threads := after);
      var fine := CommitProgress();
      return if fine then Proceed else Crash, after, posted;
    }

    lemma PassedIsLast(log: seq<Event>, jobHead: Sha)
      requires log != [] && Passed(log[|log| - 1], jobHead)
      ensures LastRecheckPassed(log, jobHead)
    {
    }

    /** The three ways a post can end: recorded, recorded and then a crash, or lost. */
    lemma PostSteps(start: seq<Event>, finding: FindingId, id: CommentId, posts: seq<Spec>, i: nat,
                    retryPosted: map<Key, CommentId>, threads: map<Key, CommentId>)
      requires i < |posts| && posts[i].key !in retryPosted && posts[i].finding == finding && GoodPosts(posts, keyOf)
      requires start != [] && Passed(start[|start| - 1], jobHead)
      requires Guarded(start, jobHead) && Accounted(start, stored.threads, keyOf)
      requires Unposted(start, posts, i, retryPosted)
      requires stored.threads.Keys <= threads.Keys
      ensures var post := start + [PostInline(finding, id)];
        var after := threads[posts[i].key := id];
        && Guarded(post, jobHead) && LastRecheckPassed(post, jobHead)
        && Accounted(post + [Committed], after, keyOf) && Unposted(post + [Committed], posts, i + 1, retryPosted)
        && Accounted(post + [Committed] + [RolledBack], after, keyOf)
        && Accounted(post + [RolledBack], stored.threads, keyOf)
    {
      var post := start + [PostInline(finding, id)];
      var after := threads[posts[i].key := id];
      PassedIsLast(start, jobHead);
      GuardedGrows(start, PostInline(finding, id), jobHead);
      LastRecheckGrows(start, PostInline(finding, id), jobHead);
      PostGrows(start, finding, id);
      QuietGrows(post, Committed);
      QuietGrows(post + [Committed], RolledBack);
      hide Guarded, LastRecheckPassed, Posts, Lost, Collapses;
      assert OneMore(start, post + [Committed], finding);
      CommittedPostIsAccounted(start, post + [Committed], posts, i, retryPosted, stored.threads, after, keyOf);
      AccountsKept(post + [Committed], post + [Committed] + [RolledBack], after, keyOf);
      LostPostIsAccounted(start, finding, id, stored.threads, keyOf);
    }

    /** A recheck during an attempt keeps the accounts. */
    method RecheckSteady(posts: seq<Spec>, i: nat, ghost retryPosted: map<Key, CommentId>)
      returns (ok: bool, raised: bool)
      requires Steady() && Unposted(log, posts, i, retryPosted)
      modifies `prHead, `superseded, `moves, `row, `log, `reverts
      ensures Steady() && Unposted(log, posts, i, retryPosted)
      ensures SameCounts(old(log), log)
      ensures log == old(log) + [Event.Recheck(prHead, superseded)] && (ok <==> Passed(log[|log| - 1], jobHead))
      ensures LastRecheckPassed(log, jobHead) <==> ok
      ensures ok ==> row == old(row)
      ensures !ok ==> row == old(row).(status := if superseded then SkippedSuperseded else SkippedNotHead)
      ensures AllTrue(old(reverts)) ==> !raised && AllTrue(reverts)
      ensures old(Calm()) ==> ok && Calm()
      ensures PostFree(old(log), log)
      ensures raised <==> !ok && old(reverts) != [] && !old(reverts[0])
    {
      hide SameCounts, Guarded, Accounted, Unposted, LastRecheckPassed, Passed;
      ok, raised := Recheck();
      AccountsKept(old(log), log, stored.threads, keyOf);
      UnpostedKept(old(log), log, posts, i, retryPosted);
    }

    /** A failed recheck: take back what this flush wrote, unless the gate itself raised. */
    method SkipAndRevert(raised: bool, written: seq<CommentId>, ghost from: Mark)
      requires OwnWrites(log, from, row, written, Here()) && Steady() && Quiet(log, Reverted)
      modifies `reverts, `checks, `comments, `inline, `log
      ensures Steady()
      ensures !raised && AllTrue(old(reverts)) ==> Cleaned(log, from, row, Here())
      ensures PostFree(old(log), log)
    {
      if !raised {
        Revert(written, from);
      }
    }

    /** Between two inline posts: the first `i` findings are dealt with, and the own writes are the listed ones. */
    ghost predicate Posting(posts: seq<Spec>, i: nat, retryPosted: map<Key, CommentId>, threads: map<Key, CommentId>,
                            recovered: set<Key>, written: seq<CommentId>, from: Mark)
      requires i <= |posts|
      reads `log, `row, `stored, `checks, `comments, `inline
    {
      && Unposted(log, posts, i, retryPosted) && stored.threads.Keys <= threads.Keys
      && row == stored && row.status == Processing && LastRecheckPassed(log, jobHead) && Quiet(log, RolledBack)
      && OwnWrites(log, from, row, written, Here()) && AllHandled(posts, i, threads, recovered)
      && from.length <= |log| && Delivered(log, from.length, posts, i, retryPosted.Keys, recovered)
    }

    lemma PostingStarts(posts: seq<Spec>, retryPosted: map<Key, CommentId>, threads: map<Key, CommentId>, from: Mark)
      requires Unposted(log, posts, 0, retryPosted) && stored.threads.Keys <= threads.Keys
      requires row == stored && row.status == Processing && LastRecheckPassed(log, jobHead) && Quiet(log, RolledBack)
      requires OwnWrites(log, from, row, [], Here())
      ensures Posting(posts, 0, retryPosted, threads, {}, [], from)
    {
      OwnSurface(log, from, row, [], Here());
    }

    lemma PostingEnds(posts: seq<Spec>, retryPosted: map<Key, CommentId>, threads: map<Key, CommentId>,
                      recovered: set<Key>, written: seq<CommentId>, from: Mark)
      requires Posting(posts, |posts|, retryPosted, threads, recovered, written, from)
      ensures row == stored && row.status == Processing && LastRecheckPassed(log, jobHead) && Quiet(log, RolledBack)
      ensures Shown(row, Here())
      ensures AllHandled(posts, |posts|, threads, recovered) && from.length <= |log|
      ensures Delivered(log, from.length, posts, |posts|, retryPosted.Keys, recovered)
    {
      OwnIsShown(log, from, row, written, Here());
    }

    /** A finding whose group has a recorded comment, or goes into the issue comment already. */
    lemma AlreadyDealtWith(posts: seq<Spec>, i: nat, retryPosted: map<Key, CommentId>, threads: map<Key, CommentId>,
                           after: map<Key, CommentId>, recovered: set<Key>, written: seq<CommentId>, from: Mark)
      requires i < |posts| && Posting(posts, i, retryPosted, threads, recovered, written, from)
      requires threads.Keys <= after.Keys
      requires if posts[i].key in retryPosted then posts[i].key in after else posts[i].key in recovered
      ensures Posting(posts, i + 1, retryPosted, after, recovered, written, from)
    {
      hide SameCounts, Unposted, LastRecheckPassed, OwnWrites, PostedSince, Delivered, AllHandled;
      UnpostedNext(log, posts, i, retryPosted);
      HandledNext(posts, i, threads, recovered, after, recovered);
      DeliveredNext(log, from.length, posts, i, retryPosted.Keys, recovered, recovered);
    }

    /** The recheck before a post; when it fails, everything this flush wrote is taken back. */
    method RecheckBeforePost(posts: seq<Spec>, i: nat, ghost retryPosted: map<Key, CommentId>,
                             ghost threads: map<Key, CommentId>, ghost recovered: set<Key>, written: seq<CommentId>,
                             ghost from: Mark)
      returns (ok: bool)
      requires i <= |posts| && Steady() && Posting(posts, i, retryPosted, threads, recovered, written, from)
      modifies `prHead, `superseded, `moves, `row, `log, `reverts, `checks, `comments, `inline
      ensures Steady()
      ensures ok ==>
        && Posting(posts, i, retryPosted, threads, recovered, written, from) && Here() == old(Here())
        && log != [] && Passed(log[|log| - 1], jobHead) && row == old(row)
      ensures ok && AllTrue(old(reverts)) ==> AllTrue(reverts)
      ensures !ok ==> Skipped(row.status) && !Terminal(stored.status)
      ensures !ok && AllTrue(old(reverts)) ==> Cleaned(log, from, row, Here())
      ensures old(Calm()) ==> ok && Calm()
      ensures old(log) <= log
    {
      hide SameCounts, Guarded, Accounted, Unposted, LastRecheckPassed, Cleaned, OwnWrites, AllTrue, Passed, Drawn;
      hide AllHandled, Delivered;
      ghost var gate, gateRow := log, row;
      var raised;
      ok, raised := RecheckSteady(posts, i, retryPosted);
      OwnWritesGrow(gate, log[|gate|], from, gateRow, written, Here(), row);
      DeliveredGrows(gate, [log[|gate|]], from.length, posts, i, retryPosted.Keys, recovered);
      if !ok {
        SkipAndRevert(raised, written, from);
      }
    }

    /** Post one finding after its recheck, or leave it to the issue comment. */
    method PostFinding(posts: seq<Spec>, i: nat, retryPosted: map<Key, CommentId>, tracked: map<Key, CommentId>,
                       waiting: set<Key>, earlier: seq<CommentId>, ghost from: Mark)
      returns (sig: Signal, threads: map<Key, CommentId>, recovered: set<Key>, written: seq<CommentId>)
      requires i < |posts| && posts[i].key !in retryPosted && GoodPosts(posts, keyOf)
      requires Steady() && Posting(posts, i, retryPosted, tracked, waiting, earlier, from)
      requires log != [] && Passed(log[|log| - 1], jobHead)
      modifies `row, `stored, `replies, `inline, `nextId, `log
      ensures Steady() && sig != Skip && !Terminal(stored.status)
      ensures sig == Proceed ==> Posting(posts, i + 1, retryPosted, threads, recovered, written, from)
      ensures sig == Proceed ==> row.check == old(row.check) && row.comment == old(row.comment)
      ensures sig == Crash ==> row == stored
      ensures sig == Fail ==> row.status == Processing
      ensures old(Calm()) ==> sig == Proceed && recovered == waiting && Calm()
      ensures AllOk(old(replies)) ==> AllOk(replies) && sig == Proceed
      ensures old(log) <= log
    {
      hide SameCounts, Guarded, Accounted, Unposted, LastRecheckPassed, OwnWrites, GoodPosts, Passed, Drawn;
      hide PostedSince, Delivered, AllHandled;
      ghost var before, rowBefore, was := log, row, Here();
      recovered, written := waiting, earlier;
      var posted: Option<CommentId>;
      sig, threads, posted := CreateInlineComment(posts, i, tracked, retryPosted);
      if sig != Proceed {
        return;
      }
      if posted == None {
        recovered := waiting + {posts[i].key};
      } else {
        written := earlier + [posted.value];
        OwnWritesGrowPost(before, posts[i].finding, posted.value, from, rowBefore, earlier, was, row);
        ghost var post := PostInline(posts[i].finding, posted.value);
        OwnWritesGrow(before + [post], Committed, from, row, written, Here(), row);
        PostDelivers(before, posted.value, from.length, posts, i, retryPosted.Keys, waiting);
      }
      HandledNext(posts, i, tracked, waiting, threads, recovered);
      DeliveredNext(log, from.length, posts, i, retryPosted.Keys, waiting, recovered);
    }

    /** Post every finding that has no recorded comment yet, each after its own recheck. */
    method PostInlineComments(posts: seq<Spec>, retryPosted: map<Key, CommentId>, start: map<Key, CommentId>,
                              ghost from: Mark)
      returns (sig: Signal, threads: map<Key, CommentId>, recovered: set<Key>)
      requires GoodPosts(posts, keyOf) && Steady() && Unposted(log, posts, 0, retryPosted)
      requires row == stored && stored.threads.Keys <= start.Keys && row.status == Processing
      requires OwnWrites(log, from, row, [], Here()) && LastRecheckPassed(log, jobHead) && Quiet(log, RolledBack)
      modifies this
      ensures Steady() && !Terminal(stored.status)
      ensures sig == Proceed ==> row.status == Processing && LastRecheckPassed(log, jobHead) && Quiet(log, RolledBack)
      ensures sig == Proceed ==> row == stored && AllHandled(posts, |posts|, threads, recovered)
      ensures sig == Proceed ==>
        from.length <= |log| && Delivered(log, from.length, posts, |posts|, retryPosted.Keys, recovered)
      ensures sig == Proceed ==> Shown(row, Here()) && row.check == old(row.check) && row.comment == old(row.comment)
      ensures sig == Crash ==> row == stored
      ensures sig == Fail ==> row.status == Processing
      ensures sig == Skip ==> Skipped(row.status)
      ensures sig == Skip && AllTrue(old(reverts)) ==> Cleaned(log, from, row, Here())
      ensures old(Calm()) ==> sig == Proceed && recovered == {} && Calm()
      ensures AllOk(old(replies)) ==> AllOk(replies) && sig != Crash && sig != Fail
      ensures old(log) <= log
    {
      hide Calm;
      hide SameCounts, Guarded, Accounted, Unposted, LastRecheckPassed, Cleaned, OwnWrites, GoodPosts, AllTrue, Passed;
      hide PostedSince, Drawn, Delivered, AllHandled, Posting, Quiet, Steady, Here;
      PostingStarts(posts, retryPosted, start, from);
      threads, recovered := start, {};
      var written: seq<CommentId> := [];
      for i := 0 to |posts|
        invariant Steady() && Posting(posts, i, retryPosted, threads, recovered, written, from)
        invariant AllTrue(old(reverts)) ==> AllTrue(reverts)
        invariant row.check == old(row.check) && row.comment == old(row.comment)
        invariant AllOk(old(replies)) ==> AllOk(replies)
        invariant old(log) <= log
        invariant old(Calm()) ==> Calm() && recovered == {}
      {
        var key := posts[i].key;
        if key in retryPosted || key in recovered {
          ghost var before := threads;
          if key in retryPosted {
            threads := threads[key := retryPosted[key]];
          }
          AlreadyDealtWith(posts, i, retryPosted, before, threads, recovered, written, from);
          continue;
        }
        var ok := RecheckBeforePost(posts, i, retryPosted, threads, recovered, written, from);
        if !ok {
          return Skip, threads, recovered;
        }
        sig, threads, recovered, written := PostFinding(posts, i, retryPosted, threads, recovered, written, from);
        if sig != Proceed {
          return;
        }
      }
      PostingEnds(posts, retryPosted, threads, recovered, written, from);
      sig := Proceed;
    }

    /** A recheck before anything was written in this flush: a skip has nothing to take back. */
    method RecheckClean(posts: seq<Spec>, ghost retryPosted: map<Key, CommentId>, ghost from: Mark)
      returns (ok: bool, raised: bool)
      requires Steady() && Unposted(log, posts, 0, retryPosted) && NoWrites(log, from, Here())
      modifies `prHead, `superseded, `moves, `row, `log, `reverts
      ensures Steady() && Unposted(log, posts, 0, retryPosted) && NoWrites(log, from, Here())
      ensures SameCounts(old(log), log)
      ensures log == old(log) + [Event.Recheck(prHead, superseded)] && (ok <==> Passed(log[|log| - 1], jobHead))
      ensures ok ==> row == old(row) && LastRecheckPassed(log, jobHead)
      ensures !ok ==> Skipped(row.status)
      ensures AllTrue(old(reverts)) ==> !raised && AllTrue(reverts)
      ensures old(Calm()) ==> ok && Calm()
      ensures PostFree(old(log), log)
      ensures raised <==> !ok && old(reverts) != [] && !old(reverts[0])
    {
      hide SameCounts, Guarded, Accounted, Unposted, LastRecheckPassed, NoWrites, AllTrue, Passed;
      ok, raised := RecheckSteady(posts, 0, retryPosted);
      NoWritesGrow(old(log), log[|log| - 1], from, Here());
    }

    /** One call that may fail before anything was written in this flush. */
    method CallClean() returns (sig: Signal)
      requires Steady() && Quiet(log, RolledBack)
      modifies `row, `replies, `log
      ensures Steady() && sig != Skip
      ensures sig == Proceed || sig == Fail ==> log == old(log) && row == old(row)
      ensures sig == Crash ==> row == stored
      ensures old(Calm()) ==> sig == Proceed && Calm()
      ensures PostFree(old(log), log)
      ensures AllOk(old(replies)) ==> AllOk(replies) && sig == Proceed
      ensures sig == SignalOf(old(ReplyAt(replies, 0)))
    {
      var r := NextReply();
      if r.Transient? {
        RollBackSteady();
        return Crash;
      }
      return if r == Ok then Proceed else Fail;
    }

    /** The review threads were read. */
    method LogIndex(posts: seq<Spec>, ghost retryPosted: map<Key, CommentId>, ghost from: Mark)
      requires Steady() && Unposted(log, posts, 0, retryPosted) && NoWrites(log, from, Here())
      modifies `log
      ensures log == old(log) + [IndexThreads] && Steady() && Unposted(log, posts, 0, retryPosted)
      ensures NoWrites(log, from, Here()) && Quiet(log, RolledBack)
    {
      Grow(IndexThreads);
      hide SameCounts, Guarded, Accounted, Unposted, NoWrites;
      UnpostedKept(log, log + [IndexThreads], posts, 0, retryPosted);
      NoWritesGrow(log, IndexThreads, from, Here());
      log := log + [IndexThreads];
    }

    /** Recheck, read the threads, recheck again. */
    method ReadThreads(build: Build, retryPosted: map<Key, CommentId>, ghost from: Mark) returns (sig: Signal)
      requires Steady() && Unposted(log, build.posts, 0, retryPosted)
      requires NoWrites(log, from, Here()) && row.status == Processing
      modifies `prHead, `superseded, `moves, `row, `log, `reverts, `replies
      ensures Steady() && PostFree(old(log), log)
      ensures sig == Proceed ==>
        && row == old(row) && NoWrites(log, from, Here()) && Unposted(log, build.posts, 0, retryPosted)
        && old(log) <= log && |log| == |old(log)| + 3 && log[|old(log)|].Recheck? && log[|old(log)| + 1] == IndexThreads
        && Passed(log[|old(log)| + 2], jobHead)
      ensures sig == Crash ==> row == stored
      ensures sig == Fail ==> row.status == Processing
      ensures sig == Skip ==> Skipped(row.status) && NoWrites(log, from, Here())
      ensures AllTrue(old(reverts)) ==> AllTrue(reverts)
      ensures old(Calm()) ==> sig == Proceed && Calm()
      ensures AllOk(old(replies)) ==> AllOk(replies) && sig != Crash && sig != Fail
    {
      hide SameCounts, Guarded, Accounted, Unposted, LastRecheckPassed, NoWrites, AllTrue, PostFree, Calm, AllOk;
      ghost var start := log;
      var ok, raised := RecheckClean(build.posts, retryPosted, from);
      if !ok {
        return Skip;
      }
      ghost var log1 := log;
      sig := CallClean();
      PostFreeTrans(start, log1, log);
      if sig != Proceed {
        return;
      }
      LogIndex(build.posts, retryPosted, from);
      PostFreeGrows(start, log1, IndexThreads);
      ghost var log2 := log;
      ok, raised := RecheckClean(build.posts, retryPosted, from);
      PostFreeTrans(start, log2, log);
      return if ok then Proceed else Skip;
    }

    /**
     * Recheck, index the threads, recheck again, resolve the stale ones; `threads` is what is tracked afterwards.
     */
    method ResolveStale(build: Build, retryPosted: map<Key, CommentId>, ghost from: Mark)
      returns (sig: Signal, threads: map<Key, CommentId>)
      requires GoodPosts(build.posts, keyOf) && Steady() && retryPosted == stored.threads
      requires NoWrites(log, from, Here()) && row.status == Processing && !Terminal(stored.status)
      modifies `prHead, `superseded, `moves, `row, `log, `reverts, `replies
      ensures Steady()
      ensures sig == Proceed ==>
        && row == old(row).(threads := threads) && NoWrites(log, from, Here()) && Quiet(log, RolledBack)
        && Accounted(log, threads, keyOf) && Unposted(log, build.posts, 0, retryPosted)
      ensures sig == Proceed ==>
        && threads == (build.threads + retryPosted) - build.stale
        && ThreadsFollow(log, |old(log)|) && |log| == |old(log)| + 4
        && log[|log| - 1] == ResolveThreads(build.stale * (build.threads.Keys + retryPosted.Keys))
      ensures sig == Crash ==> row == stored
      ensures sig == Fail ==> row.status == Processing
      ensures sig == Skip ==> Skipped(row.status) && NoWrites(log, from, Here())
      ensures AllTrue(old(reverts)) ==> AllTrue(reverts)
      ensures old(Calm()) ==> sig == Proceed && Calm()
      ensures PostFree(old(log), log)
      ensures AllOk(old(replies)) ==> AllOk(replies) && sig != Crash && sig != Fail
    {
      hide SameCounts, Guarded, Accounted, Unposted, LastRecheckPassed, NoWrites, GoodPosts, AllTrue;
      hide PostFree, Calm, AllOk;
      StartsUnposted(log, build, retryPosted, keyOf);
      ghost var start := log;
      threads := build.threads + retryPosted;
      sig := ReadThreads(build, retryPosted, from);
      if sig != Proceed {
        return;
      }
      ghost var log1 := log;
      sig, threads := ResolveClosed(build, retryPosted, threads, from);
      PostFreeTrans(start, log1, log);
    }

    method ResolveClosed(build: Build, retryPosted: map<Key, CommentId>, tracked: map<Key, CommentId>, ghost from: Mark)
      returns (sig: Signal, threads: map<Key, CommentId>)
      requires Steady() && retryPosted == stored.threads && retryPosted.Keys <= tracked.Keys
      requires log != [] && Passed(log[|log| - 1], jobHead)
      requires Unposted(log, build.posts, 0, retryPosted) && NoWrites(log, from, Here())
      modifies `row, `log, `replies
      ensures Steady() && (sig == Proceed || sig == Crash)
      ensures sig == Proceed ==>
        && row == old(row).(threads := threads) && NoWrites(log, from, Here()) && Quiet(log, RolledBack)
        && Accounted(log, threads, keyOf) && Unposted(log, build.posts, 0, retryPosted)
      ensures sig == Proceed ==>
        threads == tracked - build.stale && log == old(log) + [ResolveThreads(build.stale * tracked.Keys)]
      ensures sig == Crash ==> row == stored
      ensures old(Calm()) ==> sig == Proceed && Calm()
      ensures PostFree(old(log), log)
      ensures AllOk(old(replies)) ==> AllOk(replies) && sig == Proceed
      ensures sig == Crash <==> old(ReplyAt(replies, 0)).Transient?
      ensures sig == Crash && !TookEffect(old(ReplyAt(replies, 0))) ==> log == old(log) + [RolledBack]
      ensures sig == Crash && TookEffect(old(ReplyAt(replies, 0))) ==>
        log == old(log) + [ResolveThreads(build.stale * tracked.Keys)] + [RolledBack]
    {
      assert Quiet(log, RolledBack);
      hide PostFree, Calm;
      hide SameCounts, Guarded, Accounted, Unposted, NoWrites, Posts, Lost, Collapses, Drawn, Here;
      var closed := build.stale * tracked.Keys;
      WithoutClosed(tracked, build.stale);
      ResolveKeepsAccounts(log, closed, retryPosted, tracked, build.posts, keyOf);
      GuardedGrows(log, ResolveThreads(closed), jobHead);
      NoWritesGrow(log, ResolveThreads(closed), from, Here());
      ghost var start := log;
      PostFreeRefl(log);
      PostFreeGrows(log, log, ResolveThreads(closed));
      threads := tracked - closed;
      var r := NextReply();
      if r == Transient(false) {
        RollBackSteady();
        return Crash, threads;
      }
      log := log + [ResolveThreads(closed)];
      if r.Transient? {
        RollBackSteady();
        PostFreeTrans(start, start + [ResolveThreads(closed)], log);
        return Crash, threads;
      }
      row := row.(threads := threads);
      sig := Proceed;
    }

    /** A recheck, then the check and the comment. */
    method WriteCheckAndComment(build: Build, updateFromOther: bool, retryPosted: map<Key, CommentId>, ghost from: Mark)
      returns (sig: Signal)
      requires Steady() && Accounted(log, row.threads, keyOf) && Unposted(log, build.posts, 0, retryPosted)
      requires NoWrites(log, from, Here()) && row.status == Processing
      modifies this
      ensures Steady() && stored == old(stored)
      ensures sig == Proceed ==>
        && row.threads == old(row).threads && row.status == Processing
        && Accounted(log, row.threads, keyOf) && Unposted(log, build.posts, 0, retryPosted)
        && OwnWrites(log, from, row, [], Here())
      ensures sig == Proceed ==> Targets(old(row), build, updateFromOther, row, old(nextId))
      ensures sig == Crash ==> row == stored
      ensures sig == Fail ==> row.status == Processing
      ensures sig == Skip ==> Skipped(row.status) && NoWrites(log, from, Here())
      ensures AllTrue(old(reverts)) ==> AllTrue(reverts)
      ensures old(Calm()) ==> sig == Proceed && Calm()
      ensures PostFree(old(log), log)
      ensures AllOk(old(replies)) ==> AllOk(replies) && sig != Crash && sig != Fail
      ensures sig == Proceed ==>
        |log| == |old(log)| + 3 && log[|old(log)|].Recheck? && log[|old(log)| + 1].WriteCheck?
        && log[|old(log)| + 2].WriteComment?
    {
      hide Calm;
      hide SameCounts, Guarded, Accounted, Unposted, LastRecheckPassed, NoWrites, AllTrue, OwnWrites;
      ghost var start, threads := log, row.threads;
      var ok, raised := RecheckClean(build.posts, retryPosted, from);
      if !ok {
        return Skip;
      }
      ghost var log1, was := log, Here();
      sig := WriteCheckRun(build);
      if sig != Proceed {
        return;
      }
      ghost var log2 := log;
      sig := WriteIssueComment(build, updateFromOther);
      if sig != Proceed {
        return;
      }
      SurfaceWritten(log1, row.check.value, row.comment.value, from, row, was);
      SameCountsTrans(start, log1, log2);
      SameCountsTrans(start, log2, log);
      AccountsKept(start, log, threads, keyOf);
      UnpostedKept(start, log, build.posts, 0, retryPosted);
    }

    /** A recheck after the writes; when it fails they are taken back. */
    method RecheckOrRevert(build: Build, retryPosted: map<Key, CommentId>, ghost from: Mark) returns (sig: Signal)
      requires Steady() && Accounted(log, row.threads, keyOf) && Unposted(log, build.posts, 0, retryPosted)
      requires OwnWrites(log, from, row, [], Here())
      modifies this
      ensures Steady() && stored == old(stored) && (sig == Proceed || sig == Skip)
      ensures sig == Proceed ==>
        && row == old(row) && Accounted(log, row.threads, keyOf) && Unposted(log, build.posts, 0, retryPosted)
        && OwnWrites(log, from, row, [], Here()) && LastRecheckPassed(log, jobHead)
        && |log| == |old(log)| + 1 && log[|old(log)|].Recheck? && old(log) <= log
      ensures sig == Proceed && AllTrue(old(reverts)) ==> AllTrue(reverts)
      ensures sig == Skip ==> Skipped(row.status)
      ensures sig == Skip && AllTrue(old(reverts)) ==> Cleaned(log, from, row, Here())
      ensures old(Calm()) ==> sig == Proceed && Calm()
      ensures PostFree(old(log), log)
      ensures replies == old(replies)
    {
      hide SameCounts, Guarded, Accounted, Unposted, LastRecheckPassed, AllTrue, OwnWrites, Cleaned;
      ghost var before, rowBefore := log, row;
      var ok, raised := RecheckSteady(build.posts, 0, retryPosted);
      OwnWritesGrow(before, log[|before|], from, rowBefore, [], Here(), row);
      if !ok {
        SkipAndRevert(raised, [], from);
        return Skip;
      }
      AccountsKept(before, log, row.threads, keyOf);
      return Proceed;
    }

    /** The check and the comment, then a recheck, a commit, and another recheck. */
    method WriteSurface(build: Build, updateFromOther: bool, retryPosted: map<Key, CommentId>, ghost from: Mark)
      returns (sig: Signal)
      requires Steady() && Accounted(log, row.threads, keyOf) && Unposted(log, build.posts, 0, retryPosted)
      requires NoWrites(log, from, Here()) && row.status == Processing && !Terminal(stored.status)
      modifies this
      ensures Steady() && !Terminal(stored.status)
      ensures sig == Proceed ==>
        && Unposted(log, build.posts, 0, retryPosted) && LastRecheckPassed(log, jobHead)
        && OwnWrites(log, from, row, [], Here())
        && row == stored && row.status == Processing && row.threads == old(row.threads) && Quiet(log, RolledBack)
      ensures sig == Proceed ==> Targets(old(row), build, updateFromOther, row, old(nextId))
      ensures sig == Crash ==> row == stored
      ensures sig == Fail ==> row.status == Processing
      ensures sig == Skip ==> Skipped(row.status)
      ensures sig == Skip && AllTrue(old(reverts)) ==> Cleaned(log, from, row, Here())
      ensures sig == Proceed && AllTrue(old(reverts)) ==> AllTrue(reverts)
      ensures old(Calm()) ==> sig == Proceed && Calm()
      ensures PostFree(old(log), log)
      ensures AllOk(old(replies)) ==> AllOk(replies) && sig != Crash && sig != Fail
      ensures sig == Proceed ==> old(log) <= log && |log| == |old(log)| + 6 && SurfaceFollows(log, |old(log)|)
    {
      hide Calm;
      hide SameCounts, Guarded, Accounted, Unposted, LastRecheckPassed, NoWrites, AllTrue, Cleaned, OwnWrites;
      sig := WriteCheckAndComment(build, updateFromOther, retryPosted, from);
      if sig == Skip {
        NoWritesCleaned(log, from, row, Here());
      }
      if sig != Proceed {
        return;
      }
      sig := RecheckOrRevert(build, retryPosted, from);
      if sig != Proceed {
        return;
      }
      sig := CommitSurface(build.posts, row.threads, retryPosted, from);
      if sig != Proceed {
        return;
      }
      sig := RecheckOrRevert(build, retryPosted, from);
    }

    method CommitSurface(posts: seq<Spec>, threads: map<Key, CommentId>, retryPosted: map<Key, CommentId>,
                         ghost from: Mark)
      returns (sig: Signal)
      requires Steady() && Accounted(log, threads, keyOf) && Unposted(log, posts, 0, retryPosted)
      requires OwnWrites(log, from, row, [], Here()) && row.threads == threads
      requires row.status == Processing && !Terminal(stored.status)
      requires log != [] && log[|log| - 1].Recheck?
      modifies `row, `stored, `replies, `log
      ensures Steady() && !Terminal(stored.status) && (sig == Proceed || sig == Crash)
      ensures sig == Proceed ==>
        row == stored == old(row) && Unposted(log, posts, 0, retryPosted) && OwnWrites(log, from, row, [], Here())
      ensures sig == Proceed ==> log == old(log) + [Committed]
      ensures sig == Crash ==> row == stored
      ensures old(Calm()) ==> sig == Proceed && Calm()
      ensures PostFree(old(log), log)
      ensures AllOk(old(replies)) ==> AllOk(replies) && sig == Proceed
    {
      hide OwnWrites, Drawn, Here, Calm, AllOk, PostFree;
      QuietGrows(log, Committed);
      QuietGrows(log, RolledBack);
      QuietGrows(log + [Committed], RolledBack);
      hide SameCounts, Guarded, Accounted, Unposted, LastRecheckPassed;
      AccountsKept(log, log + [Committed], threads, keyOf);
      AccountsKept(log, log + [RolledBack], stored.threads, keyOf);
      AccountsKept(log + [Committed], log + [Committed] + [RolledBack], threads, keyOf);
      UnpostedKept(log, log + [Committed], posts, 0, retryPosted);
      OwnWritesGrow(log, Committed, from, row, [], Here(), row);
      var fine := CommitProgress();
      return if fine then Proceed else Crash;
    }

    /** Appending the unpostable findings to the issue comment has no recheck of its own. */
    method AppendRecoveredBlocks(posts: seq<Spec>, tracked: set<Key>, recovered: set<Key>, ghost from: nat)
      returns (sig: Signal)
      requires Steady() && Quiet(log, RolledBack) && LastRecheckPassed(log, jobHead)
      requires from <= |log| && Delivered(log, from, posts, |posts|, tracked, recovered)
      modifies `row, `replies, `log
      ensures Steady() && sig != Skip
      ensures sig == Proceed ==> Quiet(log, RolledBack) && LastRecheckPassed(log, jobHead) && row == old(row)
      ensures sig == Proceed ==> AllDelivered(log, from, posts, tracked)
      ensures sig == Crash ==> row == stored
      ensures sig == Fail ==> row == old(row)
      ensures old(Calm()) ==> sig == Proceed && Calm()
      ensures PostFree(old(log), log)
      ensures AllOk(old(replies)) ==> AllOk(replies) && sig == Proceed
    {
      hide SameCounts, Guarded, Accounted, LastRecheckPassed, Delivered, AllDelivered;
      BlocksDeliver(log, from, posts, tracked, recovered);
      if recovered == {} {
        return Proceed;
      }
      sig := CallClean();
      if sig == Proceed {
        Grow(AppendBlocks(recovered));
        LastRecheckGrows(log, AppendBlocks(recovered), jobHead);
        log := log + [AppendBlocks(recovered)];
      }
    }

    /** The inline comments, and the issue comment for the findings that could not be posted. */
    method DeliverFindings(posts: seq<Spec>, retryPosted: map<Key, CommentId>, tracked: map<Key, CommentId>,
                           ghost from: Mark)
      returns (sig: Signal)
      requires GoodPosts(posts, keyOf) && Steady() && Unposted(log, posts, 0, retryPosted)
      requires row == stored && stored.threads.Keys <= tracked.Keys && row.status == Processing
      requires OwnWrites(log, from, row, [], Here()) && LastRecheckPassed(log, jobHead) && Quiet(log, RolledBack)
      modifies this
      ensures Steady() && !Terminal(stored.status)
      ensures sig == Proceed ==>
        && old(log) <= log && from.length <= |log| && LastRecheckPassed(log, jobHead) && Quiet(log, RolledBack)
        && row.inlineDone && row.status == Processing && row.check == old(row.check) && row.comment == old(row.comment)
        && Shown(row, Here()) && Accounted(log, row.threads, keyOf)
        && AllDelivered(log, from.length, posts, retryPosted.Keys)
      ensures sig == Crash ==> row == stored
      ensures sig == Fail ==> row.status == Processing
      ensures sig == Skip ==> Skipped(row.status)
      ensures sig == Skip && AllTrue(old(reverts)) ==> Cleaned(log, from, row, Here())
      ensures old(Calm()) ==> sig == Proceed && Calm()
      ensures AllOk(old(replies)) ==> AllOk(replies) && sig != Crash && sig != Fail
    {
      hide SameCounts, Guarded, Accounted, Unposted, LastRecheckPassed, Calm, AllOk;
      hide AllTrue, Cleaned, OwnWrites, GoodPosts, Quiet, Delivered, AllDelivered;
      var threads, recovered;
      sig, threads, recovered := PostInlineComments(posts, retryPosted, tracked, from);
      if sig != Proceed {
        return;
      }
      sig := AppendRecoveredBlocks(posts, retryPosted.Keys, recovered, from.length);
      if sig != Proceed {
        return;
      }
      row := row.(inlineDone := AllHandled(posts, |posts|, threads, recovered));
    }

    /** The first part of a flush: stale threads, then check and comment. */
    method FlushSurface(build: Build, retryPosted: map<Key, CommentId>, updateFromOther: bool, ghost from: Mark)
      returns (sig: Signal, threads: map<Key, CommentId>)
      requires GoodPosts(build.posts, keyOf) && Steady() && retryPosted == stored.threads
      requires NoWrites(log, from, Here()) && row.status == Processing && !Terminal(stored.status)
      modifies this
      ensures Steady() && !Terminal(stored.status) && PostFree(old(log), log)
      ensures sig == Proceed ==>
        && Unposted(log, build.posts, 0, retryPosted) && LastRecheckPassed(log, jobHead)
        && OwnWrites(log, from, row, [], Here()) && Quiet(log, RolledBack)
        && row == stored && row.status == Processing && row.threads == threads
        && Targets(old(row), build, updateFromOther, row, old(nextId))
        && old(log) <= log && ThreadsFollow(log, |old(log)|) && SurfaceFollows(log, |old(log)| + 4)
      ensures sig == Crash ==> row == stored
      ensures sig == Fail ==> row.status == Processing
      ensures sig == Skip ==> Skipped(row.status)
      ensures sig == Skip && AllTrue(old(reverts)) ==> Cleaned(log, from, row, Here())
      ensures AllTrue(old(reverts)) && sig == Proceed ==> AllTrue(reverts)
      ensures old(Calm()) ==> sig == Proceed && Calm()
      ensures AllOk(old(replies)) ==> AllOk(replies) && sig != Crash && sig != Fail
    {
      hide SameCounts, Guarded, Accounted, Unposted, LastRecheckPassed, Calm, AllOk, Chosen, PostFree;
      hide NoWrites, AllTrue, Cleaned, OwnWrites, GoodPosts, Quiet, SurfaceFollows;
      sig, threads := ResolveStale(build, retryPosted, from);
      if sig == Skip {
        NoWritesCleaned(log, from, row, Here());
      }
      if sig != Proceed {
        return;
      }
      ghost var resolved := log;
      sig := WriteSurface(build, updateFromOther, retryPosted, from);
      PostFreeTrans(old(log), resolved, log);
      if sig == Proceed {
        OrderGrows(resolved, log, |old(log)|);
      }
    }

    /** One flush: stale threads, check and comment, inline comments, and a final commit. */
    method Flush(build: Build, retryPosted: map<Key, CommentId>, postInline: bool, updateFromOther: bool,
                 ghost from: Mark)
      returns (sig: Signal)
      requires GoodPosts(build.posts, keyOf) && Steady() && retryPosted == stored.threads
      requires NoWrites(log, from, Here()) && row.status == Processing && !Terminal(stored.status)
      modifies this
      ensures Steady() && !Terminal(stored.status)
      ensures sig == Proceed ==> row == stored && LastRecheckPassed(log, jobHead)
      ensures sig == Proceed && postInline ==>
        row.inlineDone && AllDelivered(log, from.length, build.posts, retryPosted.Keys)
      ensures sig == Proceed ==> Targets(old(row), build, updateFromOther, row, old(nextId))
      ensures sig == Proceed ==> Shown(row, Here())
      ensures sig == Crash ==> row == stored
      ensures sig == Fail ==> row.status == Processing
      ensures sig == Skip ==> Skipped(row.status)
      ensures sig == Skip && AllTrue(old(reverts)) ==> Cleaned(log, from, row, Here())
      ensures old(Calm()) ==> sig == Proceed && Calm()
      ensures !postInline ==> PostFree(old(log), log)
      ensures AllOk(old(replies)) ==> AllOk(replies) && sig != Crash && sig != Fail
      ensures sig == Proceed ==> ThreadsFollow(log, |old(log)|) && SurfaceFollows(log, |old(log)| + 4)
      ensures sig == Proceed ==> old(log) <= log
    {
      hide Calm, AllOk, Shown, Chosen, ThreadsFollow, SurfaceFollows, PostFree;
      hide SameCounts, Guarded, Accounted, Unposted, LastRecheckPassed;
      hide NoWrites, AllTrue, Cleaned, OwnWrites, GoodPosts, Quiet, Delivered, AllDelivered;
      var threads;
      sig, threads := FlushSurface(build, retryPosted, updateFromOther, from);
      if sig != Proceed {
        return;
      }
      ghost var written := log;
      OwnIsShown(log, from, row, [], Here());
      if postInline {
        sig := DeliverFindings(build.posts, retryPosted, threads, from);
        if sig != Proceed {
          return;
        }
        AllDeliveredGrows(log, [Committed], from.length, build.posts, retryPosted.Keys);
      }
      sig := Checkpoint();
      if sig == Proceed {
        OrderGrows(written, log, |old(log)|);
        OrderGrows(written, log, |old(log)| + 4);
      }
      if !postInline {
        PostFreeTrans(old(log), written, log);
      }
    }

    method Checkpoint() returns (sig: Signal)
      requires Steady() && Accounted(log, row.threads, keyOf) && Quiet(log, RolledBack)
      modifies `row, `stored, `replies, `log
      ensures Steady() && row == stored && (sig == Proceed || sig == Crash)
      ensures stored == old(stored) || stored == old(row)
      ensures sig == Proceed ==> stored == old(row) && log == old(log) + [Committed]
      ensures LastRecheckPassed(log, jobHead) == LastRecheckPassed(old(log), jobHead)
      ensures old(Calm()) ==> sig == Proceed && Calm()
      ensures PostFree(old(log), log)
      ensures AllOk(old(replies)) ==> AllOk(replies) && sig == Proceed
    {
      QuietGrows(log, Committed);
      QuietGrows(log, RolledBack);
      QuietGrows(log + [Committed], RolledBack);
      hide SameCounts, Guarded, Accounted, LastRecheckPassed;
      AccountsKept(log, log + [Committed], row.threads, keyOf);
      AccountsKept(log, log + [RolledBack], stored.threads, keyOf);
      AccountsKept(log + [Committed], log + [Committed] + [RolledBack], row.threads, keyOf);
      var fine := CommitProgress();
      return if fine then Proceed else Crash;
    }

    /** One attempt of the worker: after `MustRetry` it rolled back, and the delivery comes again. */
    method RunPublishJob(build: Build) returns (end: End, how: Signal)
      requires Sound() && GoodPosts(build.posts, keyOf)
      modifies this
      ensures Sound()
      ensures old(row.status) !in OPEN ==>
        end == Returned && stored == old(stored) && log == old(log) && inline == old(inline)
      ensures old(row.status) !in OPEN ==> checks == old(checks) && comments == old(comments)
      ensures end == Returned ==> row.status !in OPEN
      ensures end == Returned && old(row.status) in OPEN ==>
        match how
        case Proceed => row.status == Completed
        case Skip => Skipped(row.status)
        case Fail => row.status == Failed
        case Crash => false
      ensures end == Returned && Skipped(row.status) && old(row.status) in OPEN && AllTrue(old(reverts)) ==>
        Cleaned(log, Mark(|old(log)|, old(Here())), row, Here())
      ensures old(row.status) in OPEN && AllOk(old(replies)) && AllTrue(old(reverts)) ==>
        end == Returned && (how == Proceed || how == Skip)
      ensures old(Calm()) && old(row.status) in OPEN ==> end == Returned && how == Proceed && Calm()
      ensures var posts := !old(row.inlineDone)
        && (old(row.check).Some? || build.existingCheck == None || !build.otherPosted);
        && (posts && end == Returned && how == Proceed && old(row.status) in OPEN ==>
              row.inlineDone && AllDelivered(log, |old(log)|, build.posts, old(row.threads.Keys)))
        && (!posts ==> PostFree(old(log), log))
      ensures end == Returned && how == Proceed && old(row.status) in OPEN ==>
        InOrder(log, |old(log)|) && Shown(row, Here()) && Reuses(old(row), build, row, old(nextId))
    {
      hide Calm, AllOk, InOrder, Chosen, Reuses, Shown, PostFree;
      PostFreeRefl(log);
      hide SameCounts, Guarded, Accounted, Unposted, LastRecheckPassed, NoWrites;
      hide AllTrue, Cleaned, OwnWrites, GoodPosts, Quiet, PostedOnce, AllDelivered;
      if Terminal(row.status) {
        return Returned, Proceed;
      }
      ghost var from := Mark(|log|, Here());
      how := Attempt(build, from);
      if how == Crash {
        AccountedIsPostedOnce(log, stored.threads, keyOf);
        return MustRetry, how;
      }
      if how == Fail {
        row := row.(status := Failed);
      }
      if how == Proceed {
        StatusOnly(old(row), build, row, Completed, Here(), old(nextId));
        row := row.(status := Completed);
      }
      ghost var done := log;
      end := Finish();
      PostFreeTransIf(old(log), done, log);
      if how == Proceed && end == Returned {
        InOrderGrows(done, log, |old(log)|);
      }
      if end == Returned && AllTrue(old(reverts)) && Skipped(row.status) {
        CleanedGrows(done, Committed, from, row, Here());
      }
      if end == Returned && how == Proceed && PostsInline(old(row), build) {
        AllDeliveredGrows(done, [Committed], from.length, build.posts, old(row.threads.Keys));
      }
    }

    /**
     * The gate, the build, and a recheck. A clean-up that raises at the gate fails the attempt, and one that raises
     * later leaves the job skipped.
     */
    method Begin(build: Build, ghost from: Mark) returns (sig: Signal)
      requires row == stored && Steady() && !Terminal(row.status) && GoodPosts(build.posts, keyOf)
      requires from == Mark(|log|, Here())
      modifies `prHead, `superseded, `moves, `row, `log, `reverts
      ensures Steady() && PostFree(old(log), log) && (sig == Proceed || sig == Skip || sig == Crash)
      ensures sig == Proceed ==> NoWrites(log, from, Here())
      ensures sig == Proceed ==>
        row == old(row).(status := Processing, threads := build.threads,
                         comment := if old(row.comment).Some? then old(row.comment) else build.priorComment)
      ensures sig == Crash ==> row == stored
      ensures sig == Skip ==> Skipped(row.status)
      ensures sig == Skip ==> Cleaned(log, from, row, Here())
      ensures AllTrue(old(reverts)) ==> AllTrue(reverts)
      ensures old(Calm()) ==> sig == Proceed && Calm()
      ensures AllTrue(old(reverts)) ==> sig != Crash
      ensures sig == Proceed ==> |log| == |old(log)| + 2 && log[|old(log)|].Recheck? && log[|old(log)| + 1].Recheck?
      ensures sig == Skip && |log| == |old(log)| + 1 ==> old(reverts) == [] || old(reverts[0])
      ensures sig == Crash ==> |log| == |old(log)| + 2 && old(reverts) != [] && !old(reverts[0])
    {
      ghost var start := log;
      NothingWritten(log, from);
      StartsUnposted(log, build, stored.threads, keyOf);
      hide SameCounts, Guarded, Accounted, Unposted, LastRecheckPassed, PostFree, Calm;
      hide NoWrites, AllTrue, Cleaned, GoodPosts;
      var ok, raised := RecheckClean(build.posts, stored.threads, from);
      ghost var log1 := log;
      if !ok && raised {
        RollBackSteady();
        PostFreeTrans(start, log1, log);
        return Crash;
      }
      if !ok {
        NoWritesCleaned(log, from, row, Here());
        return Skip;
      }
      row := row.(status := Processing, threads := build.threads,
                  comment := if row.comment == None then build.priorComment else row.comment);
      ok, raised := RecheckClean(build.posts, stored.threads, from);
      PostFreeTrans(start, log1, log);
      if !ok {
        NoWritesCleaned(log, from, row, Here());
        return Skip;
      }
      return Proceed;
    }

    /** One attempt: its beginning, and the flush. */
    method Attempt(build: Build, ghost from: Mark) returns (sig: Signal)
      requires row == stored && Steady() && !Terminal(row.status) && GoodPosts(build.posts, keyOf)
      requires from == Mark(|log|, Here())
      modifies this
      ensures Steady() && !Terminal(stored.status)
      ensures sig == Proceed ==> LastRecheckPassed(log, jobHead)
      ensures sig == Proceed && PostsInline(old(row), build) ==>
        row.inlineDone && AllDelivered(log, from.length, build.posts, old(row.threads.Keys))
      ensures sig == Proceed ==> Shown(row, Here()) && Reuses(old(row), build, row, old(nextId))
      ensures sig == Crash ==> row == stored
      ensures sig == Skip ==> Skipped(row.status)
      ensures sig == Skip && AllTrue(old(reverts)) ==> Cleaned(log, from, row, Here())
      ensures old(Calm()) ==> sig == Proceed && Calm()
      ensures !PostsInline(old(row), build) ==> PostFree(old(log), log)
      ensures AllOk(old(replies)) && AllTrue(old(reverts)) ==> AllOk(replies) && sig != Crash && sig != Fail
      ensures sig == Proceed ==> InOrder(log, |old(log)|)
    {
      hide SameCounts, Guarded, Accounted, Unposted, LastRecheckPassed, PostFree, Shown, Calm;
      hide NoWrites, AllTrue, Cleaned, OwnWrites, GoodPosts, AllDelivered, Quiet;
      var retryPosted := row.threads;
      var updateFromOther := row.check == None && build.existingCheck.Some?;
      var postInline := PostsInline(row, build);
      sig := Begin(build, from);
      if sig != Proceed {
        return;
      }
      ghost var log1 := log;
      ghost var begun := log;
      sig := Flush(build, retryPosted, postInline, updateFromOther, from);
      if !postInline {
        PostFreeTrans(old(log), log1, log);
      }
    }

    /** The worker commits what the attempt returned. */
    method Finish() returns (end: End)
      requires Steady() && Terminal(row.status) && !Terminal(stored.status)
      requires row.status == Completed ==> LastRecheckPassed(log, jobHead)
      modifies `row, `stored, `replies, `log
      ensures Sound()
      ensures end == Returned ==> row == old(row) && log == old(log) + [Committed]
      ensures old(Calm()) ==> end == Returned && Calm()
      ensures PostFree(old(log), log)
      ensures AllOk(old(replies)) ==> AllOk(replies) && end == Returned
    {
      AccountsGrow(log, Committed, stored.threads, keyOf);
      AccountsGrow(log, RolledBack, stored.threads, keyOf);
      AccountsGrow(log + [Committed], RolledBack, stored.threads, keyOf);
      AccountedIsPostedOnce(log + [Committed], stored.threads, keyOf);
      AccountedIsPostedOnce(log + [RolledBack], stored.threads, keyOf);
      AccountedIsPostedOnce(log + [Committed] + [RolledBack], stored.threads, keyOf);
      hide Guarded, Accounted, LastRecheckPassed, PostedOnce;
      var fine := CommitProgress();
      return if fine then Returned else MustRetry;
    }

    /** The worker gives up on a job that is still open. */
    method MarkFailed()
      requires Sound()
      modifies `row, `stored
      ensures Sound()
      ensures row == if old(row.status) in OPEN then old(row).(status := Failed) else old(row)
    {
      hide Guarded, Accounted, LastRecheckPassed, PostedOnce;
      if !Terminal(row.status) {
        row := row.(status := Failed);
        stored := row;
      }
    }

    /**
     * Any number of deliveries of one job, each attempt crashing or returning anywhere, with `giveUp` after some.
     * Throughout, no external write lacks its recheck, and each finding has at most one comment beyond the lost
     * ones and the collapsed threads; once the job is terminal nothing changes any more.
     */
    method RunDeliveries(builds: seq<Build>, giveUp: seq<bool>)
      requires Sound() && |giveUp| == |builds|
      requires forall i | 0 <= i < |builds| :: GoodPosts(builds[i].posts, keyOf)
      modifies this
      ensures Sound()
      ensures old(row.status) !in OPEN ==> row == old(row) && log == old(log) && inline == old(inline)
      ensures builds != [] && giveUp[|builds| - 1] ==> row.status !in OPEN
    {
      hide GoodPosts, Sound;
      for i := 0 to |builds|
        invariant Sound()
        invariant i > 0 && giveUp[i - 1] ==> row.status !in OPEN
        invariant old(row.status) !in OPEN ==> row == old(row) && log == old(log) && inline == old(inline)
      {
        SoundIsStored();
        var end, how := RunPublishJob(builds[i]);
        SoundIsStored();
        if giveUp[i] {
          MarkFailed();
        }
      }
    }

    lemma SoundIsStored()
      requires Sound()
      ensures row == stored
    {
    }
  }

  lemma NothingWritten(log: seq<Event>, from: Mark)
    requires from.length == |log|
    ensures NoWrites(log, from, from.site)
  {
  }

  lemma CleanedGrows(log: seq<Event>, e: Event, from: Mark, row: Row, now: Site)
    requires Cleaned(log, from, row, now) && NothingToClean(e)
    ensures Cleaned(log + [e], from, row, now)
  {
    WroteCheckGrows(log, e, from);
  }

  /** Only a post can unbalance the accounts. */
  lemma AccountsGrow(log: seq<Event>, e: Event, threads: map<Key, CommentId>, keyOf: FindingId -> Key)
    requires Accounted(log, threads, keyOf) && !e.PostInline?
    ensures Accounted(log + [e], threads, keyOf)
  {
    LogGrows(log, e);
    hide Posts, Lost, Collapses;
  }

  lemma NoWritesGrow(log: seq<Event>, e: Event, from: Mark, now: Site)
    requires NoWrites(log, from, now) && NothingToClean(e)
    ensures NoWrites(log + [e], from, now)
  {
  }

  lemma NoWritesCleaned(log: seq<Event>, from: Mark, row: Row, now: Site)
    requires NoWrites(log, from, now)
    ensures Cleaned(log, from, row, now)
  {
  }

  lemma SurfaceWritten(log: seq<Event>, check: CommentId, comment: CommentId, from: Mark, row: Row, now: Site)
    requires NoWrites(log, from, now) && row.check == Some(check) && row.comment == Some(comment)
    ensures OwnWrites(log + [WriteCheck(check)] + [WriteComment(comment)], from, row, [], WithSurface(now, row, Body))
  {
    var after := log + [WriteCheck(check)] + [WriteComment(comment)];
    assert after[|log|] == WriteCheck(check);
  }

  lemma SameCountsRefl(log: seq<Event>)
    ensures SameCounts(log, log)
  {
  }
}
