/** Collapsing stale inline threads (backend/app/services/github_publish.py). */
module StaleThreads {
  type Key = string
  type CommentId = int

  datatype Call = Succeeds | FailsRetryably | FailsForGood

  /** What GitHub knows of a comment's thread, and how each call about it goes. */
  datatype Thread = Thread(resolved: bool, indexed: bool, lookup: Call, found: bool, resolve: Call, resolveAgain: Call)

  /** The stored state of a group, as far as selection looks at it. */
  datatype GroupRow = GroupRow(retired: bool, addressed: bool)

  datatype Result = ThreadClosed | ThreadIdNotFound | MutationFailed

  predicate IsStale(key: Key, comment: CommentId, publishable: set<Key>, outdated: set<CommentId>,
                    groups: map<Key, GroupRow>) {
    || key !in publishable
    || comment in outdated
    || (key in groups && (groups[key].retired || groups[key].addressed))
  }

  predicate Resolves(t: Thread) {
    t.resolve == Succeeds || (t.resolve == FailsRetryably && t.resolveAgain == Succeeds)
  }

  /** The thread is found, in the index or by a lookup that goes through. */
  predicate Located(t: Thread) { t.indexed || (t.lookup == Succeeds && t.found) }

  predicate Closes(t: Thread) { t.resolved || (Located(t) && Resolves(t)) }

  predicate NotFound(t: Thread) { !t.resolved && !t.indexed && t.lookup == Succeeds && !t.found }

  function Selected(threads: map<Key, CommentId>, publishable: set<Key>, outdated: set<CommentId>,
                    groups: map<Key, GroupRow>): set<Key> {
    set k | k in threads && IsStale(k, threads[k], publishable, outdated, groups)
  }

  function Closed(threads: map<Key, CommentId>, keys: set<Key>, github: CommentId -> Thread): set<Key> {
    set k | k in keys && k in threads && Closes(github(threads[k]))
  }

  function Missing(threads: map<Key, CommentId>, keys: set<Key>, github: CommentId -> Thread): set<Key> {
    set k | k in keys && k in threads && NotFound(github(threads[k]))
  }

  /** Dropping the closed keys splits the tracked ones. */
  lemma ClosedPartitions(threads: map<Key, CommentId>, keys: set<Key>, github: CommentId -> Thread)
    ensures var closed := Closed(threads, keys, github);
      var rest := threads - closed;
      rest.Keys !! closed && rest.Keys + closed == threads.Keys
  {
  }

  lemma NothingYet(threads: map<Key, CommentId>, github: CommentId -> Thread)
    ensures Closed(threads, {}, github) == {} && Missing(threads, {}, github) == {}
    ensures threads - {} == threads
  {
  }

  lemma OneMore(threads: map<Key, CommentId>, done: set<Key>, key: Key, github: CommentId -> Thread)
    requires key in threads && key !in done
    ensures key !in Closed(threads, done, github) && key !in Missing(threads, done, github)
    ensures Closed(threads, done + {key}, github)
         == Closed(threads, done, github) + if Closes(github(threads[key])) then {key} else {}
    ensures Missing(threads, done + {key}, github)
         == Missing(threads, done, github) + if NotFound(github(threads[key])) then {key} else {}
  {
  }

  /** One key further: the sets of closed and missing keys grow by it or stay. */
  lemma StepPast(threads: map<Key, CommentId>, selected: set<Key>, todo: set<Key>, key: Key,
                 github: CommentId -> Thread)
    requires todo <= selected <= threads.Keys && key in todo
    ensures var done, next := selected - todo, selected - (todo - {key});
      var closed := Closed(threads, done, github);
      && |todo - {key}| == |todo| - 1
      && key in threads - closed && (threads - closed)[key] == threads[key]
      && (threads - closed) - {key} == threads - (closed + {key})
      && Closed(threads, next, github) == (if Closes(github(threads[key])) then closed + {key} else closed)
      && |Closed(threads, next, github)| == |closed| + (if Closes(github(threads[key])) then 1 else 0)
      && |Missing(threads, next, github)|
           == |Missing(threads, done, github)| + (if NotFound(github(threads[key])) then 1 else 0)
  {
    var done := selected - todo;
    OneMore(threads, done, key, github);
    DropOne(threads, Closed(threads, done, github), key);
    assert selected - (todo - {key}) == done + {key};
    hide Closed, Missing, Closes, NotFound;
  }

  lemma DropOne(threads: map<Key, CommentId>, closed: set<Key>, key: Key)
    ensures (threads - closed) - {key} == threads - (closed + {key})
    ensures key in threads && key !in closed
      ==> key in threads - closed && (threads - closed)[key] == threads[key]
  {
  }

  /** The tracked threads of a publish flush. */
  class Tracker {
    var threads: map<Key, CommentId>

    constructor (threads: map<Key, CommentId>)
      ensures this.threads == threads
    {
      this.threads := threads;
    }

    method FingerprintsToResolve(publishable: set<Key>, outdated: set<CommentId>,
                                 groups: map<Key, GroupRow>) returns (selected: set<Key>)
      ensures selected == Selected(threads, publishable, outdated, groups) && selected <= threads.Keys
    {
      selected := set k | k in threads && k !in publishable;
      selected := selected + set k | k in threads && threads[k] in outdated;
      selected := selected + set k | k in groups && k in threads && (groups[k].retired || groups[k].addressed);
    }

    method ResolveOne(thread: Thread) returns (result: Result)
      ensures result == ThreadClosed <==> Closes(thread)
      ensures result == ThreadIdNotFound <==> NotFound(thread)
    {
      if thread.resolved {
        return ThreadClosed;
      }
      if !thread.indexed {
        if thread.lookup != Succeeds {
          return MutationFailed;
        }
        if !thread.found {
          return ThreadIdNotFound;
        }
      }
      if thread.resolve == Succeeds {
        return ThreadClosed;
      }
      if thread.resolve == FailsRetryably && thread.resolveAgain == Succeeds {
        return ThreadClosed;
      }
      return MutationFailed;
    }

    /**
     * The tracked map is split into what stays and what was closed; only stale tracked keys are touched, and the
     * number selected is the number closed plus both skip counters.
     */
    method ResolveStaleInlineThreads(publishable: set<Key>, outdated: set<CommentId>, groups: map<Key, GroupRow>,
                                     github: CommentId -> Thread)
      returns (closed: set<Key>, notFound: nat, failed: nat)
      modifies this
      ensures var before := old(threads);
        var selected := Selected(before, publishable, outdated, groups);
        && closed == Closed(before, selected, github) && threads == before - closed
        && threads.Keys !! closed && threads.Keys + closed == before.Keys
        && notFound == |Missing(before, selected, github)|
        && |selected| == |closed| + notFound + failed
    {
      hide IsStale, Selected, Closed, Missing, Closes, NotFound, Progress;
      var before := threads;
      var selected := FingerprintsToResolve(publishable, outdated, groups);
      var todo := selected;
      closed, notFound, failed := {}, 0, 0;
      ProgressStart(before, selected, github);
      while todo != {}
        invariant todo <= selected <= before.Keys
        invariant Progress(before, selected, todo, github, threads, closed, notFound, failed)
        decreases |todo|
      {
        var key :| key in todo;
        ProgressStep(before, selected, todo, key, github, threads, closed, notFound, failed);
        var result := ResolveOne(github(threads[key]));
        todo := todo - {key};
        match result {
          case ThreadClosed => threads, closed := threads - {key}, closed + {key};
          case ThreadIdNotFound => notFound := notFound + 1;
          case MutationFailed => failed := failed + 1;
        }
      }
      ProgressEnd(before, selected, github, threads, closed, notFound, failed);
    }
  }

  /** Where the loop over the selected keys stands. */
  ghost predicate Progress(before: map<Key, CommentId>, selected: set<Key>, todo: set<Key>, github: CommentId -> Thread,
                           threads: map<Key, CommentId>, closed: set<Key>, notFound: nat, failed: nat) {
    && closed == Closed(before, selected - todo, github) && threads == before - closed
    && notFound == |Missing(before, selected - todo, github)|
    && |selected| == |todo| + |closed| + notFound + failed
  }

  lemma ProgressStart(before: map<Key, CommentId>, selected: set<Key>, github: CommentId -> Thread)
    ensures Progress(before, selected, selected, github, before, {}, 0, 0)
  {
    NothingYet(before, github);
    assert selected - selected == {};
  }

  lemma ProgressStep(before: map<Key, CommentId>, selected: set<Key>, todo: set<Key>, key: Key,
                     github: CommentId -> Thread, threads: map<Key, CommentId>, closed: set<Key>,
                     notFound: nat, failed: nat)
    requires todo <= selected <= before.Keys && key in todo
    requires Progress(before, selected, todo, github, threads, closed, notFound, failed)
    ensures |todo - {key}| < |todo| && key in threads
    ensures var thread, rest := github(threads[key]), todo - {key};
      && (Closes(thread) ==>
            Progress(before, selected, rest, github, threads - {key}, closed + {key}, notFound, failed))
      && (NotFound(thread) ==> Progress(before, selected, rest, github, threads, closed, notFound + 1, failed))
      && (!Closes(thread) && !NotFound(thread) ==>
            Progress(before, selected, rest, github, threads, closed, notFound, failed + 1))
  {
    StepPast(before, selected, todo, key, github);
    ClosedOrMissing(github(before[key]));
    hide Closed, Missing, Closes, NotFound;
  }

  lemma ClosedOrMissing(thread: Thread)
    ensures !(Closes(thread) && NotFound(thread))
  {
  }

  lemma ProgressEnd(before: map<Key, CommentId>, selected: set<Key>, github: CommentId -> Thread,
                    threads: map<Key, CommentId>, closed: set<Key>, notFound: nat, failed: nat)
    requires Progress(before, selected, {}, github, threads, closed, notFound, failed)
    ensures closed == Closed(before, selected, github) && threads == before - closed
    ensures threads.Keys !! closed && threads.Keys + closed == before.Keys
    ensures notFound == |Missing(before, selected, github)| && |selected| == |closed| + notFound + failed
  {
    assert selected - {} == selected;
    ClosedPartitions(before, selected, github);
  }
}
