/**
 * Webhook deliveries appending revisions to one pull request (backend/app/services/github_pull_requests.py).
 * Every database statement is one atomic step; an insert takes effect with its commit, because the unique key and
 * the row lock make rival writers wait for it. A schedule lists the steps in the order they happen.
 */
module Revisions {
  import opened Options

  type Sha = string

  datatype PullRequest = PullRequest(count: nat, head: Sha)

  /** The pull request row and its revisions by number; the number is a unique key. */
  datatype Db = Db(pr: Option<PullRequest>, revisions: map<nat, Sha>)

  datatype Kind = Opened | Synchronize | Edited | Comment

  /**
   * Where a delivery stands; `count` and `head` are the attributes it loaded from the row, and `inserted` says whether
   * the revision it returns is one it added itself.
   */
  datatype Pc =
    | Start
    | Creating
    | Conflicted
    | Loaded(count: nat, head: Sha)
    | Appending(count: nat, head: Sha)
    | Inserting(count: nat, head: Sha, retry: bool)
    | Refreshing
    | Rechecking(count: nat, head: Sha)
    | SettingHead(number: nat, count: nat, head: Sha)
    | Done(revision: Option<nat>, count: nat, inserted: bool)
    | Raised
    | Crashed

  /**
   * `existed` records whether the row was there when the delivery began, `seen` the revision count of the first load,
   * and `lost` whether a write of its own failed on a unique key that another delivery had taken.
   */
  datatype Delivery = Delivery(kind: Kind, sha: Sha, existed: bool, seen: nat, lost: bool, pc: Pc)

  datatype State = State(db: Db, deliveries: seq<Delivery>)

  datatype Event = Act(delivery: nat) | Crash(delivery: nat)

  ghost function WithSha(db: Db, sha: Sha): Option<nat> {
    if n :| n in db.revisions && db.revisions[n] == sha then Some(n) else None
  }

  function Go(s: State, d: nat, pc: Pc): State
    requires d < |s.deliveries|
  {
    s.(deliveries := s.deliveries[d := s.deliveries[d].(pc := pc)])
  }

  /** A write failed on a unique key. */
  function Lose(s: State, d: nat, pc: Pc): State
    requires d < |s.deliveries|
  {
    s.(deliveries := s.deliveries[d := s.deliveries[d].(lost := true, pc := pc)])
  }

  /** Loading the row: a comment asks for whatever head is stored, an edit asks for nothing. */
  function Load(s: State, d: nat, existed: bool): State
    requires d < |s.deliveries| && s.db.pr.Some?
  {
    var row, me := s.db.pr.value, s.deliveries[d];
    s.(deliveries := s.deliveries[d := me.(existed := existed, seen := row.count, lost := !existed,
                                           sha := if me.kind == Comment then row.head else me.sha,
                                           pc := Loaded(row.count, row.head))])
  }

  /** An attribute is written only when it differs from the loaded value. */
  function WriteHead(db: Db, loaded: Sha, sha: Sha): Db
    requires db.pr.Some?
  {
    if sha == loaded then db else db.(pr := Some(db.pr.value.(head := sha)))
  }

  function Inserted(db: Db, number: nat, loaded: Sha, sha: Sha): Db
    requires db.pr.Some?
  {
    var row := WriteHead(db, loaded, sha).pr.value;
    Db(Some(row.(count := number)), db.revisions[number := sha])
  }

  // ---------- What always holds ----------

  /** The numbers are exactly 1..count and no head sha occurs twice. */
  ghost predicate GoodDb(db: Db) {
    match db.pr
    case None => db.revisions == map[]
    case Some(row) =>
      && row.count >= 1
      && (forall n :: n in db.revisions <==> 1 <= n <= row.count)
      && (forall m, n | m in db.revisions && n in db.revisions && db.revisions[m] == db.revisions[n] :: m == n)
  }

  predicate Knows(db: Db, count: nat, seen: nat) {
    db.pr.Some? && seen <= count <= db.pr.value.count
  }

  predicate Holds(db: Db, number: nat, sha: Sha) {
    db.pr.Some? && number in db.revisions && db.revisions[number] == sha
  }

  /** None of the first `count` revisions has this sha. */
  predicate NotAmong(db: Db, count: nat, sha: Sha) {
    forall n | n in db.revisions && n <= count :: db.revisions[n] != sha
  }

  /** What a delivery that set the head of a known revision has seen: its count moved only if it lost an insert. */
  predicate Found(me: Delivery, count: nat) {
    if me.existed then me.lost <==> count > me.seen else me.lost
  }

  predicate Added(me: Delivery, count: nat) {
    if me.existed then count > me.seen else if me.lost then count > 1 else count == 1
  }

  predicate GoodDelivery(db: Db, me: Delivery) {
    match me.pc
    case Start => true
    case Creating => true
    case Conflicted => db.pr.Some?
    case Loaded(count, _) => Knows(db, count, me.seen) && 1 <= count == me.seen && me.lost == !me.existed
    case Appending(count, _) => Knows(db, count, me.seen) && 1 <= count == me.seen && me.lost == !me.existed
    case Inserting(count, _, retry) =>
      && Knows(db, count, me.seen + if retry then 1 else 0) && NotAmong(db, count, me.sha)
      && (if retry then me.lost else 1 <= count == me.seen && me.lost == !me.existed)
    case Refreshing => db.pr.Some? && db.pr.value.count >= me.seen + 1 && me.lost
    case Rechecking(count, _) => Knows(db, count, me.seen + 1) && me.lost
    case SettingHead(number, count, _) => Holds(db, number, me.sha) && Found(me, count)
    case Done(revision, count, inserted) =>
      if revision == None then !inserted
      else
        && Holds(db, revision.value, me.sha)
        && if inserted then revision.value == count && Added(me, count) else Found(me, count)
    case Raised => db.pr.Some? && db.pr.value.count >= me.seen + 2
    case Crashed => true
  }

  ghost predicate Consistent(s: State) {
    GoodDb(s.db) && forall d | 0 <= d < |s.deliveries| :: GoodDelivery(s.db, s.deliveries[d])
  }

  /** Revisions are only ever added, and the count never falls. */
  predicate Extends(before: Db, after: Db) {
    && (before.pr.Some? ==> after.pr.Some? && before.pr.value.count <= after.pr.value.count)
    && forall n | n in before.revisions :: n in after.revisions && after.revisions[n] == before.revisions[n]
  }

  // ---------- Steps ----------

  predicate Live(pc: Pc) { !pc.Done? && !pc.Raised? && !pc.Crashed? }

  ghost function Step(s: State, d: nat): State
    requires d < |s.deliveries| && Consistent(s)
  {
    var me := s.deliveries[d];
    match me.pc
    case Start =>
      if s.db.pr.Some? then Load(s, d, true)
      else if me.kind == Comment then Go(s, d, Done(None, 0, false))
      else Go(s, d, Creating)
    case Creating =>
      if s.db.pr.Some? then Lose(s, d, Conflicted)
      else State(Db(Some(PullRequest(1, me.sha)), map[1 := me.sha]),
                 s.deliveries[d := me.(existed := false, lost := false, pc := Done(Some(1), 1, true))])
    case Conflicted => Load(s, d, false)
    case Loaded(count, head) =>
      (match me.kind
       case Edited => Go(s, d, Done(None, count, false))
       case Opened => Go(s, d, Done(None, count, false)).(db := WriteHead(s.db, head, me.sha))
       case _ =>
         var found := WithSha(s.db, me.sha);
         if found.Some? then Go(s, d, SettingHead(found.value, count, head)) else Go(s, d, Appending(count, head)))
    case Appending(count, head) =>
      var found := WithSha(s.db, me.sha);
      if found.Some? then Go(s, d, SettingHead(found.value, count, head)) else Go(s, d, Inserting(count, head, false))
    case Inserting(count, head, retry) =>
      if count + 1 in s.db.revisions then Lose(s, d, if retry then Raised else Refreshing)
      else Go(s, d, Done(Some(count + 1), count + 1, true)).(db := Inserted(s.db, count + 1, head, me.sha))
    case Refreshing => Go(s, d, Rechecking(s.db.pr.value.count, s.db.pr.value.head))
    case Rechecking(count, head) =>
      var found := WithSha(s.db, me.sha);
      if found.Some? then Go(s, d, SettingHead(found.value, count, head)) else Go(s, d, Inserting(count, head, true))
    case SettingHead(number, count, head) =>
      Go(s, d, Done(Some(number), count, false)).(db := WriteHead(s.db, head, me.sha))
    case Done(_, _, _) => s
    case Raised => s
    case Crashed => s
  }

  ghost function Next(s: State, e: Event): State
    requires Consistent(s)
  {
    match e
    case Act(d) => if d < |s.deliveries| then Step(s, d) else s
    case Crash(d) => if d < |s.deliveries| && Live(s.deliveries[d].pc) then Go(s, d, Crashed) else s
  }

  ghost function Run(s: State, schedule: seq<Event>): State
    requires Consistent(s)
    decreases |schedule|
  {
    if schedule == [] then s
    else
      StepIsSafe(s, schedule[0]);
      Run(Next(s, schedule[0]), schedule[1..])
  }

  // ---------- Safety ----------

  lemma WithShaHolds(db: Db, sha: Sha)
    ensures match WithSha(db, sha)
      case Some(n) => n in db.revisions && db.revisions[n] == sha
      case None => forall n | n in db.revisions :: db.revisions[n] != sha
  {
  }

  lemma DeliveryKept(before: Db, after: Db, me: Delivery)
    requires GoodDb(before) && GoodDb(after) && Extends(before, after) && GoodDelivery(before, me)
    ensures GoodDelivery(after, me)
  {
    if me.pc.Inserting? {
      assert forall n | n in after.revisions && n <= me.pc.count :: n in before.revisions;
    }
  }

  /** The loaded count is older than the sha check, so an insert at count + 1 means nothing was added since. */
  lemma InsertIsSafe(db: Db, me: Delivery)
    requires GoodDb(db) && GoodDelivery(db, me) && me.pc.Inserting? && me.pc.count + 1 !in db.revisions
    ensures var after := Inserted(db, me.pc.count + 1, me.pc.head, me.sha);
      && me.pc.count == db.pr.value.count
      && GoodDb(after) && Extends(db, after) && Holds(after, me.pc.count + 1, me.sha)
  {
  }

  lemma OwnWrite(s: State, d: nat)
    requires Consistent(s) && d < |s.deliveries|
    ensures GoodDb(Step(s, d).db) && Extends(s.db, Step(s, d).db)
  {
    var me := s.deliveries[d];
    hide WithSha, NotAmong;
    assert GoodDelivery(s.db, me);
    if me.pc.Inserting? && me.pc.count + 1 !in s.db.revisions {
      InsertIsSafe(s.db, me);
      hide GoodDb, Extends;
    }
  }

  /** The delivery looks its sha up among the revisions. */
  predicate LooksUp(pc: Pc) { pc.Loaded? || pc.Appending? || pc.Rechecking? }

  lemma LookupProgress(s: State, d: nat)
    requires Consistent(s) && d < |s.deliveries| && LooksUp(s.deliveries[d].pc)
    ensures var t := Step(s, d);
      |t.deliveries| == |s.deliveries| && GoodDelivery(t.db, t.deliveries[d])
  {
    var me := s.deliveries[d];
    WithShaHolds(s.db, me.sha);
    assert GoodDelivery(s.db, me);
    hide WithSha, GoodDb, Consistent;
  }

  lemma OtherProgress(s: State, d: nat)
    requires Consistent(s) && d < |s.deliveries| && !LooksUp(s.deliveries[d].pc)
    ensures var t := Step(s, d);
      |t.deliveries| == |s.deliveries| && GoodDelivery(t.db, t.deliveries[d])
  {
    var me := s.deliveries[d];
    assert GoodDelivery(s.db, me);
    assert me.pc.Inserting? && me.pc.count + 1 in s.db.revisions ==> s.db.pr.value.count > me.pc.count;
    assert s.db.pr.Some? ==> s.db.pr.value.count >= 1;
    hide WithSha, GoodDb, Consistent, NotAmong;
  }

  lemma OwnProgress(s: State, d: nat)
    requires Consistent(s) && d < |s.deliveries|
    ensures var t := Step(s, d);
      |t.deliveries| == |s.deliveries| && GoodDelivery(t.db, t.deliveries[d])
  {
    hide *;
    if LooksUp(s.deliveries[d].pc) {
      LookupProgress(s, d);
    } else {
      OtherProgress(s, d);
    }
  }

  lemma OthersStay(s: State, d: nat)
    requires Consistent(s) && d < |s.deliveries|
    ensures var t := Step(s, d);
      && |t.deliveries| == |s.deliveries|
      && forall e | 0 <= e < |s.deliveries| && e != d :: t.deliveries[e] == s.deliveries[e]
  {
    assert GoodDelivery(s.db, s.deliveries[d]);
    hide WithSha, GoodDb, NotAmong, WriteHead, Inserted;
  }

  lemma OwnStep(s: State, d: nat)
    requires Consistent(s) && d < |s.deliveries|
    ensures var t := Step(s, d);
      && GoodDb(t.db) && Extends(s.db, t.db)
      && |t.deliveries| == |s.deliveries| && GoodDelivery(t.db, t.deliveries[d])
      && forall e | 0 <= e < |s.deliveries| && e != d :: t.deliveries[e] == s.deliveries[e]
  {
    OwnWrite(s, d);
    OwnProgress(s, d);
    OthersStay(s, d);
    hide *;
  }

  lemma StepIsSafe(s: State, e: Event)
    requires Consistent(s)
    ensures Consistent(Next(s, e)) && Extends(s.db, Next(s, e).db)
  {
    var t := Next(s, e);
    if e.Act? && e.delivery < |s.deliveries| {
      OwnStep(s, e.delivery);
      hide Step, GoodDb, GoodDelivery, Extends;
      forall d | 0 <= d < |t.deliveries| ensures GoodDelivery(t.db, t.deliveries[d]) {
        if d != e.delivery {
          DeliveryKept(s.db, t.db, s.deliveries[d]);
        }
      }
    }
  }

  /**
   * Under every interleaving and any crashes: the revision numbers stay exactly 1..count, no two revisions share a
   * head sha, revisions are never changed or removed, the count never falls, every delivery that returns a revision
   * returns one of its own sha, and one that gives up did so after two others added revisions.
   */
  lemma {:induction false} RevisionsStayExact(s: State, schedule: seq<Event>)
    requires Consistent(s)
    ensures var t := Run(s, schedule);
      && Consistent(t) && Extends(s.db, t.db)
    decreases |schedule|
  {
    if schedule != [] {
      StepIsSafe(s, schedule[0]);
      hide Next, Consistent;
      RevisionsStayExact(Next(s, schedule[0]), schedule[1..]);
    }
  }

  // ---------- What a delivery reports ----------

  /** The event counts as a new revision when the count attribute moved, or is one for a row that was not there. */
  predicate ReportsNew(me: Delivery)
    requires me.pc.Done?
  {
    if me.existed then me.pc.count > me.seen else me.pc.count == 1
  }

  /**
   * It lost an insert to a delivery that added its sha; or it lost the creation of the row and then added a revision of
   * its own, or found its sha while the row it loaded had one revision.
   */
  predicate Misled(me: Delivery)
    requires me.pc.Done?
  {
    me.lost && if me.existed then !me.pc.inserted else me.pc.inserted || me.pc.count == 1
  }

  lemma GoodReport(db: Db, me: Delivery)
    requires GoodDelivery(db, me) && me.pc.Done? && me.pc.revision.Some?
    ensures (ReportsNew(me) <==> me.pc.inserted) <==> !Misled(me)
  {
    assert me.pc.inserted ==> Added(me, me.pc.count);
    assert !me.pc.inserted ==> Found(me, me.pc.count);
  }

  /**
   * Under every interleaving and any crashes, a delivery that returns a revision reports it as new exactly when it
   * added it itself, if and only if it was not misled by a lost race.
   */
  lemma ReportIsRightIff(s: State, schedule: seq<Event>, d: nat)
    requires Consistent(s)
    requires var t := Run(s, schedule);
      d < |t.deliveries| && t.deliveries[d].pc.Done? && t.deliveries[d].pc.revision.Some?
    ensures var me := Run(s, schedule).deliveries[d];
      (ReportsNew(me) <==> me.pc.inserted) <==> !Misled(me)
  {
    RevisionsStayExact(s, schedule);
    var t := Run(s, schedule);
    assert GoodDelivery(t.db, t.deliveries[d]);
    hide Run, Consistent, GoodDelivery;
    GoodReport(t.db, t.deliveries[d]);
  }

  /** A crash stops a delivery wherever it is, and touches nothing else. */
  lemma CrashStops(s: State, d: nat)
    requires Consistent(s) && d < |s.deliveries| && Live(s.deliveries[d].pc)
    ensures Next(s, Crash(d)) == s.(deliveries := s.deliveries[d := s.deliveries[d].(pc := Crashed)])
  {
  }

  /** A delivery that has come to an end, or crashed, stays as it is. */
  lemma {:induction false} EndedStays(s: State, schedule: seq<Event>, d: nat)
    requires Consistent(s) && d < |s.deliveries| && !Live(s.deliveries[d].pc)
    ensures |Run(s, schedule).deliveries| == |s.deliveries| && Run(s, schedule).deliveries[d] == s.deliveries[d]
    decreases |schedule|
  {
    if schedule != [] {
      var e := schedule[0];
      StepIsSafe(s, e);
      if e.Act? && e.delivery < |s.deliveries| {
        OwnStep(s, e.delivery);
      }
      hide Consistent;
      EndedStays(Next(s, e), schedule[1..], d);
    }
  }

  /** Deliveries that have not started form a consistent state over any good table. */
  lemma FreshDeliveriesAreConsistent(s: State)
    requires GoodDb(s.db) && forall d | 0 <= d < |s.deliveries| :: s.deliveries[d].pc == Start
    ensures Consistent(s)
  {
  }

  // ---------- One delivery alone ----------

  ghost function Alone(s: State, d: nat, steps: nat): State
    requires Consistent(s) && d < |s.deliveries|
    ensures Consistent(Alone(s, d, steps)) && |Alone(s, d, steps).deliveries| == |s.deliveries|
    decreases steps
  {
    if steps == 0 then s
    else
      OwnStep(s, d);
      StepIsSafe(s, Act(d));
      Alone(Step(s, d), d, steps - 1)
  }

  /** A synchronize delivery with up-to-date attributes, at most `left` steps from its end. */
  predicate OnCourse(db: Db, me: Delivery, left: nat) {
    && me.kind == Synchronize
    && match me.pc
       case Start => left >= 4
       case Creating => left >= 1 && db.pr == None
       case Loaded(count, head) => left >= 3 && db.pr == Some(PullRequest(count, head))
       case Appending(count, head) => left >= 2 && db.pr == Some(PullRequest(count, head))
       case Inserting(count, head, _) => left >= 1 && db.pr == Some(PullRequest(count, head))
       case SettingHead(number, _, head) => left >= 1 && db.pr.Some? && db.pr.value.head == head
       case Done(revision, _, _) => revision.Some? && db.pr.Some? && db.pr.value.head == me.sha
       case _ => false
  }

  lemma StaysOnCourse(s: State, d: nat, left: nat)
    requires Consistent(s) && d < |s.deliveries| && OnCourse(s.db, s.deliveries[d], left)
    ensures var t := Step(s, d);
      && d < |t.deliveries| && t.deliveries[d].sha == s.deliveries[d].sha
      && OnCourse(t.db, t.deliveries[d], if left == 0 then 0 else left - 1)
  {
    assert GoodDelivery(s.db, s.deliveries[d]);
    hide WithSha, NotAmong;
  }

  lemma {:induction false} FinishesOnCourse(s: State, d: nat, left: nat)
    requires Consistent(s) && d < |s.deliveries| && OnCourse(s.db, s.deliveries[d], left)
    ensures var t := Alone(s, d, left);
      OnCourse(t.db, t.deliveries[d], 0) && t.deliveries[d].sha == s.deliveries[d].sha
    decreases left
  {
    hide OnCourse, Step, Consistent, GoodDelivery, GoodDb;
    if left > 0 {
      OwnStep(s, d);
      StepIsSafe(s, Act(d));
      StaysOnCourse(s, d, left);
      FinishesOnCourse(Step(s, d), d, left - 1);
    }
  }

  /** A synchronize delivery that nobody interrupts returns a revision of its sha, which is then the head. */
  lemma SynchronizeAlone(s: State, d: nat)
    requires Consistent(s) && d < |s.deliveries|
    requires s.deliveries[d].kind == Synchronize && s.deliveries[d].pc == Start
    ensures var t := Alone(s, d, 4);
      && t.deliveries[d].pc.Done? && t.deliveries[d].pc.revision.Some?
      && t.db.pr.Some? && t.db.pr.value.head == s.deliveries[d].sha
      && Holds(t.db, t.deliveries[d].pc.revision.value, s.deliveries[d].sha)
  {
    FinishesOnCourse(s, d, 4);
    var t := Alone(s, d, 4);
    hide Alone, Step;
    assert GoodDelivery(t.db, t.deliveries[d]);
  }

  // ---------- Two deliveries of one sha ----------

  function Acts(d: nat, steps: nat): seq<Event> {
    if steps == 0 then [] else [Act(d)] + Acts(d, steps - 1)
  }

  lemma {:induction false} RunActs(s: State, d: nat, steps: nat, rest: seq<Event>)
    requires Consistent(s) && d < |s.deliveries|
    ensures Run(s, Acts(d, steps) + rest) == Run(Alone(s, d, steps), rest)
    decreases steps
  {
    hide Step, Consistent;
    if steps == 0 {
      assert Acts(d, 0) + rest == rest;
    } else {
      OwnStep(s, d);
      StepIsSafe(s, Act(d));
      var events := Acts(d, steps) + rest;
      assert events[0] == Act(d) && events[1..] == Acts(d, steps - 1) + rest;
      RunActs(Step(s, d), d, steps - 1, rest);
    }
  }

  lemma RunEmpty(s: State)
    requires Consistent(s)
    ensures Run(s, []) == s
  {
  }

  predicate Unstarted(me: Delivery, sha: Sha) { me.kind == Synchronize && me.sha == sha && me.pc == Start }

  /** Three steps bring a delivery of an unknown sha to its insert. */
  lemma ReachesInsert(s: State, d: nat, sha: Sha)
    requires Consistent(s) && d < |s.deliveries| && Unstarted(s.deliveries[d], sha)
    requires s.db.pr.Some? && NotAmong(s.db, s.db.pr.value.count, sha)
    ensures var row, t := s.db.pr.value, Alone(s, d, 3);
      && t.db == s.db && |t.deliveries| == |s.deliveries|
      && t.deliveries[d] == Delivery(Synchronize, sha, true, row.count, false, Inserting(row.count, row.head, false))
      && forall e | 0 <= e < |s.deliveries| && e != d :: t.deliveries[e] == s.deliveries[e]
  {
    WithShaHolds(s.db, sha);
    var s1 := Step(s, d);
    StepIsSafe(s, Act(d));
    var s2 := Step(s1, d);
    StepIsSafe(s1, Act(d));
    var s3 := Step(s2, d);
    StepIsSafe(s2, Act(d));
    hide WithSha, NotAmong, Consistent, Step;
    assert Alone(s2, d, 1) == Alone(s3, d, 0);
    assert Alone(s1, d, 2) == Alone(s2, d, 1);
  }

  lemma ShaIsFound(db: Db, number: nat)
    requires GoodDb(db) && number in db.revisions
    ensures WithSha(db, db.revisions[number]) == Some(number)
  {
    WithShaHolds(db, db.revisions[number]);
  }

  lemma InsertStep(s: State, d: nat)
    requires Consistent(s) && d < |s.deliveries| && s.deliveries[d].pc.Inserting?
    requires s.deliveries[d].pc.count + 1 !in s.db.revisions
    ensures var me, t := s.deliveries[d], Alone(s, d, 1);
      && t.db == Inserted(s.db, me.pc.count + 1, me.pc.head, me.sha)
      && t.deliveries == s.deliveries[d := me.(pc := Done(Some(me.pc.count + 1), me.pc.count + 1, true))]
  {
    StepIsSafe(s, Act(d));
    var s1 := Step(s, d);
    hide GoodDb, GoodDelivery, NotAmong, WithSha;
    assert Alone(s, d, 1) == Alone(s1, d, 0);
  }

  lemma TwoSteps(s: State, d: nat)
    requires Consistent(s) && d < |s.deliveries|
    ensures var s1 := Step(s, d);
      && Consistent(s1) && |s1.deliveries| == |s.deliveries| && Alone(s, d, 2) == Step(s1, d)
      && forall n: nat :: Alone(s, d, n + 2) == Alone(Alone(s, d, 2), d, n)
  {
    OwnStep(s, d);
    StepIsSafe(s, Act(d));
    var s1 := Step(s, d);
    OwnStep(s1, d);
    StepIsSafe(s1, Act(d));
    hide Consistent, Step;
    assert Alone(Step(s1, d), d, 0) == Step(s1, d);
    assert Alone(s1, d, 1) == Alone(Step(s1, d), d, 0);
    assert Alone(s, d, 2) == Alone(s1, d, 1);
    forall n: nat ensures Alone(s, d, n + 2) == Alone(Alone(s, d, 2), d, n) {
      assert Alone(s, d, n + 2) == Alone(s1, d, n + 1);
    }
  }

  /** A lost insert, then a refresh of the loaded attributes. */
  lemma LosesInsert(s: State, d: nat)
    requires Consistent(s) && d < |s.deliveries|
    requires s.deliveries[d].pc.Inserting? && !s.deliveries[d].pc.retry
    requires s.deliveries[d].pc.count + 1 in s.db.revisions
    ensures var me, t := s.deliveries[d], Alone(s, d, 2);
      && s.db.pr.Some? && t.db == s.db
      && t.deliveries == s.deliveries[d := me.(lost := true, pc := Rechecking(s.db.pr.value.count, s.db.pr.value.head))]
  {
    TwoSteps(s, d);
    hide WithSha, NotAmong, GoodDelivery, Alone;
  }

  /** The sha is known by now: it is found, and the head set. */
  lemma FindsSha(s: State, d: nat, number: nat)
    requires Consistent(s) && d < |s.deliveries| && s.deliveries[d].pc.Rechecking?
    requires Holds(s.db, number, s.deliveries[d].sha)
    ensures var me, t := s.deliveries[d], Alone(s, d, 2);
      t.deliveries == s.deliveries[d := me.(pc := Done(Some(number), me.pc.count, false))]
  {
    ShaIsFound(s.db, number);
    TwoSteps(s, d);
    hide WithSha, NotAmong, GoodDelivery, Alone, GoodDb;
  }

  lemma LostInsert(s: State, d: nat)
    requires Consistent(s) && d < |s.deliveries|
    requires s.deliveries[d].pc.Inserting? && !s.deliveries[d].pc.retry
    requires Holds(s.db, s.deliveries[d].pc.count + 1, s.deliveries[d].sha)
    ensures var me, t := s.deliveries[d], Alone(s, d, 4);
      t.deliveries == s.deliveries[d := me.(lost := true,
                                            pc := Done(Some(me.pc.count + 1), s.db.pr.value.count, false))]
  {
    hide Consistent, Step, Alone;
    LosesInsert(s, d);
    FindsSha(Alone(s, d, 2), d, s.deliveries[d].pc.count + 1);
    TwoSteps(s, d);
    assert Alone(s, d, 2 + 2) == Alone(Alone(s, d, 2), d, 2);
  }

  /** Both deliveries reach their inserts, the first inserts, and the second goes on to its end. */
  const SAME_TIME: seq<Event> := Acts(0, 3) + (Acts(1, 3) + (Acts(0, 1) + (Acts(1, 4) + [])))

  lemma RunSameTime(s: State)
    requires Consistent(s) && |s.deliveries| == 2
    ensures Run(s, SAME_TIME) == Alone(Alone(Alone(Alone(s, 0, 3), 1, 3), 0, 1), 1, 4)
  {
    hide Consistent, Step, Acts, Alone;
    var a := Alone(s, 0, 3);
    var b := Alone(a, 1, 3);
    var c := Alone(b, 0, 1);
    RunActs(s, 0, 3, Acts(1, 3) + (Acts(0, 1) + (Acts(1, 4) + [])));
    RunActs(a, 1, 3, Acts(0, 1) + (Acts(1, 4) + []));
    RunActs(b, 0, 1, Acts(1, 4) + []);
    RunActs(c, 1, 4, []);
    RunEmpty(Alone(c, 1, 4));
  }

  predicate AtInsert(me: Delivery, row: PullRequest, sha: Sha) {
    me == Delivery(Synchronize, sha, true, row.count, false, Inserting(row.count, row.head, false))
  }

  lemma BothAtInsert(s: State, sha: Sha)
    requires Consistent(s) && |s.deliveries| == 2 && s.db.pr.Some?
    requires Unstarted(s.deliveries[0], sha) && Unstarted(s.deliveries[1], sha)
    requires NotAmong(s.db, s.db.pr.value.count, sha)
    ensures var t := Alone(Alone(s, 0, 3), 1, 3);
      && Consistent(t) && t.db == s.db && |t.deliveries| == 2
      && AtInsert(t.deliveries[0], s.db.pr.value, sha) && AtInsert(t.deliveries[1], s.db.pr.value, sha)
  {
    hide Consistent, Step, NotAmong, Alone;
    ReachesInsert(s, 0, sha);
    ReachesInsert(Alone(s, 0, 3), 1, sha);
  }

  lemma OneInserts(s: State, sha: Sha)
    requires Consistent(s) && |s.deliveries| == 2 && s.db.pr.Some?
    requires AtInsert(s.deliveries[0], s.db.pr.value, sha) && AtInsert(s.deliveries[1], s.db.pr.value, sha)
    ensures var count, t := s.db.pr.value.count, Alone(Alone(s, 0, 1), 1, 4);
      && |t.deliveries| == 2
      && t.deliveries[0] == s.deliveries[0].(pc := Done(Some(count + 1), count + 1, true))
      && t.deliveries[1] == s.deliveries[1].(lost := true, pc := Done(Some(count + 1), count + 1, false))
  {
    var number := s.db.pr.value.count + 1;
    assert number !in s.db.revisions by {
      assert GoodDb(s.db);
    }
    hide Consistent, Step, NotAmong, Alone, GoodDb;
    InsertStep(s, 0);
    var after := Alone(s, 0, 1);
    assert after.deliveries[1] == s.deliveries[1];
    assert Holds(after.db, number, sha) && after.db.pr.value.count == number;
    hide Inserted, WriteHead;
    LostInsert(after, 1);
  }

  /** The failing schedule: two deliveries of one new sha at the same time, one revision, and both report it as new. */
  lemma OneRevisionReportedTwice(s: State, sha: Sha)
    requires Consistent(s) && |s.deliveries| == 2 && s.db.pr.Some?
    requires Unstarted(s.deliveries[0], sha) && Unstarted(s.deliveries[1], sha)
    requires NotAmong(s.db, s.db.pr.value.count, sha)
    ensures var kept, t := Some(s.db.pr.value.count + 1), Run(s, SAME_TIME);
      && |t.deliveries| == 2
      && t.deliveries[0].pc.Done? && t.deliveries[0].pc.revision == kept && t.deliveries[0].pc.inserted
      && t.deliveries[1].pc.Done? && t.deliveries[1].pc.revision == kept && !t.deliveries[1].pc.inserted
      && ReportsNew(t.deliveries[0]) && ReportsNew(t.deliveries[1])
  {
    hide Consistent, NotAmong, Alone, Run;
    RunSameTime(s);
    BothAtInsert(s, sha);
    OneInserts(Alone(Alone(s, 0, 3), 1, 3), sha);
  }

  // ---------- Two deliveries of a new pull request ----------

  /** Events that ask for no revision: an edit leaves everything alone, a reopening moves the head. */
  lemma HeadEvents(s: State, d: nat)
    requires Consistent(s) && d < |s.deliveries| && s.deliveries[d].pc == Start && s.db.pr.Some?
    requires s.deliveries[d].kind == Edited || s.deliveries[d].kind == Opened
    ensures var me, t := s.deliveries[d], Alone(s, d, 2);
      && t.deliveries[d].pc.Done? && t.deliveries[d].pc.revision == None && t.db.revisions == s.db.revisions
      && t.db.pr == if me.kind == Opened then Some(s.db.pr.value.(head := me.sha)) else s.db.pr
  {
    TwoSteps(s, d);
    hide WithSha, NotAmong, GoodDelivery, Alone, GoodDb;
  }

  /**
   * A comment asks for the head it finds, and for nothing without a pull request. A delivery whose sha is the head it
   * loaded does not write the head, also when another delivery has moved it since.
   */
  lemma LoadedHeadIsNotWritten(s: State, d: nat)
    requires Consistent(s) && d < |s.deliveries|
    ensures var me, t := s.deliveries[d], Step(s, d);
      && |t.deliveries| == |s.deliveries|
      && (me.pc == Start && me.kind == Comment ==>
            && t.db == s.db
            && if s.db.pr == None then t.deliveries[d].pc.Done? && t.deliveries[d].pc.revision == None
               else t.deliveries[d].sha == s.db.pr.value.head == t.deliveries[d].pc.head && t.deliveries[d].pc.Loaded?)
      && (me.pc.SettingHead? && me.pc.head == me.sha ==> t.db == s.db)
      && (me.pc.Inserting? && me.pc.head == me.sha ==>
            s.db.pr.Some? && t.db.pr.Some? && t.db.pr.value.head == s.db.pr.value.head)
  {
    assert GoodDelivery(s.db, s.deliveries[d]);
    hide WithSha, NotAmong, GoodDb, Consistent;
  }

  /** It lost the creation of the row, and loads the row of the winner. */
  lemma LosesCreation(s: State, d: nat)
    requires Consistent(s) && d < |s.deliveries| && s.deliveries[d].pc == Creating && s.db.pr.Some?
    requires s.deliveries[d].kind == Synchronize
    ensures var me, row, t := s.deliveries[d], s.db.pr.value, Alone(s, d, 2);
      && t.db == s.db
      && t.deliveries == s.deliveries[d := Delivery(Synchronize, me.sha, false, row.count, true,
                                                    Loaded(row.count, row.head))]
  {
    TwoSteps(s, d);
    hide WithSha, NotAmong, GoodDelivery, Alone, GoodDb;
  }

  /** The sha of the winner is its own: it finds it. */
  lemma FindsAtOnce(s: State, d: nat, number: nat)
    requires Consistent(s) && d < |s.deliveries| && s.deliveries[d].pc.Loaded?
    requires s.deliveries[d].kind == Synchronize && Holds(s.db, number, s.deliveries[d].sha)
    ensures var me, t := s.deliveries[d], Alone(s, d, 2);
      t.deliveries == s.deliveries[d := me.(pc := Done(Some(number), me.pc.count, false))]
  {
    ShaIsFound(s.db, number);
    TwoSteps(s, d);
    hide WithSha, NotAmong, GoodDelivery, Alone, GoodDb;
  }

  /** It is not: it adds a revision of its own. */
  lemma AddsItsOwn(s: State, d: nat)
    requires Consistent(s) && d < |s.deliveries| && s.deliveries[d].pc.Loaded?
    requires s.deliveries[d].kind == Synchronize && s.db.pr.Some? && s.deliveries[d].pc.count == s.db.pr.value.count
    requires NotAmong(s.db, s.db.pr.value.count, s.deliveries[d].sha)
    ensures var me, t := s.deliveries[d], Alone(Alone(s, d, 2), d, 1);
      t.deliveries == s.deliveries[d := me.(pc := Done(Some(me.pc.count + 1), me.pc.count + 1, true))]
  {
    var me := s.deliveries[d];
    assert me.pc.count + 1 !in s.db.revisions by {
      assert GoodDb(s.db);
    }
    assert WithSha(s.db, me.sha) == None by {
      WithShaHolds(s.db, me.sha);
      assert GoodDb(s.db);
    }
    TwoSteps(s, d);
    hide WithSha, NotAmong, GoodDelivery, Alone, GoodDb;
    InsertStep(Alone(s, d, 2), d);
  }

  /**
   * The other failing schedules: two deliveries find no pull request, and the first creates it. The second, when it has
   * the same sha, reports the winner's revision as new; when it has another one, it adds a revision and reports none.
   */
  lemma LostCreationMisleads(s: State, d: nat)
    requires Consistent(s) && d < |s.deliveries| && s.deliveries[d].kind == Synchronize
    requires s.deliveries[d].pc == Creating && s.db.pr.Some? && s.db.pr.value.count == 1 && 1 in s.db.revisions
    ensures var same := s.db.revisions[1] == s.deliveries[d].sha;
      var me := (if same then Alone(Alone(s, d, 2), d, 2) else Alone(Alone(Alone(s, d, 2), d, 2), d, 1)).deliveries[d];
      && me.pc == (if same then Done(Some(1), 1, false) else Done(Some(2), 2, true))
      && ReportsNew(me) == same && Misled(me)
  {
    assert GoodDb(s.db);
    assert s.db.revisions[1] != s.deliveries[d].sha ==> NotAmong(s.db, 1, s.deliveries[d].sha);
    LosesCreation(s, d);
    hide Alone, Consistent, NotAmong, GoodDb;
    if s.db.revisions[1] == s.deliveries[d].sha {
      FindsAtOnce(Alone(s, d, 2), d, 1);
    } else {
      AddsItsOwn(Alone(s, d, 2), d);
    }
  }
}
