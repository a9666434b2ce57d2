/**
 * Concurrent POST requests of one user under one Idempotency-Key (backend/app/core/idempotency.py). Every Redis
 * command is one atomic step; a schedule lists the steps in the order they happen.
 */
module Idempotency {
  type RequestId = nat

  /** Method, path and body; their hash is treated as injective. */
  type Fingerprint = string

  const POLL_ATTEMPTS: nat := 30

  /** The Redis key; `producer` records which request stored the response. */
  datatype Cell = Empty | InFlight(fingerprint: Fingerprint) | Stored(fingerprint: Fingerprint, producer: RequestId)

  datatype Pc =
    | Start
    | Reserving
    | Polling(left: nat)
    | Handling
    | Storing
    | Releasing
    | Deleting
    | Ran(cached: bool)
    | Replayed(producer: RequestId)
    | Conflict
    | Crashed

  datatype Request = Request(fingerprint: Fingerprint, pc: Pc)

  /** `owner` records whose reservation succeeded last. */
  datatype State = State(cell: Cell, requests: seq<Request>, reserved: bool, owner: RequestId)

  /** `succeeds`: the handler answers with a 2xx status and a JSON body. */
  datatype Event = Act(request: RequestId, succeeds: bool) | Crash(request: RequestId) | Expire

  function Initial(fingerprints: seq<Fingerprint>): State {
    State(Empty, seq(|fingerprints|, i requires 0 <= i < |fingerprints| => Request(fingerprints[i], Start)), false, 0)
  }

  function Go(s: State, r: RequestId, pc: Pc): State
    requires r < |s.requests|
  {
    s.(requests := s.requests[r := s.requests[r].(pc := pc)])
  }

  /** The answer from a cell that is not empty. */
  function Answer(cell: Cell, fingerprint: Fingerprint): Pc {
    if cell.Stored? && cell.fingerprint == fingerprint then Replayed(cell.producer) else Conflict
  }

  function Step(s: State, r: RequestId, succeeds: bool): State
    requires r < |s.requests|
  {
    var me := s.requests[r];
    match me.pc
    case Start => if s.cell.Empty? then Go(s, r, Reserving) else Go(s, r, Answer(s.cell, me.fingerprint))
    case Reserving =>
      if s.cell.Empty? then Go(s, r, Handling).(cell := InFlight(me.fingerprint), reserved := true, owner := r)
      else Go(s, r, Polling(POLL_ATTEMPTS))
    case Polling(left) =>
      if s.cell.Empty? then Go(s, r, Handling)
      else if s.cell.InFlight? && left > 0 then Go(s, r, Polling(left - 1))
      else Go(s, r, Answer(s.cell, me.fingerprint))
    case Handling => Go(s, r, if succeeds then Storing else Releasing)
    case Storing => Go(s, r, Ran(true)).(cell := Stored(me.fingerprint, r))
    case Releasing => if s.cell == InFlight(me.fingerprint) then Go(s, r, Deleting) else Go(s, r, Ran(false))
    case Deleting => Go(s, r, Ran(false)).(cell := Empty)
    case Ran(_) => s
    case Replayed(_) => s
    case Conflict => s
    case Crashed => s
  }

  predicate Finished(pc: Pc) { pc.Ran? || pc.Replayed? || pc == Conflict || pc == Crashed }

  function Next(s: State, e: Event): State {
    match e
    case Act(r, succeeds) => if r < |s.requests| then Step(s, r, succeeds) else s
    case Crash(r) => if r < |s.requests| && !Finished(s.requests[r].pc) then Go(s, r, Crashed) else s
    case Expire => s.(cell := Empty)
  }

  function Run(s: State, schedule: seq<Event>): State
    decreases |schedule|
  {
    if schedule == [] then s else Run(Next(s, schedule[0]), schedule[1..])
  }

  // ---------- Replays come from the requester's own fingerprint ----------

  /** Request `producer` ran its handler to a stored response under this fingerprint. */
  predicate Produced(s: State, producer: RequestId, fingerprint: Fingerprint) {
    producer < |s.requests| && s.requests[producer] == Request(fingerprint, Ran(true))
  }

  predicate ReplaysAreOwn(s: State) {
    && (s.cell.Stored? ==> Produced(s, s.cell.producer, s.cell.fingerprint))
    && forall r | 0 <= r < |s.requests| && s.requests[r].pc.Replayed? ::
         Produced(s, s.requests[r].pc.producer, s.requests[r].fingerprint)
  }

  lemma Untouched(s: State, e: Event, r: RequestId)
    requires r < |s.requests| && (Finished(s.requests[r].pc) || e.Expire? || e.request != r)
    ensures |Next(s, e).requests| == |s.requests| && Next(s, e).requests[r] == s.requests[r]
  {
  }

  /** A request that starts replaying took its answer from a stored cell with its own fingerprint. */
  lemma ActorReplays(s: State, e: Event)
    requires !e.Expire? && e.request < |s.requests| && !s.requests[e.request].pc.Replayed?
    ensures var me := Next(s, e).requests[e.request];
      && me.fingerprint == s.requests[e.request].fingerprint
      && (me.pc.Replayed? ==> s.cell == Stored(me.fingerprint, me.pc.producer))
  {
  }

  lemma CellWritten(s: State, e: Event)
    ensures var t := Next(s, e);
      |t.requests| == |s.requests|
      && (t.cell.Stored? ==> t.cell == s.cell || Produced(t, t.cell.producer, t.cell.fingerprint))
  {
  }

  lemma StepReplaysOwn(s: State, e: Event)
    requires ReplaysAreOwn(s)
    ensures ReplaysAreOwn(Next(s, e))
  {
    hide Next;
    var t := Next(s, e);
    CellWritten(s, e);
    if s.cell.Stored? {
      Untouched(s, e, s.cell.producer);
    }
    forall r | 0 <= r < |t.requests| && t.requests[r].pc.Replayed?
      ensures Produced(t, t.requests[r].pc.producer, t.requests[r].fingerprint)
    {
      if e.Expire? || e.request != r || s.requests[r].pc.Replayed? {
        Untouched(s, e, r);
        Untouched(s, e, s.requests[r].pc.producer);
      } else {
        ActorReplays(s, e);
      }
    }
  }

  /**
   * In every interleaving, with crashes, failing handlers and expiries, a replayed response was stored by a request
   * with the same fingerprint that ran its handler.
   */
  lemma {:induction false} ReplaysAreAlwaysOwn(s: State, schedule: seq<Event>)
    requires ReplaysAreOwn(s)
    ensures ReplaysAreOwn(Run(s, schedule))
    decreases |schedule|
  {
    if schedule != [] {
      StepReplaysOwn(s, schedule[0]);
      hide Next, ReplaysAreOwn;
      ReplaysAreAlwaysOwn(Next(s, schedule[0]), schedule[1..]);
    }
  }

  // ---------- One handler when nothing is released or expires ----------

  /** No expiry, and no handler that fails. */
  predicate Keeps(e: Event) { !e.Expire? && (e.Act? ==> e.succeeds) }

  predicate RunsHandler(pc: Pc) { pc == Handling || pc == Storing || pc.Ran? || pc == Releasing || pc == Deleting }

  /** At most the owner of the reservation runs its handler; everyone else waits, conflicts, or gets its response. */
  predicate SingleRunner(s: State) {
    && (s.cell.Empty? <==> !s.reserved)
    && (s.reserved ==> s.owner < |s.requests|)
    && (s.cell.InFlight? ==> s.requests[s.owner].pc in {Handling, Storing, Crashed})
    && (s.cell.Stored? ==> s.cell.producer == s.owner && s.requests[s.owner].pc == Ran(true))
    && forall r | 0 <= r < |s.requests| ::
         var pc := s.requests[r].pc;
         && (!s.reserved ==> pc == Start || pc == Reserving || pc == Crashed)
         && (RunsHandler(pc) ==> r == s.owner)
         && pc != Releasing && pc != Deleting
         && (pc.Replayed? ==> pc.producer == s.owner)
  }

  lemma StepSingleRunner(s: State, e: Event)
    requires SingleRunner(s) && Keeps(e)
    ensures SingleRunner(Next(s, e))
    ensures s.reserved ==> Next(s, e).reserved && Next(s, e).owner == s.owner
  {
  }

  lemma {:induction false} OneHandlerRuns(s: State, schedule: seq<Event>)
    requires SingleRunner(s) && forall i | 0 <= i < |schedule| :: Keeps(schedule[i])
    ensures SingleRunner(Run(s, schedule))
    ensures s.reserved ==> Run(s, schedule).reserved && Run(s, schedule).owner == s.owner
    decreases |schedule|
  {
    if schedule != [] {
      StepSingleRunner(s, schedule[0]);
      hide Next, SingleRunner;
      OneHandlerRuns(Next(s, schedule[0]), schedule[1..]);
    }
  }

  /**
   * From fresh requests, without release, expiry or crash: once all are finished, exactly one ran its handler, every
   * other one with its fingerprint got that response or a conflict, and those with another fingerprint a conflict.
   */
  lemma ExactlyOneRuns(fingerprints: seq<Fingerprint>, schedule: seq<Event>)
    requires fingerprints != [] && forall i | 0 <= i < |schedule| :: Keeps(schedule[i]) && schedule[i].Act?
    ensures var s := Run(Initial(fingerprints), schedule);
      (forall r | 0 <= r < |s.requests| :: Finished(s.requests[r].pc)) ==>
        && |s.requests| == |fingerprints|
        && s.owner < |s.requests| && s.requests[s.owner].pc == Ran(true)
        && forall r | 0 <= r < |s.requests| && r != s.owner ::
             if s.requests[r].fingerprint == s.requests[s.owner].fingerprint
             then s.requests[r].pc in {Replayed(s.owner), Conflict} else s.requests[r].pc == Conflict
  {
    var s := Run(Initial(fingerprints), schedule);
    OneHandlerRuns(Initial(fingerprints), schedule);
    NobodyCrashes(Initial(fingerprints), schedule);
    ReplaysAreAlwaysOwn(Initial(fingerprints), schedule);
    if forall r | 0 <= r < |s.requests| :: Finished(s.requests[r].pc) {
      assert Finished(s.requests[0].pc);
    }
  }

  lemma {:induction false} NobodyCrashes(s: State, schedule: seq<Event>)
    requires forall i | 0 <= i < |schedule| :: schedule[i].Act?
    requires forall r | 0 <= r < |s.requests| :: s.requests[r].pc != Crashed
    ensures var t := Run(s, schedule);
      |t.requests| == |s.requests| && forall r | 0 <= r < |t.requests| :: t.requests[r].pc != Crashed
    decreases |schedule|
  {
    if schedule != [] {
      NobodyCrashes(Next(s, schedule[0]), schedule[1..]);
    }
  }

  // ---------- What waiting requests get ----------

  predicate Waiting(pc: Pc) { pc == Start || pc == Reserving || pc.Polling? }

  /**
   * A request that reads a stored response gets it when the fingerprints are equal, else a conflict. One that reads a
   * reservation gets a conflict at its start; one that loses the reservation polls, and gets a conflict when it still
   * reads one at its 31st attempt.
   */
  lemma WhatWaitersRead(s: State, r: RequestId, succeeds: bool)
    requires r < |s.requests| && Waiting(s.requests[r].pc) && s.cell != Empty
    ensures var me, after := s.requests[r], Next(s, Act(r, succeeds)).requests[r].pc;
      if me.pc == Reserving then after == Polling(30)
      else match s.cell
        case Stored(fingerprint, producer) =>
          after == if fingerprint == me.fingerprint then Replayed(producer) else Conflict
        case InFlight(_) =>
          if me.pc == Start || me.pc == Polling(0) then after == Conflict else after == Polling(me.pc.left - 1)
  {
  }

  /**
   * A handler that succeeds stores its response under the key, whatever is there by then; one that fails deletes what
   * it finds reserved under its own fingerprint, and stores nothing.
   */
  lemma HowHandlersEnd(s: State, r: RequestId, succeeds: bool)
    requires r < |s.requests| && Busy(s.requests[r].pc)
    ensures var me, t := s.requests[r], Next(s, Act(r, succeeds));
      && |t.requests| == |s.requests|
      && (me.pc == Handling ==> t.requests[r].pc == (if succeeds then Storing else Releasing) && t.cell == s.cell)
      && (me.pc == Storing ==> t.requests[r].pc == Ran(true) && t.cell == Stored(me.fingerprint, r))
      && (me.pc == Releasing ==>
            && t.requests[r].pc == (if s.cell == InFlight(me.fingerprint) then Deleting else Ran(false))
            && t.cell == s.cell)
      && (me.pc == Deleting ==> t.requests[r].pc == Ran(false) && t.cell == Empty)
  {
  }

  /** A crash stops a request that is under way, and leaves the key as it is; an expiry empties the key. */
  lemma WhatInterferes(s: State, r: RequestId)
    requires r < |s.requests| && !Finished(s.requests[r].pc)
    ensures Next(s, Crash(r)).requests == s.requests[r := Request(s.requests[r].fingerprint, Crashed)]
    ensures Next(s, Crash(r)).cell == s.cell
    ensures Next(s, Expire).cell == Empty && Next(s, Expire).requests == s.requests
  {
  }

  /** The request was answered from this stored response. */
  predicate Served(q: Request, fingerprint: Fingerprint, producer: RequestId) {
    q.pc == if q.fingerprint == fingerprint then Replayed(producer) else Conflict
  }

  /** A response is stored and no handler is under way that could overwrite or delete it. */
  predicate Settled(s: State, fingerprint: Fingerprint, producer: RequestId) {
    s.cell == Stored(fingerprint, producer) && forall r | 0 <= r < |s.requests| :: !Busy(s.requests[r].pc)
  }

  function Turns(schedule: seq<Event>, r: RequestId): nat {
    if schedule == [] then 0
    else (if schedule[0].Act? && schedule[0].request == r then 1 else 0) + Turns(schedule[1..], r)
  }

  lemma SettledStep(s: State, e: Event, fingerprint: Fingerprint, producer: RequestId, r: RequestId)
    requires Settled(s, fingerprint, producer) && !e.Expire? && r < |s.requests| && Waiting(s.requests[r].pc)
    ensures var t := Next(s, e);
      && Settled(t, fingerprint, producer) && |t.requests| == |s.requests|
      && t.requests[r].fingerprint == s.requests[r].fingerprint
      && (|| t.requests[r].pc == Crashed || Served(t.requests[r], fingerprint, producer)
          || (e.Act? && e.request == r && s.requests[r].pc == Reserving && t.requests[r].pc.Polling?)
          || (t.requests[r] == s.requests[r] && !(e.Act? && e.request == r)))
  {
  }

  lemma {:induction false} FinishedForGood(s: State, schedule: seq<Event>, r: RequestId)
    requires r < |s.requests| && Finished(s.requests[r].pc)
    ensures |Run(s, schedule).requests| == |s.requests| && Run(s, schedule).requests[r] == s.requests[r]
    decreases |schedule|
  {
    if schedule != [] {
      Untouched(s, schedule[0], r);
      hide Next;
      FinishedForGood(Next(s, schedule[0]), schedule[1..], r);
    }
  }

  /**
   * Once a response is stored and until it expires, each request that is waiting or starts gets it within two turns
   * if its fingerprint is the stored one, else a conflict, unless it crashes.
   */
  lemma {:induction false} StoredIsReplayed(s: State, schedule: seq<Event>, fingerprint: Fingerprint,
                                            producer: RequestId, r: RequestId)
    requires Settled(s, fingerprint, producer) && NoExpiry(schedule)
    requires r < |s.requests| && Waiting(s.requests[r].pc)
    requires Turns(schedule, r) >= if s.requests[r].pc == Reserving then 2 else 1
    ensures var t := Run(s, schedule);
      && |t.requests| == |s.requests| && t.requests[r].fingerprint == s.requests[r].fingerprint
      && (t.requests[r].pc == Crashed || Served(t.requests[r], fingerprint, producer))
    decreases |schedule|
  {
    var e := schedule[0];
    SettledStep(s, e, fingerprint, producer, r);
    hide Next, Settled;
    var next := Next(s, e);
    if next.requests[r].pc == Crashed || Served(next.requests[r], fingerprint, producer) {
      FinishedForGood(next, schedule[1..], r);
    } else {
      StoredIsReplayed(next, schedule[1..], fingerprint, producer, r);
    }
  }

  /** From fresh requests whose handlers succeed, or from at most two of any kind, a stored response is settled. */
  lemma StoredIsSettled(fingerprints: seq<Fingerprint>, schedule: seq<Event>)
    requires NoExpiry(schedule)
    requires |fingerprints| <= 2 || forall i | 0 <= i < |schedule| :: Keeps(schedule[i])
    ensures var s := Run(Initial(fingerprints), schedule);
      s.cell.Stored? ==> Settled(s, s.cell.fingerprint, s.cell.producer)
  {
    if |fingerprints| <= 2 {
      TwoStayApart(Initial(fingerprints), schedule);
    } else {
      OneHandlerRuns(Initial(fingerprints), schedule);
    }
  }

  /** How many turns a request needs at most. */
  function Rank(pc: Pc): nat {
    match pc
    case Start => 36
    case Reserving => 35
    case Polling(left) => left + 4
    case Handling => 3
    case Storing => 1
    case Releasing => 2
    case Deleting => 1
    case _ => 0
  }

  lemma StepLowersRank(s: State, e: Event, r: RequestId)
    requires r < |s.requests|
    ensures var before, after := Rank(s.requests[r].pc), Rank(Next(s, e).requests[r].pc);
      && |Next(s, e).requests| == |s.requests| && after <= before
      && (e.Act? && e.request == r && before > 0 ==> after < before)
  {
  }

  /** Every request is finished after at most 36 turns of its own: nobody waits for ever. */
  lemma {:induction false} EveryRequestFinishes(s: State, schedule: seq<Event>, r: RequestId)
    requires r < |s.requests| && Turns(schedule, r) >= Rank(s.requests[r].pc)
    ensures |Run(s, schedule).requests| == |s.requests| && Finished(Run(s, schedule).requests[r].pc)
    decreases |schedule|
  {
    if schedule != [] {
      StepLowersRank(s, schedule[0], r);
      hide Next, Rank;
      EveryRequestFinishes(Next(s, schedule[0]), schedule[1..], r);
    }
  }

  lemma NobodyWaitsForever(fingerprints: seq<Fingerprint>, schedule: seq<Event>, r: RequestId)
    requires r < |fingerprints| && Turns(schedule, r) >= 36
    ensures var s := Run(Initial(fingerprints), schedule); r < |s.requests| && Finished(s.requests[r].pc)
  {
    EveryRequestFinishes(Initial(fingerprints), schedule, r);
  }

  // ---------- How many handlers run at the same time ----------

  /** Between its decision to run the handler and its last Redis command. */
  predicate Busy(pc: Pc) { pc == Handling || pc == Storing || pc == Releasing || pc == Deleting }

  predicate AtMostOneBusy(s: State) {
    forall q, r | 0 <= q < r < |s.requests| :: !(Busy(s.requests[q].pc) && Busy(s.requests[r].pc))
  }

  ghost predicate NoExpiry(schedule: seq<Event>) {
    forall i | 0 <= i < |schedule| :: !schedule[i].Expire?
  }

  /**
   * With two requests: a filled key excludes every runner but the reserving one, and a request that waits for, or
   * runs under, an empty key has outlived the other.
   */
  predicate TwoApart(s: State) {
    && |s.requests| <= 2
    && AtMostOneBusy(s)
    && (s.cell.Stored? ==> forall r | 0 <= r < |s.requests| :: !Busy(s.requests[r].pc))
    && (s.cell.InFlight? ==>
          && s.reserved && s.owner < |s.requests| && s.requests[s.owner].fingerprint == s.cell.fingerprint
          && (Busy(s.requests[s.owner].pc) || s.requests[s.owner].pc == Crashed)
          && forall r | 0 <= r < |s.requests| && r != s.owner :: !Busy(s.requests[r].pc))
    && (forall r | 0 <= r < |s.requests| && s.requests[r].pc == Deleting :: s.cell.InFlight? && r == s.owner)
    && (forall q, r | 0 <= q < |s.requests| && 0 <= r < |s.requests| && q != r
          && s.cell.Empty? && (s.requests[r].pc.Polling? || Busy(s.requests[r].pc)) :: Finished(s.requests[q].pc))
  }

  lemma StepApartStarting(s: State, r: RequestId, succeeds: bool)
    requires TwoApart(s) && r < |s.requests| && s.requests[r].pc in {Start, Reserving}
    ensures TwoApart(Step(s, r, succeeds))
  {
  }

  lemma StepApartPolling(s: State, r: RequestId, succeeds: bool)
    requires TwoApart(s) && r < |s.requests| && s.requests[r].pc.Polling?
    ensures TwoApart(Step(s, r, succeeds))
  {
    var pc := Step(s, r, succeeds).requests[r].pc;
    assert if s.cell.Empty? then pc == Handling else pc.Polling? || Finished(pc);
    assert Step(s, r, succeeds) == Go(s, r, pc);
    hide Answer, Step;
  }

  lemma StepApartHandling(s: State, r: RequestId, succeeds: bool)
    requires TwoApart(s) && r < |s.requests| && s.requests[r].pc in {Handling, Storing}
    ensures TwoApart(Step(s, r, succeeds))
  {
  }

  lemma StepApartReleasing(s: State, r: RequestId, succeeds: bool)
    requires TwoApart(s) && r < |s.requests| && s.requests[r].pc in {Releasing, Deleting}
    ensures TwoApart(Step(s, r, succeeds))
  {
  }

  lemma CrashApart(s: State, r: RequestId)
    requires TwoApart(s) && r < |s.requests| && !Finished(s.requests[r].pc)
    ensures TwoApart(Go(s, r, Crashed))
  {
  }

  lemma StepTwoApart(s: State, e: Event)
    requires TwoApart(s) && !e.Expire?
    ensures TwoApart(Next(s, e))
  {
    hide TwoApart, Step, Go;
    if e.request < |s.requests| {
      var pc := s.requests[e.request].pc;
      if e.Crash? {
        if !Finished(pc) {
          CrashApart(s, e.request);
        }
      } else if pc in {Start, Reserving} {
        StepApartStarting(s, e.request, e.succeeds);
      } else if pc.Polling? {
        StepApartPolling(s, e.request, e.succeeds);
      } else if pc in {Handling, Storing} {
        StepApartHandling(s, e.request, e.succeeds);
      } else if pc in {Releasing, Deleting} {
        StepApartReleasing(s, e.request, e.succeeds);
      } else {
        FinishedStays(s, e.request, e.succeeds);
      }
    }
  }

  lemma FinishedStays(s: State, r: RequestId, succeeds: bool)
    requires r < |s.requests| && Finished(s.requests[r].pc)
    ensures Step(s, r, succeeds) == s
  {
  }

  lemma {:induction false} TwoStayApart(s: State, schedule: seq<Event>)
    requires TwoApart(s) && NoExpiry(schedule)
    ensures TwoApart(Run(s, schedule))
    decreases |schedule|
  {
    if schedule != [] {
      StepTwoApart(s, schedule[0]);
      hide Next, TwoApart;
      TwoStayApart(Next(s, schedule[0]), schedule[1..]);
    }
  }

  // ---------- Three requests, or two and an expiry ----------

  function EachOnce(): seq<Event> { [Act(0, true), Act(1, true), Act(2, true)] }

  function OwnerFails(): seq<Event> { [Act(0, false), Act(0, false), Act(0, false)] }

  function ReleaseSchedule(): seq<Event> { EachOnce() + (EachOnce() + (OwnerFails() + EachOnce())) }

  function ExpirySchedule(): seq<Event> {
    [Act(0, true), Act(0, true), Expire] + [Act(1, true), Act(1, true), Act(1, true)]
  }

  /** Where the first three requests stand. */
  predicate Lead(s: State, fingerprints: seq<Fingerprint>, cell: Cell, pc0: Pc, pc1: Pc, pc2: Pc) {
    && 3 <= |fingerprints| == |s.requests| && s.cell == cell
    && s.requests[0] == Request(fingerprints[0], pc0)
    && s.requests[1] == Request(fingerprints[1], pc1)
    && s.requests[2] == Request(fingerprints[2], pc2)
  }

  function ThreeSteps(s: State, es: seq<Event>): State
    requires |es| == 3
  {
    Next(Next(Next(s, es[0]), es[1]), es[2])
  }

  lemma RunThree(s: State, es: seq<Event>, rest: seq<Event>)
    requires |es| == 3
    ensures Run(s, es + rest) == Run(ThreeSteps(s, es), rest)
  {
    hide Next;
    assert es + rest == [es[0]] + ([es[1]] + ([es[2]] + rest));
    RunStep(s, es[0], [es[1]] + ([es[2]] + rest));
    RunStep(Next(s, es[0]), es[1], [es[2]] + rest);
    RunStep(Next(Next(s, es[0]), es[1]), es[2], rest);
  }

  lemma RunStep(s: State, e: Event, rest: seq<Event>)
    ensures Run(s, [e] + rest) == Run(Next(s, e), rest)
  {
    assert ([e] + rest)[1..] == rest;
  }

  lemma AllTurnToReserve(s: State, f: seq<Fingerprint>)
    requires Lead(s, f, Empty, Start, Start, Start)
    ensures Lead(ThreeSteps(s, EachOnce()), f, Empty, Reserving, Reserving, Reserving)
  {
  }

  lemma OneReserves(s: State, f: seq<Fingerprint>)
    requires Lead(s, f, Empty, Reserving, Reserving, Reserving)
    ensures Lead(ThreeSteps(s, EachOnce()), f, InFlight(f[0]), Handling, Polling(POLL_ATTEMPTS), Polling(POLL_ATTEMPTS))
  {
  }

  lemma OwnerReleases(s: State, f: seq<Fingerprint>)
    requires |f| >= 3 && Lead(s, f, InFlight(f[0]), Handling, Polling(POLL_ATTEMPTS), Polling(POLL_ATTEMPTS))
    ensures Lead(ThreeSteps(s, OwnerFails()), f, Empty, Ran(false), Polling(POLL_ATTEMPTS), Polling(POLL_ATTEMPTS))
  {
  }

  lemma WaitersRun(s: State, f: seq<Fingerprint>)
    requires Lead(s, f, Empty, Ran(false), Polling(POLL_ATTEMPTS), Polling(POLL_ATTEMPTS))
    ensures Lead(ThreeSteps(s, EachOnce()), f, Empty, Ran(false), Handling, Handling)
  {
  }

  /**
   * After a release the waiting requests do not reserve again: with three or more requests, of the same or of
   * different fingerprints, two of them run their handler at the same time.
   */
  lemma ReleaseLetsWaitersRun(fingerprints: seq<Fingerprint>)
    requires |fingerprints| >= 3
    ensures NoExpiry(ReleaseSchedule())
    ensures var s := Run(Initial(fingerprints), ReleaseSchedule());
      Lead(s, fingerprints, Empty, Ran(false), Handling, Handling) && !AtMostOneBusy(s)
  {
    var s0 := Initial(fingerprints);
    var s1, three := ThreeSteps(s0, EachOnce()), EachOnce();
    var s2 := ThreeSteps(s1, EachOnce());
    var s3 := ThreeSteps(s2, OwnerFails());
    var s4 := ThreeSteps(s3, EachOnce());
    AllTurnToReserve(s0, fingerprints);
    OneReserves(s1, fingerprints);
    OwnerReleases(s2, fingerprints);
    WaitersRun(s3, fingerprints);
    assert Busy(s4.requests[1].pc) && Busy(s4.requests[2].pc);
    hide ThreeSteps, Next, EachOnce, OwnerFails;
    ThreeOf();
    RunThree(s0, EachOnce(), EachOnce() + (OwnerFails() + EachOnce()));
    RunThree(s1, EachOnce(), OwnerFails() + EachOnce());
    RunThree(s2, OwnerFails(), EachOnce());
    RunThree(s3, EachOnce(), []);
    assert EachOnce() + [] == EachOnce();
  }

  lemma ThreeOf()
    ensures |EachOnce()| == 3 && |OwnerFails()| == 3 && NoExpiry(ReleaseSchedule())
  {
  }

  /** When the reservation expires under a running handler, a second request reserves and runs too. */
  lemma ExpiryLetsSecondRun(fingerprints: seq<Fingerprint>)
    requires |fingerprints| >= 2
    ensures !AtMostOneBusy(Run(Initial(fingerprints), ExpirySchedule()))
  {
    var s0 := Initial(fingerprints);
    var first, second := [Act(0, true), Act(0, true), Expire], [Act(1, true), Act(1, true), Act(1, true)];
    var s1 := ThreeSteps(s0, first);
    var s2 := ThreeSteps(s1, second);
    assert s1.cell.Empty? && |s1.requests| == |fingerprints|;
    assert s1.requests[0].pc == Handling && s1.requests[1].pc == Start;
    assert Busy(s2.requests[0].pc) && Busy(s2.requests[1].pc);
    hide ThreeSteps, Next;
    RunThree(s0, first, second);
    RunThree(s1, second, []);
    assert second + [] == second;
  }

  /**
   * Handlers under one key never overlap in schedules without expiry, crashes and failing handlers included, if and
   * only if at most two requests share the key.
   */
  lemma ApartIffAtMostTwo(fingerprints: seq<Fingerprint>)
    ensures (forall schedule | NoExpiry(schedule) :: AtMostOneBusy(Run(Initial(fingerprints), schedule)))
       <==> |fingerprints| <= 2
  {
    if |fingerprints| <= 2 {
      forall schedule | NoExpiry(schedule) ensures AtMostOneBusy(Run(Initial(fingerprints), schedule)) {
        TwoStayApart(Initial(fingerprints), schedule);
      }
    } else {
      ReleaseLetsWaitersRun(fingerprints);
    }
  }

  /** With expiry allowed as well they never overlap if and only if a single request uses the key. */
  lemma ApartIffAlone(fingerprints: seq<Fingerprint>)
    ensures (forall schedule :: AtMostOneBusy(Run(Initial(fingerprints), schedule))) <==> |fingerprints| <= 1
  {
    if |fingerprints| <= 1 {
      forall schedule ensures AtMostOneBusy(Run(Initial(fingerprints), schedule)) {
        RunKeepsCount(Initial(fingerprints), schedule);
      }
    } else {
      ExpiryLetsSecondRun(fingerprints);
    }
  }

  lemma {:induction false} RunKeepsCount(s: State, schedule: seq<Event>)
    ensures |Run(s, schedule).requests| == |s.requests|
    decreases |schedule|
  {
    if schedule != [] {
      RunKeepsCount(Next(s, schedule[0]), schedule[1..]);
    }
  }

  /** Without release and expiry they never overlap, whatever the number of requests. */
  lemma KeptReservationsStayApart(fingerprints: seq<Fingerprint>, schedule: seq<Event>)
    requires forall i | 0 <= i < |schedule| :: Keeps(schedule[i])
    ensures AtMostOneBusy(Run(Initial(fingerprints), schedule))
  {
    OneHandlerRuns(Initial(fingerprints), schedule);
  }
}
