/**
 * Deliveries of one index job racing with each other and with supersession
 * (backend/app/services/github_indexing.py, backend/app/services/github_generation_lifecycle.py).
 * Every database statement is one atomic step; a schedule lists the steps in the order they happen.
 */
module IndexRace {

  datatype Status = Pending | Processing | Completed | Failed(superseded: bool)

  /** Where a delivery of the job stands. `Exited(true)` left after seeing, as the claimer, that it was superseded. */
  datatype Pc =
    | Start | SawPending | Claimed | Stored | Checked | Confirming
    | Deleting | RolledBack | Failing | Exited(observed: bool)

  datatype State = State(
    status: Status,
    pcs: seq<Pc>,
    rows: set<nat>,     // deliveries whose chunk rows, all tagged with the job, are in the table
    claims: nat,
    claimer: nat,       // the delivery that claimed last, when there was a claim
    completes: nat,
    supersedes: nat)

  datatype Event =
    | Act(worker: nat, raises: bool)
    | Supersede
    | MarkFailed
    | FailPending

  function Initial(workers: nat): State {
    State(Pending, seq(workers, _ => Start), {}, 0, 0, 0, 0)
  }

  function Go(s: State, w: nat, pc: Pc): State
    requires w < |s.pcs|
  {
    s.(pcs := s.pcs[w := pc])
  }

  /** One statement of `run_index_job`; `raises` is an error of the download, the chunking or the embedding. */
  function Step(s: State, w: nat, raises: bool): State
    requires w < |s.pcs|
  {
    match s.pcs[w]
    case Start =>
      if s.status == Pending then Go(s, w, SawPending) else Go(s, w, Exited(false))
    case SawPending =>
      if s.status == Pending then Go(s, w, Claimed).(status := Processing, claims := s.claims + 1, claimer := w)
      else Go(s, w, Exited(false))
    case Claimed =>
      if raises then Go(s, w, RolledBack).(status := if s.status == Processing then Pending else s.status)
      else Go(s, w, Stored).(rows := s.rows + {w})
    case Stored =>
      if s.status == Failed(true) then Go(s, w, Deleting) else Go(s, w, Checked)
    case Checked =>
      if s.status == Processing then Go(s, w, Confirming).(status := Completed, completes := s.completes + 1)
      else if s.status == Failed(true) then Go(s, w, Deleting)
      else Go(s, w, Exited(false))
    case Confirming => Go(s, w, Exited(false)).(status := Completed)
    case Deleting => Go(s, w, Exited(true)).(rows := {})
    case RolledBack =>
      if s.status == Failed(true) then Go(s, w, Deleting) else Go(s, w, Failing)
    case Failing => Go(s, w, Exited(false)).(status := Failed(false))
    case Exited(_) => s
  }

  function Next(s: State, e: Event): State {
    match e
    case Act(w, raises) => if w < |s.pcs| then Step(s, w, raises) else s
    case Supersede =>
      if s.status == Pending || s.status == Processing
      then s.(status := Failed(true), supersedes := s.supersedes + 1) else s
    case MarkFailed => if s.status == Completed then s else s.(status := Failed(false))
    case FailPending => if s.status == Pending then s.(status := Failed(false)) else s
  }

  function Run(s: State, schedule: seq<Event>): State
    decreases |schedule|
  {
    if schedule == [] then s else Run(Next(s, schedule[0]), schedule[1..])
  }

  // ---------- Safety ----------

  predicate KeepsTerminal(before: Status, after: Status) {
    && (before == Completed ==> after == Completed)
    && (before.Failed? ==> after.Failed?)
  }

  /** One claim, one winner, and a claimer that saw supersession left no rows. */
  predicate Good(s: State) {
    && s.claims <= 1
    && s.completes + s.supersedes <= 1
    && (s.completes == 1 ==> s.status == Completed)
    && forall w | 0 <= w < |s.pcs| :: s.pcs[w] == Exited(true) ==> s.rows == {}
  }

  /** Every state of the run is good and no step leaves a completed or failed job. */
  predicate SafeRun(s: State, schedule: seq<Event>)
    decreases |schedule|
  {
    && Good(s)
    && (schedule != [] ==>
          && KeepsTerminal(s.status, Next(s, schedule[0]).status)
          && SafeRun(Next(s, schedule[0]), schedule[1..]))
  }

  predicate HoldsClaim(pc: Pc) {
    pc != Start && pc != SawPending && pc != Exited(false)
  }

  /** Progress of the job and of its claimer agree. */
  ghost predicate Consistent(s: State) {
    && s.claims <= 1
    && (forall w | 0 <= w < |s.pcs| :: HoldsClaim(s.pcs[w]) ==> s.claims == 1 && w == s.claimer)
    && (s.status == Pending || s.status == Processing ==> s.completes == s.supersedes == 0)
    && (s.status == Completed ==> s.completes == 1 && s.supersedes == 0)
    && (s.status.Failed? ==> s.completes == 0 && s.supersedes <= 1)
    && (forall w | 0 <= w < |s.pcs| ::
          && (s.pcs[w] == Confirming ==> s.status == Completed)
          && (s.pcs[w] in {Claimed, Stored, Checked, RolledBack, Failing, Deleting} ==> s.status != Completed)
          && (s.pcs[w] == Exited(true) ==> s.rows == {}))
  }

  // ---------- Any number of deliveries, none of which fails ----------

  ghost predicate NoErrors(schedule: seq<Event>) {
    forall i | 0 <= i < |schedule| :: schedule[i].Act? ==> !schedule[i].raises
  }

  ghost predicate ErrorFree(s: State) {
    && Consistent(s)
    && (s.status == Pending ==> s.claims == 0)
    && forall w | 0 <= w < |s.pcs| :: s.pcs[w] != RolledBack && s.pcs[w] != Failing
  }

  lemma ErrorFreeAct(s: State, w: nat)
    requires ErrorFree(s) && w < |s.pcs|
    ensures var after := Step(s, w, false); ErrorFree(after) && KeepsTerminal(s.status, after.status)
  {
    var after := Step(s, w, false);
    assert |after.pcs| == |s.pcs| && forall v | 0 <= v < |s.pcs| && v != w :: after.pcs[v] == s.pcs[v];
  }

  lemma ErrorFreeStep(s: State, e: Event)
    requires ErrorFree(s) && (e.Act? ==> !e.raises)
    ensures ErrorFree(Next(s, e)) && KeepsTerminal(s.status, Next(s, e).status)
  {
    if e.Act? {
      if e.worker < |s.pcs| {
        ErrorFreeAct(s, e.worker);
      }
    } else {
      assert Next(s, e).pcs == s.pcs && Next(s, e).rows == s.rows;
    }
  }

  /** Without errors in the work, every interleaving of any number of deliveries and supersedes is safe. */
  lemma {:induction false} ErrorFreeRunsAreSafe(s: State, schedule: seq<Event>)
    requires ErrorFree(s) && NoErrors(schedule)
    ensures SafeRun(s, schedule)
    decreases |schedule|
  {
    if schedule != [] {
      assert schedule[0].Act? ==> !schedule[0].raises;
      ErrorFreeStep(s, schedule[0]);
      forall i | 0 <= i < |schedule[1..]| && schedule[1..][i].Act? ensures !schedule[1..][i].raises {
        assert schedule[1..][i] == schedule[i + 1];
      }
      ErrorFreeRunsAreSafe(Next(s, schedule[0]), schedule[1..]);
    }
  }

  // ---------- One delivery, which may fail ----------

  ghost predicate SingleDelivery(s: State) {
    && Consistent(s)
    && |s.pcs| <= 1
    && (|s.pcs| == 1 && s.pcs[0] in {Start, SawPending} ==> s.claims == 0)
  }

  lemma SingleDeliveryAct(s: State, raises: bool)
    requires SingleDelivery(s) && |s.pcs| == 1
    ensures var after := Step(s, 0, raises); SingleDelivery(after) && KeepsTerminal(s.status, after.status)
  {
    assert s.pcs == [s.pcs[0]];
  }

  lemma SingleDeliveryStep(s: State, e: Event)
    requires SingleDelivery(s)
    ensures SingleDelivery(Next(s, e)) && KeepsTerminal(s.status, Next(s, e).status)
  {
    if e.Act? {
      if e.worker < |s.pcs| {
        SingleDeliveryAct(s, e.raises);
      }
    } else {
      assert Next(s, e).pcs == s.pcs && Next(s, e).rows == s.rows;
    }
  }

  lemma {:induction false} SingleDeliveryRunsAreSafe(s: State, schedule: seq<Event>)
    requires SingleDelivery(s)
    ensures SafeRun(s, schedule)
    decreases |schedule|
  {
    if schedule != [] {
      SingleDeliveryStep(s, schedule[0]);
      SingleDeliveryRunsAreSafe(Next(s, schedule[0]), schedule[1..]);
    }
  }

  // ---------- Exactly one wins ----------

  predicate Unfinished(status: Status) { status == Pending || status == Processing }

  /** What others do to the job, in one statement each. */
  lemma OutsideEvents(s: State)
    ensures Unfinished(s.status) ==>
      Next(s, Supersede).status == Failed(true) && Next(s, Supersede).supersedes == s.supersedes + 1
    ensures Next(s, MarkFailed).status == if s.status == Completed then Completed else Failed(false)
    ensures Next(s, FailPending).status == if s.status == Pending then Failed(false) else s.status
    ensures !Unfinished(s.status) ==> Next(s, Supersede) == s
  {
  }

  /**
   * A delivery leaves at once when the job is not pending. It turns to deleting exactly when it finds the job
   * superseded, after storing, at its completion, or after its rollback; otherwise it goes on to complete the job, or
   * to fail it if it had raised.
   */
  lemma WhatDeliveriesFind(s: State, w: nat, raises: bool)
    requires w < |s.pcs|
    ensures var pc, t := s.pcs[w], Next(s, Act(w, raises));
      && |t.pcs| == |s.pcs|
      && (t.pcs[w] == Deleting <==> pc in {Stored, Checked, RolledBack} && s.status == Failed(true))
      && (pc in {Start, SawPending} && s.status != Pending ==> t.pcs[w] == Exited(false) && t.status == s.status)
      && (pc == Checked && s.status == Processing ==> t.status == Completed && t.pcs[w] == Confirming)
      && (pc == Confirming ==> t.status == Completed)
      && (pc == RolledBack && s.status != Failed(true) ==> t.pcs[w] == Failing)
      && (pc == Failing ==> t.status == Failed(false))
  {
  }

  lemma {:induction false} FinalState(s: State, schedule: seq<Event>)
    requires (ErrorFree(s) && NoErrors(schedule)) || SingleDelivery(s)
    ensures var t := Run(s, schedule);
      && Consistent(t) && |t.pcs| == |s.pcs| && KeepsTerminal(s.status, t.status)
      && t.supersedes >= s.supersedes && t.claims >= s.claims
      && (ErrorFree(s) && NoErrors(schedule) ==> ErrorFree(t)) && (SingleDelivery(s) ==> SingleDelivery(t))
    decreases |schedule|
  {
    if schedule != [] {
      var e, rest := schedule[0], schedule[1..];
      CountsGrow(s, e);
      if ErrorFree(s) && NoErrors(schedule) {
        ErrorFreeStep(s, e);
        assert NoErrors(rest) by {
          forall i | 0 <= i < |rest| && rest[i].Act? ensures !rest[i].raises {
            assert rest[i] == schedule[i + 1];
          }
        }
      }
      if SingleDelivery(s) {
        SingleDeliveryStep(s, e);
      }
      hide Next, Consistent;
      FinalState(Next(s, e), rest);
    }
  }

  lemma CountsGrow(s: State, e: Event)
    ensures var t := Next(s, e); |t.pcs| == |s.pcs| && t.supersedes >= s.supersedes && t.claims >= s.claims
  {
  }

  /** An unfinished job that is superseded is failed from then on and never completes. */
  lemma SupersededNeverCompletes(workers: nat, before: seq<Event>, after: seq<Event>)
    requires (NoErrors(before) && NoErrors(after)) || workers <= 1
    requires Unfinished(Run(Initial(workers), before).status)
    ensures var t := Run(Initial(workers), before + ([Supersede] + after));
      t.status.Failed? && t.completes == 0 && t.supersedes == 1
  {
    var s := Run(Initial(workers), before);
    var next := Next(s, Supersede);
    FinalState(Initial(workers), before);
    OutsideEvents(s);
    if NoErrors(before) && NoErrors(after) {
      ErrorFreeStep(s, Supersede);
    } else {
      SingleDeliveryStep(s, Supersede);
    }
    RunPrefix(Initial(workers), before, [Supersede] + after);
    assert ([Supersede] + after)[1..] == after;
    hide Next;
    FinalState(next, after);
  }

  /** No delivery raises, and nobody but a newer revision ends the job. */
  ghost predicate Undisturbed(schedule: seq<Event>) {
    forall i | 0 <= i < |schedule| :: (schedule[i].Act? && !schedule[i].raises) || schedule[i].Supersede?
  }

  /** The claimer and the stored rows, in step with the status. */
  ghost predicate InStep(s: State) {
    && ErrorFree(s) && (s.claims == 1 ==> s.claimer < |s.pcs|)
    && (forall w | 0 <= w < |s.pcs| ::
          s.claims == 0 || w != s.claimer ==> s.pcs[w] in {Start, SawPending, Exited(false)})
    && (s.status == Pending ==> forall w | 0 <= w < |s.pcs| :: s.pcs[w] in {Start, SawPending})
    && (s.claims == 0 ==> s.rows == {} && (s.status == Pending || s.status == Failed(true)))
    && (s.claims == 1 ==>
          match s.pcs[s.claimer]
          case Claimed => s.rows == {} && s.status in {Processing, Failed(true)}
          case Stored => s.rows == {s.claimer} && s.status in {Processing, Failed(true)}
          case Checked => s.rows == {s.claimer} && s.status in {Processing, Failed(true)}
          case Confirming => s.rows == {s.claimer} && s.status == Completed
          case Deleting => s.rows == {s.claimer} && s.status == Failed(true)
          case Exited(false) => s.rows == {s.claimer} && s.status == Completed
          case Exited(true) => s.rows == {} && s.status == Failed(true)
          case _ => false)
    && (s.status == Failed(true) ==> s.supersedes == 1)
  }

  lemma StaysInStep(s: State, e: Event)
    requires InStep(s) && ((e.Act? && !e.raises) || e.Supersede?)
    ensures InStep(Next(s, e))
  {
    ErrorFreeStep(s, e);
    if e.Act? && e.worker < |s.pcs| {
      ActStaysInStep(s, e.worker);
    } else {
      assert Next(s, e).pcs == s.pcs && Next(s, e).rows == s.rows;
    }
  }

  lemma ActStaysInStep(s: State, w: nat)
    requires InStep(s) && w < |s.pcs| && ErrorFree(Step(s, w, false))
    ensures InStep(Step(s, w, false))
  {
    hide Consistent;
    assert Consistent(s);
    var after := Step(s, w, false);
    assert |after.pcs| == |s.pcs| && forall v | 0 <= v < |s.pcs| && v != w :: after.pcs[v] == s.pcs[v];
  }

  lemma {:induction false} RunsInStep(s: State, schedule: seq<Event>)
    requires InStep(s) && Undisturbed(schedule)
    ensures InStep(Run(s, schedule)) && |Run(s, schedule).pcs| == |s.pcs|
    decreases |schedule|
  {
    if schedule != [] {
      StaysInStep(s, schedule[0]);
      CountsGrow(s, schedule[0]);
      hide Next, InStep;
      assert Undisturbed(schedule[1..]) by {
        forall i | 0 <= i < |schedule[1..]|
          ensures (schedule[1..][i].Act? && !schedule[1..][i].raises) || schedule[1..][i].Supersede?
        {
          assert schedule[1..][i] == schedule[i + 1];
        }
      }
      RunsInStep(Next(s, schedule[0]), schedule[1..]);
    }
  }

  function Turns(schedule: seq<Event>, w: nat): nat {
    if schedule == [] then 0
    else (if schedule[0].Act? && schedule[0].worker == w then 1 else 0) + Turns(schedule[1..], w)
  }

  /** How many turns a delivery needs at most. */
  function Rank(pc: Pc): nat {
    match pc
    case Start => 6
    case SawPending => 5
    case Claimed => 4
    case Stored => 3
    case Checked => 2
    case RolledBack => 2
    case Confirming => 1
    case Deleting => 1
    case Failing => 1
    case Exited(_) => 0
  }

  lemma StepLowersRank(s: State, e: Event, w: nat)
    requires w < |s.pcs|
    ensures var before, after := Rank(s.pcs[w]), Rank(Next(s, e).pcs[w]);
      && |Next(s, e).pcs| == |s.pcs| && after <= before
      && (e.Act? && e.worker == w && before > 0 ==> after < before)
  {
  }

  /** Every delivery has run to its end after its turns, whatever raises and whoever interferes. */
  lemma {:induction false} EveryDeliveryEnds(s: State, schedule: seq<Event>, w: nat)
    requires w < |s.pcs| && Turns(schedule, w) >= Rank(s.pcs[w])
    ensures |Run(s, schedule).pcs| == |s.pcs| && Run(s, schedule).pcs[w].Exited?
    decreases |schedule|
  {
    if schedule != [] {
      StepLowersRank(s, schedule[0], w);
      hide Next, Rank;
      EveryDeliveryEnds(Next(s, schedule[0]), schedule[1..], w);
    }
  }

  /**
   * When nobody raises, exactly one wins: once all deliveries had their six turns, the job is either completed and
   * keeps the rows of the delivery that claimed it, or superseded and keeps none.
   */
  lemma ExactlyOneWins(workers: nat, schedule: seq<Event>)
    requires workers >= 1 && Undisturbed(schedule)
    requires forall w | 0 <= w < workers :: Turns(schedule, w) >= 6
    ensures var s := Run(Initial(workers), schedule);
      && s.completes + s.supersedes == 1
      && if s.completes == 1 then s.status == Completed && s.claims == 1 && s.rows == {s.claimer}
         else s.status == Failed(true) && s.rows == {}
  {
    RunsInStep(Initial(workers), schedule);
    var s := Run(Initial(workers), schedule);
    forall w | 0 <= w < |s.pcs| ensures s.pcs[w].Exited? {
      EveryDeliveryEnds(Initial(workers), schedule, w);
    }
    assert s.pcs[0].Exited?;
  }

  /** With a single delivery that may raise, while a newer revision may supersede the job. */
  ghost predicate LoneInStep(s: State) {
    && SingleDelivery(s) && |s.pcs| == 1 && s.claimer == 0
    && match s.pcs[0]
       case Start => s.rows == {} && s.status in {Pending, Failed(true)}
       case SawPending => s.rows == {} && s.status in {Pending, Failed(true)}
       case Claimed => s.rows == {} && s.status in {Processing, Failed(true)}
       case Stored => s.rows == {0} && s.status in {Processing, Failed(true)}
       case Checked => s.rows == {0} && s.status in {Processing, Failed(true)}
       case Confirming => s.rows == {0} && s.status == Completed
       case Deleting => s.status == Failed(true)
       case RolledBack => s.rows == {} && s.status in {Pending, Failed(true)}
       case Failing => s.rows == {} && s.status in {Pending, Failed(true)}
       case Exited(false) => if s.status == Completed then s.rows == {0} else s.rows == {} && s.status.Failed?
       case Exited(true) => s.rows == {} && s.status == Failed(true)
  }

  lemma StaysLone(s: State, e: Event)
    requires LoneInStep(s) && (e.Act? || e.Supersede?)
    ensures LoneInStep(Next(s, e))
  {
    SingleDeliveryStep(s, e);
    hide Consistent;
    if e.Act? && e.worker == 0 {
      assert s.pcs == [s.pcs[0]];
    } else {
      assert Next(s, e).pcs == s.pcs;
    }
  }

  lemma {:induction false} RunsLone(s: State, schedule: seq<Event>)
    requires LoneInStep(s) && forall i | 0 <= i < |schedule| :: schedule[i].Act? || schedule[i].Supersede?
    ensures LoneInStep(Run(s, schedule))
    decreases |schedule|
  {
    if schedule != [] {
      StaysLone(s, schedule[0]);
      hide Next, LoneInStep;
      RunsLone(Next(s, schedule[0]), schedule[1..]);
    }
  }

  /** A single delivery had its turns, raising or not: the job is completed with its rows, or failed without any. */
  lemma LoneDeliveryOutcome(schedule: seq<Event>)
    requires forall i | 0 <= i < |schedule| :: schedule[i].Act? || schedule[i].Supersede?
    requires Turns(schedule, 0) >= 6
    ensures var s := Run(Initial(1), schedule);
      if s.completes == 1 then s.status == Completed && s.supersedes == 0 && s.rows == {0}
      else s.status.Failed? && s.completes == 0 && s.rows == {}
  {
    RunsLone(Initial(1), schedule);
    EveryDeliveryEnds(Initial(1), schedule, 0);
  }

  // ---------- A second delivery of a job whose first delivery fails ----------

  /**
   * The failing case: the first delivery claims and raises, its rollback takes the uncommitted claim back, the
   * second delivery claims and completes, and the first one then records its failure over the completed job.
   */
  const DoubleDelivery: seq<Event> := [
    Act(0, false), Act(1, false), Act(0, false), Act(0, true), Act(1, false), Act(0, false),
    Act(1, false), Act(1, false), Act(1, false), Act(0, false)]

  lemma {:induction false} RunPrefix(s: State, a: seq<Event>, b: seq<Event>)
    ensures Run(s, a + b) == Run(Run(s, a), b)
    ensures SafeRun(s, a + b) ==> SafeRun(Run(s, a), b)
    decreases |a|
  {
    if a == [] {
      assert a + b == b;
    } else {
      assert (a + b)[0] == a[0] && (a + b)[1..] == a[1..] + b;
      RunPrefix(Next(s, a[0]), a[1..], b);
    }
  }

  lemma RunOneMore(s: State, schedule: seq<Event>, i: nat)
    requires i < |schedule|
    ensures Run(s, schedule[..i + 1]) == Next(Run(s, schedule[..i]), schedule[i])
  {
    assert schedule[..i + 1] == schedule[..i] + [schedule[i]];
    RunPrefix(s, schedule[..i], [schedule[i]]);
    var s' := Run(s, schedule[..i]);
    assert [schedule[i]][1..] == [];
    assert Run(s', [schedule[i]]) == Run(Next(s', schedule[i]), []);
  }

  /** The second delivery claims again. */
  lemma DoubleDeliveryClaimsTwice(workers: nat)
    requires workers >= 2
    ensures var s := Run(Initial(workers), DoubleDelivery[..5]);
      s.claims == 2 && s.status == Processing && |s.pcs| == workers && s.pcs[0] == RolledBack && s.pcs[1] == Claimed
  {
    var s0 := Initial(workers);
    for i := 0 to 5
      invariant var s := Run(s0, DoubleDelivery[..i]);
        && |s.pcs| == workers
        && s.pcs[0] == [Start, SawPending, SawPending, Claimed, RolledBack, RolledBack][i]
        && s.pcs[1] == [Start, Start, SawPending, SawPending, SawPending, Claimed][i]
        && s.status == [Pending, Pending, Pending, Processing, Pending, Processing][i]
        && s.claims == [0, 0, 0, 1, 1, 2][i]
    {
      RunOneMore(s0, DoubleDelivery, i);
    }
  }

  lemma DoubleDeliveryUnsafe(workers: nat)
    requires workers >= 2
    ensures !SafeRun(Initial(workers), DoubleDelivery)
  {
    DoubleDeliveryClaimsTwice(workers);
    RunPrefix(Initial(workers), DoubleDelivery[..5], DoubleDelivery[5..]);
    assert DoubleDelivery[..5] + DoubleDelivery[5..] == DoubleDelivery;
  }

  /** Exactly when the job is safe under every schedule, errors included: it is delivered at most once. */
  lemma SafeIffDeliveredOnce(workers: nat)
    ensures (forall schedule: seq<Event> :: SafeRun(Initial(workers), schedule)) <==> workers <= 1
  {
    if workers <= 1 {
      forall schedule: seq<Event> ensures SafeRun(Initial(workers), schedule) {
        SingleDeliveryRunsAreSafe(Initial(workers), schedule);
      }
    } else {
      DoubleDeliveryUnsafe(workers);
    }
  }

  /** And for any number of deliveries it is safe under every schedule in which no work raises. */
  lemma SafeWithoutErrors(workers: nat, schedule: seq<Event>)
    requires NoErrors(schedule)
    ensures SafeRun(Initial(workers), schedule)
  {
    ErrorFreeRunsAreSafe(Initial(workers), schedule);
  }

  /** In the double delivery even the completed status is lost. */
  lemma DoubleDeliveryLosesCompletion(workers: nat)
    requires workers >= 2
    ensures Run(Initial(workers), DoubleDelivery[..9]).status == Completed
    ensures Run(Initial(workers), DoubleDelivery).status == Failed(false)
  {
    SecondDeliveryCompletes(workers);
    assert DoubleDelivery[..10] == DoubleDelivery && DoubleDelivery[9] == Act(0, false);
    hide Run;
    RunOneMore(Initial(workers), DoubleDelivery, 9);
  }

  lemma SecondDeliveryCompletes(workers: nat)
    requires workers >= 2
    ensures var s := Run(Initial(workers), DoubleDelivery[..9]);
      s.status == Completed && |s.pcs| == workers && s.pcs[0] == Failing
  {
    var s0 := Initial(workers);
    DoubleDeliveryClaimsTwice(workers);
    RunOneMore(s0, DoubleDelivery, 5);
    for i := 6 to 9
      invariant var s := Run(s0, DoubleDelivery[..i]);
        && |s.pcs| == workers
        && s.pcs[0] == Failing
        && s.pcs[1] == (if i == 6 then Claimed else if i == 7 then Stored else if i == 8 then Checked else Confirming)
        && s.status == (if i == 9 then Completed else Processing)
    {
      RunOneMore(s0, DoubleDelivery, i);
    }
  }
}
