/** ml-controller/oof_materialize_job_main.py: how one run of the OOF job decides between success,
    triggered, skipped and error, and how the Worker turns triggered callbacks into a chain of
    attempts (worker/src/routes/adminControlRoutes.ts). Calls into services that are not part of
    this model may answer anything or raise. */
module OofJob {
  import opened Common

  // ---------- what the job reads ----------

  /** The lower-cased status of a result. */
  datatype Status =
    Missing | Failed | Pending | Spawned | Materialized | ShadowEvaluated | IdempotentComplete
    | Blocked | SkippedRun | DailyAccounted | SnapshotOk | Reconciled | Unknown

  /** Statuses the Worker re-enqueues. */
  predicate WorkerContinued(s: Status) {
    s == Pending || s == Spawned || s == Materialized || s == ShadowEvaluated
  }

  datatype Owner = NoOwner | MonthlyCandidate | NativeTraining

  datatype Calendar = Calendar(matureMax: Option<int>, parentMax: Option<int>)
  datatype Coverage = Coverage(max: Option<int>, baseMax: Option<int>)
  datatype Receipt = Receipt(calendar: Option<Calendar>, coverage: Option<Coverage>, shadowCoverage: Option<Coverage>)

  /** The full-fit dispatch of a result: why it stopped, and whether a call is known to run. */
  datatype FullFit = FullFit(stillRunning: bool, pollPending: bool, dispatched: bool, runId: bool, callId: bool)

  datatype Training =
    Training(schemaKnown: bool, complete: bool, checksum: bool, asOf: Option<int>, noFreshnessCredit: bool)

  /** The result dictionary. Fields named `no...` and `not...` record a value that is exactly False. */
  datatype Outcome = Outcome(
    status: Status, retry: bool, navRetry: bool, computePending: bool, fullFit: FullFit, cohort: bool,
    nativeClosure: bool, owner: Owner, bundleSealed: bool, bundleChecksum: bool, training: Option<Training>,
    noTraining: bool, noPromotion: bool, noPointerChange: bool, notPromoted: bool, durableShadow: bool,
    built: int, written: int, calendar: Option<Calendar>, coverage: Option<Coverage>, receipt: Receipt)

  function Empty(): Outcome {
    Outcome(Missing, false, false, false, FullFit(false, false, false, false, false), false,
            false, NoOwner, false, false, None, false, false, false, false, false, 0, 0,
            None, None, Receipt(None, None, None))
  }

  const MAX_ATTEMPTS := 64
  const FAILURE_ATTEMPTS := 12

  /** Cloud compute is known to run: it says so, or a full fit is polled as pending, or one was just
      dispatched with both of its identifiers. */
  predicate HealthyCompute(o: Outcome) {
    || o.computePending
    || (o.fullFit.stillRunning && o.fullFit.pollPending)
    || (o.fullFit.dispatched && o.fullFit.runId && o.fullFit.callId)
  }

  /** continuation_limit: only healthy cloud compute earns the long wait. */
  function ContinuationLimit(o: Outcome): (n: int)
    ensures n == 12 || n == 64
    ensures n == 64 <==> !o.navRetry && HealthyCompute(o)
  {
    var running := o.fullFit.stillRunning && o.fullFit.pollPending;
    var newlyDispatched := o.fullFit.dispatched && o.fullFit.runId && o.fullFit.callId;
    if !o.navRetry && (o.computePending || running || newlyDispatched) then MAX_ATTEMPTS else FAILURE_ATTEMPTS
  }

  // ---------- freshness evidence ----------

  datatype FreshReason = ExpectedMissing | EffectiveMissing | Behind | Reached
  datatype CoverageMode = FrozenForwardShadow | BaseMaterialized | NoCoverage
  datatype Evidence =
    Evidence(reason: FreshReason, expected: Option<int>, effective: Option<int>, coverageMode: CoverageMode)

  function FirstOf<T>(a: Option<T>, b: Option<T>): Option<T> { if a.Some? then a else b }

  function Freshness(o: Outcome): Evidence {
    var calendar := FirstOf(o.calendar, o.receipt.calendar);
    var coverage := FirstOf(FirstOf(o.coverage, o.receipt.coverage), o.receipt.shadowCoverage);
    var expected := if calendar.Some? then calendar.value.matureMax else None;
    var effective := if coverage.Some? then coverage.value.max else None;
    var parent := if calendar.Some? then calendar.value.parentMax else None;
    var base := FirstOf(if coverage.Some? then coverage.value.baseMax else None, parent);
    var mode :=
      if base.Some? && effective.Some? && effective.value > base.value then FrozenForwardShadow
      else if effective.Some? then BaseMaterialized else NoCoverage;
    var reason :=
      if expected.None? then ExpectedMissing
      else if effective.None? then EffectiveMissing
      else if effective.value < expected.value then Behind else Reached;
    Evidence(reason, expected, effective, mode)
  }

  predicate Fresh(o: Outcome) { Freshness(o).reason == Reached }

  /** The date the data should reach: that of the first calendar there is, the result's own or the receipt's. */
  function MatureDate(o: Outcome): Option<int> {
    match o.calendar
    case Some(calendar) => calendar.matureMax
    case None => match o.receipt.calendar
      case Some(calendar) => calendar.matureMax
      case None => None
  }

  /** The date it does reach: that of the first coverage there is, the result's own, the receipt's or
      that of its shadow evaluation. */
  function CoveredDate(o: Outcome): Option<int> {
    if o.coverage.Some? then o.coverage.value.max
    else if o.receipt.coverage.Some? then o.receipt.coverage.value.max
    else if o.receipt.shadowCoverage.Some? then o.receipt.shadowCoverage.value.max
    else None
  }

  predicate UpToDate(o: Outcome) {
    MatureDate(o).Some? && CoveredDate(o).Some? && MatureDate(o).value <= CoveredDate(o).value
  }

  /** The evidence names both dates and what is wrong with them. */
  predicate Evident(o: Outcome, e: Evidence) {
    && e.expected == MatureDate(o) && e.effective == CoveredDate(o)
    && (e.reason == ExpectedMissing <==> MatureDate(o).None?)
    && (e.reason == EffectiveMissing <==> MatureDate(o).Some? && CoveredDate(o).None?)
    && (e.reason == Behind <==>
          MatureDate(o).Some? && CoveredDate(o).Some? && CoveredDate(o).value < MatureDate(o).value)
    && (e.coverageMode == NoCoverage <==> CoveredDate(o).None?)
    && (e.coverageMode == FrozenForwardShadow <==>
          CoveredDate(o).Some? && BaseDate(o).Some? && CoveredDate(o).value > BaseDate(o).value)
  }

  /** The last date of the base: as the coverage says, else as the calendar says of the parent. */
  function BaseDate(o: Outcome): Option<int> {
    var calendar := if o.calendar.Some? then o.calendar else o.receipt.calendar;
    var coverage :=
      if o.coverage.Some? then o.coverage
      else if o.receipt.coverage.Some? then o.receipt.coverage else o.receipt.shadowCoverage;
    if coverage.Some? && coverage.value.baseMax.Some? then coverage.value.baseMax
    else if calendar.Some? then calendar.value.parentMax else None
  }

  /** Fresh means that the mature date and the covered date are known and the covered one has reached it. */
  lemma FreshExactly(o: Outcome)
    ensures Fresh(o) <==> UpToDate(o)
    ensures Evident(o, Freshness(o))
  {
  }

  /** The freshness test of the job. */
  method RequireFresh(o: Outcome) returns (error: Option<Failure>)
    ensures error.None? <==> UpToDate(o)
    ensures error.Some? ==> error.value.StaleOof? && Evident(o, error.value.evidence)
  {
    FreshExactly(o);
    if !Fresh(o) { return Some(StaleOof(Freshness(o))); }
    error := None;
  }

  // ---------- the account lifecycle ----------

  datatype Answer<+T> = Raised | Returned(value: T)

  datatype Cadence = Daily | Weekly | Monthly | OtherCadence

  /** The daily plan: closed, or not ready yet. */
  datatype Plan = PlanClosed(recorded: bool) | PlanPending

  /** Answers of the services one daily run consults. `nav` and `adoption` say whether the step
      failed or stayed incomplete; `verified` whether the formal paper closure stands anyway. */
  datatype Account = Account(
    single: Answer<Option<Outcome>>, nav: Answer<bool>, adoption: Answer<bool>,
    plan: Answer<Plan>, verified: Answer<bool>, oof: Answer<Outcome>)

  /** NAV did not close: its own failure, or an incomplete adoption. */
  predicate NavFails(promote: bool, a: Account) {
    a.nav == Returned(true) || (promote && a.nav == Returned(false) && a.adoption == Returned(true))
  }

  /** NAV (with its adoption) answered at all. */
  predicate NavAnswers(promote: bool, a: Account) {
    a.nav.Returned? && (promote && !a.nav.value ==> a.adoption.Returned?)
  }

  /** What the lifecycle reports for the branch without the new distribution. */
  function LegacyOutcome(navFailed: bool, oof: Answer<Outcome>): Outcome {
    var o := (if oof.Returned? then oof.value else Empty().(status := Failed)).(navRetry := navFailed);
    if navFailed && o.status != Failed then o.(status := Pending, retry := true) else o
  }

  /** ... and for the branch with it. */
  function PlanOutcome(navFailed: bool, a: Account): Answer<Outcome> {
    if a.plan.Raised? then Raised
    else if a.plan.value.PlanPending? then Returned(Empty().(status := Pending, retry := true, navRetry := navFailed))
    else if navFailed && a.verified.Raised? then Raised
    else if navFailed && !a.verified.value then Returned(Empty().(status := Pending, retry := true, navRetry := true))
    else Returned(Empty().(status := DailyAccounted, nativeClosure := a.plan.value.recorded))
  }

  function AccountOutcome(cadence: Cadence, promote: bool, newDistribution: bool, a: Account): Answer<Outcome> {
    if cadence != Daily then a.oof
    else if a.single.Raised? then Raised
    else if a.single.value.Some? then Returned(a.single.value.value)
    else if !NavAnswers(promote, a) then Raised
    else if newDistribution then PlanOutcome(NavFails(promote, a), a)
    else Returned(LegacyOutcome(NavFails(promote, a), a.oof))
  }

  method ExecuteAccountLifecycle(cadence: Cadence, promote: bool, newDistribution: bool, a: Account)
    returns (r: Answer<Outcome>)
    ensures r == AccountOutcome(cadence, promote, newDistribution, a)
  {
    if cadence != Daily { return a.oof; }
    if a.single.Raised? { return Raised; }
    if a.single.value.Some? { return Returned(a.single.value.value); }
    if a.nav.Raised? { return Raised; }
    var navFailed := a.nav.value;
    if promote && !navFailed {
      if a.adoption.Raised? { return Raised; }
      if a.adoption.value { navFailed := true; }
    }
    if newDistribution {
      if a.plan.Raised? { return Raised; }
      if a.plan.value.PlanPending? {
        return Returned(Empty().(status := Pending, retry := true, navRetry := navFailed));
      }
      if navFailed {
        if a.verified.Raised? { return Raised; }
        if !a.verified.value {
          return Returned(Empty().(status := Pending, retry := true, navRetry := true));
        }
      }
      return Returned(Empty().(status := DailyAccounted, nativeClosure := a.plan.value.recorded));
    }
    var result := Empty();
    if a.oof.Returned? { result := a.oof.value; } else { result := result.(status := Failed); }
    result := result.(navRetry := navFailed);
    if navFailed && result.status != Failed {
      result := result.(status := Pending);
      result := result.(retry := true);
    }
    r := Returned(result);
  }

  // ---------- the daily wrapper ----------

  /** The forward data refresh that runs beside the account closure. */
  datatype DataResult = DataFailed | DataPending(waiting: bool) | DataOther

  function AttachData(o: Outcome, data: DataResult): Outcome {
    if data.DataFailed? then o.(status := Failed, retry := true)
    else if data.DataOther? then o
    else if o.status == Failed || o.status == Blocked then o.(retry := true)
    else o.(status := Pending, retry := true, computePending := data.waiting)
  }

  /** `config` says whether the trading configuration has the new distribution. */
  datatype Services = Services(
    config: Answer<bool>, account: Account, data: Answer<DataResult>, replay: Answer<bool>,
    snapshot: Answer<Outcome>, reconcile: Answer<Outcome>, resume: Answer<Outcome>)

  function LifecycleOutcome(cadence: Cadence, promote: bool, s: Services): Answer<Outcome> {
    if cadence != Daily then AccountOutcome(cadence, promote, false, s.account)
    else if s.config.Raised? then Raised
    else if !s.config.value then AccountOutcome(cadence, promote, false, s.account)
    else if s.data.Raised? || s.replay.Raised? then Raised
    else
      var account := AccountOutcome(cadence, promote, true, s.account);
      Returned(AttachData(if account.Returned? then account.value else Empty().(status := Failed), s.data.value))
  }

  method ExecuteLifecycle(cadence: Cadence, promote: bool, s: Services) returns (r: Answer<Outcome>)
    ensures r == LifecycleOutcome(cadence, promote, s)
  {
    if cadence != Daily {
      r := ExecuteAccountLifecycle(cadence, promote, false, s.account);
      return;
    }
    if s.config.Raised? { return Raised; }
    if !s.config.value {
      r := ExecuteAccountLifecycle(cadence, promote, false, s.account);
      return;
    }
    var result := Empty().(status := Failed);
    var account := ExecuteAccountLifecycle(cadence, promote, true, s.account);
    if account.Returned? { result := account.value; }
    if s.data.Raised? || s.replay.Raised? { return Raised; }
    var data := s.data.value;
    if data.DataFailed? {
      result := result.(status := Failed, retry := true);
    } else if data.DataPending? {
      result := result.(retry := true);
      if result.status != Failed && result.status != Blocked {
        result := result.(status := Pending, computePending := data.waiting);
      }
    }
    r := Returned(result);
  }

  // ---------- one run ----------

  datatype Mode = AllocatorSnapshot | SemanticReconcile | ForwardResume | OofLifecycle | OtherMode

  datatype Job = Job(mode: Mode, cadence: Cadence, startDate: bool, endDate: Option<int>, promote: bool,
                     dispatchFullFit: bool, continuationOnly: bool, attempt: int, ticket: bool, ticketRun: bool)

  datatype CallbackStatus = Error | Success | Triggered | Skipped

  datatype Failure =
    TicketIncomplete | SnapshotDates | ServiceRaised | SnapshotIncomplete | ModeForbids | CadenceRequired
    | Postcondition | StaleOof(evidence: Evidence) | InvalidMode | InvalidCadence | LifecycleFailed
    | NotContinuable(status: Status) | DailyBlocked | DependencyExhausted(attempt: int)
    | DailyClosureIncomplete | CandidateFailed | TrainingIncomplete | CohortExhausted(attempt: int)
    | UnexpectedStatus(status: Status)

  datatype Metadata = Metadata(cadence: Cadence, lifecycleStatus: Status, cohort: bool, attempt: int, maxAttempts: int)

  datatype Callback = Callback(status: CallbackStatus, error: Option<Failure>, metadata: Option<Metadata>)

  predicate TrainingComplete(o: Outcome, endDate: Option<int>) {
    && o.training.Some? && o.training.value.schemaKnown && o.training.value.complete
    && o.training.value.checksum && o.training.value.asOf == endDate && o.training.value.noFreshnessCredit
  }

  /** Decision tree of the lifecycle mode after its result is in: the last `else` of `_run`. For
      every cadence the mode accepts, pending and spawned are taken before the skipped branch, so
      that branch reports skipped for the status skipped alone. */
  method DecideLifecycle(job: Job, result: Outcome) returns (status: CallbackStatus, error: Option<Failure>)
    requires job.cadence != OtherCadence
    ensures error.Some? <==> status == Error
    ensures status == Triggered <==> Triggers(job, result)
    ensures status == Success <==> Succeeds(job, result)
    ensures status == Skipped <==> !result.retry && result.status == SkippedRun
    ensures error.Some? ==> Explains(job, result, error.value)
  {
    status, error := Error, None;
    var limit := ContinuationLimit(result);
    if result.status == Failed || (result.retry && !WorkerContinued(result.status)) {
      if result.status == Blocked {
        error := Some(DailyBlocked);
      } else {
        error := Some(if result.status == Failed then LifecycleFailed else NotContinuable(result.status));
      }
    } else if result.retry {
      if job.attempt >= limit {
        error := Some(DependencyExhausted(job.attempt));
      } else {
        status := Triggered;
      }
    } else if result.status == DailyAccounted && job.cadence == Daily {
      if !result.nativeClosure || result.navRetry {
        error := Some(DailyClosureIncomplete);
      } else {
        status := Success;
      }
    } else if result.status == Blocked {
      error := Some(DailyBlocked);
    } else if result.owner == MonthlyCandidate && result.status == Materialized {
      if !result.bundleSealed || !result.bundleChecksum {
        error := Some(CandidateFailed);
      } else {
        error := RequireFresh(result);
        if error.None? { status := Success; }
      }
    } else if job.cadence == Monthly && result.status == Materialized && result.owner == NativeTraining {
      if !TrainingComplete(result, job.endDate) {
        error := Some(TrainingIncomplete);
      } else {
        status := Success;
      }
    } else if result.status == Materialized || result.status == ShadowEvaluated || result.status == IdempotentComplete {
      error := RequireFresh(result);
      if error.None? { status := Success; }
    } else if (result.status == Pending || result.status == Spawned)
              && (job.cadence == Daily || job.cadence == Weekly || job.cadence == Monthly) {
      if job.attempt >= limit {
        error := Some(CohortExhausted(job.attempt));
      } else {
        status := Triggered;
      }
    } else if result.status == SkippedRun || result.status == Pending || result.status == Spawned {
      status := Skipped;
    } else {
      error := Some(UnexpectedStatus(result.status));
    }
  }

  /** A result that asks for another attempt, in a status the Worker continues, within its limit. */
  predicate Triggers(job: Job, o: Outcome) {
    && job.attempt < ContinuationLimit(o)
    && (if o.retry then WorkerContinued(o.status) else o.status == Pending || o.status == Spawned)
  }

  /** A result that closes the day, the candidate, the training or the materialization. */
  predicate Succeeds(job: Job, o: Outcome) {
    && !o.retry
    && match o.status
       case DailyAccounted => job.cadence == Daily && o.nativeClosure && !o.navRetry
       case Materialized =>
         if o.owner == MonthlyCandidate then o.bundleSealed && o.bundleChecksum && UpToDate(o)
         else if o.owner == NativeTraining && job.cadence == Monthly then TrainingComplete(o, job.endDate)
         else UpToDate(o)
       case ShadowEvaluated => UpToDate(o)
       case IdempotentComplete => UpToDate(o)
       case _ => false
  }

  /** The reason of an error is the one that holds of the result: a failed or blocked lifecycle, a
      retry nobody would continue, an exhausted limit, an incomplete closure, bundle or training,
      stale data, or a status that does not belong here. */
  predicate Explains(job: Job, o: Outcome, f: Failure) {
    match f
    case LifecycleFailed => o.status == Failed
    case DailyBlocked => o.status == Blocked
    case NotContinuable(s) => o.retry && s == o.status && s != Failed && s != Blocked && !WorkerContinued(s)
    case DependencyExhausted(n) => o.retry && WorkerContinued(o.status) && n == job.attempt >= ContinuationLimit(o)
    case CohortExhausted(n) =>
      !o.retry && (o.status == Pending || o.status == Spawned) && n == job.attempt >= ContinuationLimit(o)
    case DailyClosureIncomplete =>
      !o.retry && o.status == DailyAccounted && job.cadence == Daily && (!o.nativeClosure || o.navRetry)
    case CandidateFailed =>
      !o.retry && o.status == Materialized && o.owner == MonthlyCandidate && !(o.bundleSealed && o.bundleChecksum)
    case TrainingIncomplete =>
      && !o.retry && o.status == Materialized && o.owner == NativeTraining && job.cadence == Monthly
      && !TrainingComplete(o, job.endDate)
    case StaleOof(e) =>
      && !o.retry && Evident(o, e) && !UpToDate(o)
      && (o.status == Materialized || o.status == ShadowEvaluated || o.status == IdempotentComplete)
    case UnexpectedStatus(s) =>
      && !o.retry && s == o.status && !WorkerContinued(s)
      && s != Failed && s != Blocked && s != IdempotentComplete && s != SkippedRun
      && (s == DailyAccounted ==> job.cadence != Daily)
    case _ => false
  }

  /** The success conditions of the three single-purpose modes. */
  predicate ModeSucceeds(job: Job, s: Services) {
    match job.mode
    case AllocatorSnapshot =>
      && job.startDate && job.endDate.Some? && s.snapshot.Returned?
      && s.snapshot.value.status == SnapshotOk && s.snapshot.value.built > 0 && s.snapshot.value.written > 0
    case SemanticReconcile =>
      && !job.promote && !job.dispatchFullFit && !job.continuationOnly && s.reconcile.Returned?
      && s.reconcile.value.status == Reconciled && s.reconcile.value.noTraining
      && s.reconcile.value.noPromotion && s.reconcile.value.noPointerChange
    case ForwardResume =>
      && job.cadence == Daily && !job.promote && !job.dispatchFullFit && !job.continuationOnly && s.resume.Returned?
      && var o := s.resume.value;
         && o.status == ShadowEvaluated && o.durableShadow && o.noTraining && o.noPromotion
         && o.noPointerChange && o.notPromoted && UpToDate(o)
    case _ => false
  }

  predicate Admitted(job: Job) { 0 <= job.attempt <= MAX_ATTEMPTS }

  predicate TicketWhole(job: Job) { job.ticket == job.ticketRun }

  /** The lifecycle branch is reached and its result is in. */
  predicate LifecycleRan(job: Job, s: Services) {
    && TicketWhole(job) && job.mode == OofLifecycle && job.cadence != OtherCadence
    && LifecycleOutcome(job.cadence, job.promote, s).Returned?
  }

  /** The reason of an error of a run whose lifecycle result never came in. */
  predicate ModeExplains(job: Job, s: Services, f: Failure) {
    match f
    case TicketIncomplete => !TicketWhole(job)
    case SnapshotDates => job.mode == AllocatorSnapshot && (!job.startDate || job.endDate.None?)
    case SnapshotIncomplete => job.mode == AllocatorSnapshot && s.snapshot.Returned?
    case ModeForbids =>
      && (job.mode == SemanticReconcile || job.mode == ForwardResume)
      && (job.promote || job.dispatchFullFit || job.continuationOnly)
    case Postcondition =>
      (job.mode == SemanticReconcile && s.reconcile.Returned?) || (job.mode == ForwardResume && s.resume.Returned?)
    case CadenceRequired => job.mode == ForwardResume && job.cadence != Daily
    case StaleOof(e) =>
      job.mode == ForwardResume && s.resume.Returned? && Evident(s.resume.value, e) && !UpToDate(s.resume.value)
    case InvalidMode => job.mode == OtherMode
    case InvalidCadence => job.mode == OofLifecycle && job.cadence == OtherCadence
    case ServiceRaised =>
      && (job.mode == AllocatorSnapshot ==> s.snapshot.Raised?)
      && (job.mode == SemanticReconcile ==> s.reconcile.Raised?)
      && (job.mode == ForwardResume ==> s.resume.Raised?)
      && (job.mode == OofLifecycle ==> LifecycleOutcome(job.cadence, job.promote, s).Raised?)
    case _ => false
  }

  /** What any callback of a run satisfies. */
  ghost predicate Reports(job: Job, s: Services, c: Callback) {
    && (c.error.Some? <==> c.status == Error)
    && (LifecycleRan(job, s) ==>
          var o := LifecycleOutcome(job.cadence, job.promote, s).value;
          && (c.status == Triggered <==> Triggers(job, o))
          && (c.status == Success <==> Succeeds(job, o))
          && (c.status == Skipped <==> !o.retry && o.status == SkippedRun)
          && (c.error.Some? ==> Explains(job, o, c.error.value))
          && c.metadata == Some(Metadata(job.cadence, o.status, o.cohort, job.attempt, ContinuationLimit(o))))
    && (!LifecycleRan(job, s) ==>
          && c.status != Triggered && c.status != Skipped
          && (c.status == Success <==> TicketWhole(job) && ModeSucceeds(job, s))
          && (c.error.Some? ==> ModeExplains(job, s, c.error.value)))
    && (c.metadata.Some? ==>
          && c.metadata.value.cadence == job.cadence && c.metadata.value.attempt == job.attempt
          && c.metadata.value.maxAttempts <= MAX_ATTEMPTS)
  }

  datatype Finished = Finished(callback: Callback, exit: int)

  method RunJob(job: Job, s: Services) returns (r: Option<Finished>)
    ensures r.Some? <==> 0 <= job.attempt <= 64
    ensures r.Some? ==> Reports(job, s, r.value.callback)
    ensures r.Some? ==> (r.value.exit == 0 <==> r.value.callback.error.None?)
    ensures r.Some? ==> r.value.exit == 0 || r.value.exit == 1
  {
    if !(0 <= job.attempt <= MAX_ATTEMPTS) { return None; }
    var status, error, result := Error, None, Empty();
    if job.ticket != job.ticketRun {
      error := Some(TicketIncomplete);
    } else if job.mode == AllocatorSnapshot {
      if !job.startDate || job.endDate.None? {
        error := Some(SnapshotDates);
      } else if s.snapshot.Raised? {
        error := Some(ServiceRaised);
      } else {
        result := s.snapshot.value;
        if result.status == SnapshotOk && result.built > 0 && result.written > 0 {
          status := Success;
        } else {
          error := Some(SnapshotIncomplete);
        }
      }
    } else if job.mode == SemanticReconcile {
      if job.promote || job.dispatchFullFit || job.continuationOnly {
        error := Some(ModeForbids);
      } else if s.reconcile.Raised? {
        error := Some(ServiceRaised);
      } else {
        result := s.reconcile.value;
        if result.status != Reconciled || !result.noTraining || !result.noPromotion || !result.noPointerChange {
          error := Some(Postcondition);
        } else {
          status := Success;
        }
      }
    } else if job.mode == ForwardResume {
      status, error, result := ResumeForward(job, s.resume);
    } else if job.mode != OofLifecycle {
      error := Some(InvalidMode);
    } else if job.cadence == OtherCadence {
      error := Some(InvalidCadence);
    } else {
      var lifecycle := ExecuteLifecycle(job.cadence, job.promote, s);
      if lifecycle.Raised? {
        error := Some(ServiceRaised);
      } else {
        result := lifecycle.value;
        status, error := DecideLifecycle(job, result);
      }
    }
    var metadata := None;
    if job.mode == OofLifecycle || job.mode == ForwardResume {
      metadata := Some(Metadata(job.cadence, result.status, result.cohort, job.attempt, ContinuationLimit(result)));
    }
    var exit := if status == Success || status == Skipped || status == Triggered then 0 else 1;
    r := Some(Finished(Callback(status, error, metadata), exit));
  }

  method ResumeForward(job: Job, resume: Answer<Outcome>)
    returns (status: CallbackStatus, error: Option<Failure>, result: Outcome)
    ensures error.Some? <==> status == Error
    ensures status == Error || status == Success
    ensures status == Success <==>
      && job.cadence == Daily && !job.promote && !job.dispatchFullFit && !job.continuationOnly && resume.Returned?
      && resume.value.status == ShadowEvaluated && resume.value.durableShadow && resume.value.noTraining
      && resume.value.noPromotion && resume.value.noPointerChange && resume.value.notPromoted && UpToDate(resume.value)
    ensures error.Some? ==>
      || (error.value == CadenceRequired && job.cadence != Daily)
      || (error.value == ModeForbids && (job.promote || job.dispatchFullFit || job.continuationOnly))
      || (error.value == ServiceRaised && resume.Raised?)
      || (error.value == Postcondition && resume.Returned?)
      || (resume.Returned? && !UpToDate(resume.value)
          && error.value.StaleOof? && Evident(resume.value, error.value.evidence))
  {
    status, error, result := Error, None, Empty();
    if job.cadence != Daily {
      error := Some(CadenceRequired);
    } else if job.promote || job.dispatchFullFit || job.continuationOnly {
      error := Some(ModeForbids);
    } else if resume.Raised? {
      error := Some(ServiceRaised);
    } else {
      result := resume.value;
      if result.status != ShadowEvaluated || !result.durableShadow || !result.noTraining
         || !result.noPromotion || !result.noPointerChange || !result.notPromoted {
        error := Some(Postcondition);
      } else {
        error := RequireFresh(result);
        if error.None? { status := Success; }
      }
    }
  }

  // ---------- the Worker's continuation ----------

  /** What the Worker knows besides the callback: a run date, and whether the allocator readiness
      it checks after a daily success failed. */
  datatype Worker = Worker(runDate: bool, readinessFailed: bool)

  /** Status and lifecycle status after the readiness check. */
  function Settled(c: Callback, w: Worker): (CallbackStatus, Status)
    requires c.metadata.Some?
  {
    var m := c.metadata.value;
    if c.status == Success && m.cadence == Daily && w.runDate && w.readinessFailed then
      (if m.attempt < WorkerLimit(m) then Triggered else Error, Pending)
    else (c.status, m.lifecycleStatus)
  }

  function WorkerLimit(m: Metadata): int { MinInt(MAX_ATTEMPTS, MaxInt(1, m.maxAttempts)) }

  /** The Worker enqueues the next attempt. */
  predicate Continues(c: Callback, w: Worker) {
    && c.metadata.Some?
    && var m := c.metadata.value;
       && Settled(c, w).0 == Triggered && m.cadence != OtherCadence && WorkerContinued(Settled(c, w).1)
       && w.runDate && (m.cadence == Daily || m.cohort) && m.attempt < WorkerLimit(m)
  }

  /** What happens to an enqueued message: it is dispatched as a run or lost for good (its ticket is
      closed or blocked, or its retries are used up). Before that the job may be busy with a run of
      any cadence, the delivery may fail and be repeated, or the day may not be ready, so that the
      message is parked with its ticket. */
  datatype Journey =
    Dispatched | Lost | JobBusy(rest: Journey) | Redelivered(rest: Journey) | Parked(rest: Journey)

  /** The number of the run that message n becomes. A busy job costs one number (at the last number
      the delivery fails instead), a parked message comes back with number 1. */
  function Arrives(n: int, journey: Journey): Option<int>
    decreases journey
  {
    match journey
    case Dispatched => Some(n)
    case Lost => None
    case JobBusy(rest) => Arrives(if n < MAX_ATTEMPTS then n + 1 else n, rest)
    case Redelivered(rest) => Arrives(n, rest)
    case Parked(rest) => Arrives(1, rest)
  }

  predicate WasParked(journey: Journey) {
    match journey
    case Dispatched => false
    case Lost => false
    case JobBusy(rest) => WasParked(rest)
    case Redelivered(rest) => WasParked(rest)
    case Parked(_) => true
  }

  /** How often the job was busy, counted since the message was last parked. */
  function Collisions(journey: Journey): nat {
    match journey
    case Dispatched => 0
    case Lost => 0
    case JobBusy(rest) => Collisions(rest) + if WasParked(rest) then 0 else 1
    case Redelivered(rest) => Collisions(rest)
    case Parked(rest) => Collisions(rest)
  }

  /** One attempt of a chain, with the journey of the message its callback enqueues. */
  datatype Attempt = Attempt(job: Job, services: Services, callback: Callback, worker: Worker, journey: Journey)

  /** The run that message of attempt a becomes: the Worker always dispatches the lifecycle mode, in
      the cadence and with the ticket of the callback, and lets only the daily cadence promote. */
  predicate DispatchedFrom(a: Attempt, job: Job)
    requires a.callback.metadata.Some?
  {
    && job.mode == OofLifecycle && job.cadence == a.callback.metadata.value.cadence
    && job.promote == (job.cadence == Daily) && job.dispatchFullFit && job.endDate.Some?
    && job.continuationOnly == a.callback.metadata.value.cohort
    && job.ticket == a.job.ticket && job.ticketRun == a.job.ticketRun
  }

  /** Attempt i + 1 is what became of the message the Worker enqueued from the callback of attempt i.
      Only a daily message with a ticket can have been parked. */
  ghost predicate Linked(attempts: seq<Attempt>, i: nat)
    requires i + 1 < |attempts|
  {
    && Continues(attempts[i].callback, attempts[i].worker)
    && DispatchedFrom(attempts[i], attempts[i + 1].job)
    && Arrives(attempts[i].job.attempt + 1, attempts[i].journey) == Some(attempts[i + 1].job.attempt)
    && (WasParked(attempts[i].journey) ==> attempts[i].job.cadence == Daily && attempts[i].job.ticket)
  }

  ghost predicate Reported(attempts: seq<Attempt>, i: nat)
    requires i < |attempts|
  {
    Admitted(attempts[i].job) && Reports(attempts[i].job, attempts[i].services, attempts[i].callback)
  }

  ghost predicate Chain(attempts: seq<Attempt>) {
    && (forall i :: 0 <= i < |attempts| ==> Reported(attempts, i))
    && (forall i :: 0 <= i && i + 1 < |attempts| ==> Linked(attempts, i))
  }

  /** How many of the first i messages were parked on their way. */
  function Parkings(attempts: seq<Attempt>, i: nat): nat
    requires i <= |attempts|
  {
    if i == 0 then 0 else Parkings(attempts, i - 1) + if WasParked(attempts[i - 1].journey) then 1 else 0
  }

  // ---------- properties of one run ----------

  /** Triggered means another attempt is coming: the status is one the Worker continues, the
      attempt is below the limit, and the Worker continues it exactly when it knows the run date
      and, off the daily cadence, the cohort. */
  lemma TriggeredIsContinued(job: Job, s: Services, c: Callback, w: Worker)
    requires Reports(job, s, c) && c.status == Triggered
    ensures c.metadata.Some? && WorkerContinued(c.metadata.value.lifecycleStatus)
    ensures job.attempt < c.metadata.value.maxAttempts <= MAX_ATTEMPTS
    ensures Continues(c, w) <==> w.runDate && (job.cadence == Daily || c.metadata.value.cohort)
  {
  }

  /** The result reaches the freshness test: materialized, shadow evaluated or idempotent without a retry,
      not a candidate whose bundle is open, and not the monthly training, which has its own test. */
  predicate TestedForFreshness(job: Job, o: Outcome) {
    && !o.retry && (o.status == Materialized || o.status == ShadowEvaluated || o.status == IdempotentComplete)
    && (o.status == Materialized && o.owner == MonthlyCandidate ==> o.bundleSealed && o.bundleChecksum)
    && !(o.status == Materialized && o.owner == NativeTraining && job.cadence == Monthly)
  }

  /** Such a run succeeds exactly when the mature date and the covered date are known and the covered date has
      reached the mature one; otherwise it fails, and says which date is missing or behind. */
  lemma FreshnessDecides(job: Job, s: Services, c: Callback)
    requires Reports(job, s, c) && LifecycleRan(job, s)
    requires TestedForFreshness(job, LifecycleOutcome(job.cadence, job.promote, s).value)
    ensures var o := LifecycleOutcome(job.cadence, job.promote, s).value;
            if MatureDate(o).Some? && CoveredDate(o).Some? && CoveredDate(o).value >= MatureDate(o).value
            then c.status == Success
            else c.status == Error && c.error.Some? && c.error.value.StaleOof?
                 && (c.error.value.evidence.reason
                     == if MatureDate(o).None? then ExpectedMissing
                        else if CoveredDate(o).None? then EffectiveMissing else Behind)
  {
  }

  /** More coverage never turns success into failure: with the same mature date and a covered date no
      earlier, a result that closes still closes. */
  lemma CoverageAdvances(job: Job, o: Outcome, coverage: Option<Coverage>, receipt: Receipt)
    requires Succeeds(job, o)
    requires var more := o.(coverage := coverage, receipt := receipt);
             && MatureDate(more) == MatureDate(o)
             && (CoveredDate(o).Some? ==> CoveredDate(more).Some? && CoveredDate(more).value >= CoveredDate(o).value)
    ensures Succeeds(job, o.(coverage := coverage, receipt := receipt))
  {
  }

  /** On the daily NAV+OOF path with a failed NAV the lifecycle result is in, and it is failed when
      the OOF branch failed and pending with a retry otherwise. */
  lemma LegacyRan(job: Job, s: Services)
    requires job.mode == OofLifecycle && job.cadence == Daily && TicketWhole(job)
    requires s.config == Returned(false) && s.account.single == Returned(None) && NavFails(job.promote, s.account)
    ensures LifecycleRan(job, s)
    ensures var o := LifecycleOutcome(job.cadence, job.promote, s).value;
            && ContinuationLimit(o) == FAILURE_ATTEMPTS
            && if OofFails(s.account.oof) then o.status == Failed else o.status == Pending && o.retry
  {
    assert NavAnswers(job.promote, s.account);
    assert AccountOutcome(job.cadence, job.promote, false, s.account) == Returned(LegacyOutcome(true, s.account.oof));
    LegacyFailure(s.account.oof);
  }

  predicate OofFails(oof: Answer<Outcome>) {
    oof.Raised? || oof.value.status == Failed
  }

  /** On the daily NAV+OOF path a failed NAV never yields success or skipped. It is triggered
      exactly while attempts of the short limit are left and the OOF branch itself did not fail. */
  lemma FailedNavNeverCloses(job: Job, s: Services, c: Callback)
    requires Reports(job, s, c) && job.mode == OofLifecycle && job.cadence == Daily && TicketWhole(job)
    requires s.config == Returned(false) && s.account.single == Returned(None) && NavFails(job.promote, s.account)
    ensures c.status == Triggered || c.status == Error
    ensures c.status == Triggered <==> job.attempt < FAILURE_ATTEMPTS && !OofFails(s.account.oof)
  {
    LegacyRan(job, s);
  }

  lemma LegacyFailure(oof: Answer<Outcome>)
    ensures var o := LegacyOutcome(true, oof);
            && o.navRetry && ContinuationLimit(o) == FAILURE_ATTEMPTS
            && if OofFails(oof) then o.status == Failed else o.status == Pending && o.retry
  {
  }

  /** The NAV of a daily run is in: it answered, and so did its adoption when that was asked for. */
  predicate NavIn(job: Job, a: Account) {
    match a.nav
    case Raised => false
    case Returned(failed) => failed || !job.promote || a.adoption.Returned?
  }

  /** ... and it did not close: it failed itself, or its adoption stayed incomplete. */
  predicate NavOpen(job: Job, a: Account) {
    match a.nav
    case Raised => false
    case Returned(failed) => failed || (job.promote && a.adoption.Returned? && a.adoption.value)
  }

  lemma NavByCases(job: Job, a: Account)
    ensures NavIn(job, a) == NavAnswers(job.promote, a)
    ensures NavIn(job, a) ==> NavOpen(job, a) == NavFails(job.promote, a)
  {
    IsTrue(a.nav);
    IsTrue(a.adoption);
  }

  lemma IsTrue(a: Answer<bool>)
    ensures a == Returned(true) <==> a.Returned? && a.value
    ensures a == Returned(false) <==> a.Returned? && !a.value
  {
    if a.Returned? {
      if a.value { assert a == Returned(true); } else { assert a == Returned(false); }
    }
  }

  /** Exactly when the daily NAV+OOF path succeeds: a single-strategy result closes by itself, or NAV is in
      and closed and the OOF result closes. */
  lemma LegacySuccessExactly(job: Job, s: Services, c: Callback)
    requires Reports(job, s, c) && job.mode == OofLifecycle && job.cadence == Daily && TicketWhole(job)
    requires s.config == Returned(false)
    ensures c.status == Success <==>
      && s.account.single.Returned?
      && if s.account.single.value.Some? then Succeeds(job, s.account.single.value.value)
         else NavIn(job, s.account) && !NavOpen(job, s.account)
              && s.account.oof.Returned? && Succeeds(job, s.account.oof.value.(navRetry := false))
  {
    var a := s.account;
    var outcome := LifecycleOutcome(job.cadence, job.promote, s);
    assert outcome == AccountOutcome(Daily, job.promote, false, a);
    NavByCases(job, a);
    if a.single.Returned? && a.single.value.None? && NavIn(job, a) {
      assert outcome == Returned(LegacyOutcome(NavOpen(job, a), a.oof));
      if NavOpen(job, a) {
        LegacyFailure(a.oof);
      } else {
        LegacyClosed(a.oof);
      }
    }
  }

  lemma LegacyClosed(oof: Answer<Outcome>)
    ensures oof.Returned? ==> LegacyOutcome(false, oof) == oof.value.(navRetry := false)
    ensures oof.Raised? ==> LegacyOutcome(false, oof).status == Failed
  {
  }

  /** Exactly when the daily path with the new distribution succeeds: the data refresh is settled, its
      replay ran, and either a single-strategy result closes by itself, or NAV is in, the plan is closed and
      recorded, and NAV closed too or the paper closure is verified without it. */
  lemma PlanSuccessExactly(job: Job, s: Services, c: Callback)
    requires Reports(job, s, c) && job.mode == OofLifecycle && job.cadence == Daily && TicketWhole(job)
    requires s.config == Returned(true)
    ensures c.status == Success <==>
      && s.data == Returned(DataOther) && s.replay.Returned? && s.account.single.Returned?
      && if s.account.single.value.Some? then Succeeds(job, s.account.single.value.value)
         else NavIn(job, s.account) && s.account.plan == Returned(PlanClosed(true))
              && (NavOpen(job, s.account) ==> s.account.verified == Returned(true))
  {
    NavByCases(job, s.account);
    if s.data.Returned? && s.replay.Returned? {
      var account := AccountOutcome(Daily, job.promote, true, s.account);
      var o := if account.Returned? then account.value else Empty().(status := Failed);
      assert LifecycleOutcome(job.cadence, job.promote, s) == Returned(AttachData(o, s.data.value));
      AttachFields(o, s.data.value);
      if s.account.single.Returned? && s.account.single.value.None? && NavIn(job, s.account) {
        assert account == PlanOutcome(NavOpen(job, s.account), s.account);
        if account.Returned? { PlanFields(NavOpen(job, s.account), s.account); }
      }
    }
  }

  /** The plan is not ready, or NAV stayed open and the paper closure is not verified. */
  predicate PlanWaits(job: Job, a: Account) {
    || a.plan == Returned(PlanPending)
    || (a.plan.Returned? && a.plan.value.PlanClosed? && NavOpen(job, a) && a.verified == Returned(false))
  }

  /** The plan answered, and the verification too where it is asked. */
  predicate PlanIn(job: Job, a: Account) {
    a.plan.Returned? && (a.plan.value.PlanClosed? && NavOpen(job, a) ==> a.verified.Returned?)
  }

  /** Exactly when it is continued: everything answered, the data refresh did not fail, the plan or the data
      has to be waited for, and attempts are left: twelve, or 64 when only data computed in the cloud are
      waited for and NAV is not open. */
  lemma PlanTriggersExactly(job: Job, s: Services, c: Callback)
    requires Reports(job, s, c) && job.mode == OofLifecycle && job.cadence == Daily && TicketWhole(job)
    requires s.config == Returned(true) && s.account.single == Returned(None)
    ensures c.status == Triggered <==>
      && s.data.Returned? && s.replay.Returned? && NavIn(job, s.account) && PlanIn(job, s.account)
      && !s.data.value.DataFailed? && (PlanWaits(job, s.account) || s.data.value.DataPending?)
      && job.attempt < (if s.data == Returned(DataPending(true))
                           && !(PlanWaits(job, s.account) && NavOpen(job, s.account)) then 64 else 12)
  {
    NavByCases(job, s.account);
    if s.data.Returned? && s.replay.Returned? {
      var account := AccountOutcome(Daily, job.promote, true, s.account);
      var o := if account.Returned? then account.value else Empty().(status := Failed);
      var data := s.data.value;
      assert LifecycleOutcome(job.cadence, job.promote, s) == Returned(AttachData(o, data));
      if NavIn(job, s.account) {
        assert account == PlanOutcome(NavOpen(job, s.account), s.account);
        if account.Returned? { PlanFields(NavOpen(job, s.account), s.account); }
      }
      AttachFields(o, data);
    }
  }

  /** What the plan branch leaves for the limit: no compute and no full fit of its own. */
  lemma PlanFields(navFailed: bool, a: Account)
    requires PlanOutcome(navFailed, a).Returned?
    ensures var o := PlanOutcome(navFailed, a).value;
            var waits := a.plan.value.PlanPending? || (navFailed && a.verified == Returned(false));
            && o.status == (if waits then Pending else DailyAccounted) && o.retry == waits
            && o.navRetry == (waits && navFailed) && !HealthyCompute(o)
            && o.nativeClosure == (!waits && a.plan.value.recorded)
  {
  }

  lemma AttachFields(o: Outcome, data: DataResult)
    ensures var r := AttachData(o, data);
            && (data.DataFailed? ==> r.status == Failed)
            && (data.DataOther? ==> r == o)
            && (data.DataPending? && (o.status == Failed || o.status == Blocked) ==> r.status == o.status && r.retry)
            && (data.DataPending? && o.status != Failed && o.status != Blocked ==>
                  r.status == Pending && r.retry && r.navRetry == o.navRetry
                  && r.computePending == data.waiting && r.fullFit == o.fullFit)
  {
    if data.DataPending? {
      if o.status == Failed || o.status == Blocked {
        assert AttachData(o, data) == o.(retry := true);
      } else {
        assert AttachData(o, data) == o.(status := Pending, retry := true, computePending := data.waiting);
      }
    }
  }

  // ---------- properties of chains ----------

  // ---------- properties of chains ----------

  /** The number under which message n starts counting collisions. */
  function CountsFrom(n: int, journey: Journey): int { if WasParked(journey) then 1 else n }

  /** A message that becomes a run becomes the one numbered by its collisions, up to the last number. */
  lemma {:induction false} ArrivalNumber(n: int, journey: Journey)
    requires 1 <= n <= MAX_ATTEMPTS
    ensures Arrives(n, journey).Some? ==>
      Arrives(n, journey).value == MinInt(MAX_ATTEMPTS, CountsFrom(n, journey) + Collisions(journey))
    decreases journey
  {
    match journey
    case Dispatched =>
    case Lost =>
    case JobBusy(rest) => ArrivalNumber(if n < MAX_ATTEMPTS then n + 1 else n, rest);
    case Redelivered(rest) => ArrivalNumber(n, rest);
    case Parked(rest) => ArrivalNumber(1, rest);
  }

  lemma ChainReports(attempts: seq<Attempt>, i: nat)
    requires Chain(attempts) && i < |attempts|
    ensures Reports(attempts[i].job, attempts[i].services, attempts[i].callback)
    ensures Admitted(attempts[i].job)
  {
    assert Reported(attempts, i);
  }

  lemma LinkContinues(attempts: seq<Attempt>, i: nat)
    requires Chain(attempts) && i + 1 < |attempts|
    ensures Reports(attempts[i].job, attempts[i].services, attempts[i].callback)
    ensures Continues(attempts[i].callback, attempts[i].worker)
    ensures attempts[i + 1].job.cadence == attempts[i].job.cadence
    ensures 0 <= attempts[i].job.attempt < MAX_ATTEMPTS
  {
    assert Linked(attempts, i) && Reported(attempts, i);
  }

  lemma LinkArrives(attempts: seq<Attempt>, i: nat)
    requires Chain(attempts) && i + 1 < |attempts|
    ensures Arrives(attempts[i].job.attempt + 1, attempts[i].journey) == Some(attempts[i + 1].job.attempt)
  {
    assert Linked(attempts, i);
  }

  /** The number of the next run: collisions added to the number enqueued, or to 1 after a parking. */
  lemma LinkNumber(attempts: seq<Attempt>, i: nat)
    requires Chain(attempts) && i + 1 < |attempts|
    ensures attempts[i + 1].job.attempt == MinInt(MAX_ATTEMPTS, Enqueued(attempts[i]) + Collisions(attempts[i].journey))
  {
    LinkContinues(attempts, i);
    LinkArrives(attempts, i);
    ArrivalNumber(attempts[i].job.attempt + 1, attempts[i].journey);
  }

  function Enqueued(a: Attempt): int { CountsFrom(a.job.attempt + 1, a.journey) }

  /** Without a parking the number grows, and after one it is at least 1. */
  lemma LinkGrows(attempts: seq<Attempt>, i: nat)
    requires Chain(attempts) && i + 1 < |attempts|
    ensures 0 <= attempts[i].job.attempt < MAX_ATTEMPTS
    ensures attempts[i + 1].job.attempt >= if WasParked(attempts[i].journey) then 1 else attempts[i].job.attempt + 1
  {
    LinkContinues(attempts, i);
    LinkNumber(attempts, i);
  }

  lemma OneMore(cap: nat, p: nat)
    ensures cap * (p + 1) == cap * p + cap
  {
  }

  /** Numbers grow along a chain, except that each parking may give back at most `cap` of them, where
      no continued attempt is numbered above `cap`. */
  lemma {:induction false} ChainNumbers(attempts: seq<Attempt>, i: nat, cap: nat)
    requires Chain(attempts) && i < |attempts|
    requires forall j :: 0 <= j < i ==> attempts[j].job.attempt <= cap
    ensures attempts[0].job.attempt + i <= attempts[i].job.attempt + cap * Parkings(attempts, i)
  {
    if i == 0 {
    } else {
      ChainNumbers(attempts, i - 1, cap);
      LinkGrows(attempts, i - 1);
      OneMore(cap, Parkings(attempts, i - 1));
    }
  }

  /** The cadence never changes along a chain, and off the daily cadence nothing is parked. */
  lemma {:induction false} SameCadence(attempts: seq<Attempt>, i: nat)
    requires Chain(attempts) && i < |attempts|
    ensures attempts[i].job.cadence == attempts[0].job.cadence
    ensures attempts[0].job.cadence != Daily ==> Parkings(attempts, i) == 0
  {
    if i == 0 {
    } else {
      SameCadence(attempts, i - 1);
      LinkContinues(attempts, i - 1);
      assert Linked(attempts, i - 1);
    }
  }

  /** From attempt a there are at most 65 - a attempts, and 63 more for each parking; off the daily
      cadence there are no parkings. */
  lemma ChainBounded(attempts: seq<Attempt>)
    requires Chain(attempts) && attempts != []
    ensures var last := |attempts| - 1;
            |attempts| <= MAX_ATTEMPTS + 1 - attempts[0].job.attempt + (MAX_ATTEMPTS - 1) * Parkings(attempts, last)
    ensures attempts[0].job.cadence != Daily ==> |attempts| <= MAX_ATTEMPTS + 1 - attempts[0].job.attempt
    ensures forall i :: 0 <= i < |attempts| ==> attempts[i].job.cadence == attempts[0].job.cadence
  {
    var last := |attempts| - 1;
    forall i | 0 <= i < last ensures attempts[i].job.attempt <= MAX_ATTEMPTS - 1 { LinkContinues(attempts, i); }
    ChainNumbers(attempts, last, MAX_ATTEMPTS - 1);
    ChainReports(attempts, last);
    forall i | 0 <= i < |attempts| ensures attempts[i].job.cadence == attempts[0].job.cadence {
      SameCadence(attempts, i);
    }
    SameCadence(attempts, last);
  }

  // ---------- how a chain ends ----------

  /** No run follows this attempt: the Worker enqueued nothing, or its message never became a run. */
  predicate Final(a: Attempt) {
    !Continues(a.callback, a.worker) || Arrives(a.job.attempt + 1, a.journey).None?
  }

  /** A chain that no run continues. */
  ghost predicate Maximal(attempts: seq<Attempt>) {
    Chain(attempts) && attempts != [] && Final(attempts[|attempts| - 1])
  }

  /** The Worker's readiness check after a daily success failed. */
  predicate ReadinessLost(a: Attempt) {
    && a.callback.metadata.Some? && a.callback.metadata.value.cadence == Daily
    && a.worker.runDate && a.worker.readinessFailed
  }

  /** Success that stands: the work is done and the Worker did not find it unready. */
  ghost predicate EndsClosed(a: Attempt) {
    && a.callback.status == Success && !ReadinessLost(a)
    && if LifecycleRan(a.job, a.services)
       then Succeeds(a.job, LifecycleOutcome(a.job.cadence, a.job.promote, a.services).value)
       else TicketWhole(a.job) && ModeSucceeds(a.job, a.services)
  }

  /** Success whose readiness failed when no attempt was left. */
  ghost predicate EndsUnready(a: Attempt) {
    a.callback.status == Success && ReadinessLost(a) && a.job.attempt >= WorkerLimit(a.callback.metadata.value)
  }

  ghost predicate EndsSkipped(a: Attempt) {
    && a.callback.status == Skipped && LifecycleRan(a.job, a.services)
    && LifecycleOutcome(a.job.cadence, a.job.promote, a.services).value.status == SkippedRun
  }

  /** An error together with its reason. */
  ghost predicate EndsFailed(a: Attempt) {
    && a.callback.status == Error && a.callback.error.Some?
    && if LifecycleRan(a.job, a.services)
       then Explains(a.job, LifecycleOutcome(a.job.cadence, a.job.promote, a.services).value, a.callback.error.value)
       else ModeExplains(a.job, a.services, a.callback.error.value)
  }

  /** A triggered callback the Worker cannot enqueue: no run date, or no cohort off the daily cadence. */
  ghost predicate EndsStranded(a: Attempt) {
    && a.callback.status == Triggered && a.callback.metadata.Some?
    && (!a.worker.runDate || (a.job.cadence != Daily && !a.callback.metadata.value.cohort))
  }

  /** A continuation that was enqueued and never became a run. */
  ghost predicate EndsUndelivered(a: Attempt) {
    Continues(a.callback, a.worker) && Arrives(a.job.attempt + 1, a.journey).None?
  }

  lemma LastAttempt(a: Attempt)
    requires Reports(a.job, a.services, a.callback) && Final(a)
    ensures EndsClosed(a) || EndsUnready(a) || EndsSkipped(a) || EndsFailed(a) || EndsStranded(a) || EndsUndelivered(a)
  {
    if a.callback.status == Triggered {
      TriggeredIsContinued(a.job, a.services, a.callback, a.worker);
    }
  }

  /** Every maximal chain is as short as `ChainBounded` says and ends in one of six ways: success that
      stands, success found unready with no attempt left, skipped, an error with its reason, a
      triggered callback that lacks what the Worker needs, or a message that never became a run. */
  lemma ChainEnds(attempts: seq<Attempt>)
    requires Maximal(attempts)
    ensures var last := |attempts| - 1;
            |attempts| <= MAX_ATTEMPTS + 1 - attempts[0].job.attempt + (MAX_ATTEMPTS - 1) * Parkings(attempts, last)
    ensures var a := attempts[|attempts| - 1];
            EndsClosed(a) || EndsUnready(a) || EndsSkipped(a) || EndsFailed(a) || EndsStranded(a) || EndsUndelivered(a)
  {
    ChainBounded(attempts);
    ChainReports(attempts, |attempts| - 1);
    LastAttempt(attempts[|attempts| - 1]);
  }

  ghost predicate LegacyNavFailure(a: Attempt) {
    && a.job.mode == OofLifecycle && a.job.cadence == Daily && TicketWhole(a.job)
    && a.services.config == Returned(false) && a.services.account.single == Returned(None)
    && NavFails(a.job.promote, a.services.account)
  }

  /** A failed NAV is continued below attempt 12 only. */
  lemma FailedNavContinues(a: Attempt)
    requires Reports(a.job, a.services, a.callback) && LegacyNavFailure(a) && Continues(a.callback, a.worker)
    ensures a.job.attempt < FAILURE_ATTEMPTS
  {
    LegacyRan(a.job, a.services);
  }

  /** When it is not continued although the Worker knows the run date, it ended with an error,
      which is the failure of the OOF branch exactly when that branch failed. */
  lemma FailedNavEnds(a: Attempt)
    requires Reports(a.job, a.services, a.callback) && LegacyNavFailure(a) && !Continues(a.callback, a.worker)
    requires a.worker.runDate
    ensures a.callback.status == Error
    ensures if OofFails(a.services.account.oof) then a.callback.error == Some(LifecycleFailed)
            else a.job.attempt >= FAILURE_ATTEMPTS && a.callback.error == Some(DependencyExhausted(a.job.attempt))
  {
    LegacyRan(a.job, a.services);
  }

  /** A NAV that never recovers cannot use the long wait for cloud compute: its chain has at most
      13 - a attempts, and 11 more for each parking. */
  lemma FailedNavChainIsShort(attempts: seq<Attempt>)
    requires Chain(attempts) && attempts != []
    requires forall i :: 0 <= i < |attempts| ==> LegacyNavFailure(attempts[i])
    ensures |attempts| == 1 ||
            |attempts| <= FAILURE_ATTEMPTS + 1 - attempts[0].job.attempt
                          + (FAILURE_ATTEMPTS - 1) * Parkings(attempts, |attempts| - 2)
  {
    if |attempts| > 1 {
      forall i | 0 <= i < |attempts| - 1 ensures attempts[i].job.attempt <= FAILURE_ATTEMPTS - 1 {
        LinkContinues(attempts, i);
        FailedNavContinues(attempts[i]);
      }
      ChainNumbers(attempts, |attempts| - 2, FAILURE_ATTEMPTS - 1);
    }
  }

  /** The number a chain ends with when it is not cut at the last number: its start, or what the last
      message was enqueued with and the collisions added. */
  function Carried(attempts: seq<Attempt>): int
    requires attempts != []
  {
    if |attempts| == 1 then attempts[0].job.attempt
    else var a := attempts[|attempts| - 2]; Enqueued(a) + Collisions(a.journey)
  }

  /** The end of a chain whose NAV never recovers: an error, which is the failure of the OOF branch
      exactly when that branch failed, and otherwise the exhausted dependency. Then the last attempt
      is at least the twelfth, and it is the twelfth exactly when neither the start nor collisions of
      the last message carried the number further. */
  ghost predicate EndsUnrecovered(attempts: seq<Attempt>)
    requires attempts != []
  {
    var a := attempts[|attempts| - 1];
    && a.callback.status == Error
    && (a.callback.error == Some(LifecycleFailed) <==> OofFails(a.services.account.oof))
    && (!OofFails(a.services.account.oof) ==>
          && a.callback.error == Some(DependencyExhausted(a.job.attempt))
          && a.job.attempt >= FAILURE_ATTEMPTS
          && (a.job.attempt == FAILURE_ATTEMPTS <==> Carried(attempts) <= FAILURE_ATTEMPTS))
  }

  lemma LastNumber(attempts: seq<Attempt>)
    requires Chain(attempts) && attempts != []
    ensures attempts[|attempts| - 1].job.attempt == MinInt(MAX_ATTEMPTS, Carried(attempts))
  {
    ChainReports(attempts, |attempts| - 1);
    if |attempts| > 1 { LinkNumber(attempts, |attempts| - 2); }
  }

  lemma UnrecoveredAttempt(a: Attempt)
    requires Reports(a.job, a.services, a.callback) && Final(a) && LegacyNavFailure(a) && a.worker.runDate
    ensures EndsUndelivered(a) || a.callback.status == Error
    ensures !EndsUndelivered(a) && OofFails(a.services.account.oof) ==> a.callback.error == Some(LifecycleFailed)
    ensures !EndsUndelivered(a) && !OofFails(a.services.account.oof) ==>
      a.job.attempt >= FAILURE_ATTEMPTS && a.callback.error == Some(DependencyExhausted(a.job.attempt))
  {
    if !Continues(a.callback, a.worker) { FailedNavEnds(a); }
  }

  /** Every maximal chain of failed NAVs, with a Worker that knows the run date, ends that way unless
      its last message is lost. */
  lemma UnrecoveredNavEnds(attempts: seq<Attempt>)
    requires Maximal(attempts) && attempts[|attempts| - 1].worker.runDate
    requires forall i :: 0 <= i < |attempts| ==> LegacyNavFailure(attempts[i])
    ensures EndsUndelivered(attempts[|attempts| - 1]) || EndsUnrecovered(attempts)
  {
    ChainReports(attempts, |attempts| - 1);
    LastNumber(attempts);
    UnrecoveredAttempt(attempts[|attempts| - 1]);
  }

  /** A continued chain of failed NAVs is carried past attempt 12 by collisions of its last message
      only: without them it ends exactly there, whatever was parked and wherever it started. */
  lemma OnlyCollisionsCarry(attempts: seq<Attempt>)
    requires Chain(attempts) && |attempts| > 1
    requires forall i :: 0 <= i < |attempts| ==> LegacyNavFailure(attempts[i])
    ensures Carried(attempts) <= FAILURE_ATTEMPTS + Collisions(attempts[|attempts| - 2].journey)
  {
    LinkContinues(attempts, |attempts| - 2);
    FailedNavContinues(attempts[|attempts| - 2]);
  }

  // ---------- chains longer or later than expected ----------

  /** A daily run numbered n with a NAV that fails while everything else answers. */
  function FailedNavAttempt(n: int, journey: Journey): Attempt {
    var job := Job(OofLifecycle, Daily, false, Some(0), true, true, false, n, true, true);
    var account := Account(Returned(None), Returned(true), Raised, Raised, Raised, Returned(Empty()));
    var services := Services(Returned(false), account, Raised, Raised, Raised, Raised, Raised);
    var metadata := Metadata(Daily, Pending, false, n, FAILURE_ATTEMPTS);
    var callback :=
      if n < FAILURE_ATTEMPTS then Callback(Triggered, None, Some(metadata))
      else Callback(Error, Some(DependencyExhausted(n)), Some(metadata));
    Attempt(job, services, callback, Worker(true, false), journey)
  }

  lemma FailedNavReports(n: int, journey: Journey)
    ensures var a := FailedNavAttempt(n, journey);
            && LegacyNavFailure(a) && Reports(a.job, a.services, a.callback)
            && (Continues(a.callback, a.worker) <==> n < FAILURE_ATTEMPTS)
  {
    var a := FailedNavAttempt(n, journey);
    LegacyRan(a.job, a.services);
    assert NavFails(true, a.services.account) && NavAnswers(true, a.services.account);
    assert LifecycleOutcome(Daily, true, a.services) == Returned(LegacyOutcome(true, Returned(Empty())));
  }

  /** A run of the job numbered 11 whose message meets a busy job once. */
  function CollisionChain(): seq<Attempt> {
    [FailedNavAttempt(11, JobBusy(Dispatched)), FailedNavAttempt(13, Lost)]
  }

  /** The limit of twelve does not hold of the numbers the Worker hands out: after one collision a
      failed NAV ends with attempt 13. */
  lemma CollisionPassesTwelve()
    ensures Maximal(CollisionChain())
    ensures forall i :: 0 <= i < |CollisionChain()| ==> LegacyNavFailure(CollisionChain()[i])
    ensures CollisionChain()[1].callback.error == Some(DependencyExhausted(13))
  {
    FailedNavReports(11, JobBusy(Dispatched));
    FailedNavReports(13, Lost);
    var attempts := CollisionChain();
    assert Arrives(12, JobBusy(Dispatched)) == Some(13) by { assert Arrives(13, Dispatched) == Some(13); }
    assert Reported(attempts, 0) && Reported(attempts, 1) && Linked(attempts, 0);
  }

  /** k runs numbered 1, each of whose messages is parked. */
  function ParkedChain(k: nat): seq<Attempt> {
    seq(k, i => FailedNavAttempt(1, Parked(Dispatched)))
  }

  /** Without a bound on parkings there is none on the attempts, not even for a NAV that never recovers. */
  lemma ParkingUnbounds(k: nat)
    ensures |ParkedChain(k)| == k && Chain(ParkedChain(k))
    ensures forall i :: 0 <= i < k ==> LegacyNavFailure(ParkedChain(k)[i])
  {
    FailedNavReports(1, Parked(Dispatched));
    assert Arrives(2, Parked(Dispatched)) == Some(1) by { assert Arrives(1, Dispatched) == Some(1); }
    var attempts := ParkedChain(k);
    forall i | 0 <= i < k ensures Reported(attempts, i) {}
    forall i | 0 <= i && i + 1 < k ensures Linked(attempts, i) {}
  }
}
