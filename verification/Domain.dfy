/** The value types of the evidence pipeline. Numbers are exact reals, counts are integers. */
module Domain {
  import opened Prelude
  import opened Text

  datatype Window = Window(start: Instant, injection: Instant, end: Instant) {
    predicate Valid() {
      start <= injection < end
    }
  }

  datatype Policy = Policy(minimumPoints: int, minimumScore: real, minimumMargin: real, relativeFloor: real) {
    predicate Valid() {
      minimumPoints >= 1 && minimumScore >= 0.0 && minimumMargin >= 0.0 && relativeFloor >= 0.0
    }
  }

  datatype Point = Point(observedAt: Instant, value: real)

  datatype Signal = Signal(key: string, points: seq<Point>) {
    predicate Valid() {
      NonBlank(key) && forall i, j :: 0 <= i < j < |points| ==> points[i].observedAt < points[j].observedAt
    }
  }

  datatype SignalInput = SignalInput(signal: Signal, absoluteFloor: real) {
    predicate Valid() {
      signal.Valid() && absoluteFloor > 0.0
    }
  }

  datatype Candidate = Candidate(
    key: string,
    preCount: int,
    postCount: int,
    preMedian: real,
    postMedian: real,
    preMad: real,
    absoluteFloor: real,
    relativeFloor: real,
    scale: real,
    signedScore: real,
    suspicion: real)

  datatype Evaluation = Evaluation(
    key: string,
    absoluteFloor: real,
    preCount: int,
    postCount: int,
    eligible: bool,
    candidate: Option<Candidate>)

  datatype AbstentionReason = InsufficientSignals | WeakSignals | AmbiguousSignals

  /** A lead is a number, or infinite when there is no runner-up. */
  datatype Lead = Finite(value: real) | PlusInfinity | MinusInfinity | NotANumber

  datatype BaselineResult =
    | Ranking(policy: Policy, evaluations: seq<Evaluation>, candidates: seq<Candidate>, lead: Lead)
    | Abstention(
        policy: Policy,
        reason: AbstentionReason,
        evaluations: seq<Evaluation>,
        candidates: seq<Candidate>,
        eligibleCount: int,
        top: Option<real>,
        second: Option<real>)

  datatype DecisionKind = RankingKind | AbstentionKind

  datatype Decision = Decision(
    kind: DecisionKind,
    reason: Option<AbstentionReason>,
    candidateKeys: seq<string>,
    eligibleCount: int,
    top: Option<real>,
    second: Option<real>,
    lead: Option<real>)

  /** Tenant, incident and run: the context that evidence is bound to. */
  datatype Context = Context(tenant: string, incident: string, run: string) {
    predicate Valid() {
      NonBlank(tenant) && NonBlank(incident) && NonBlank(run)
    }
  }

  /** What the digest of a metric entry commits to. */
  datatype MetricContent = MetricContent(
    schema: string,
    context: Context,
    window: Window,
    policy: Policy,
    decision: Decision,
    key: string,
    preCount: int,
    postCount: int,
    eligible: bool,
    absoluteFloor: real,
    relativeFloor: real,
    candidate: Option<Candidate>)

  datatype ChangeKind = Configuration | Deployment | FeatureFlag | Rollback | Scaling

  datatype ChangePhase = BeforeWindow | PreInjection | PostInjection | AfterWindow

  /** What the digest of a change entry commits to. */
  datatype ChangeContent = ChangeContent(
    schema: string,
    context: Context,
    window: Window,
    key: string,
    kind: ChangeKind,
    occurredAt: Instant,
    phase: ChangePhase)

  /**
   * A digest stands for the content it was computed from, one hash domain per ledger
   * kind; any text that is no such digest is kept as text.
   */
  datatype EvidenceId =
    | MetricDigest(metric: MetricContent)
    | ChangeDigest(change: ChangeContent)
    | OtherText(text: string)
  {
    /** `sha256:` followed by 64 lower-case hexadecimal digits. */
    predicate WellFormed() {
      OtherText? ==> |text| == 71 && text[..7] == "sha256:" && forall i :: 7 <= i < 71 ==> IsHexDigit(text[i])
    }
  }

  predicate IsHexDigit(c: char) {
    '0' <= c <= '9' || 'a' <= c <= 'f'
  }

  datatype MetricEntry = MetricEntry(
    id: EvidenceId,
    key: string,
    preCount: int,
    postCount: int,
    eligible: bool,
    absoluteFloor: real,
    relativeFloor: real,
    candidate: Option<Candidate>)

  datatype MetricLedger = MetricLedger(
    schema: string,
    context: Context,
    window: Window,
    policy: Policy,
    decision: Decision,
    entries: seq<MetricEntry>)

  const METRIC_SCHEMA := "metric-evidence-ledger.v1"
  const CHANGE_SCHEMA := "change-event-ledger.v1"

  datatype DomainError =
    | DuplicateSignal
    | InvalidEvidenceLedger
    | InvalidHypothesis
    | InvalidChangeEvent
    | InvalidChangeLedger
    | InvalidChangeHypothesis
    | SerializationFailed
}
