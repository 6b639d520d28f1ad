/** The final pre-submit check: twelve checks (and a staleness check) before any order goes out. */
module FinalCheck {
  import opened Wrappers

  datatype StrategyStatus =
    | Draft | BacktestReady | ValidationReady | PaperRunning | LiveRunning | PauseOpen | CloseOnly | Stopped | Paused
    | Frozen | Archived

  datatype ReservationStatus = Active | PartiallyConsumed | FullyConsumed | Released | Expired | Invalid

  datatype Context = Context(
    strategyStatus: Option<StrategyStatus>,
    signalValidUntil: Option<real>,
    qmtAdapterAvailable: Option<bool>,
    accountRiskStatus: Option<string>,
    accountAvailableCash: real,
    availableQuantity: int,
    todayBoughtQuantity: int,
    side: string,
    reservationStatus: Option<ReservationStatus>,
    reservationExpiresAt: Option<real>,
    hasConflictingInflight: Option<bool>,
    killSwitchActive: Option<bool>,
    closeOnlyMode: bool,
    ordersLastMinute: int,
    maxOrdersPerMinute: int,
    price: real,
    quantity: int,
    instrument: string,
    sourceIsDeterministic: bool,
    requestFromExecutionService: bool,
    isFlatten: bool,
    checkTime: real,
    stalePriceThreshold: real,
    referencePriceAge: real)

  datatype Failure =
    | StrategyNotProvided | StrategyCloseOnly | StrategyPauseOpen | StrategyStatusBad(status: StrategyStatus)
    | SignalExpired
    | QmtNotProvided | QmtUnavailable
    | AccountNotProvided | AccountBad(risk: string)
    | PositionAllBlocked | PositionInsufficient
    | ReservationExpired | ReservationBad(reservation: ReservationStatus)
    | InflightNotProvided | ConflictingInflight
    | KillSwitchNotProvided | KillSwitchActive | CloseOnlyNoBuy
    | FrequencyExceeded
    | ParamsInvalid
    | StalePrice
    | SourceNonDeterministic
    | UnauthorizedSource

  datatype Result = Allow | Reject | RetryLater | EscalateManual

  datatype Detail = Detail(result: Result, passed: nat, failed: seq<Failure>)

  // ---------------------------------------------------------------- what each check demands

  predicate StrategyOk(c: Context) {
    c.strategyStatus.Some? &&
    match c.strategyStatus.value
    case LiveRunning => true
    case CloseOnly | PauseOpen => c.isFlatten || c.side == "sell"
    case _ => false
  }

  predicate Before(t: Option<real>, now: real) {
    t.Some? && t.value < now
  }

  predicate AccountOk(c: Context) {
    c.accountRiskStatus == Some("normal") || c.accountRiskStatus == Some("warning")
  }

  /** A sell needs settled shares: at least its quantity, and some at all if any were bought today. */
  predicate PositionOk(c: Context) {
    c.side == "sell" ==>
      var sellable := c.availableQuantity - c.todayBoughtQuantity;
      sellable >= 0 && sellable >= c.quantity && (c.todayBoughtQuantity > 0 ==> sellable > 0)
  }

  predicate ReservationOk(c: Context) {
    c.reservationStatus.None? || (c.reservationStatus == Some(Active) && !Before(c.reservationExpiresAt, c.checkTime))
  }

  predicate ModeOk(c: Context) {
    c.killSwitchActive.Some? && (c.isFlatten || (!c.killSwitchActive.value && !(c.closeOnlyMode && c.side == "buy")))
  }

  predicate ParamsOk(c: Context) {
    c.price > 0.0 && c.quantity > 0 && c.instrument != ""
  }

  predicate Fresh(c: Context) {
    c.stalePriceThreshold > 0.0 ==> c.referencePriceAge <= c.stalePriceThreshold
  }

  predicate AllChecksPass(c: Context) {
    && StrategyOk(c)
    && !Before(c.signalValidUntil, c.checkTime)
    && c.qmtAdapterAvailable == Some(true)
    && AccountOk(c)
    && PositionOk(c)
    && ReservationOk(c)
    && c.hasConflictingInflight == Some(false)
    && ModeOk(c)
    && c.ordersLastMinute < c.maxOrdersPerMinute
    && ParamsOk(c)
    && Fresh(c)
    && c.sourceIsDeterministic
    && c.requestFromExecutionService
  }

  predicate HasExpired(c: Context) {
    || Before(c.signalValidUntil, c.checkTime)
    || c.reservationStatus == Some(Expired)
    || (c.reservationStatus == Some(Active) && Before(c.reservationExpiresAt, c.checkTime))
  }

  /** The decision in terms of the conditions themselves, without the lists the check keeps. */
  function Verdict(c: Context): Result {
    if c.killSwitchActive == Some(true) && !c.isFlatten then Reject
    else if AllChecksPass(c) then Allow
    else if !c.requestFromExecutionService || !c.sourceIsDeterministic || !ParamsOk(c) then Reject
    else if c.qmtAdapterAvailable == Some(false) then RetryLater
    else if HasExpired(c) then Reject
    else EscalateManual
  }

  /** What lets an order through: live and running, or on its way out; nothing expired; adapter, account and
      reservation in order; no conflict, switch or limit in the way; and settled shares for a sell. */
  lemma AllowedExactlyWhen(c: Context)
    ensures var sells := c.side == "sell";
      Verdict(c) == Allow <==>
        && (c.strategyStatus == Some(LiveRunning)
            || ((sells || c.isFlatten) && (c.strategyStatus == Some(CloseOnly) || c.strategyStatus == Some(PauseOpen))))
        && (c.signalValidUntil.Some? ==> c.checkTime <= c.signalValidUntil.value)
        && c.qmtAdapterAvailable == Some(true)
        && (c.accountRiskStatus == Some("normal") || c.accountRiskStatus == Some("warning"))
        && (sells ==> c.quantity <= c.availableQuantity - c.todayBoughtQuantity)
        && (c.reservationStatus.Some? ==>
              c.reservationStatus.value == Active
              && (c.reservationExpiresAt.Some? ==> c.checkTime <= c.reservationExpiresAt.value))
        && c.hasConflictingInflight == Some(false)
        && c.killSwitchActive.Some?
        && (c.isFlatten || (c.killSwitchActive == Some(false) && (c.closeOnlyMode ==> c.side != "buy")))
        && c.ordersLastMinute < c.maxOrdersPerMinute
        && c.price > 0.0 && c.quantity > 0 && c.instrument != ""
        && (c.stalePriceThreshold > 0.0 ==> c.referencePriceAge <= c.stalePriceThreshold)
        && c.sourceIsDeterministic && c.requestFromExecutionService
  {
    if c.quantity > 0 && c.side == "sell" {
      assert PositionOk(c) <==> c.quantity <= c.availableQuantity - c.todayBoughtQuantity;
    }
  }

  /** What comes of an order that is not let through: the kill switch, an order nobody may place or that makes no sense
      and anything expired reject it; a missing adapter asks for another try first; the rest goes to a human. */
  lemma RefusalsBySeverity(c: Context)
    requires Verdict(c) != Allow
    ensures var killed := c.killSwitchActive == Some(true) && !c.isFlatten;
      var senseless := || c.price <= 0.0 || c.quantity <= 0 || c.instrument == ""
                       || !c.sourceIsDeterministic || !c.requestFromExecutionService;
      var expired := || (c.signalValidUntil.Some? && c.signalValidUntil.value < c.checkTime)
                     || c.reservationStatus == Some(Expired)
                     || (c.reservationStatus == Some(Active) && c.reservationExpiresAt.Some?
                         && c.reservationExpiresAt.value < c.checkTime);
      && (Verdict(c) == RetryLater <==> !killed && !senseless && c.qmtAdapterAvailable == Some(false))
      && (Verdict(c) == Reject <==> killed || senseless || (expired && c.qmtAdapterAvailable != Some(false)))
  {
  }

  // ---------------------------------------------------------------- which failures are reported

  function Unless(ok: bool, failure: Failure): (r: seq<Failure>)
    ensures |r| == if ok then 0 else 1
  {
    if ok then [] else [failure]
  }

  function StrategyFailure(c: Context): Failure {
    match c.strategyStatus
    case None => StrategyNotProvided
    case Some(CloseOnly) => StrategyCloseOnly
    case Some(PauseOpen) => StrategyPauseOpen
    case Some(s) => StrategyStatusBad(s)
  }

  function AccountFailure(c: Context): Failure {
    match c.accountRiskStatus
    case None => AccountNotProvided
    case Some(risk) => AccountBad(risk)
  }

  /** Nothing is settled, or too little of what is. */
  function PositionFailure(c: Context): Failure {
    var sellable := c.availableQuantity - c.todayBoughtQuantity;
    if sellable < 0 || (sellable == 0 && c.todayBoughtQuantity > 0) then PositionAllBlocked else PositionInsufficient
  }

  /** The name made of a reservation's status, which for an expired one is that of a reservation past its time. */
  function NamedAfter(s: ReservationStatus): Failure {
    if s == Expired then ReservationExpired else ReservationBad(s)
  }

  function ReservationFailure(c: Context): Failure {
    match c.reservationStatus
    case None => ReservationExpired
    case Some(Active) => ReservationExpired
    case Some(s) => NamedAfter(s)
  }

  function AdapterFailure(c: Context): Failure {
    if c.qmtAdapterAvailable.None? then QmtNotProvided else QmtUnavailable
  }

  function InflightFailure(c: Context): Failure {
    if c.hasConflictingInflight.None? then InflightNotProvided else ConflictingInflight
  }

  function ModeFailure(c: Context): Failure {
    match c.killSwitchActive
    case None => KillSwitchNotProvided
    case Some(active) => if active then KillSwitchActive else CloseOnlyNoBuy
  }

  function StrategyAndAdapterFailures(c: Context): seq<Failure> {
    Unless(StrategyOk(c), StrategyFailure(c))
    + Unless(!Before(c.signalValidUntil, c.checkTime), SignalExpired)
    + Unless(c.qmtAdapterAvailable == Some(true), AdapterFailure(c))
  }

  function AccountAndPositionFailures(c: Context): seq<Failure> {
    Unless(AccountOk(c), AccountFailure(c))
    + Unless(PositionOk(c), PositionFailure(c))
    + Unless(ReservationOk(c), ReservationFailure(c))
  }

  function ModeFailures(c: Context): seq<Failure> {
    Unless(c.hasConflictingInflight == Some(false), InflightFailure(c))
    + Unless(ModeOk(c), ModeFailure(c))
    + Unless(c.ordersLastMinute < c.maxOrdersPerMinute, FrequencyExceeded)
  }

  function OrderAndSourceFailures(c: Context): seq<Failure> {
    Unless(ParamsOk(c), ParamsInvalid)
    + Unless(Fresh(c), StalePrice)
    + Unless(c.sourceIsDeterministic, SourceNonDeterministic)
    + Unless(c.requestFromExecutionService, UnauthorizedSource)
  }

  /** One failure for each condition that does not hold, in the order of the checks. */
  function Failures(c: Context): seq<Failure> {
    StrategyAndAdapterFailures(c) + AccountAndPositionFailures(c) + ModeFailures(c) + OrderAndSourceFailures(c)
  }

  /** How many checks are made; an old price is looked for only under a threshold. */
  function Checks(c: Context): nat {
    if c.stalePriceThreshold > 0.0 then 13 else 12
  }

  lemma InStrategyAndAdapter(c: Context, f: Failure)
    ensures f in StrategyAndAdapterFailures(c) <==>
      || (!StrategyOk(c) && f == StrategyFailure(c))
      || (Before(c.signalValidUntil, c.checkTime) && f == SignalExpired)
      || (c.qmtAdapterAvailable != Some(true) && f == AdapterFailure(c))
  {
  }

  lemma InAccountAndPosition(c: Context, f: Failure)
    ensures f in AccountAndPositionFailures(c) <==>
      || (!AccountOk(c) && f == AccountFailure(c))
      || (!PositionOk(c) && f == PositionFailure(c))
      || (!ReservationOk(c) && f == ReservationFailure(c))
  {
  }

  lemma InModes(c: Context, f: Failure)
    ensures f in ModeFailures(c) <==>
      || (c.hasConflictingInflight != Some(false) && f == InflightFailure(c))
      || (!ModeOk(c) && f == ModeFailure(c))
      || (c.ordersLastMinute >= c.maxOrdersPerMinute && f == FrequencyExceeded)
  {
  }

  lemma InOrderAndSource(c: Context, f: Failure)
    ensures f in OrderAndSourceFailures(c) <==>
      || (!ParamsOk(c) && f == ParamsInvalid)
      || (!Fresh(c) && f == StalePrice)
      || (!c.sourceIsDeterministic && f == SourceNonDeterministic)
      || (!c.requestFromExecutionService && f == UnauthorizedSource)
  {
  }

  lemma InFailures(c: Context, f: Failure)
    ensures f in Failures(c) <==>
      || f in StrategyAndAdapterFailures(c) || f in AccountAndPositionFailures(c)
      || f in ModeFailures(c) || f in OrderAndSourceFailures(c)
  {
    var a, b, m, o :=
      StrategyAndAdapterFailures(c), AccountAndPositionFailures(c), ModeFailures(c), OrderAndSourceFailures(c);
    assert Failures(c) == a + b + m + o;
  }

  lemma FindFailure(c: Context, f: Failure)
    ensures f in Failures(c) <==>
      || (!StrategyOk(c) && f == StrategyFailure(c))
      || (Before(c.signalValidUntil, c.checkTime) && f == SignalExpired)
      || (c.qmtAdapterAvailable != Some(true) && f == AdapterFailure(c))
      || (!AccountOk(c) && f == AccountFailure(c))
      || (!PositionOk(c) && f == PositionFailure(c))
      || (!ReservationOk(c) && f == ReservationFailure(c))
      || (c.hasConflictingInflight != Some(false) && f == InflightFailure(c))
      || (!ModeOk(c) && f == ModeFailure(c))
      || (c.ordersLastMinute >= c.maxOrdersPerMinute && f == FrequencyExceeded)
      || (!ParamsOk(c) && f == ParamsInvalid)
      || (!Fresh(c) && f == StalePrice)
      || (!c.sourceIsDeterministic && f == SourceNonDeterministic)
      || (!c.requestFromExecutionService && f == UnauthorizedSource)
  {
    InFailures(c, f);
    InStrategyAndAdapter(c, f);
    InAccountAndPosition(c, f);
    InModes(c, f);
    InOrderAndSource(c, f);
  }

  lemma UnauthorizedReported(c: Context)
    ensures UnauthorizedSource in Failures(c) <==> !c.requestFromExecutionService
  {
    FindFailure(c, UnauthorizedSource);
  }

  lemma NonDeterministicReported(c: Context)
    ensures SourceNonDeterministic in Failures(c) <==> !c.sourceIsDeterministic
  {
    FindFailure(c, SourceNonDeterministic);
  }

  lemma ParamsReported(c: Context)
    ensures ParamsInvalid in Failures(c) <==> !ParamsOk(c)
  {
    FindFailure(c, ParamsInvalid);
  }

  lemma KillSwitchReported(c: Context)
    ensures KillSwitchActive in Failures(c) <==> c.killSwitchActive == Some(true) && !c.isFlatten
  {
    FindFailure(c, KillSwitchActive);
    assert c.killSwitchActive.Some? && c.killSwitchActive.value <==> c.killSwitchActive == Some(true);
  }

  lemma AdapterReported(c: Context)
    ensures QmtUnavailable in Failures(c) <==> c.qmtAdapterAvailable == Some(false)
  {
    FindFailure(c, QmtUnavailable);
    assert c.qmtAdapterAvailable.Some? && !c.qmtAdapterAvailable.value <==> c.qmtAdapterAvailable == Some(false);
  }

  lemma ExpiryReported(c: Context, f: Failure)
    ensures f == SignalExpired ==> (f in Failures(c) <==> Before(c.signalValidUntil, c.checkTime))
    ensures f == ReservationExpired ==> (f in Failures(c) <==>
      || c.reservationStatus == Some(Expired)
      || (c.reservationStatus == Some(Active) && Before(c.reservationExpiresAt, c.checkTime)))
  {
    FindFailure(c, f);
  }

  lemma NoFailures(c: Context)
    ensures Failures(c) == [] <==> AllChecksPass(c)
  {
    assert |StrategyAndAdapterFailures(c)| == 0 <==>
      StrategyOk(c) && !Before(c.signalValidUntil, c.checkTime) && c.qmtAdapterAvailable == Some(true);
    assert |AccountAndPositionFailures(c)| == 0 <==> AccountOk(c) && PositionOk(c) && ReservationOk(c);
    assert |ModeFailures(c)| == 0 <==>
      c.hasConflictingInflight == Some(false) && ModeOk(c) && c.ordersLastMinute < c.maxOrdersPerMinute;
  }

  /** The failures the decision looks for by name stand for the conditions it is documented by. */
  lemma FailuresTellTheCause(c: Context)
    ensures Failures(c) == [] <==> AllChecksPass(c)
    ensures UnauthorizedSource in Failures(c) <==> !c.requestFromExecutionService
    ensures SourceNonDeterministic in Failures(c) <==> !c.sourceIsDeterministic
    ensures ParamsInvalid in Failures(c) <==> !ParamsOk(c)
    ensures KillSwitchActive in Failures(c) <==> c.killSwitchActive == Some(true) && !c.isFlatten
    ensures QmtUnavailable in Failures(c) <==> c.qmtAdapterAvailable == Some(false)
    ensures SignalExpired in Failures(c) || ReservationExpired in Failures(c) <==> HasExpired(c)
  {
    NoFailures(c);
    UnauthorizedReported(c);
    NonDeterministicReported(c);
    ParamsReported(c);
    KillSwitchReported(c);
    AdapterReported(c);
    ExpiryReported(c, SignalExpired);
    ExpiryReported(c, ReservationExpired);
  }

  /** What is wrong about the strategy is reported by name. */
  lemma StandingReported(c: Context, f: Failure)
    ensures match f
      case StrategyNotProvided => f in Failures(c) <==> c.strategyStatus.None?
      case StrategyCloseOnly =>
        f in Failures(c) <==> c.strategyStatus == Some(CloseOnly) && !c.isFlatten && c.side != "sell"
      case StrategyPauseOpen =>
        f in Failures(c) <==> c.strategyStatus == Some(PauseOpen) && !c.isFlatten && c.side != "sell"
      case StrategyStatusBad(s) =>
        f in Failures(c) <==> c.strategyStatus == Some(s) && s != LiveRunning && s != CloseOnly && s != PauseOpen
      case _ => true
  {
    FindFailure(c, f);
  }

  /** So is what is missing or wrong about adapter and account. */
  lemma ConnectionReported(c: Context, f: Failure)
    ensures match f
      case QmtNotProvided => f in Failures(c) <==> c.qmtAdapterAvailable == None
      case AccountNotProvided => f in Failures(c) <==> c.accountRiskStatus == None
      case AccountBad(risk) =>
        f in Failures(c) <==> c.accountRiskStatus == Some(risk) && risk != "normal" && risk != "warning"
      case _ => true
  {
    FindFailure(c, f);
  }

  /** So is what stands in the way of the order itself: too few settled shares, or its reservation. */
  lemma MeansReported(c: Context, f: Failure)
    ensures var settled := c.availableQuantity - c.todayBoughtQuantity;
      match f
      case PositionAllBlocked =>
        f in Failures(c) <==> c.side == "sell" && (settled < 0 || (settled == 0 && c.todayBoughtQuantity > 0))
      case PositionInsufficient =>
        f in Failures(c) <==> c.side == "sell" && 0 <= settled < c.quantity
                              && (settled == 0 ==> c.todayBoughtQuantity <= 0)
      case ReservationBad(s) =>
        f in Failures(c) <==> c.reservationStatus == Some(s) && s != Active && s != Expired
      case _ => true
  {
    FindFailure(c, f);
  }

  /** Conflicting orders, modes, the frequency limit and an old price. */
  lemma ObstaclesReported(c: Context, f: Failure)
    ensures match f
      case InflightNotProvided => f in Failures(c) <==> c.hasConflictingInflight == None
      case ConflictingInflight => f in Failures(c) <==> c.hasConflictingInflight == Some(true)
      case KillSwitchNotProvided => f in Failures(c) <==> c.killSwitchActive == None
      case CloseOnlyNoBuy =>
        f in Failures(c) <==> c.killSwitchActive == Some(false) && c.closeOnlyMode && !c.isFlatten && c.side == "buy"
      case FrequencyExceeded => f in Failures(c) <==> c.maxOrdersPerMinute <= c.ordersLastMinute
      case StalePrice =>
        f in Failures(c) <==> c.stalePriceThreshold > 0.0 && c.stalePriceThreshold < c.referencePriceAge
      case _ => true
  {
    FindFailure(c, f);
    assert c.hasConflictingInflight.None? || c.hasConflictingInflight.value
      || c.hasConflictingInflight == Some(false);
    assert c.killSwitchActive.None? || c.killSwitchActive.value || c.killSwitchActive == Some(false);
  }

  // ---------------------------------------------------------------- the check as performed

  method CheckStrategyAndAdapter(c: Context) returns (passed: nat, failed: seq<Failure>)
    ensures failed == StrategyAndAdapterFailures(c) && passed + |failed| == 3
  {
    passed, failed := 0, [];
    // 1. strategy status
    if c.strategyStatus.None? {
      failed := failed + [StrategyNotProvided];
    } else if c.strategyStatus.value == LiveRunning || (c.strategyStatus.value == CloseOnly && c.isFlatten) {
      passed := passed + 1;
    } else if c.strategyStatus.value == CloseOnly && !c.isFlatten {
      if c.side == "sell" {
        passed := passed + 1;
      } else {
        failed := failed + [StrategyCloseOnly];
      }
    } else if c.strategyStatus.value == PauseOpen {
      if c.isFlatten || c.side == "sell" {
        passed := passed + 1;
      } else {
        failed := failed + [StrategyPauseOpen];
      }
    } else {
      failed := failed + [StrategyStatusBad(c.strategyStatus.value)];
    }
    assert failed == Unless(StrategyOk(c), StrategyFailure(c));

    // 2. signal expiry
    if c.signalValidUntil.Some? && c.signalValidUntil.value < c.checkTime {
      failed := failed + [SignalExpired];
    } else {
      passed := passed + 1;
    }

    // 3. adapter
    if c.qmtAdapterAvailable.None? {
      failed := failed + [QmtNotProvided];
    } else if c.qmtAdapterAvailable.value {
      passed := passed + 1;
    } else {
      failed := failed + [QmtUnavailable];
    }
  }

  method CheckAccountAndPosition(c: Context) returns (passed: nat, failed: seq<Failure>)
    ensures failed == AccountAndPositionFailures(c) && passed + |failed| == 3
  {
    passed, failed := 0, [];
    // 4. account, 5. position
    if c.accountRiskStatus.None? {
      failed := failed + [AccountNotProvided];
    } else if c.accountRiskStatus.value == "normal" || c.accountRiskStatus.value == "warning" {
      passed := passed + 1;
    } else {
      failed := failed + [AccountBad(c.accountRiskStatus.value)];
    }
    if c.side == "sell" {
      var sellable := c.availableQuantity - c.todayBoughtQuantity;
      if sellable < 0 || (sellable == 0 && c.todayBoughtQuantity > 0) {
        failed := failed + [PositionAllBlocked];
      } else if sellable >= c.quantity {
        passed := passed + 1;
      } else {
        failed := failed + [PositionInsufficient];
      }
    } else {
      passed := passed + 1;
    }

    // 6. reservation
    if c.reservationStatus == Some(Active) {
      if c.reservationExpiresAt.Some? && c.reservationExpiresAt.value < c.checkTime {
        failed := failed + [ReservationExpired];
      } else {
        passed := passed + 1;
      }
    } else if c.reservationStatus.None? {
      passed := passed + 1;
    } else {
      failed := failed + [NamedAfter(c.reservationStatus.value)];
    }
  }

  method CheckModes(c: Context) returns (passed: nat, failed: seq<Failure>)
    ensures failed == ModeFailures(c) && passed + |failed| == 3
  {
    passed, failed := 0, [];
    // 7. conflicting orders, 8. kill switch and close-only mode, 9. frequency
    if c.hasConflictingInflight.None? {
      failed := failed + [InflightNotProvided];
    } else if !c.hasConflictingInflight.value {
      passed := passed + 1;
    } else {
      failed := failed + [ConflictingInflight];
    }
    if c.killSwitchActive.None? {
      failed := failed + [KillSwitchNotProvided];
    } else if c.killSwitchActive.value {
      if c.isFlatten {
        passed := passed + 1;
      } else {
        failed := failed + [KillSwitchActive];
      }
    } else if c.closeOnlyMode && !c.isFlatten && c.side == "buy" {
      failed := failed + [CloseOnlyNoBuy];
    } else {
      passed := passed + 1;
    }
    if c.ordersLastMinute < c.maxOrdersPerMinute {
      passed := passed + 1;
    } else {
      failed := failed + [FrequencyExceeded];
    }
  }

  method CheckOrderAndSource(c: Context) returns (passed: nat, failed: seq<Failure>)
    ensures failed == OrderAndSourceFailures(c) && passed + |failed| == Checks(c) - 9
  {
    passed, failed := 0, [];
    // 10. parameters and staleness, 11. source, 12. requester
    if c.price > 0.0 && c.quantity > 0 && c.instrument != "" {
      passed := passed + 1;
    } else {
      failed := failed + [ParamsInvalid];
    }
    if c.stalePriceThreshold > 0.0 {
      if c.referencePriceAge > c.stalePriceThreshold {
        failed := failed + [StalePrice];
      } else {
        passed := passed + 1;
      }
    }
    if c.sourceIsDeterministic {
      passed := passed + 1;
    } else {
      failed := failed + [SourceNonDeterministic];
    }
    if c.requestFromExecutionService {
      passed := passed + 1;
    } else {
      failed := failed + [UnauthorizedSource];
    }
  }

  /** Runs every check, collecting failures, then decides from the collected list. The failures reported are
      exactly the conditions that do not hold; every check either passes or is among them. */
  method Execute(c: Context) returns (d: Detail)
    ensures d.result == Verdict(c)
    ensures d.failed == Failures(c)
    ensures d.passed + |d.failed| == Checks(c)
  {
    var p1, f1 := CheckStrategyAndAdapter(c);
    var p2, f2 := CheckAccountAndPosition(c);
    var p3, f3 := CheckModes(c);
    var p4, f4 := CheckOrderAndSource(c);
    var failed := f1 + f2 + f3 + f4;
    FailuresTellTheCause(c);

    var critical := || UnauthorizedSource in failed || SourceNonDeterministic in failed
                    || KillSwitchActive in failed || ParamsInvalid in failed;
    var result;
    if c.killSwitchActive == Some(true) && !c.isFlatten {
      result := Reject;
    } else if failed != [] {
      if critical {
        result := Reject;
      } else if QmtUnavailable in failed {
        result := RetryLater;
      } else if SignalExpired in failed || ReservationExpired in failed {
        result := Reject;
      } else {
        result := EscalateManual;
      }
    } else {
      result := Allow;
    }
    d := Detail(result, p1 + p2 + p3 + p4, failed);
  }
}
