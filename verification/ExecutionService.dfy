/** From a signal to an order request: risk, reservation, intent, final check, conversion. */
module ExecutionService {
  import opened Wrappers
  import opened Matcher
  import opened Reservation
  import Portfolio
  import FinalCheck
  import RiskEngine

  datatype Signal = Signal(signalType: SignalType, instrument: string, expired: bool, boundToDecision: bool)

  datatype OrderRequest = OrderRequest(
    account: string, instrument: string, side: Side, price: real, quantity: int, reservation: Option<nat>)

  datatype Failure =
    | ExpiredSignal | MissingDecisionSnapshot | RiskRejected | ForceFlattenDemanded | ReservationRefused(error: Error)
    | NoSide | InvalidIntent | ConversionFailed | ReleaseFailed

  datatype Outcome = Placed(order: OrderRequest) | NoOrder | Raised(failure: Failure)

  /** What the environment may do to one call: make the conversion or a release raise. */
  datatype Faults = Faults(conversion: bool, firstRelease: bool, secondRelease: bool)

  /** The final-check context is the caller's object; the pipeline overwrites four of its fields. */
  class CheckContext {
    var value: FinalCheck.Context

    constructor (value: FinalCheck.Context)
      ensures this.value == value
    {
      this.value := value;
    }
  }

  function DetermineSide(t: SignalType): Option<Side> {
    match t
    case OpenLong | CloseShort => Some(Buy)
    case CloseLong | OpenShort | Flatten => Some(Sell)
    case Hold => None
  }

  /** What filling an order does to the net holding. */
  function NetEffect(o: OrderRequest): int {
    if o.side == Buy then o.quantity else -o.quantity
  }

  /** An order trades in the direction of its signal: opening a long and closing a short add shares, closing a long,
      opening a short and flattening take shares off, and a hold never becomes an order. */
  ghost predicate TakesEffect(t: SignalType, o: OrderRequest) {
    && o.quantity > 0 && t != Hold
    && (t == OpenLong || t == CloseShort ==> NetEffect(o) > 0)
    && (t == CloseLong || t == OpenShort || t == Flatten ==> NetEffect(o) < 0)
  }

  /** Signals are mapped to sides as the matcher maps them; only a flatten, which it does not match, is new. */
  lemma SidesAgree(t: SignalType)
    ensures SignalToSide(t).Some? ==> DetermineSide(t) == SignalToSide(t)
    ensures DetermineSide(t).Some? && SignalToSide(t).None? ==> t == Flatten
    ensures DetermineSide(t).None? <==> t == Hold
  {
  }

  /** Closing what was opened, share for share, leaves nothing, long or short. */
  lemma CloseUndoesOpen(entry: SignalType, exit: SignalType, a: OrderRequest, b: OrderRequest)
    requires (entry == OpenLong && exit == CloseLong) || (entry == OpenShort && exit == CloseShort)
    requires TakesEffect(entry, a) && TakesEffect(exit, b) && a.quantity == b.quantity
    ensures NetEffect(a) + NetEffect(b) == 0
  {
  }

  /** The effect of an order is that of a trade of its side and size on the net shares of a log. */
  lemma EffectIsThatOfATrade(ts: seq<Portfolio.Trade>, trade: Portfolio.Trade, o: OrderRequest)
    requires trade.instrument == o.instrument && trade.side == o.side && trade.quantity == o.quantity
    ensures Portfolio.NetShares(ts + [trade], o.instrument) == Portfolio.NetShares(ts, o.instrument) + NetEffect(o)
  {
    Portfolio.AppendTrade(ts, trade);
  }

  predicate Opens(t: SignalType) {
    t == OpenLong || t == OpenShort
  }

  /** A resize counts only if it names a non-zero quantity. */
  function EffectiveQuantity(risk: RiskEngine.CheckResult, target: int): int {
    if risk.resultType == RiskEngine.Resize && risk.resizedQuantity.Some? && risk.resizedQuantity.value != 0
    then risk.resizedQuantity.value else target
  }

  function Populated(c: FinalCheck.Context, price: real, quantity: int, side: Side,
        instrument: string): FinalCheck.Context
  {
    c.(price := price, quantity := quantity, side := if side == Buy then "buy" else "sell", instrument := instrument)
  }

  function Value(price: real, quantity: int): real {
    price * quantity as real
  }

  /** Every release the failing pipeline would try raises: one, or two when the final check refused. */
  predicate AllReleasesFail(faults: Faults, refused: bool) {
    faults.firstRelease && (refused ==> faults.secondRelease)
  }

  /** The signal yields an intent the final check gets to see. */
  predicate IntentValid(signal: Signal, price: real, quantity: int) {
    DetermineSide(signal.signalType).Some? && quantity > 0 && price >= 0.0
  }

  /** The final check of the caller's context, overwritten with the intent. */
  function FinalVerdict(c: FinalCheck.Context, signal: Signal, price: real, quantity: int): FinalCheck.Result
    requires IntentValid(signal, price, quantity)
  {
    FinalCheck.Verdict(Populated(c, price, quantity, DetermineSide(signal.signalType).value, signal.instrument))
  }

  predicate Allowed(c: FinalCheck.Context, signal: Signal, price: real, quantity: int) {
    IntentValid(signal, price, quantity) && FinalVerdict(c, signal, price, quantity) == FinalCheck.Allow
  }

  predicate Refused(c: FinalCheck.Context, signal: Signal, price: real, quantity: int) {
    IntentValid(signal, price, quantity) && FinalVerdict(c, signal, price, quantity) != FinalCheck.Allow
  }

  /** The signal is valid and pre-trade risk lets it through. */
  predicate Screened(signal: Signal, risk: RiskEngine.CheckResult) {
    !signal.expired && signal.boundToDecision
      && (risk.resultType == RiskEngine.Allow || risk.resultType == RiskEngine.Resize)
  }

  predicate NeedsCash(signal: Signal, price: real) {
    Opens(signal.signalType) && price > 0.0
  }

  predicate CashFits(rows: seq<Row>, account: string, amount: real, cash: real) {
    0.0 <= amount <= cash - TotalReserved(rows, account)
  }

  /** The context holds what the final check was asked about. */
  ghost predicate AskedAbout(c: FinalCheck.Context, side: Side, price: real, quantity: int, instrument: string) {
    && c.price == price && c.quantity == quantity && c.instrument == instrument
    && c.side == match side case Buy => "buy" case Sell => "sell"
  }

  /** Why a signal that got past risk ends as it does; `c` is the context as it is left. */
  ghost predicate Settled(o: Outcome, signal: Signal, price: real, quantity: int, faults: Faults,
        c: FinalCheck.Context)
  {
    match o
    case Placed(order) =>
      && order.quantity == quantity > 0 && order.price == price >= 0.0 && order.instrument == signal.instrument
      && AskedAbout(c, order.side, price, quantity, signal.instrument)
      && FinalCheck.Verdict(c) == FinalCheck.Allow && !faults.conversion
    case NoOrder =>
      && signal.signalType != Hold && quantity > 0 && price >= 0.0
      && FinalCheck.Verdict(c) != FinalCheck.Allow
    case Raised(NoSide) => signal.signalType == Hold
    case Raised(InvalidIntent) => quantity <= 0 || price < 0.0
    case Raised(ConversionFailed) => faults.conversion && FinalCheck.Verdict(c) == FinalCheck.Allow
    case Raised(ReleaseFailed) => faults.firstRelease
    case _ => false
  }

  /** Why a signal ends as it does. */
  ghost predicate Explained(o: Outcome, signal: Signal, price: real, quantity: int, risk: RiskEngine.CheckResult,
        faults: Faults, c: FinalCheck.Context)
  {
    var valid := !signal.expired && signal.boundToDecision;
    match o
    case Raised(ExpiredSignal) => signal.expired
    case Raised(MissingDecisionSnapshot) => !signal.expired && !signal.boundToDecision
    case Raised(RiskRejected) => valid && risk.resultType == RiskEngine.Reject
    case Raised(ForceFlattenDemanded) => valid && risk.resultType == RiskEngine.ForceFlatten
    case Raised(ReservationRefused(_)) =>
      valid && price > 0.0 && (signal.signalType == OpenLong || signal.signalType == OpenShort)
    case _ =>
      && valid
      && ((o == NoOrder && risk.resultType == RiskEngine.Delay)
          || ((risk.resultType == RiskEngine.Allow || risk.resultType == RiskEngine.Resize)
              && Settled(o, signal, price, quantity, faults, c)))
  }

  class ExecutionService {
    const manager: ReservationManager

    constructor (manager: ReservationManager)
      ensures this.manager == manager
    {
      this.manager := manager;
    }

    method TryRelease(id: nat, raises: bool) returns (ok: bool)
      requires id < |manager.rows|
      modifies manager
      ensures ok == !raises
      ensures manager.rows == if ok
          then old(manager.rows)[id := old(manager.rows)[id].(status := FinalCheck.Released)] else old(manager.rows)
    {
      if raises {
        return false;
      }
      var r := manager.Release(id);
      ok := r.Ok?;
    }

    /** Intent, final check and conversion; any failure releases the reservation, if there is one. */
    method CheckAndConvert(signal: Signal, account: string, price: real, quantity: int, reservation: Option<nat>,
                           ctx: CheckContext, faults: Faults)
      returns (o: Outcome)
      requires reservation.Some? ==> reservation.value < |manager.rows|
      modifies manager, ctx
      ensures o.Placed? <==> Allowed(old(ctx.value), signal, price, quantity) && !faults.conversion
      ensures Settled(o, signal, price, quantity, faults, ctx.value)
      ensures o.Placed? ==>
        && TakesEffect(signal.signalType, o.order)
        && o.order == OrderRequest(account, signal.instrument, DetermineSide(signal.signalType).value, price, quantity,
                                   reservation)
        && ctx.value == Populated(old(ctx.value), price, quantity, o.order.side, signal.instrument)
        && manager.rows == old(manager.rows)
      ensures !o.Placed? ==>
        manager.rows ==
          if reservation.Some? && !AllReleasesFail(faults, Refused(old(ctx.value), signal, price, quantity))
          then old(manager.rows)[reservation.value :=
            old(manager.rows)[reservation.value].(status := FinalCheck.Released)]
          else old(manager.rows)
    {
      var side := DetermineSide(signal.signalType);
      var failure: Failure;
      if side.None? {
        failure := NoSide;
      } else if quantity <= 0 || price < 0.0 {
        failure := InvalidIntent;
      } else {
        ctx.value := Populated(ctx.value, price, quantity, side.value, signal.instrument);
        var detail := FinalCheck.Execute(ctx.value);
        if detail.result != FinalCheck.Allow {
          if reservation.Some? {
            var released := TryRelease(reservation.value, faults.firstRelease);
            if !released {
              var _ := TryRelease(reservation.value, faults.secondRelease);
              return Raised(ReleaseFailed);
            }
          }
          return NoOrder;
        }
        if !faults.conversion {
          return Placed(OrderRequest(account, signal.instrument, side.value, price, quantity, reservation));
        }
        failure := ConversionFailed;
      }
      if reservation.Some? {
        var released := TryRelease(reservation.value, faults.firstRelease);
        if !released {
          return Raised(ReleaseFailed);
        }
      }
      return Raised(failure);
    }

    /** Validation and pre-trade risk: an outcome if the signal stops here, else the quantity to trade. */
    method Screen(signal: Signal, target: int, risk: RiskEngine.CheckResult)
          returns (stop: Option<Outcome>, quantity: int)
      ensures stop.None? <==> Screened(signal, risk)
      ensures stop == if signal.expired then Some(Raised(ExpiredSignal))
        else if !signal.boundToDecision then Some(Raised(MissingDecisionSnapshot))
        else match risk.resultType
          case Reject => Some(Raised(RiskRejected))
          case ForceFlatten => Some(Raised(ForceFlattenDemanded))
          case Delay => Some(NoOrder)
          case _ => None
      ensures quantity == EffectiveQuantity(risk, target)
    {
      quantity := target;
      if risk.resultType == RiskEngine.Resize && risk.resizedQuantity.Some? && risk.resizedQuantity.value != 0 {
        quantity := risk.resizedQuantity.value;
      }
      if signal.expired {
        return Some(Raised(ExpiredSignal)), quantity;
      }
      if !signal.boundToDecision {
        return Some(Raised(MissingDecisionSnapshot)), quantity;
      }
      match risk.resultType {
        case Reject => stop := Some(Raised(RiskRejected));
        case ForceFlatten => stop := Some(Raised(ForceFlattenDemanded));
        case Delay => stop := Some(NoOrder);
        case _ => stop := None;
      }
    }

    /** An order comes out exactly if the signal passes the screen, its cash (if it opens a position) is
        reserved, the final check allows it and the conversion works. Otherwise nothing was reserved, or the
        row was released again unless every release attempted raised: that, and nothing else, leaves an
        account's total up, by the whole amount. */
    method ProcessSignal(signal: Signal, account: string, price: real, target: int, risk: RiskEngine.CheckResult,
                         ctx: CheckContext, now: real, faults: Faults)
      returns (o: Outcome)
      modifies manager, ctx
      ensures var rows, c, quantity := old(manager.rows), old(ctx.value), EffectiveQuantity(risk, target);
        var reserves := Screened(signal, risk) && NeedsCash(signal, price)
          && CashFits(rows, account, Value(price, quantity), c.accountAvailableCash);
        var row := NewRow(account, Value(price, quantity), now + manager.ttl, None);
        var leaks := !o.Placed? && reserves && AllReleasesFail(faults, Refused(c, signal, price, quantity));
        && (o.Placed? <==>
              && Screened(signal, risk) && (NeedsCash(signal, price) ==> reserves)
              && Allowed(c, signal, price, quantity) && !faults.conversion)
        && (o.Placed? ==>
              && TakesEffect(signal.signalType, o.order)
              && o.order.side == DetermineSide(signal.signalType).value
              && (o.order.reservation.Some? <==>
                    price > 0.0 && (signal.signalType == OpenLong || signal.signalType == OpenShort))
              && (risk.resultType == RiskEngine.Resize && risk.resizedQuantity.Some? ==>
                    risk.resizedQuantity.value == 0 || o.order.quantity == risk.resizedQuantity.value)
              && (risk.resultType == RiskEngine.Allow ==> o.order.quantity == target)
              && o.order == OrderRequest(account, signal.instrument, o.order.side, price, quantity,
                                         if reserves then Some(|rows|) else None)
              && ctx.value == Populated(c, price, quantity, o.order.side, signal.instrument))
        && Explained(o, signal, price, quantity, risk, faults, ctx.value)
        && (o.Placed? && o.order.reservation.Some? ==>
              |manager.rows| == |rows| + 1 && manager.rows[|rows|].amount == price * quantity as real)
        && manager.rows == (if !reserves then rows
                            else rows + [if o.Placed? || leaks then row else row.(status := FinalCheck.Released)])
        && (!o.Placed? ==> forall a ::
              TotalReserved(manager.rows, a) == TotalReserved(rows, a)
                + if leaks && a == account then Value(price, quantity) else 0.0)
    {
      var stop, quantity := Screen(signal, target, risk);
      if stop.Some? {
        return stop.value;
      }
      var reservation: Option<nat> := None;
      var amount := Value(price, quantity);
      ghost var before, row := manager.rows, NewRow(account, amount, now + manager.ttl, None);
      if Opens(signal.signalType) && price > 0.0 {
        var r := manager.Reserve(account, amount, Some(ctx.value.accountAvailableCash), now, None);
        if r.Err? {
          return Raised(ReservationRefused(r.error));
        }
        reservation := Some(r.value);
      }
      o := CheckAndConvert(signal, account, price, quantity, reservation, ctx, faults);
      var last: nat := |before|;
      assert (before + [row])[last := row.(status := FinalCheck.Released)]
          == before + [row.(status := FinalCheck.Released)];
      if !o.Placed? && manager.rows != before {
        Appended(before, manager.rows[last], manager.rows);
      }
    }

    /** Sends an order to the broker adapter, if there is one; a refused order gives its cash back. */
    method SubmitOrder(order: OrderRequest, adapter: Option<bool>, releaseRaises: bool) returns (sent: bool)
      requires order.reservation.Some? ==> order.reservation.value < |manager.rows|
      modifies manager
      ensures sent <==> adapter == Some(true)
      ensures var failed := adapter == Some(false) && order.reservation.Some? && !releaseRaises;
        manager.rows == if failed
          then old(manager.rows)[order.reservation.value :=
            old(manager.rows)[order.reservation.value].(status := FinalCheck.Released)]
          else old(manager.rows)
    {
      if adapter.None? {
        return false;
      }
      sent := adapter.value;
      if !sent && order.reservation.Some? {
        var _ := TryRelease(order.reservation.value, releaseRaises);
      }
    }
  }

  /** A row at the end of the table counts for its account while it is active, and for no other. */
  lemma Appended(before: seq<Row>, row: Row, after: seq<Row>)
    requires after == before + [row]
    ensures forall a ::
      TotalReserved(after, a)
        == TotalReserved(before, a) + if IsActive(row) && a == row.account then row.amount else 0.0
  {
    forall a
      ensures TotalReserved(after, a)
           == TotalReserved(before, a) + if IsActive(row) && a == row.account then row.amount else 0.0
    {
      TotalAppend(before, row, a);
    }
  }
}
