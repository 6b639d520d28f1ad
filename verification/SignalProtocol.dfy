/** Whole signals interleaved with each other and with any other calls on reservations. A signal is a coroutine
    that awaits its call to reserve, then the final check and the conversion, and after a failure its calls to
    release; those calls are calls of the reservation protocol and move on their own. */
module SignalProtocol {
  import opened Wrappers
  import opened Reservation
  import opened ReservationProtocol

  /** With an order, or without one; then the reservation may be left behind because no release worked. */
  datatype Ending = Placed | Stopped(leaked: bool)

  datatype Stage =
    | AwaitsReserve
    | AwaitsCheck
    | AwaitsRelease(call: nat, again: bool)
    | Ended(ending: Ending)

  /** A signal that got past risk; `reserve` is its call to reserve, if it opens a position. */
  datatype Signal = Signal(reserve: Option<nat>, stage: Stage)

  datatype System = System(base: State, signals: map<nat, Signal>)

  /** How what the signal awaited has gone. */
  datatype Outcome = Fine | Refused | Raised

  /** Another call moves or starts, a signal begins, or a signal is resumed; `call` is the id of the call to
      release it may make then. */
  datatype Move =
    | Other(action: Action)
    | Begin(sid: nat, reserve: Option<(nat, Task)>)
    | Resume(sid: nat, outcome: Outcome, call: nat)

  const NO_SIGNALS := System(INITIAL, map[])

  /** The row the signal's call to reserve has stored. */
  function OwnRow(base: State, g: Signal): Option<nat> {
    if g.reserve.Some? && g.reserve.value in base.tasks then ReservedId(base.tasks[g.reserve.value]) else None
  }

  function At(s: System, sid: nat, g: Signal, stage: Stage): System {
    s.(signals := s.signals[sid := g.(stage := stage)])
  }

  /** A failure after reserving: a call to release is made, if there is something to release. */
  function GiveBack(s: System, sid: nat, g: Signal, again: bool, call: nat): System {
    match OwnRow(s.base, g)
    case None => At(s, sid, g, Ended(Stopped(false)))
    case Some(id) =>
      if call in s.base.tasks then s
      else At(s.(base := Step(s.base, Spawn(call, Releasing(id, false, false)))), sid, g, AwaitsRelease(call, again))
  }

  /** The call to reserve has come back. */
  predicate HasReturned(base: State, p: nat) {
    p in base.tasks && base.tasks[p].Reserving? && base.tasks[p].at.Finished?
  }

  function ResumeSignal(s: System, sid: nat, g: Signal, outcome: Outcome, call: nat): System {
    match g.stage
    case AwaitsReserve =>
      if g.reserve.None? || !HasReturned(s.base, g.reserve.value) then s
      else if OwnRow(s.base, g).None? then At(s, sid, g, Ended(Stopped(false)))
      else At(s, sid, g, AwaitsCheck)
    case AwaitsCheck =>
      // a refusal releases and, if that raises, releases again; anything raised releases once
      if outcome == Fine then At(s, sid, g, Ended(Placed)) else GiveBack(s, sid, g, outcome == Refused, call)
    case AwaitsRelease(q, again) =>
      if outcome == Raised then
        if again then GiveBack(s, sid, g, false, call) else At(s, sid, g, Ended(Stopped(true)))
      else if q in s.base.tasks && s.base.tasks[q].Releasing? && s.base.tasks[q].released
      then At(s, sid, g, Ended(Stopped(false)))
      else s
    case Ended(_) => s
  }

  function BeginSignal(s: System, sid: nat, reserve: Option<(nat, Task)>): System {
    if sid in s.signals then s
    else
      match reserve
      case None => s.(signals := s.signals[sid := Signal(None, AwaitsCheck)])
      case Some((p, t)) =>
        if p in s.base.tasks || !t.Reserving? || !Starting(t) then s
        else System(Step(s.base, Spawn(p, t)), s.signals[sid := Signal(Some(p), AwaitsReserve)])
  }

  function Apply(s: System, m: Move): System {
    match m
    case Other(a) => s.(base := Step(s.base, a))
    case Begin(sid, reserve) => BeginSignal(s, sid, reserve)
    case Resume(sid, outcome, call) =>
      if sid in s.signals then ResumeSignal(s, sid, s.signals[sid], outcome, call) else s
  }

  function ApplyAll(s: System, moves: seq<Move>): System {
    if moves == [] then s else Apply(ApplyAll(s, moves[..|moves|-1]), moves[|moves|-1])
  }

  // ---------------------------------------------------------------- a move is at most one step of the calls

  /** What the move does to the calls. */
  function BaseAction(s: System, m: Move): Option<Action> {
    match m
    case Other(a) => Some(a)
    case Begin(sid, Some((p, t))) => if sid in s.signals || !t.Reserving? then None else Some(Spawn(p, t))
    case Resume(sid, outcome, call) =>
      if sid in s.signals && OwnRow(s.base, s.signals[sid]).Some?
        && (match s.signals[sid].stage
            case AwaitsCheck => outcome != Fine
            case AwaitsRelease(_, again) => again && outcome == Raised
            case _ => false)
      then Some(Spawn(call, Releasing(OwnRow(s.base, s.signals[sid]).value, false, false)))
      else None
    case _ => None
  }

  lemma MoveIsAStep(s: System, m: Move)
    ensures Apply(s, m).base == match BaseAction(s, m) case None => s.base case Some(a) => Step(s.base, a)
  {
  }

  // ---------------------------------------------------------------- what steps of the calls leave alone

  /** The call goes on as the call it was; what it stored or returned stays. */
  lemma TaskPersists(s: State, a: Action, p: nat)
    requires p in s.tasks
    ensures var t, s' := s.tasks[p], Step(s, a);
      && p in s'.tasks
      && (t.Reserving? ==>
            && s'.tasks[p].Reserving? && (t.at.Finished? ==> s'.tasks[p] == t)
            && s'.tasks[p].account == t.account && s'.tasks[p].amount == t.amount)
      && (ReservedId(t).Some? ==> ReservedId(s'.tasks[p]) == ReservedId(t))
      && (t.Releasing? ==> s'.tasks[p].Releasing? && s'.tasks[p].releaseId == t.releaseId)
  {
  }

  /** The call to release is one for this row, and once it has come back the row is inactive. */
  ghost predicate ReleaseOk(base: State, q: nat, id: nat) {
    && id < |base.rows| && q in base.tasks
    && base.tasks[q].Releasing? && base.tasks[q].releaseId == id
    && (base.tasks[q].released ==> !IsActive(base.rows[id]))
  }

  lemma StepKeepsRelease(s: State, a: Action, q: nat, id: nat)
    requires ReleaseOk(s, q, id)
    ensures ReleaseOk(Step(s, a), q, id)
  {
    StepSettles(s, a);
    TaskPersists(s, a, q);
  }

  // ---------------------------------------------------------------- the invariant

  /** The signal has its own row, and it is inactive. */
  predicate GivenBack(base: State, g: Signal) {
    var own := OwnRow(base, g);
    own.Some? && own.value < |base.rows| && !IsActive(base.rows[own.value])
  }

  /** The signal never got a row and will not get one. */
  predicate NothingReserved(base: State, g: Signal) {
    OwnRow(base, g).None? && (g.reserve.Some? ==> HasReturned(base, g.reserve.value))
  }

  ghost predicate SignalOk(base: State, g: Signal) {
    && (g.reserve.Some? ==> g.reserve.value in base.tasks && base.tasks[g.reserve.value].Reserving?)
    && match g.stage
       case AwaitsReserve => g.reserve.Some?
       case AwaitsCheck => g.reserve.Some? ==> OwnRow(base, g).Some?
       case AwaitsRelease(q, _) => OwnRow(base, g).Some? && ReleaseOk(base, q, OwnRow(base, g).value)
       case Ended(Placed) => g.reserve.Some? ==> OwnRow(base, g).Some?
       case Ended(Stopped(false)) => NothingReserved(base, g) || GivenBack(base, g)
       case Ended(Stopped(true)) => OwnRow(base, g).Some?
  }

  lemma StepKeepsSignal(s: State, a: Action, g: Signal)
    requires SignalOk(s, g)
    ensures SignalOk(Step(s, a), g)
  {
    StepSettles(s, a);
    if g.reserve.Some? {
      TaskPersists(s, a, g.reserve.value);
    }
    if g.stage.AwaitsRelease? {
      StepKeepsRelease(s, a, g.stage.call, OwnRow(s, g).value);
    }
  }

  ghost predicate Inv(s: System) {
    && IdsOk(s.base) && IdsDistinct(s.base)
    && (forall sid :: sid in s.signals ==> SignalOk(s.base, s.signals[sid]))
    && (forall i, j :: i in s.signals && j in s.signals && i != j && s.signals[i].reserve.Some?
          ==> s.signals[i].reserve != s.signals[j].reserve)
  }

  lemma StepKeepsSystem(s: System, a: Action)
    requires Inv(s)
    ensures Inv(s.(base := Step(s.base, a)))
  {
    StepKeepsIds(s.base, a);
    StepKeepsDistinct(s.base, a);
    forall sid | sid in s.signals ensures SignalOk(Step(s.base, a), s.signals[sid]) {
      StepKeepsSignal(s.base, a, s.signals[sid]);
    }
  }

  lemma GiveBackKeepsInv(s: System, sid: nat, again: bool, call: nat)
    requires Inv(s) && sid in s.signals
    requires var g := s.signals[sid]; g.reserve.Some? ==> OwnRow(s.base, g).Some?
    ensures Inv(GiveBack(s, sid, s.signals[sid], again, call))
  {
    var g := s.signals[sid];
    if g.reserve.Some? && call !in s.base.tasks {
      var id := OwnRow(s.base, g).value;
      assert IdOk(s.base.rows, s.base.tasks[g.reserve.value]);
      StepKeepsSystem(s, Spawn(call, Releasing(id, false, false)));
    }
  }

  lemma ResumeKeepsInv(s: System, sid: nat, outcome: Outcome, call: nat)
    requires Inv(s) && sid in s.signals
    ensures Inv(ResumeSignal(s, sid, s.signals[sid], outcome, call))
  {
    var g := s.signals[sid];
    assert SignalOk(s.base, g);
    match g.stage
    case AwaitsReserve =>
    case AwaitsCheck =>
      if outcome != Fine {
        GiveBackKeepsInv(s, sid, outcome == Refused, call);
      }
    case AwaitsRelease(q, again) =>
      if outcome == Raised && again {
        GiveBackKeepsInv(s, sid, false, call);
      }
    case Ended(_) =>
  }

  lemma BeginKeepsInv(s: System, sid: nat, reserve: Option<(nat, Task)>)
    requires Inv(s)
    ensures Inv(BeginSignal(s, sid, reserve))
  {
    if reserve.Some? {
      StepKeepsSystem(s, Spawn(reserve.value.0, reserve.value.1));
    }
  }

  lemma MoveKeepsInv(s: System, m: Move)
    requires Inv(s)
    ensures Inv(Apply(s, m))
  {
    match m
    case Other(a) => StepKeepsSystem(s, a);
    case Begin(sid, reserve) => BeginKeepsInv(s, sid, reserve);
    case Resume(sid, outcome, call) =>
      if sid in s.signals {
        ResumeKeepsInv(s, sid, outcome, call);
      }
  }

  lemma {:induction false} MovesKeepInv(moves: seq<Move>)
    ensures Inv(ApplyAll(NO_SIGNALS, moves))
  {
    if moves != [] {
      MovesKeepInv(moves[..|moves|-1]);
      MoveKeepsInv(ApplyAll(NO_SIGNALS, moves[..|moves|-1]), moves[|moves|-1]);
    }
  }

  // ---------------------------------------------------------------- main results

  /** However signals, their releases and other calls interleave: a signal that ended without an order, and not
      because every release it made raised, has no active row of its own. One that ended with an order and opened
      a position has the row of the account and amount it asked for. */
  lemma NoSignalKeepsItsRow(moves: seq<Move>, sid: nat)
    requires sid in ApplyAll(NO_SIGNALS, moves).signals
    ensures var s := ApplyAll(NO_SIGNALS, moves);
      var g := s.signals[sid];
      var own := OwnRow(s.base, g);
      && (g.stage == Ended(Stopped(false)) ==>
            own.None? || (own.value < |s.base.rows| && !IsActive(s.base.rows[own.value])))
      && (g.stage == Ended(Placed) && g.reserve.Some? ==>
            && own.Some? && own.value < |s.base.rows| && g.reserve.value in s.base.tasks
            && var t, row := s.base.tasks[g.reserve.value], s.base.rows[own.value];
              && t.Reserving? && row.account == t.account && row.amount == t.amount)
  {
    MovesKeepInv(moves);
    var s := ApplyAll(NO_SIGNALS, moves);
    assert SignalOk(s.base, s.signals[sid]);
    if s.signals[sid].reserve.Some? {
      assert IdOk(s.base.rows, s.base.tasks[s.signals[sid].reserve.value]);
    }
  }

  /** And no row has two owners. */
  lemma RowsHaveOneOwner(moves: seq<Move>, i: nat, j: nat)
    requires var s := ApplyAll(NO_SIGNALS, moves); i in s.signals && j in s.signals && i != j
    ensures var s := ApplyAll(NO_SIGNALS, moves);
      OwnRow(s.base, s.signals[i]).Some? ==> OwnRow(s.base, s.signals[i]) != OwnRow(s.base, s.signals[j])
  {
    MovesKeepInv(moves);
  }

  /** No call to reserve, of a signal or not, is told of more cash than the broker holds for its account. */
  ghost predicate MovesBounded(moves: seq<Move>, broker: string -> real) {
    forall k :: 0 <= k < |moves| ==> MoveBounded(moves[k], broker)
  }

  predicate MoveBounded(m: Move, broker: string -> real) {
    match m
    case Other(Spawn(_, t)) => t.Reserving? ==> t.cash <= broker(t.account)
    case Begin(_, Some((_, t))) => t.Reserving? ==> t.cash <= broker(t.account)
    case _ => true
  }

  lemma {:induction false} MovesKeepBase(moves: seq<Move>, broker: string -> real)
    requires MovesBounded(moves, broker)
    ensures ReservationProtocol.Inv(ApplyAll(NO_SIGNALS, moves).base, broker)
  {
    if moves != [] {
      var last := |moves| - 1;
      var s := ApplyAll(NO_SIGNALS, moves[..last]);
      MovesKeepBase(moves[..last], broker);
      MoveIsAStep(s, moves[last]);
      assert MoveBounded(moves[last], broker);
      if BaseAction(s, moves[last]).Some? {
        StepKeepsInv(s.base, BaseAction(s, moves[last]).value, broker);
      }
    }
  }

  /** With whole signals interleaving, too, what is reserved on an account never exceeds its cash. */
  lemma SignalsNeverOverReserve(moves: seq<Move>, broker: string -> real, account: string)
    requires MovesBounded(moves, broker)
    ensures 0.0 <= TotalReserved(ApplyAll(NO_SIGNALS, moves).base.rows, account) <= Max(broker(account), 0.0)
  {
    MovesKeepBase(moves, broker);
    TotalNonNegative(ApplyAll(NO_SIGNALS, moves).base.rows, account);
  }

  // ---------------------------------------------------------------- how a signal ends

  /** After the check: only a signal let through ends with an order. One that is not makes a call to release its row, if
      it has one, and may make a second only after a refusal. */
  lemma CheckDecides(s: System, sid: nat, outcome: Outcome, call: nat)
    requires sid in s.signals && s.signals[sid].stage == AwaitsCheck && call !in s.base.tasks
    ensures var g, s' := s.signals[sid], Apply(s, Resume(sid, outcome, call)); var own := OwnRow(s.base, g);
      && (outcome == Fine ==> s'.signals[sid].stage == Ended(Placed))
      && (outcome != Fine && own.None? ==> s'.signals[sid].stage == Ended(Stopped(false)))
      && (outcome != Fine && own.Some? ==>
            && s'.signals[sid].stage == AwaitsRelease(call, outcome == Refused)
            && s'.base.tasks == s.base.tasks[call := Releasing(own.value, false, false)])
      && (outcome == Fine || own.None? ==> s'.base == s.base)
      && s'.signals == s.signals[sid := s'.signals[sid]] && s'.base.rows == s.base.rows
  {
  }

  /** After a call to release: one that came back ends the signal; one that raised is followed by another if it may be,
      and else the row is left. */
  lemma ReleaseDecides(s: System, sid: nat, outcome: Outcome, call: nat)
    requires sid in s.signals && s.signals[sid].stage.AwaitsRelease? && call !in s.base.tasks
    ensures var g, s' := s.signals[sid], Apply(s, Resume(sid, outcome, call)); var own := OwnRow(s.base, g);
      var back := g.stage.call in s.base.tasks && s.base.tasks[g.stage.call].Releasing?
        && s.base.tasks[g.stage.call].released;
      && (outcome != Raised ==> s'.signals[sid].stage == (if back then Ended(Stopped(false)) else g.stage))
      && (outcome == Raised && !g.stage.again ==> s'.signals[sid].stage == Ended(Stopped(true)))
      && (outcome == Raised && g.stage.again && own.Some? ==>
            && s'.signals[sid].stage == AwaitsRelease(call, false)
            && s'.base.tasks == s.base.tasks[call := Releasing(own.value, false, false)])
      && s'.signals == s.signals[sid := s'.signals[sid]] && s'.base.rows == s.base.rows
  {
  }
}
