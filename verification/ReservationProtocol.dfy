/** Every interleaving of reserve, consume, release and expire. A call is a coroutine that can be
    suspended wherever it awaits the lock or the repository; a schedule says who moves next. */
module ReservationProtocol {
  import opened Wrappers
  import opened Reservation
  import FinalCheck

  /** Where a call to reserve is. From `Holding` to `Created` it holds the account's lock. */
  datatype ReservePoint =
    | Queued | Holding | Read(total: real) | Passed(total: real) | Created(id: nat) | Finished(reserved: Option<nat>)

  datatype Task =
    | Reserving(
      account: string, amount: real, cash: real, expiresAt: real, intent: Option<string>, at: ReservePoint)
    | Consuming(consumeId: nat, taken: real, found: Option<Row>, consumed: bool)
    | Releasing(releaseId: nat, looked: bool, released: bool)
    | Expiring(now: real, due: seq<nat>, listed: bool)

  datatype State = State(rows: seq<Row>, locks: map<string, nat>, tasks: map<nat, Task>)

  datatype Action = Spawn(pid: nat, task: Task) | Advance(pid: nat)

  const INITIAL := State([], map[], map[])

  /** A call that has not done anything yet. */
  predicate Starting(t: Task) {
    match t
    case Reserving(_, _, _, _, _, at) => at == Queued
    case Consuming(_, _, found, over) => found.None? && !over
    case Releasing(_, looked, over) => !looked && !over
    case Expiring(_, due, listed) => due == [] && !listed
  }

  function StepReserve(s: State, pid: nat, t: Task): State
    requires t.Reserving?
  {
    match t.at
    case Queued =>
      // waits for the account's lock
      if t.account in s.locks then s
      else s.(locks := s.locks[t.account := pid], tasks := s.tasks[pid := t.(at := Holding)])
    case Holding =>
      // the repository sums the active rows; the answer arrives when the call is resumed
      s.(tasks := s.tasks[pid := t.(at := Read(TotalReserved(s.rows, t.account)))])
    case Read(total) =>
      // checks; a refusal leaves the critical section
      if t.amount > t.cash - total || t.amount < 0.0
      then s.(locks := s.locks - {t.account}, tasks := s.tasks[pid := t.(at := Finished(None))])
      else s.(tasks := s.tasks[pid := t.(at := Passed(total))])
    case Passed(_) =>
      // the repository stores the row, unless the unique index makes it raise inside the critical section
      if Indexed(s.rows, t.account, t.intent)
      then s.(locks := s.locks - {t.account}, tasks := s.tasks[pid := t.(at := Finished(None))])
      else s.(rows := s.rows + [NewRow(t.account, t.amount, t.expiresAt, t.intent)],
              tasks := s.tasks[pid := t.(at := Created(|s.rows|))])
    case Created(id) =>
      s.(locks := s.locks - {t.account}, tasks := s.tasks[pid := t.(at := Finished(Some(id)))])
    case Finished(_) => s
  }

  /** consume reads a row, checks the copy it read, and writes its status and consumed amount later. */
  function StepConsume(s: State, pid: nat, t: Task): State
    requires t.Consuming?
  {
    if t.consumed then s
    else if t.found.None? then
      if t.consumeId < |s.rows| && IsActive(s.rows[t.consumeId])
      then s.(tasks := s.tasks[pid := t.(found := Some(s.rows[t.consumeId]))])
      else s.(tasks := s.tasks[pid := t.(consumed := true)])
    else if t.consumeId < |s.rows| then
      var w := Consumed(t.found.value, t.taken);
      s.(rows := s.rows[t.consumeId := s.rows[t.consumeId].(consumed := w.consumed, status := w.status)],
         tasks := s.tasks[pid := t.(consumed := true)])
    else s
  }

  function StepRelease(s: State, pid: nat, t: Task): State
    requires t.Releasing?
  {
    if t.released then s
    else if !t.looked
    then s.(tasks := s.tasks[pid := if t.releaseId < |s.rows| then t.(looked := true) else t.(released := true)])
    else if t.releaseId < |s.rows| then
      s.(rows := s.rows[t.releaseId := s.rows[t.releaseId].(status := FinalCheck.Released)],
         tasks := s.tasks[pid := t.(released := true)])
    else s
  }

  /** The ids of the overdue rows. */
  function DueIds(rows: seq<Row>, now: real): seq<nat> {
    if rows == [] then []
    else DueIds(rows[..|rows|-1], now) + if Overdue(rows[|rows|-1], now) then [|rows|-1] else []
  }

  /** expire lists the overdue rows once, then writes them one by one, whatever they have become. */
  function StepExpire(s: State, pid: nat, t: Task): State
    requires t.Expiring?
  {
    if !t.listed then s.(tasks := s.tasks[pid := t.(due := DueIds(s.rows, t.now), listed := true)])
    else if t.due == [] then s
    else if t.due[0] < |s.rows| then
      s.(rows := s.rows[t.due[0] := s.rows[t.due[0]].(status := FinalCheck.Expired)],
         tasks := s.tasks[pid := t.(due := t.due[1..])])
    else s
  }

  function Step(s: State, a: Action): State {
    match a
    case Spawn(pid, task) => if pid in s.tasks || !Starting(task) then s else s.(tasks := s.tasks[pid := task])
    case Advance(pid) =>
      if pid !in s.tasks then s
      else
        var t := s.tasks[pid];
        match t
        case Reserving(_, _, _, _, _, _) => StepReserve(s, pid, t)
        case Consuming(_, _, _, _) => StepConsume(s, pid, t)
        case Releasing(_, _, _) => StepRelease(s, pid, t)
        case Expiring(_, _, _) => StepExpire(s, pid, t)
  }

  function Run(s: State, schedule: seq<Action>): State {
    if schedule == [] then s else Step(Run(s, schedule[..|schedule|-1]), schedule[|schedule|-1])
  }

  /** No call to reserve is told of more cash than the broker holds for its account. */
  ghost predicate CashBounded(schedule: seq<Action>, broker: string -> real) {
    forall k :: 0 <= k < |schedule| && schedule[k].Spawn? && schedule[k].task.Reserving? ==>
      schedule[k].task.cash <= broker(schedule[k].task.account)
  }

  // ---------------------------------------------------------------- invariant

  predicate InCriticalSection(t: Task) {
    t.Reserving? && !t.at.Queued? && !t.at.Finished?
  }

  predicate Holds(t: Task, account: string) {
    InCriticalSection(t) && t.account == account
  }

  function Max(a: real, b: real): real {
    if a < b then b else a
  }

  /** What the call holding an account's lock may rely on: the total it read can only have shrunk. */
  ghost predicate HolderKnows(rows: seq<Row>, t: Task)
    requires t.Reserving?
  {
    && (t.at.Read? ==> TotalReserved(rows, t.account) <= t.at.total)
    && (t.at.Passed? ==> TotalReserved(rows, t.account) <= t.at.total && 0.0 <= t.amount <= t.cash - t.at.total)
  }

  ghost predicate RowsOk(rows: seq<Row>, broker: string -> real) {
    NonNegative(rows) && forall a :: TotalReserved(rows, a) <= Max(broker(a), 0.0)
  }

  ghost predicate CashOk(s: State, broker: string -> real) {
    forall p :: p in s.tasks && s.tasks[p].Reserving? ==> s.tasks[p].cash <= broker(s.tasks[p].account)
  }

  /** The lock of an account is held exactly by the call in its critical section. */
  ghost predicate LocksOk(s: State) {
    && (forall p :: p in s.tasks && InCriticalSection(s.tasks[p]) ==>
          s.tasks[p].account in s.locks && s.locks[s.tasks[p].account] == p)
    && (forall a :: a in s.locks ==>
          s.locks[a] in s.tasks && InCriticalSection(s.tasks[s.locks[a]]) && s.tasks[s.locks[a]].account == a)
  }

  ghost predicate HoldersOk(s: State) {
    forall p :: p in s.tasks && InCriticalSection(s.tasks[p]) ==> HolderKnows(s.rows, s.tasks[p])
  }

  ghost predicate Inv(s: State, broker: string -> real) {
    RowsOk(s.rows, broker) && CashOk(s, broker) && LocksOk(s) && HoldersOk(s)
  }

  /** A write that deactivates a row. */
  ghost predicate Deactivates(rows: seq<Row>, rows': seq<Row>) {
    exists k, r: Row {:trigger rows[k := r]} ::
      0 <= k < |rows| && rows' == rows[k := r] && !IsActive(r) && r.amount == rows[k].amount
  }

  lemma DeactivationOnlyLowers(rows: seq<Row>, rows': seq<Row>)
    requires NonNegative(rows) && Deactivates(rows, rows')
    ensures NonNegative(rows') && forall a :: TotalReserved(rows', a) <= TotalReserved(rows, a)
  {
    var k, r: Row :| 0 <= k < |rows| && rows' == rows[k := r] && !IsActive(r) && r.amount == rows[k].amount;
    forall a ensures TotalReserved(rows', a) <= TotalReserved(rows, a) {
      TotalUpdate(rows, k, r, a);
    }
  }

  /** The unlocked calls write nothing, or deactivate one row. */
  lemma UnlockedStep(s: State, pid: nat)
    requires pid in s.tasks && !s.tasks[pid].Reserving?
    ensures var s' := Step(s, Advance(pid));
      && s'.locks == s.locks && s'.tasks == s.tasks[pid := s'.tasks[pid]] && !s'.tasks[pid].Reserving?
      && (s'.rows == s.rows || Deactivates(s.rows, s'.rows))
  {
    var t := s.tasks[pid];
    var s' := Step(s, Advance(pid));
    assert s.tasks == s.tasks[pid := t];
    if s'.rows != s.rows {
      var k := match t
        case Consuming(id, _, _, _) => id
        case Releasing(id, _, _) => id
        case Expiring(_, due, _) => due[0];
      assert s'.rows == s.rows[k := s'.rows[k]];
    }
  }

  lemma UnlockedStepKeepsInv(s: State, pid: nat, broker: string -> real)
    requires Inv(s, broker) && pid in s.tasks && !s.tasks[pid].Reserving?
    ensures Inv(Step(s, Advance(pid)), broker)
  {
    UnlockedStep(s, pid);
    var s' := Step(s, Advance(pid));
    if s'.rows != s.rows {
      DeactivationOnlyLowers(s.rows, s'.rows);
    }
    forall p | p in s'.tasks && InCriticalSection(s'.tasks[p]) ensures p in s.tasks && s'.tasks[p] == s.tasks[p] {}
  }

  lemma ReserveStepKeepsLocks(s: State, pid: nat)
    requires LocksOk(s) && pid in s.tasks && s.tasks[pid].Reserving?
    ensures LocksOk(Step(s, Advance(pid)))
  {
    var t := s.tasks[pid];
    var s' := Step(s, Advance(pid));
    assert t.account in s'.locks ==> t.account in s.locks || t.at.Queued?;
    forall a | a in s'.locks
      ensures s'.locks[a] in s'.tasks && InCriticalSection(s'.tasks[s'.locks[a]]) && s'.tasks[s'.locks[a]].account == a
    {
      if a != t.account {
        assert a in s.locks && s'.locks[a] == s.locks[a] != pid;
      }
    }
  }

  lemma CreateRaises(s: State, pid: nat, a: string)
    requires pid in s.tasks && s.tasks[pid].Reserving? && s.tasks[pid].at.Passed?
    ensures var t, rows := s.tasks[pid], Step(s, Advance(pid)).rows;
      TotalReserved(rows, a)
        == TotalReserved(s.rows, a) + if a == t.account && !Indexed(s.rows, a, t.intent) then t.amount else 0.0
  {
    var t := s.tasks[pid];
    TotalAppend(s.rows, NewRow(t.account, t.amount, t.expiresAt, t.intent), a);
  }

  /** Storing the row keeps the total within the cash, because the lock kept the total read current. */
  lemma CreateKeepsInv(s: State, pid: nat, broker: string -> real)
    requires Inv(s, broker) && pid in s.tasks && s.tasks[pid].Reserving? && s.tasks[pid].at.Passed?
    ensures RowsOk(Step(s, Advance(pid)).rows, broker) && HoldersOk(Step(s, Advance(pid)))
  {
    var t := s.tasks[pid];
    var s' := Step(s, Advance(pid));
    assert HolderKnows(s.rows, t) && t.cash <= broker(t.account);
    forall a ensures TotalReserved(s'.rows, a) <= Max(broker(a), 0.0) {
      CreateRaises(s, pid, a);
    }
    forall p | p in s'.tasks && InCriticalSection(s'.tasks[p]) ensures HolderKnows(s'.rows, s'.tasks[p]) {
      if p != pid {
        assert s'.tasks[p] == s.tasks[p] && HolderKnows(s.rows, s.tasks[p]) && s.tasks[p].account != t.account;
        CreateRaises(s, pid, s.tasks[p].account);
      }
    }
  }

  lemma HolderStillKnows(s: State, pid: nat)
    requires pid in s.tasks && s.tasks[pid].Reserving? && !s.tasks[pid].at.Passed?
    requires InCriticalSection(s.tasks[pid]) ==> HolderKnows(s.rows, s.tasks[pid])
    ensures var s' := Step(s, Advance(pid));
      && s'.rows == s.rows && s'.tasks[pid].Reserving?
      && (InCriticalSection(s'.tasks[pid]) ==> HolderKnows(s.rows, s'.tasks[pid]))
      && s'.tasks == s.tasks[pid := s'.tasks[pid]] && s'.tasks[pid].cash == s.tasks[pid].cash
      && s'.tasks[pid].account == s.tasks[pid].account
  {
  }

  lemma ReserveStepKeepsInv(s: State, pid: nat, broker: string -> real)
    requires Inv(s, broker) && pid in s.tasks && s.tasks[pid].Reserving?
    ensures Inv(Step(s, Advance(pid)), broker)
  {
    ReserveStepKeepsLocks(s, pid);
    if s.tasks[pid].at.Passed? {
      CreateKeepsInv(s, pid, broker);
    } else {
      HolderStillKnows(s, pid);
      var s' := Step(s, Advance(pid));
      forall p | p in s'.tasks && InCriticalSection(s'.tasks[p]) ensures HolderKnows(s'.rows, s'.tasks[p]) {
        if p != pid {
          assert s'.tasks[p] == s.tasks[p];
        }
      }
    }
  }

  lemma StepKeepsInv(s: State, a: Action, broker: string -> real)
    requires Inv(s, broker)
    requires a.Spawn? && a.task.Reserving? ==> a.task.cash <= broker(a.task.account)
    ensures Inv(Step(s, a), broker)
  {
    if a.Advance? && a.pid in s.tasks {
      if s.tasks[a.pid].Reserving? {
        ReserveStepKeepsInv(s, a.pid, broker);
      } else {
        UnlockedStepKeepsInv(s, a.pid, broker);
      }
    }
  }

  lemma {:induction false} RunKeepsInv(schedule: seq<Action>, broker: string -> real)
    requires CashBounded(schedule, broker)
    ensures Inv(Run(INITIAL, schedule), broker)
  {
    if schedule != [] {
      var last := |schedule| - 1;
      assert forall k :: 0 <= k < last ==> schedule[..last][k] == schedule[k];
      RunKeepsInv(schedule[..last], broker);
      StepKeepsInv(Run(INITIAL, schedule[..last]), schedule[last], broker);
    }
  }

  // ---------------------------------------------------------------- main results

  /** However the calls interleave, what is reserved on an account never exceeds its cash. */
  lemma NeverOverReserved(schedule: seq<Action>, broker: string -> real, account: string)
    requires CashBounded(schedule, broker)
    ensures 0.0 <= TotalReserved(Run(INITIAL, schedule).rows, account) <= Max(broker(account), 0.0)
  {
    RunKeepsInv(schedule, broker);
    TotalNonNegative(Run(INITIAL, schedule).rows, account);
  }

  /** Only a call to reserve that holds the account's lock ever raises the account's total, and it
      raises it by exactly the amount asked for. */
  lemma OnlyReserveRaises(schedule: seq<Action>, broker: string -> real, a: Action, account: string)
    requires CashBounded(schedule, broker)
    ensures var s := Run(INITIAL, schedule);
      var s' := Step(s, a);
      TotalReserved(s'.rows, account) > TotalReserved(s.rows, account) ==>
        && a.Advance? && a.pid in s.tasks && s.tasks[a.pid].Reserving? && s.tasks[a.pid].at.Passed?
        && account in s.locks && s.locks[account] == a.pid
        && TotalReserved(s'.rows, account) == TotalReserved(s.rows, account) + s.tasks[a.pid].amount
  {
    RunKeepsInv(schedule, broker);
    var s := Run(INITIAL, schedule);
    if a.Advance? && a.pid in s.tasks {
      var t := s.tasks[a.pid];
      if t.Reserving? {
        TotalAppend(s.rows, NewRow(t.account, t.amount, t.expiresAt, t.intent), account);
      } else {
        UnlockedStep(s, a.pid);
        if Step(s, a).rows != s.rows {
          DeactivationOnlyLowers(s.rows, Step(s, a).rows);
        }
      }
    }
  }

  /** At most one call per account is in the critical section, and the lock is held exactly while
      one is: no refusal or completion leaks it. */
  lemma LockIsExclusiveAndNeverLeaked(schedule: seq<Action>, broker: string -> real, account: string)
    requires CashBounded(schedule, broker)
    ensures var s := Run(INITIAL, schedule);
      && (forall p, q | p in s.tasks && q in s.tasks && Holds(s.tasks[p], account) && Holds(s.tasks[q], account) ::
          p == q)
      && (account in s.locks <==> exists p :: p in s.tasks && Holds(s.tasks[p], account))
  {
    RunKeepsInv(schedule, broker);
  }

  // ---------------------------------------------------------------- what is released stays released

  /** Rows are never removed, keep account, amount and intent, and are never reactivated. */
  ghost predicate Settles(rows: seq<Row>, rows': seq<Row>) {
    |rows| <= |rows'| && forall k :: 0 <= k < |rows| ==>
      && rows'[k].account == rows[k].account && rows'[k].amount == rows[k].amount && rows'[k].intent == rows[k].intent
      && (!IsActive(rows[k]) ==> !IsActive(rows'[k]))
  }

  lemma StepSettles(s: State, a: Action)
    ensures Settles(s.rows, Step(s, a).rows)
  {
  }

  /** Whatever happens next, an inactive row stays inactive. */
  lemma {:induction false} NeverReactivated(s: State, schedule: seq<Action>)
    ensures Settles(s.rows, Run(s, schedule).rows)
  {
    if schedule != [] {
      var last := |schedule| - 1;
      NeverReactivated(s, schedule[..last]);
      StepSettles(Run(s, schedule[..last]), schedule[last]);
    }
  }

  /** The id of the row a call has stored. */
  function ReservedId(t: Task): Option<nat> {
    if !t.Reserving? then None
    else
      match t.at
      case Created(id) => Some(id)
      case Finished(reserved) => reserved
      case _ => None
  }

  /** The id stands for a row with the account and amount asked for. */
  ghost predicate IdOk(rows: seq<Row>, t: Task) {
    ReservedId(t).Some? ==>
      var id := ReservedId(t).value;
      id < |rows| && rows[id].account == t.account && rows[id].amount == t.amount
  }

  ghost predicate IdsOk(s: State) {
    forall p :: p in s.tasks ==> IdOk(s.rows, s.tasks[p])
  }

  lemma StepKeepsOwnId(s: State, pid: nat)
    requires pid in s.tasks && IdOk(s.rows, s.tasks[pid])
    ensures IdOk(Step(s, Advance(pid)).rows, Step(s, Advance(pid)).tasks[pid])
  {
    StepSettles(s, Advance(pid));
  }

  lemma StepKeepsIds(s: State, a: Action)
    requires IdsOk(s)
    ensures IdsOk(Step(s, a))
  {
    var s' := Step(s, a);
    StepSettles(s, a);
    forall p | p in s'.tasks ensures IdOk(s'.rows, s'.tasks[p]) {
      if p in s.tasks {
        if a == Advance(p) {
          StepKeepsOwnId(s, p);
        } else {
          assert s'.tasks[p] == s.tasks[p];
        }
      }
    }
  }

  /** No two calls were handed out the same id. */
  ghost predicate IdsDistinct(s: State) {
    forall p, q :: p in s.tasks && q in s.tasks && p != q && ReservedId(s.tasks[p]).Some?
      ==> ReservedId(s.tasks[p]) != ReservedId(s.tasks[q])
  }

  lemma ReservedIdNext(s: State, a: Action, p: nat)
    requires p in s.tasks && IdOk(s.rows, s.tasks[p])
    ensures var s' := Step(s, a);
      && p in s'.tasks
      && (a != Advance(p) ==> s'.tasks[p] == s.tasks[p])
      && (ReservedId(s'.tasks[p]) == ReservedId(s.tasks[p]) || ReservedId(s'.tasks[p]) == Some(|s.rows|))
      && (ReservedId(s.tasks[p]).Some? ==> ReservedId(s.tasks[p]).value < |s.rows|)
  {
  }

  /** A step hands out an id at most to the call that makes it, and a new one. */
  ghost predicate HandsOut(s: State, s': State, a: Action) {
    && (forall p :: p in s.tasks ==>
          && p in s'.tasks
          && (ReservedId(s.tasks[p]).Some? ==> ReservedId(s.tasks[p]).value < |s.rows|))
    && (forall p :: p in s.tasks ==>
          || ReservedId(s'.tasks[p]) == ReservedId(s.tasks[p])
          || (ReservedId(s'.tasks[p]) == Some(|s.rows|) && a == Advance(p)))
    && (forall p :: p in s'.tasks && p !in s.tasks ==> ReservedId(s'.tasks[p]).None?)
  }

  lemma StepHandsOut(s: State, a: Action)
    requires IdsOk(s)
    ensures HandsOut(s, Step(s, a), a)
  {
    forall p | p in s.tasks
      ensures p in Step(s, a).tasks && (a != Advance(p) ==> Step(s, a).tasks[p] == s.tasks[p])
      ensures ReservedId(s.tasks[p]).Some? ==> ReservedId(s.tasks[p]).value < |s.rows|
      ensures || ReservedId(Step(s, a).tasks[p]) == ReservedId(s.tasks[p])
              || ReservedId(Step(s, a).tasks[p]) == Some(|s.rows|)
    {
      ReservedIdNext(s, a, p);
    }
  }

  lemma HandingOutKeepsDistinct(s: State, s': State, a: Action)
    requires IdsDistinct(s) && HandsOut(s, s', a)
    ensures IdsDistinct(s')
  {
  }

  lemma StepKeepsDistinct(s: State, a: Action)
    requires IdsOk(s) && IdsDistinct(s)
    ensures IdsDistinct(Step(s, a))
  {
    StepHandsOut(s, a);
    HandingOutKeepsDistinct(s, Step(s, a), a);
  }

  lemma {:induction false} RunKeepsIds(schedule: seq<Action>)
    ensures IdsOk(Run(INITIAL, schedule))
  {
    if schedule != [] {
      var last := |schedule| - 1;
      RunKeepsIds(schedule[..last]);
      StepKeepsIds(Run(INITIAL, schedule[..last]), schedule[last]);
    }
  }

  /** Call `q` has released `id`. */
  predicate HasReleased(s: State, q: nat, id: nat) {
    q in s.tasks && s.tasks[q].Releasing? && s.tasks[q].releaseId == id && s.tasks[q].released
  }

  lemma {:induction false} ReleaseDeactivates(s: State, q: nat, id: nat, schedule: seq<Action>)
    requires id < |s.rows| && q !in s.tasks
    ensures var s' := Run(s, schedule);
      id < |s'.rows| && (HasReleased(s', q, id) ==> !IsActive(s'.rows[id]))
  {
    if schedule != [] {
      var last := |schedule| - 1;
      ReleaseDeactivates(s, q, id, schedule[..last]);
      StepSettles(Run(s, schedule[..last]), schedule[last]);
    }
  }

  /** Call `p` stored a row at `s`, and `later` sees call `q`, made since, through releasing it. */
  ghost predicate ReleasedSince(s: State, p: nat, q: nat, later: seq<Action>) {
    && p in s.tasks && ReservedId(s.tasks[p]).Some? && q !in s.tasks
    && HasReleased(Run(s, later), q, ReservedId(s.tasks[p]).value)
  }

  /** Under every interleaving: once a release of the row that call `p` stored has come back, the row is there
      with the account and amount `p` asked for, and it is inactive from then on. */
  lemma ReleasedForGood(schedule: seq<Action>, p: nat, q: nat, later: seq<Action>)
    requires ReleasedSince(Run(INITIAL, schedule), p, q, later)
    ensures var s := Run(INITIAL, schedule);
      var id, rows := ReservedId(s.tasks[p]).value, Run(s, later).rows;
      && id < |rows| && rows[id].account == s.tasks[p].account && rows[id].amount == s.tasks[p].amount
      && !IsActive(rows[id])
  {
    RunKeepsIds(schedule);
    var s := Run(INITIAL, schedule);
    assert IdOk(s.rows, s.tasks[p]);
    ReleaseDeactivates(s, q, ReservedId(s.tasks[p]).value, later);
    NeverReactivated(s, later);
  }

  // ---------------------------------------------------------------- one reservation for an intent

  /** No account has two rows for one execution intent. */
  ghost predicate IntentsDistinct(rows: seq<Row>) {
    forall j, k :: 0 <= j < k < |rows| && rows[j].account == rows[k].account && rows[j].intent == rows[k].intent
      ==> rows[k].intent.None?
  }

  lemma StepKeepsIntents(s: State, a: Action)
    requires IntentsDistinct(s.rows)
    ensures IntentsDistinct(Step(s, a).rows)
  {
    StepSettles(s, a);
    var rows := Step(s, a).rows;
    if |rows| > |s.rows| {
      var t := s.tasks[a.pid];
      assert rows == s.rows + [NewRow(t.account, t.amount, t.expiresAt, t.intent)];
    }
  }

  /** However the calls interleave, an execution intent never has two reservations on one account. */
  lemma {:induction false} OneRowPerIntent(schedule: seq<Action>)
    ensures IntentsDistinct(Run(INITIAL, schedule).rows)
  {
    if schedule != [] {
      var last := |schedule| - 1;
      OneRowPerIntent(schedule[..last]);
      StepKeepsIntents(Run(INITIAL, schedule[..last]), schedule[last]);
    }
  }

  // ---------------------------------------------------------------- a call nobody interrupts

  /** A call to reserve that nobody interrupts does what the manager's reserve does. */
  lemma SoloReserve(s: State, pid: nat, account: string, amount: real, cash: real, expiresAt: real,
      intent: Option<string>)
    requires pid !in s.tasks && account !in s.locks
    ensures var t := Reserving(account, amount, cash, expiresAt, intent, Queued);
      var go := Advance(pid);
      var s' := Step(Step(Step(Step(Step(Step(s, Spawn(pid, t)), go), go), go), go), go);
      var taken := intent.Some? && exists r :: r in s.rows && r.account == account && r.intent == intent;
      var fits := 0.0 <= amount <= cash - TotalReserved(s.rows, account) && !taken;
      && s'.locks == s.locks
      && s'.rows == (if fits then s.rows + [Row(account, amount, 0.0, FinalCheck.Active, expiresAt, intent)]
          else s.rows)
      && s'.tasks == s.tasks[pid := t.(at := Finished(if fits then Some(|s.rows|) else None))]
  {
    var t, go, total := Reserving(account, amount, cash, expiresAt, intent, Queued), Advance(pid),
        TotalReserved(s.rows, account);
    var held := s.locks[account := pid];
    assert held - {account} == s.locks;
    var s1 := Step(s, Spawn(pid, t));
    var s2 := Step(s1, go);
    assert s2 == State(s.rows, held, s.tasks[pid := t.(at := Holding)]);
    var s3 := Step(s2, go);
    assert s3 == State(s.rows, held, s.tasks[pid := t.(at := Read(total))]);
    var s4 := Step(s3, go);
    if 0.0 <= amount <= cash - total {
      assert s4 == State(s.rows, held, s.tasks[pid := t.(at := Passed(total))]);
      var s5 := Step(s4, go);
      if Indexed(s.rows, account, intent) {
        assert s5 == State(s.rows, s.locks, s.tasks[pid := t.(at := Finished(None))]);
      } else {
        assert s5 == State(s.rows + [NewRow(account, amount, expiresAt, intent)], held,
          s.tasks[pid := t.(at := Created(|s.rows|))]);
      }
    } else {
      assert s4 == State(s.rows, s.locks, s.tasks[pid := t.(at := Finished(None))]);
    }
  }

  /** A call to consume that nobody interrupts does what the manager's consume does. */
  lemma SoloConsume(s: State, pid: nat, id: nat, amount: real)
    requires pid !in s.tasks
    ensures var t, go := Consuming(id, amount, None, false), Advance(pid);
      var s' := Step(Step(Step(s, Spawn(pid, t)), go), go);
      && s'.locks == s.locks && pid in s'.tasks && s'.tasks[pid].Consuming? && s'.tasks[pid].consumed
      && if id < |s.rows| && s.rows[id].status == FinalCheck.Active
         then
           var consumed := s.rows[id].consumed + amount;
           s'.rows == s.rows[id := s.rows[id].(consumed := consumed, status :=
             if consumed >= s.rows[id].amount then FinalCheck.FullyConsumed else FinalCheck.PartiallyConsumed)]
         else s'.rows == s.rows
  {
  }

  /** A call to release that nobody interrupts releases its row, if there is one. */
  lemma SoloRelease(s: State, pid: nat, id: nat)
    requires pid !in s.tasks
    ensures var t, go := Releasing(id, false, false), Advance(pid);
      var s' := Step(Step(Step(s, Spawn(pid, t)), go), go);
      && s'.locks == s.locks && pid in s'.tasks && s'.tasks[pid].Releasing? && s'.tasks[pid].released
      && s'.rows == if id < |s.rows| then s.rows[id := s.rows[id].(status := FinalCheck.Released)] else s.rows
  {
  }

  /** The state after a call has moved `n` times on its own. */
  function Alone(s: State, pid: nat, n: nat): State {
    if n == 0 then s else Step(Alone(s, pid, n - 1), Advance(pid))
  }

  lemma {:induction false} DueMeans(rows: seq<Row>, now: real)
    ensures forall k: nat :: k in DueIds(rows, now) <==>
      k < |rows| && rows[k].status == FinalCheck.Active && rows[k].expiresAt < now
  {
    if rows != [] {
      var n := |rows| - 1;
      DueMeans(rows[..n], now);
      var front, all := DueIds(rows[..n], now), DueIds(rows, now);
      assert forall k: nat :: k in all <==> k in front || (k == n && Overdue(rows[n], now));
    }
  }

  /** Where a call to expire alone stands after writing the first `n` of its ids. */
  ghost predicate ExpiredSoFar(s: State, s': State, pid: nat, due: seq<nat>, n: nat)
    requires n <= |due|
  {
    && pid in s'.tasks && s'.tasks[pid].Expiring? && s'.tasks[pid].listed && s'.tasks[pid].due == due[n..]
    && s'.locks == s.locks && |s'.rows| == |s.rows|
    && forall k :: 0 <= k < |s.rows| ==>
         s'.rows[k] == if k in due[..n] then s.rows[k].(status := FinalCheck.Expired) else s.rows[k]
  }

  lemma ExpireOneMore(s: State, s': State, pid: nat, due: seq<nat>, n: nat)
    requires n < |due| && ExpiredSoFar(s, s', pid, due, n) && forall k :: 0 <= k < |due| ==> due[k] < |s.rows|
    ensures ExpiredSoFar(s, Step(s', Advance(pid)), pid, due, n + 1)
  {
    assert due[n..][1..] == due[n+1..];
    assert due[..n+1] == due[..n] + [due[n]];
  }

  lemma {:induction false} ExpireWrites(s: State, start: State, pid: nat, due: seq<nat>, n: nat)
    requires n <= |due| && ExpiredSoFar(s, start, pid, due, 0) && forall k :: 0 <= k < |due| ==> due[k] < |s.rows|
    ensures ExpiredSoFar(s, Alone(start, pid, n), pid, due, n)
  {
    if n > 0 {
      ExpireWrites(s, start, pid, due, n - 1);
      ExpireOneMore(s, Alone(start, pid, n - 1), pid, due, n - 1);
    }
  }

  /** A call to expire that nobody interrupts expires exactly the active rows whose time has passed, one at a step. */
  lemma SoloExpire(s: State, pid: nat, now: real)
    requires pid !in s.tasks
    ensures var begun := Step(Step(s, Spawn(pid, Expiring(now, [], false))), Advance(pid));
      var s' := Alone(begun, pid, |DueIds(s.rows, now)|);
      && s'.locks == s.locks && |s'.rows| == |s.rows|
      && (forall k :: 0 <= k < |s.rows| ==>
            s'.rows[k] == if s.rows[k].status == FinalCheck.Active && s.rows[k].expiresAt < now
                          then s.rows[k].(status := FinalCheck.Expired) else s.rows[k])
      && Step(s', Advance(pid)) == s'
  {
    var due := DueIds(s.rows, now);
    var begun := Step(Step(s, Spawn(pid, Expiring(now, [], false))), Advance(pid));
    DueMeans(s.rows, now);
    assert forall k :: 0 <= k < |due| ==> due[k] in due;
    assert due[..0] == [];
    ExpireWrites(s, begun, pid, due, |due|);
    assert due[..|due|] == due && due[|due|..] == [];
  }
}
