/** Risk-initiated liquidation: one sell task per open position, retried on demand. */
module ForceFlatten {
  import opened Wrappers
  import FinalCheck

  datatype OpenPosition = OpenPosition(instrument: string, totalQuantity: int, availableQuantity: int, todayBought: int)

  datatype TaskStatus = Pending | SkippedT1 | Submitted | Failed

  datatype Task = Task(
    instrument: string,
    totalQuantity: int,
    availableQuantity: int,
    todayBought: int,
    sellable: nat,
    status: TaskStatus,
    attempts: nat)

  datatype Progress = Progress(
    totalPositions: int,
    flattened: int,
    remaining: int,
    failed: int,
    skipped: int,
    tasks: seq<Task>)

  /** The order service, if configured: whether its n-th submission succeeds. */
  type OrderService = Option<nat -> bool>

  // ---------------------------------------------------------------- one task

  function NewTask(p: OpenPosition): Task {
    var sellable := p.availableQuantity - p.todayBought;
    Task(p.instrument, p.totalQuantity, p.availableQuantity, p.todayBought,
         if sellable > 0 then sellable else 0, if sellable > 0 then Pending else SkippedT1, 0)
  }

  function FlattenContext(t: Task): FinalCheck.Context {
    FinalCheck.Context(
      strategyStatus := Some(FinalCheck.CloseOnly), signalValidUntil := None, qmtAdapterAvailable := Some(true),
      accountRiskStatus := Some("normal"), accountAvailableCash := 0.0, availableQuantity := t.availableQuantity,
      todayBoughtQuantity := t.todayBought, side := "sell", reservationStatus := None, reservationExpiresAt := None,
      hasConflictingInflight := Some(false), killSwitchActive := Some(true), closeOnlyMode := true,
      ordersLastMinute := 0, maxOrdersPerMinute := 10, price := 1.0, quantity := t.sellable, instrument := t.instrument,
      sourceIsDeterministic := true, requestFromExecutionService := true, isFlatten := true, checkTime := 0.0,
      stalePriceThreshold := 30.0, referencePriceAge := 0.0)
  }

  /** The task's quantities are those of a position. */
  predicate Consistent(t: Task) {
    t.sellable == if t.availableQuantity > t.todayBought then t.availableQuantity - t.todayBought else 0
  }

  /** A sellable task passes the final check exactly when it names an instrument, kill switch or not. */
  lemma FlattenPassesFinalCheck(t: Task)
    requires Consistent(t) && t.sellable > 0
    ensures FinalCheck.Verdict(FlattenContext(t)) == FinalCheck.Allow <==> t.instrument != ""
    ensures var c := FlattenContext(t);
      && c.side == "sell" && c.quantity == t.availableQuantity - t.todayBought && c.instrument == t.instrument
      && c.isFlatten && c.killSwitchActive == Some(true) && c.closeOnlyMode
  {
    var c := FlattenContext(t);
    assert FinalCheck.StrategyOk(c) && FinalCheck.PositionOk(c) && FinalCheck.ModeOk(c);
  }

  /** Whether selling `t` succeeds when `n` orders were submitted before. */
  predicate Sells(t: Task, service: OrderService, n: nat) {
    t.instrument != "" && (service.Some? ==> service.value(n))
  }

  function Submissions(t: Task, service: OrderService, n: nat): nat {
    if t.instrument != "" && service.Some? then n + 1 else n
  }

  // ---------------------------------------------------------------- a pass over the tasks

  predicate Due(t: Task, retry: bool, maxRetries: int) {
    if retry then t.status == Failed && t.attempts < maxRetries else t.sellable > 0
  }

  /** The first `k` tasks after one pass over those due, and the submissions made by then. */
  function PassTo(tasks: seq<Task>, k: nat, retry: bool, maxRetries: int, service: OrderService,
        n: nat): (r: (seq<Task>, nat))
    requires k <= |tasks|
    ensures |r.0| == k && r.1 >= n
  {
    if k == 0 then ([], n)
    else
      var (done, m) := PassTo(tasks, k - 1, retry, maxRetries, service, n);
      var t := tasks[k-1];
      if !Due(t, retry, maxRetries) then (done + [t], m)
      else (done + [Tried(t, service, m)], Submissions(t, service, m))
  }

  function Tried(t: Task, service: OrderService, m: nat): Task {
    t.(attempts := t.attempts + 1, status := if Sells(t, service, m) then Submitted else Failed)
  }

  function Pass(tasks: seq<Task>, retry: bool, maxRetries: int, service: OrderService, n: nat): (seq<Task>, nat) {
    PassTo(tasks, |tasks|, retry, maxRetries, service, n)
  }

  function NewTasks(positions: seq<OpenPosition>): seq<Task> {
    seq(|positions|, k requires 0 <= k < |positions| => NewTask(positions[k]))
  }

  function CountTo(tasks: seq<Task>, k: nat, status: TaskStatus): nat
    requires k <= |tasks|
  {
    if k == 0 then 0 else CountTo(tasks, k - 1, status) + if tasks[k-1].status == status then 1 else 0
  }

  function Count(tasks: seq<Task>, status: TaskStatus): nat {
    CountTo(tasks, |tasks|, status)
  }

  // ---------------------------------------------------------------- accounting

  ghost predicate TaskOk(t: Task, maxRetries: int) {
    && Consistent(t)
    && t.status != Pending
    && (t.status == SkippedT1 <==> t.sellable == 0)
    && t.attempts <= (if maxRetries > 1 then maxRetries else 1)
    && (t.status == SkippedT1 <==> t.attempts == 0)
  }

  /** Every position is skipped, flattened or failed, and the counters say how many of each. */
  ghost predicate Balanced(p: Progress, maxRetries: int) {
    && p.totalPositions == |p.tasks| == p.skipped + p.flattened + p.failed
    && p.remaining == 0
    && p.skipped == Count(p.tasks, SkippedT1)
    && p.flattened == Count(p.tasks, Submitted)
    && p.failed == Count(p.tasks, Failed)
    && forall k :: 0 <= k < |p.tasks| ==> TaskOk(p.tasks[k], maxRetries)
  }

  lemma {:induction false} CountOfPrefix(s: seq<Task>, t: Task, k: nat, status: TaskStatus)
    requires k <= |s|
    ensures CountTo(s + [t], k, status) == CountTo(s, k, status)
  {
    if k > 0 {
      CountOfPrefix(s, t, k - 1, status);
    }
  }

  lemma CountAppend(s: seq<Task>, t: Task)
    ensures forall status :: Count(s + [t], status) == Count(s, status) + if t.status == status then 1 else 0
  {
    forall status { CountOfPrefix(s, t, |s|, status); }
  }

  lemma {:induction false} EveryTaskCounted(tasks: seq<Task>, k: nat)
    requires k <= |tasks| && forall j :: 0 <= j < |tasks| ==> tasks[j].status != Pending
    ensures CountTo(tasks, k, SkippedT1) + CountTo(tasks, k, Submitted) + CountTo(tasks, k, Failed) == k
  {
    if k > 0 {
      EveryTaskCounted(tasks, k - 1);
    }
  }

  /** A task after the first pass: tried once if it has something to sell. */
  lemma FirstTryOk(p: OpenPosition, maxRetries: int, service: OrderService, m: nat)
    ensures var t := NewTask(p);
      var t' := if Due(t, false, maxRetries) then Tried(t, service, m) else t;
      && TaskOk(t', maxRetries) && t' == t.(status := t'.status, attempts := t'.attempts)
      && (t'.status == SkippedT1 <==> t.status == SkippedT1)
  {
  }

  /** The first pass settles every task of every position. */
  lemma {:induction false} FirstPassOk(positions: seq<OpenPosition>, k: nat, maxRetries: int, service: OrderService,
        n: nat)
    requires k <= |positions|
    ensures var done := PassTo(NewTasks(positions), k, false, maxRetries, service, n).0;
      && (forall j :: 0 <= j < k ==> TaskOk(done[j], maxRetries))
      && (forall j :: 0 <= j < k ==>
          done[j] == NewTask(positions[j]).(status := done[j].status, attempts := done[j].attempts))
      && Count(done, SkippedT1) == CountTo(NewTasks(positions), k, SkippedT1)
  {
    if k > 0 {
      FirstPassOk(positions, k - 1, maxRetries, service, n);
      var (done, m) := PassTo(NewTasks(positions), k - 1, false, maxRetries, service, n);
      var done' := PassTo(NewTasks(positions), k, false, maxRetries, service, n).0;
      FirstTryOk(positions[k-1], maxRetries, service, m);
      assert done' == done + [done'[k-1]];
      CountAppend(done, done'[k-1]);
    }
  }

  /** The counters of a first flatten balance. */
  lemma FirstPassBalanced(positions: seq<OpenPosition>, maxRetries: int, service: OrderService, n: nat)
    ensures var done := Pass(NewTasks(positions), false, maxRetries, service, n).0;
      var skipped := Count(NewTasks(positions), SkippedT1);
      && Balanced(Progress(|positions|, Count(done, Submitted), 0, Count(done, Failed), skipped, done), maxRetries)
      && |positions| - skipped - Count(done, Submitted) - Count(done, Failed) == 0
  {
    FirstPassOk(positions, |positions|, maxRetries, service, n);
    EveryTaskCounted(Pass(NewTasks(positions), false, maxRetries, service, n).0, |positions|);
  }

  /** A retry touches failed tasks only, and moves each it sells from failed to flattened. */
  lemma {:induction false} RetryPassOk(tasks: seq<Task>, k: nat, maxRetries: int, service: OrderService, n: nat)
    requires k <= |tasks| && forall j :: 0 <= j < |tasks| ==> TaskOk(tasks[j], maxRetries)
    ensures var done := PassTo(tasks, k, true, maxRetries, service, n).0;
      && (forall j :: 0 <= j < k ==> TaskOk(done[j], maxRetries) && (tasks[j].status != Failed ==> done[j] == tasks[j]))
      && Count(done, SkippedT1) == CountTo(tasks, k, SkippedT1)
      && Count(done, Submitted) + Count(done, Failed) == CountTo(tasks, k, Submitted) + CountTo(tasks, k, Failed)
  {
    if k > 0 {
      RetryPassOk(tasks, k - 1, maxRetries, service, n);
      var done := PassTo(tasks, k - 1, true, maxRetries, service, n).0;
      var done' := PassTo(tasks, k, true, maxRetries, service, n).0;
      assert done' == done + [done'[k-1]];
      CountAppend(done, done'[k-1]);
    }
  }

  /** The counters after a retry balance again: it moves each task it sells from failed to flattened and
      leaves every task that had not failed as it was. */
  lemma RetryBalanced(p: Progress, maxRetries: int, service: OrderService, n: nat)
    requires Balanced(p, maxRetries)
    ensures var done := Pass(p.tasks, true, maxRetries, service, n).0;
      var recovered := Count(done, Submitted) - p.flattened;
      && Balanced(p.(flattened := p.flattened + recovered, failed := p.failed - recovered, tasks := done), maxRetries)
      && forall j :: 0 <= j < |p.tasks| && p.tasks[j].status != Failed ==> done[j] == p.tasks[j]
  {
    RetryPassOk(p.tasks, |p.tasks|, maxRetries, service, n);
  }

  /** A due task that names an instrument fails exactly if the order service refuses its own submission. */
  lemma {:induction false} OnlyTheServiceFails(tasks: seq<Task>, k: nat, retry: bool, maxRetries: int,
      service: OrderService, n: nat, j: nat)
    requires j < k <= |tasks|
    requires Due(tasks[j], retry, maxRetries) && tasks[j].instrument != ""
    ensures PassTo(tasks, k, retry, maxRetries, service, n).0[j].status == Failed <==>
      service.Some? && !service.value(PassTo(tasks, j, retry, maxRetries, service, n).1)
  {
    if j < k - 1 {
      OnlyTheServiceFails(tasks, k - 1, retry, maxRetries, service, n, j);
    }
  }

  /** A pass tries a task exactly if, the first time, more shares of it are available than were bought today, and on a
      retry if it failed and has tries left; it then counts the try and settles the task. */
  lemma {:induction false} TriedExactlyWhen(tasks: seq<Task>, k: nat, retry: bool, maxRetries: int,
      service: OrderService, n: nat, j: nat)
    requires j < k <= |tasks| && Consistent(tasks[j])
    ensures var t, t' := tasks[j], PassTo(tasks, k, retry, maxRetries, service, n).0[j];
      var due := if retry then t.status == Failed && t.attempts < maxRetries else t.availableQuantity > t.todayBought;
      && (due ==> (t'.status == Submitted || t'.status == Failed) && t'.attempts == t.attempts + 1)
      && (due && service.None? ==> (t'.status == Submitted <==> t.instrument != ""))
      && (due && t.instrument == "" ==> t'.status == Failed)
      && (if due then t' == t.(status := t'.status, attempts := t'.attempts) else t' == t)
  {
    if j < k - 1 {
      TriedExactlyWhen(tasks, k - 1, retry, maxRetries, service, n, j);
    }
  }

  /** The tasks that are submitted: those due that name an instrument, if there is an order service. */
  function SubmittedTo(tasks: seq<Task>, k: nat, retry: bool, maxRetries: int): seq<nat>
    requires k <= |tasks|
  {
    if k == 0 then []
    else
      var earlier := SubmittedTo(tasks, k - 1, retry, maxRetries);
      if Due(tasks[k-1], retry, maxRetries) && tasks[k-1].instrument != "" then earlier + [k - 1] else earlier
  }

  /** Submissions are numbered without gaps, one for each task submitted, in the order of the tasks. */
  lemma {:induction false} SubmissionsAreNumbered(tasks: seq<Task>, k: nat, retry: bool, maxRetries: int,
      service: OrderService, n: nat)
    requires k <= |tasks|
    ensures PassTo(tasks, k, retry, maxRetries, service, n).1
         == if service.Some? then n + |SubmittedTo(tasks, k, retry, maxRetries)| else n
  {
    if k > 0 {
      SubmissionsAreNumbered(tasks, k - 1, retry, maxRetries, service, n);
    }
  }

  lemma {:induction false} FreshTasksUncounted(positions: seq<OpenPosition>, k: nat)
    requires k <= |positions|
    ensures CountTo(NewTasks(positions), k, Submitted) == 0 && CountTo(NewTasks(positions), k, Failed) == 0
  {
    if k > 0 {
      FreshTasksUncounted(positions, k - 1);
    }
  }

  // ---------------------------------------------------------------- the service

  class ForceFlattenService {
    const maxRetries: int
    const service: OrderService
    var submissions: nat
    var active: map<nat, Progress>
    var started: nat

    /** Every flatten on record is settled and balanced. */
    ghost predicate Valid()
      reads this
    {
      forall id :: id in active ==> id < started && Balanced(active[id], maxRetries)
    }

    constructor (service: OrderService, maxRetries: int)
      ensures Valid() && active == map[] && this.service == service && this.maxRetries == maxRetries && submissions == 0
    {
      this.service, this.maxRetries := service, maxRetries;
      submissions, active, started := 0, map[], 0;
    }

    method ExecuteFlattenOrder(t: Task) returns (success: bool)
      requires Consistent(t) && t.sellable > 0
      modifies this`submissions
      ensures success == Sells(t, service, old(submissions))
      ensures submissions == Submissions(t, service, old(submissions))
    {
      FlattenPassesFinalCheck(t);
      var check := FinalCheck.Execute(FlattenContext(t));
      if check.result != FinalCheck.Allow {
        return false;
      }
      success := true;
      if service.Some? {
        success := service.value(submissions);
        submissions := submissions + 1;
      }
    }

    method BuildTasks(positions: seq<OpenPosition>) returns (tasks: seq<Task>, skipped: int)
      ensures tasks == NewTasks(positions) && skipped == Count(tasks, SkippedT1)
    {
      tasks, skipped := [], 0;
      for k := 0 to |positions|
        invariant |tasks| == k && forall j :: 0 <= j < k ==> tasks[j] == NewTask(positions[j])
        invariant skipped == Count(tasks, SkippedT1)
      {
        var t := NewTask(positions[k]);
        if t.sellable == 0 {
          skipped := skipped + 1;
        }
        CountAppend(tasks, t);
        tasks := tasks + [t];
      }
      assert tasks == NewTasks(positions);
    }

    /** Works through the tasks due in place, counting those sold and those refused. */
    method WorkThrough(todo: seq<Task>, retry: bool) returns (tasks: seq<Task>, sold: int, refused: int)
      requires forall k :: 0 <= k < |todo| && Due(todo[k], retry, maxRetries) ==>
        Consistent(todo[k]) && todo[k].sellable > 0 && todo[k].status == if retry then Failed else Pending
      modifies this`submissions
      ensures (tasks, submissions) == Pass(todo, retry, maxRetries, service, old(submissions))
      ensures sold == Count(tasks, Submitted) - Count(todo, Submitted)
      ensures Count(tasks, Failed) == Count(todo, Failed) + if retry then -sold else refused
    {
      tasks, sold, refused := todo, 0, 0;
      ghost var done: seq<Task> := [];
      for k := 0 to |todo|
        invariant |done| == k && |tasks| == |todo| && tasks[..k] == done
        invariant forall j :: k <= j < |todo| ==> tasks[j] == todo[j]
        invariant (done, submissions) == PassTo(todo, k, retry, maxRetries, service, old(submissions))
        invariant sold == Count(done, Submitted) - CountTo(todo, k, Submitted)
        invariant Count(done, Failed) == CountTo(todo, k, Failed) + if retry then -sold else refused
      {
        var t := tasks[k];
        if Due(t, retry, maxRetries) {
          var success := ExecuteFlattenOrder(t);
          t := t.(attempts := t.attempts + 1, status := if success then Submitted else Failed);
          if success {
            sold := sold + 1;
          } else {
            refused := refused + 1;
          }
          tasks := tasks[k := t];
        }
        CountAppend(done, t);
        done := done + [t];
      }
      assert tasks == done;
    }

    /** Flattens every open position; with no position repository nothing is done. */
    method ExecuteFlatten(repo: Option<seq<OpenPosition>>) returns (id: nat, p: Progress)
      requires Valid()
      modifies this
      ensures Valid() && id !in old(active) && active == old(active)[id := p]
      ensures Balanced(p, maxRetries)
      ensures (p.tasks, submissions) == Pass(NewTasks(repo.GetOr([])), false, maxRetries, service, old(submissions))
    {
      id, started := started, started + 1;
      p := Progress(0, 0, 0, 0, 0, []);
      assert NewTasks([]) == [];
      if repo.Some? && repo.value != [] {
        var tasks, skipped := BuildTasks(repo.value);
        FreshTasksUncounted(repo.value, |repo.value|);
        var done, flattened, failed := WorkThrough(tasks, false);
        FirstPassBalanced(repo.value, maxRetries, service, old(submissions));
        p := Progress(|repo.value|, flattened, |tasks| - skipped - flattened - failed, failed, skipped, done);
      }
      active := active[id := p];
    }

    /** Retries the failed tasks of one flatten; an unknown id is answered by none. */
    method RetryFailed(id: nat) returns (r: Option<Progress>)
      requires Valid()
      modifies this`submissions, this`active
      ensures Valid()
      ensures id !in old(active) ==> r == None && active == old(active) && submissions == old(submissions)
      ensures id in old(active) ==>
        && r.Some? && active == old(active)[id := r.value] && Balanced(r.value, maxRetries)
        && (r.value.tasks, submissions) == Pass(old(active)[id].tasks, true, maxRetries, service, old(submissions))
        && r.value.skipped == old(active)[id].skipped
    {
      if id !in active {
        return None;
      }
      var p := active[id];
      var tasks, recovered, _ := WorkThrough(p.tasks, true);
      RetryBalanced(p, maxRetries, service, old(submissions));
      p := p.(flattened := p.flattened + recovered, failed := p.failed - recovered, tasks := tasks);
      active := active[id := p];
      r := Some(p);
    }
  }
}
