/** Cash reservations on shared accounts. The first part is the manager as its callers see it when one
    call runs alone; the second interleaves any number of calls at every point where they await. */
module Reservation {
  import opened Wrappers
  import FinalCheck

  type Status = FinalCheck.ReservationStatus

  /** A stored reservation; its id is its position in the table. */
  datatype Row = Row(
    account: string,
    amount: real,
    consumed: real,
    status: Status,
    expiresAt: real,
    intent: Option<string>)

  datatype Error = CashNotProvided | InsufficientFunds | NegativeAmount | IntentTaken | NotFound | NotActive

  datatype Result<T> = Ok(value: T) | Err(error: Error)

  predicate IsActive(r: Row) {
    r.status == FinalCheck.Active
  }

  /** What the repository reports as reserved: the amounts of the active rows of the account. */
  function TotalReserved(rows: seq<Row>, account: string): real {
    if rows == [] then 0.0
    else
      var r := rows[|rows|-1];
      TotalReserved(rows[..|rows|-1], account) + if r.account == account && IsActive(r) then r.amount else 0.0
  }

  ghost predicate NonNegative(rows: seq<Row>) {
    forall k :: 0 <= k < |rows| ==> rows[k].amount >= 0.0
  }

  function NewRow(account: string, amount: real, expiresAt: real, intent: Option<string>): Row {
    Row(account, amount, 0.0, FinalCheck.Active, expiresAt, intent)
  }

  /** The table's unique index on account and execution intent, which rows without an intent escape. */
  predicate Indexed(rows: seq<Row>, account: string, intent: Option<string>) {
    intent.Some? && exists k :: 0 <= k < |rows| && rows[k].account == account && rows[k].intent == intent
  }

  function Consumed(r: Row, amount: real): Row {
    r.(consumed := r.consumed + amount,
       status := if r.consumed + amount >= r.amount then FinalCheck.FullyConsumed else FinalCheck.PartiallyConsumed)
  }

  lemma TotalAppend(rows: seq<Row>, r: Row, account: string)
    ensures TotalReserved(rows + [r], account) ==
      TotalReserved(rows, account) + if r.account == account && r.status == FinalCheck.Active then r.amount else 0.0
  {
    assert (rows + [r])[..|rows|] == rows;
  }

  /** Replacing a row changes the total by what that row counts for. */
  lemma {:induction false} TotalUpdate(rows: seq<Row>, k: nat, r: Row, account: string)
    requires k < |rows|
    ensures TotalReserved(rows[k := r], account) == TotalReserved(rows, account)
      - (if rows[k].account == account && rows[k].status == FinalCheck.Active then rows[k].amount else 0.0)
      + (if r.account == account && r.status == FinalCheck.Active then r.amount else 0.0)
  {
    var last := |rows| - 1;
    if k == last {
      assert rows[k := r][..last] == rows[..last];
    } else {
      assert rows[k := r][..last] == rows[..last][k := r];
      TotalUpdate(rows[..last], k, r, account);
    }
  }

  lemma {:induction false} TotalNonNegative(rows: seq<Row>, account: string)
    requires NonNegative(rows)
    ensures TotalReserved(rows, account) >= 0.0
  {
    if rows != [] {
      TotalNonNegative(rows[..|rows|-1], account);
    }
  }

  // ---------------------------------------------------------------- calls that run alone

  class ReservationManager {
    var rows: seq<Row>
    const ttl: real

    constructor (ttl: real)
      ensures rows == [] && this.ttl == ttl
    {
      rows, this.ttl := [], ttl;
    }

    method GetTotalReserved(account: string) returns (total: real)
      ensures total == TotalReserved(rows, account)
    {
      total := 0.0;
      for k := 0 to |rows|
        invariant total == TotalReserved(rows[..k], account)
      {
        assert rows[..k+1][..k] == rows[..k];
        if rows[k].account == account && IsActive(rows[k]) {
          total := total + rows[k].amount;
        }
      }
      assert rows[..|rows|] == rows;
    }

    /** Reserves exactly when the amount fits into the cash not yet reserved and the execution intent, if there is
        one, has no reservation on the account yet. */
    method Reserve(account: string, amount: real, availableCash: Option<real>, now: real, intent: Option<string>)
      returns (r: Result<nat>)
      modifies this
      ensures r.Ok? ==> r.value == |old(rows)| && rows == old(rows) + [NewRow(account, amount, now + ttl, intent)]
      ensures r.Err? ==> rows == old(rows)
      ensures r.Ok? <==>
        && availableCash.Some? && 0.0 <= amount <= availableCash.value - TotalReserved(old(rows), account)
        && !Indexed(old(rows), account, intent)
      ensures r == Err(IntentTaken) ==> intent.Some? && exists k ::
        0 <= k < |old(rows)| && old(rows)[k].account == account && old(rows)[k].intent == intent
      ensures r.Ok? ==> rows[r.value] == Row(account, amount, 0.0, FinalCheck.Active, now + ttl, intent)
      ensures availableCash.Some? && r.Ok? ==> TotalReserved(rows, account) <= availableCash.value
    {
      if availableCash.None? {
        return Err(CashNotProvided);
      }
      var total := GetTotalReserved(account);
      var effective := availableCash.value - total;
      if amount > effective {
        return Err(InsufficientFunds);
      }
      if amount < 0.0 {
        return Err(NegativeAmount);
      }
      if Indexed(rows, account, intent) {
        return Err(IntentTaken);
      }
      rows := rows + [NewRow(account, amount, now + ttl, intent)];
      TotalAppend(old(rows), NewRow(account, amount, now + ttl, intent), account);
      r := Ok(|rows| - 1);
    }

    method Consume(id: nat, amount: real) returns (r: Result<Row>)
      modifies this
      ensures id < |old(rows)| && IsActive(old(rows)[id]) ==>
        r == Ok(Consumed(old(rows)[id], amount)) && rows == old(rows)[id := r.value]
      ensures r.Ok? ==> id < |rows| == |old(rows)| && var before, after := old(rows)[id], rows[id];
        && before.status == FinalCheck.Active && after.consumed == before.consumed + amount
        && after.status == (if after.consumed >= after.amount then FinalCheck.FullyConsumed
                            else FinalCheck.PartiallyConsumed)
        && after.amount == before.amount && after.account == before.account && after.expiresAt == before.expiresAt
      ensures !(id < |old(rows)| && IsActive(old(rows)[id])) ==>
        r == Err(if id < |old(rows)| then NotActive else NotFound) && rows == old(rows)
    {
      if id >= |rows| {
        return Err(NotFound);
      }
      var row := rows[id];
      if row.status != FinalCheck.Active {
        return Err(NotActive);
      }
      var consumed := row.consumed + amount;
      row := row.(consumed := consumed,
                  status := if consumed >= row.amount then FinalCheck.FullyConsumed else FinalCheck.PartiallyConsumed);
      rows := rows[id := row];
      r := Ok(row);
    }

    /** Releases a reservation in whatever status it is. */
    method Release(id: nat) returns (r: Result<Row>)
      modifies this
      ensures id < |old(rows)| ==> r.Ok? && rows == old(rows)[id := old(rows)[id].(status := FinalCheck.Released)]
      ensures id >= |old(rows)| ==> r == Err(NotFound) && rows == old(rows)
    {
      if id >= |rows| {
        return Err(NotFound);
      }
      rows := rows[id := rows[id].(status := FinalCheck.Released)];
      r := Ok(rows[id]);
    }

    /** Expires the active rows whose time has passed, and no others. */
    method ExpireReservations(now: real) returns (expired: seq<nat>)
      modifies this
      ensures |rows| == |old(rows)|
      ensures forall k :: 0 <= k < |rows| ==>
        rows[k] == if Overdue(old(rows)[k], now) then old(rows)[k].(status := FinalCheck.Expired) else old(rows)[k]
      ensures forall k: nat :: k in expired <==> k < |rows| && Overdue(old(rows)[k], now)
      ensures forall k: nat :: k in expired <==>
        k < |rows| && old(rows)[k].status == FinalCheck.Active && old(rows)[k].expiresAt < now
    {
      expired := [];
      for k := 0 to |rows|
        invariant |rows| == |old(rows)|
        invariant forall j :: 0 <= j < k ==>
          rows[j] == if Overdue(old(rows)[j], now) then old(rows)[j].(status := FinalCheck.Expired) else old(rows)[j]
        invariant forall j :: k <= j < |rows| ==> rows[j] == old(rows)[j]
        invariant forall j: nat :: j in expired <==> j < k && Overdue(old(rows)[j], now)
      {
        if IsActive(rows[k]) && rows[k].expiresAt < now {
          rows := rows[k := rows[k].(status := FinalCheck.Expired)];
          expired := expired + [k];
        }
      }
    }
  }

  predicate Overdue(r: Row, now: real) {
    IsActive(r) && r.expiresAt < now
  }
}
