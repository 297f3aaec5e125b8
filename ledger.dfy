/** The Postgres repository as in-memory tables: `payments` as a map from
    id to row and `payment_transactions` as a set of (payment id,
    transaction id) pairs. Each method has the effect of its SQL statement.
    Whether the database executes a statement at all (connection loss, a
    constraint the schema may add) is outside this code, so it is an input
    flag: `ok == false` stands for any `sqlx::Error`. */
module PaymentLedger {
  import opened Payments

  newtype u64 = x: int | 0 <= x < 0x1_0000_0000_0000_0000

  /** `n as i32` on an unsigned 64-bit value: the low 32 bits read as a
      two's-complement number. */
  function AsI32(n: u64): (v: i32)
    ensures n < 0x8000_0000 ==> v as int == n as int
    ensures 0x8000_0000 <= n < 0x1_0000_0000 ==> v as int == n as int - 0x1_0000_0000
    ensures (v as int - n as int) % 0x1_0000_0000 == 0
  {
    var low := n as int % 0x1_0000_0000;
    if low < 0x8000_0000 then low as i32 else (low - 0x1_0000_0000) as i32
  }

  predicate FitsI32(x: int) {
    -0x8000_0000 <= x < 0x8000_0000
  }

  type Table = map<Uuid, Payment>

  /** The row `INSERT INTO payments (account_id, address, amount)` creates.
      The column defaults are not part of the shown code; the model takes
      nothing received, no confirmations, neither flag set, and both
      timestamps at the insertion instant. */
  function NewPayment(id: Uuid, accountId: Uuid, address: string, amount: real, now: Timestamp): (p: Payment)
    ensures p.id == id && p.accountId == accountId && p.address == address && p.amount == amount
    ensures p.received == 0.0 && p.confirmations == 0 && !p.initiated && !p.completed
  {
    Payment(id, accountId, address, amount, 0.0, 0, false, false, now, now)
  }

  /** `UPDATE payments SET confirmations = confirmations + delta WHERE id = ...`.
      The caller has checked that the sum is still an `integer`. */
  function WithConfirmations(t: Table, id: Uuid, delta: int): (t': Table)
    requires id in t ==> FitsI32(t[id].confirmations as int + delta)
    ensures t'.Keys == t.Keys
    ensures id in t ==> t'[id] == t[id].(confirmations := (t[id].confirmations as int + delta) as i32)
    ensures forall k :: k in t && k != id ==> t'[k] == t[k]
  {
    if id in t then t[id := t[id].(confirmations := (t[id].confirmations as int + delta) as i32)] else t
  }

  /** `UPDATE payments SET received = received + amount WHERE id = ...`. */
  function WithReceived(t: Table, id: Uuid, amount: real): (t': Table)
    ensures t'.Keys == t.Keys
    ensures id in t ==> t'[id] == t[id].(received := t[id].received + amount)
    ensures forall k :: k in t && k != id ==> t'[k] == t[k]
  {
    if id in t then t[id := t[id].(received := t[id].received + amount)] else t
  }

  /** `UPDATE payments SET initiated = TRUE WHERE id = ...`. */
  function WithInitiated(t: Table, id: Uuid): (t': Table)
    ensures t'.Keys == t.Keys
    ensures id in t ==> t'[id] == t[id].(initiated := true)
    ensures forall k :: k in t && k != id ==> t'[k] == t[k]
  {
    if id in t then t[id := t[id].(initiated := true)] else t
  }

  /** `UPDATE payments SET completed = TRUE WHERE id = ...`. */
  function WithCompleted(t: Table, id: Uuid): (t': Table)
    ensures t'.Keys == t.Keys
    ensures id in t ==> t'[id] == t[id].(completed := true)
    ensures forall k :: k in t && k != id ==> t'[k] == t[k]
  {
    if id in t then t[id := t[id].(completed := true)] else t
  }

  /** Rows `get_to_be_initiated_addresses` selects. */
  ghost function ToBeInitiated(t: Table): set<Uuid> {
    set id | id in t && !t[id].initiated
  }

  /** Rows `get_to_be_completed_payments(m)` selects. */
  ghost function ToBeCompleted(t: Table, minConfirmations: i32): set<Uuid> {
    set id | id in t && t[id].initiated && !t[id].completed && t[id].confirmations >= minConfirmations
  }

  /** The `is_already_processed` join: a recorded pair with this
      transaction id whose payment has this address. */
  ghost predicate Processed(t: Table, txs: set<(Uuid, string)>, transactionId: string, address: string) {
    exists pair :: pair in txs && pair.1 == transactionId && pair.0 in t && t[pair.0].address == address
  }

  /** Setting either flag twice is setting it once. */
  lemma FlagUpdatesIdempotent(t: Table, id: Uuid)
    ensures WithInitiated(WithInitiated(t, id), id) == WithInitiated(t, id)
    ensures WithCompleted(WithCompleted(t, id), id) == WithCompleted(t, id)
  {
  }

  /** Crediting a payment keeps its address, so a processed pair stays
      processed. */
  lemma ProcessedSurvivesCredit(t: Table, txs: set<(Uuid, string)>, id: Uuid, amount: real, tx: string, address: string)
    requires Processed(t, txs, tx, address)
    ensures Processed(WithReceived(t, id, amount), txs, tx, address)
  {
    var pair :| pair in txs && pair.1 == tx && pair.0 in t && t[pair.0].address == address;
    assert WithReceived(t, id, amount)[pair.0].address == address;
  }

  /** For any count below 2^31 whose sum still fits, the row's
      confirmations rise by exactly that count. */
  lemma ConfirmationsRaisedExactly(t: Table, id: Uuid, n: u64)
    requires id in t && n < 0x8000_0000 && FitsI32(t[id].confirmations as int + n as int)
    ensures WithConfirmations(t, id, AsI32(n) as int)[id].confirmations as int == t[id].confirmations as int + n as int
  {
  }

  class SqlxPostgresqlRepository {
    var payments: Table
    var paymentTransactions: set<(Uuid, string)>
    /** The next id the database's UUID default would hand out: every id
        below it may be taken, none at or above it is. */
    var nextId: Uuid

    ghost predicate Valid()
      reads this
    {
      forall id :: id in payments ==> payments[id].id == id && id < nextId
    }

    constructor ()
      ensures Valid()
      ensures payments == map[] && paymentTransactions == {}
    {
      payments := map[];
      paymentTransactions := {};
      nextId := 0;
    }

    /** `create_payment`: inserts one row and returns its new id. */
    method CreatePayment(accountId: Uuid, address: string, amount: real, now: Timestamp, ok: bool)
      returns (r: DbResult<Uuid>)
      requires Valid()
      modifies this
      ensures Valid()
      ensures ok ==> r.Ok? && r.value !in old(payments)
                     && payments == old(payments)[r.value := NewPayment(r.value, accountId, address, amount, now)]
      ensures !ok ==> r.Err? && payments == old(payments)
      ensures paymentTransactions == old(paymentTransactions)
    {
      if !ok {
        return Err(DbError);
      }
      var id := nextId;
      payments := payments[id := NewPayment(id, accountId, address, amount, now)];
      nextId := nextId + 1;
      r := Ok(id);
    }

    /** `add_payment_confirmation`: adds `confirmations as i32` to the row's
        count. An `integer` overflow of the sum is a database error that
        leaves the row as it was. */
    method AddPaymentConfirmation(paymentId: Uuid, confirmations: u64, ok: bool)
      returns (r: DbResult<()>)
      requires Valid()
      modifies this
      ensures Valid()
      ensures var delta := AsI32(confirmations) as int;
              var fits := paymentId !in old(payments) || FitsI32(old(payments)[paymentId].confirmations as int + delta);
              && (r.Ok? <==> ok && fits)
              && payments == (if r.Ok? then WithConfirmations(old(payments), paymentId, delta) else old(payments))
      ensures paymentTransactions == old(paymentTransactions)
    {
      if !ok {
        return Err(DbError);
      }
      var delta := AsI32(confirmations) as int;
      if paymentId in payments && !FitsI32(payments[paymentId].confirmations as int + delta) {
        return Err(DbError);
      }
      payments := WithConfirmations(payments, paymentId, delta);
      r := Ok(());
    }

    /** `add_payment_received`: records the (payment, transaction) pair,
        then adds the amount to the payment, as two separate statements.
        When the insert fails the function returns before the update. */
    method AddPaymentReceived(paymentId: Uuid, received: real, transactionId: string, insertOk: bool, updateOk: bool)
      returns (r: DbResult<()>)
      requires Valid()
      modifies this
      ensures Valid()
      ensures r.Ok? <==> insertOk && updateOk
      ensures paymentTransactions == if insertOk then old(paymentTransactions) + {(paymentId, transactionId)}
                                     else old(paymentTransactions)
      ensures payments == if r.Ok? then WithReceived(old(payments), paymentId, received) else old(payments)
      ensures insertOk && paymentId in old(payments) ==>
                Processed(payments, paymentTransactions, transactionId, old(payments)[paymentId].address)
    {
      if !insertOk {
        return Err(DbError);
      }
      paymentTransactions := paymentTransactions + {(paymentId, transactionId)};
      assert (paymentId, transactionId) in paymentTransactions;
      if !updateOk {
        return Err(DbError);
      }
      payments := WithReceived(payments, paymentId, received);
      r := Ok(());
    }

    /** `complete_payment`. */
    method CompletePayment(paymentId: Uuid, ok: bool) returns (r: DbResult<()>)
      requires Valid()
      modifies this
      ensures Valid()
      ensures r.Ok? <==> ok
      ensures payments == if ok then WithCompleted(old(payments), paymentId) else old(payments)
      ensures paymentTransactions == old(paymentTransactions)
    {
      if !ok {
        return Err(DbError);
      }
      payments := WithCompleted(payments, paymentId);
      r := Ok(());
    }

    /** `initiate_payment`. */
    method InitiatePayment(paymentId: Uuid, ok: bool) returns (r: DbResult<()>)
      requires Valid()
      modifies this
      ensures Valid()
      ensures r.Ok? <==> ok
      ensures payments == if ok then WithInitiated(old(payments), paymentId) else old(payments)
      ensures paymentTransactions == old(paymentTransactions)
    {
      if !ok {
        return Err(DbError);
      }
      payments := WithInitiated(payments, paymentId);
      r := Ok(());
    }

    /** `get_to_be_initiated_addresses`: one address per row not yet
        initiated, in the (unspecified) order the rows come back; `rows`
        names the row each address came from. */
    method GetToBeInitiatedAddresses(ok: bool) returns (r: DbResult<seq<string>>, ghost rows: seq<Uuid>)
      ensures r.Ok? <==> ok
      ensures r.Ok? ==>
                && |r.value| == |rows|
                && (forall k, l :: 0 <= k < l < |rows| ==> rows[k] != rows[l])
                && (forall id :: id in rows <==> id in ToBeInitiated(payments))
                && (forall k :: 0 <= k < |rows| ==> rows[k] in payments && r.value[k] == payments[rows[k]].address)
    {
      rows := [];
      if !ok {
        return Err(DbError), rows;
      }
      var rest := set id | id in payments && !payments[id].initiated;
      var addresses: seq<string> := [];
      while rest != {}
        invariant rest <= ToBeInitiated(payments)
        invariant |addresses| == |rows|
        invariant forall k, l :: 0 <= k < l < |rows| ==> rows[k] != rows[l]
        invariant forall id :: id in rows <==> id in ToBeInitiated(payments) - rest
        invariant forall k :: 0 <= k < |rows| ==> rows[k] in payments && addresses[k] == payments[rows[k]].address
        decreases rest
      {
        var id :| id in rest;
        assert id !in rows;
        addresses := addresses + [payments[id].address];
        rows := rows + [id];
        rest := rest - {id};
      }
      r := Ok(addresses);
    }

    /** `get_to_be_completed_payments(min_confirmations)`: the ids of the
        initiated, not completed rows with at least
        `min_confirmations as i32` confirmations, each once. */
    method GetToBeCompletedPayments(minConfirmations: u64, ok: bool) returns (r: DbResult<seq<Uuid>>)
      ensures r.Ok? <==> ok
      ensures r.Ok? ==>
                && (forall k, l :: 0 <= k < l < |r.value| ==> r.value[k] != r.value[l])
                && (forall id :: id in r.value <==> id in ToBeCompleted(payments, AsI32(minConfirmations)))
    {
      if !ok {
        return Err(DbError);
      }
      var threshold := AsI32(minConfirmations);
      var rest := set id | id in payments && payments[id].initiated && !payments[id].completed
                             && payments[id].confirmations >= threshold;
      var ids: seq<Uuid> := [];
      while rest != {}
        invariant rest <= ToBeCompleted(payments, threshold)
        invariant forall k, l :: 0 <= k < l < |ids| ==> ids[k] != ids[l]
        invariant forall id :: id in ids <==> id in ToBeCompleted(payments, threshold) - rest
        decreases rest
      {
        var id :| id in rest;
        assert id !in ids;
        ids := ids + [id];
        rest := rest - {id};
      }
      r := Ok(ids);
    }

    /** `get_payment`. */
    method GetPayment(paymentId: Uuid, ok: bool) returns (r: DbResult<Option<Payment>>)
      ensures r.Ok? <==> ok
      ensures r.Ok? ==> (r.value.Some? <==> paymentId in payments)
      ensures r.Ok? && r.value.Some? ==> r.value.value == payments[paymentId]
    {
      if !ok {
        return Err(DbError);
      }
      if paymentId in payments {
        r := Ok(Some(payments[paymentId]));
      } else {
        r := Ok(None);
      }
    }

    /** `is_already_processed`. */
    method IsAlreadyProcessed(transactionId: string, address: string, ok: bool) returns (r: DbResult<bool>)
      ensures r.Ok? <==> ok
      ensures r.Ok? ==> (r.value <==> Processed(payments, paymentTransactions, transactionId, address))
    {
      if !ok {
        return Err(DbError);
      }
      r := Ok(exists pair | pair in paymentTransactions ::
                pair.1 == transactionId && pair.0 in payments && payments[pair.0].address == address);
    }

    /** `get_payment_by_address`: some row with this address (the first the
        database returns, when several share it), or none. */
    method GetPaymentByAddress(address: string, ok: bool) returns (r: DbResult<Option<Payment>>)
      requires Valid()
      ensures r.Ok? <==> ok
      ensures r.Ok? ==> (r.value.Some? <==> exists id :: id in payments && payments[id].address == address)
      ensures r.Ok? && r.value.Some? ==>
                r.value.value.id in payments && payments[r.value.value.id] == r.value.value
                && r.value.value.address == address
    {
      if !ok {
        return Err(DbError);
      }
      if exists id | id in payments :: payments[id].address == address {
        var id :| id in payments && payments[id].address == address;
        r := Ok(Some(payments[id]));
      } else {
        r := Ok(None);
      }
    }
  }

  /** The payment flow as the service drives it, on any repository: a
      created payment is found by id and by address, and once a transaction
      is credited to it, the transaction reads as processed for that address
      and the row holds the amount. No other row changes. */
  method ReceiveFlow(repo: SqlxPostgresqlRepository, accountId: Uuid, address: string, amount: real,
                     now: Timestamp, tx: string)
    returns (id: Uuid, byId: DbResult<Option<Payment>>, byAddress: DbResult<Option<Payment>>,
             processed: DbResult<bool>)
    requires repo.Valid()
    modifies repo
    ensures repo.Valid()
    ensures id !in old(repo.payments) && id in repo.payments
    ensures byId == Ok(Some(NewPayment(id, accountId, address, amount, now)))
    ensures byAddress.Ok? && byAddress.value.Some? && byAddress.value.value.address == address
    ensures (forall k :: k in old(repo.payments) ==> old(repo.payments)[k].address != address) ==>
              byAddress == Ok(Some(NewPayment(id, accountId, address, amount, now)))
    ensures processed == Ok(true)
    ensures repo.payments[id] == NewPayment(id, accountId, address, amount, now).(received := 0.0 + amount)
    ensures forall k :: k in old(repo.payments) ==> k in repo.payments && repo.payments[k] == old(repo.payments)[k]
  {
    var created := repo.CreatePayment(accountId, address, amount, now, true);
    id := created.value;
    byId := repo.GetPayment(id, true);
    byAddress := repo.GetPaymentByAddress(address, true);
    assert repo.payments[id].address == address;
    if forall k :: k in old(repo.payments) ==> old(repo.payments)[k].address != address {
      assert byAddress.value.value.id == id;
    }
    var credited := repo.AddPaymentReceived(id, amount, tx, true, true);
    processed := repo.IsAlreadyProcessed(tx, address, true);
  }
}
