/** The repository over the payments and webhook_outbox tables: its writes, each
    proved to be the transition that the histories of the ledger are made of. */
module LedgerRepository {
  import opened Common
  import opened PaymentLedger
  import WebhookOutbox

  /** The oldest of some obligations. */
  method Oldest(rows: Outbox, among: set<ObligationKey>) returns (k: ObligationKey)
    requires among != {} && among <= rows.Keys
    ensures k in among && forall j :: j in among ==> rows[k].createdAt <= rows[j].createdAt
  {
    k :| k in among;
    var rest := among - {k};
    while rest != {}
      invariant k in among && rest <= among
      invariant forall j :: j in among - rest ==> rows[k].createdAt <= rows[j].createdAt
      decreases |rest|
    {
      var j :| j in rest;
      if rows[j].createdAt < rows[k].createdAt {
        k := j;
      }
      rest := rest - {j};
    }
  }

  /** Selection of the oldest claimable rows, up to the limit. */
  method SelectOldest(rows: Outbox, limit: nat, now: int) returns (picked: set<ObligationKey>)
    ensures WebhookOutbox.Selects(WebhookOutbox.State(rows, map[], []), picked, limit, now)
  {
    var claimable := set k | k in rows && WebhookOutbox.Claimable(rows[k], now);
    var left := claimable;
    picked := {};
    while |picked| < limit && left != {}
      invariant left <= claimable && picked == claimable - left && |picked| <= limit
      invariant forall j, k :: j in picked && k in left ==> rows[j].createdAt <= rows[k].createdAt
      decreases |left|
    {
      var k := Oldest(rows, left);
      picked, left := picked + {k}, left - {k};
    }
    ghost var s := WebhookOutbox.State(rows, map[], []);
    assert forall k :: WebhookOutbox.Eligible(s, k, now) <==> k in claimable;
  }

  class Repository {
    var payments: Payments
    var outbox: Outbox

    ghost function View(): Ledger
      reads this
    {
      Ledger(payments, outbox)
    }

    constructor ()
      ensures View() == EMPTY
    {
      payments, outbox := map[], map[];
    }

    /** Insert, or merge into the row of the same transfer; the id of the row that now exists. */
    method UpsertPaymentRow(key: TransferKey, p: Payment) returns (id: Uuid)
      modifies this`payments
      ensures payments == UpsertRow(old(payments), key, p) && id == payments[key].id
    {
      if key in payments {
        var row := payments[key];
        var block := if p.block.Some? then p.block else row.block;
        var confirmedAt := if p.confirmedAt.Some? then p.confirmedAt else row.confirmedAt;
        var extra := if p.extra.Some? then p.extra else row.extra;
        var credited := if p.credited.Some? then p.credited else row.credited;
        var rate := if p.rate.Some? then p.rate else row.rate;
        var rateAt := if p.rateAt.Some? then p.rateAt else row.rateAt;
        payments := payments[key := row.(block := block, confirmedAt := confirmedAt, extra := extra,
                                         credited := credited, rate := rate, rateAt := rateAt)];
      } else {
        payments := payments[key := p.(reorged := false)];
      }
      id := payments[key].id;
    }

    /** Payment and obligation, committed together; an obligation already there, drained or not, stays. */
    method UpsertWithTxIndexAndObligation(key: TransferKey, p: Payment, eventType: string, newId: Uuid, now: int)
      modifies this
      ensures View() == Record(old(View()), key, p, eventType, newId, now)
    {
      var id := UpsertPaymentRow(key, p);
      var due := ObligationKey(id, eventType);
      if due !in outbox {
        outbox := outbox[due := Obligation(newId, p.invoice, now, None, None)];
      }
    }

    /** Set the time on an unconfirmed row. No row affected is an error, so a second confirmation of a payment fails. */
    method MarkConfirmed(id: Uuid, at: int) returns (r: Result<()>)
      modifies this`payments
      ensures payments == PaymentLedger.MarkConfirmed(old(payments), id, at)
      ensures if ConfirmsSomething(old(payments), id) then r == Ok(()) else r == Err(NotFound) && payments == old(payments)
    {
      var affected := set k | k in payments && payments[k].id == id && payments[k].confirmedAt.None?;
      payments := map k | k in payments :: if k in affected then payments[k].(confirmedAt := Some(at)) else payments[k];
      r := if affected == {} then Err(NotFound) else Ok(());
      assert affected == {} <==> !ConfirmsSomething(old(payments), id) by {
        assert forall k :: k in affected <==> k in old(payments) && old(payments)[k].id == id && old(payments)[k].confirmedAt.None?;
      }
    }

    /** Retract an invoice's payments from the fork on, in one statement; the number of rows affected. */
    method MarkReorged(invoice: string, chain: nat, fork: nat) returns (count: nat)
      modifies this`payments
      ensures (payments, count) == PaymentLedger.MarkReorged(old(payments), invoice, chain, fork)
    {
      var affected := set k | k in payments && payments[k].invoice == invoice && k.chain == chain
                              && payments[k].block.Some? && payments[k].block.value >= fork && !payments[k].reorged;
      assert affected == CandidatesOf(payments, invoice, chain, fork);
      ghost var before := payments;
      payments := map k | k in payments ::
        if k in affected then payments[k].(reorged := true, confirmedAt := None) else payments[k];
      count := |affected|;
      assert payments == RetractAll(before, affected);
    }

    method MarkPaymentReorged(id: Uuid)
      modifies this`payments
      ensures payments == RetractOne(old(payments), id)
    {
      payments := map k | k in payments ::
        if payments[k].id == id && !payments[k].reorged then payments[k].(reorged := true, confirmedAt := None) else payments[k];
    }

    /** Pick the oldest claimable rows up to the limit and stamp a lease on exactly those. */
    method ClaimUndispatchedObligations(limit: nat, visibility: nat, now: int) returns (claimed: set<ObligationKey>)
      modifies this`outbox
      ensures WebhookOutbox.Selects(WebhookOutbox.State(old(outbox), map[], []), claimed, limit, now)
      ensures outbox == WebhookOutbox.Stamp(old(outbox), claimed, now + visibility)
    {
      claimed := SelectOldest(outbox, limit, now);
      outbox := map k | k in outbox :: if k in claimed then outbox[k].(claimedUntil := Some(now + visibility)) else outbox[k];
    }

    method MarkObligationDispatched(id: Uuid, now: int)
      modifies this`outbox
      ensures outbox == WebhookOutbox.Dispatch(old(outbox), id, now)
    {
      outbox := map k | k in outbox :: if outbox[k].id == id then outbox[k].(dispatchedAt := Some(now)) else outbox[k];
    }
  }
}
