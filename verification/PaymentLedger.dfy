/** The payments table, keyed by transfer, and the webhook obligations written
    with it: recording, confirming and retracting payments. */
module PaymentLedger {
  import opened Common

  // ---------------------------------------------------------------- which transfer

  /** A transfer inside one transaction: the native one, or the log with this u32 index. */
  datatype Transfer = Native | Log(index: nat)

  ghost predicate WellFormed(t: Transfer) {
    t.Log? ==> t.index < 0x1_0000_0000
  }

  /** `tx_index`: the log index cast to i32, or -1 for the native transfer. */
  function TxIndex(t: Transfer): (r: int) {
    match t
    case Native => -1
    case Log(index) => if index < 0x8000_0000 then index else index - 0x1_0000_0000
  }

  /** Two transfers of a transaction share an index in one case only: the native
      one and the very last u32 log index, which the cast turns into -1. */
  lemma TxIndexCollidesIff(a: Transfer, b: Transfer)
    requires WellFormed(a) && WellFormed(b)
    ensures a != b && TxIndex(a) == TxIndex(b) <==> {a, b} == {Native, Log(0xffff_ffff)}
    ensures a.Log? && a.index < 0x8000_0000 ==> TxIndex(a) == a.index
    ensures a.Native? ==> TxIndex(a) == -1
  {
  }

  // ---------------------------------------------------------------- rows

  /** The unique key of the payments table. */
  datatype TransferKey = TransferKey(chain: nat, txHash: string, txIndex: int)

  datatype Payment = Payment(
    id: Uuid, invoice: string, option: Option<Uuid>, amount: nat, symbol: string, block: Option<nat>, detectedAt: int,
    confirmedAt: Option<int>, reorged: bool, extra: Option<string>,
    credited: Option<string>, rate: Option<string>, rateAt: Option<int>)

  type Payments = map<TransferKey, Payment>

  /** What a second sighting of a transfer changes: only columns it has a value for, and never the identity or the retraction. */
  function Merge(row: Payment, p: Payment): Payment {
    row.(block := Coalesce(p.block, row.block),
         confirmedAt := Coalesce(p.confirmedAt, row.confirmedAt),
         extra := Coalesce(p.extra, row.extra),
         credited := Coalesce(p.credited, row.credited),
         rate := Coalesce(p.rate, row.rate),
         rateAt := Coalesce(p.rateAt, row.rateAt))
  }

  function UpsertRow(payments: Payments, key: TransferKey, p: Payment): Payments {
    payments[key := if key in payments then Merge(payments[key], p) else p.(reorged := false)]
  }

  /** Seeing a transfer twice is seeing it once: the row of the first sighting
      with the second's values where it has any, as if those had come first. */
  lemma UpsertTwice(payments: Payments, key: TransferKey, first: Payment, second: Payment)
    ensures UpsertRow(UpsertRow(payments, key, first), key, second) == UpsertRow(payments, key, Merge(first, second))
  {
  }

  /** A first sighting is stored as it is, and standing. A later one fills in what
      it brings, keeps what it does not, and touches neither identity nor retraction. */
  lemma UpsertedRow(payments: Payments, key: TransferKey, p: Payment)
    ensures var after := UpsertRow(payments, key, p);
      && after.Keys == payments.Keys + {key} && (forall k :: k in payments && k != key ==> after[k] == payments[k])
      && (key !in payments ==> after[key] == p.(reorged := false))
      && (key in payments ==>
            var a, b := payments[key], after[key];
            && b.id == a.id && b.invoice == a.invoice && b.option == a.option && b.amount == a.amount && b.symbol == a.symbol
            && b.detectedAt == a.detectedAt && b.reorged == a.reorged
            && b.block == (if p.block.Some? then p.block else a.block)
            && b.confirmedAt == (if p.confirmedAt.Some? then p.confirmedAt else a.confirmedAt)
            && b.extra == (if p.extra.Some? then p.extra else a.extra)
            && b.credited == (if p.credited.Some? then p.credited else a.credited)
            && b.rate == (if p.rate.Some? then p.rate else a.rate)
            && b.rateAt == (if p.rateAt.Some? then p.rateAt else a.rateAt))
  {
  }

  // ---------------------------------------------------------------- obligations

  datatype ObligationKey = ObligationKey(payment: Uuid, eventType: string)

  datatype Obligation = Obligation(id: Uuid, invoice: string, createdAt: int, claimedUntil: Option<int>, dispatchedAt: Option<int>)

  type Outbox = map<ObligationKey, Obligation>

  datatype Ledger = Ledger(payments: Payments, outbox: Outbox)

  const EMPTY: Ledger := Ledger(map[], map[])

  /** Payment row and obligation in one transaction. The obligation is for the
      row that now exists, and one already there is left as it is. */
  function Record(l: Ledger, key: TransferKey, p: Payment, eventType: string, obligationId: Uuid, now: int): (r: Ledger) {
    var payments := UpsertRow(l.payments, key, p);
    var due := ObligationKey(payments[key].id, eventType);
    Ledger(payments, if due in l.outbox then l.outbox else l.outbox[due := Obligation(obligationId, p.invoice, now, None, None)])
  }

  /** Recording leaves an obligation for the row that stands: the one there was,
      untouched, or a new one for this invoice that nobody has claimed or dispatched.
      No other obligation changes. */
  lemma RecordedObligation(l: Ledger, key: TransferKey, p: Payment, eventType: string, obligationId: Uuid, now: int)
    ensures var after := Record(l, key, p, eventType, obligationId, now);
      var due := ObligationKey(after.payments[key].id, eventType);
      && after.payments == UpsertRow(l.payments, key, p)
      && after.outbox.Keys == l.outbox.Keys + {due} && (forall k :: k in l.outbox ==> after.outbox[k] == l.outbox[k])
      && (due !in l.outbox ==>
            && after.outbox[due].id == obligationId && after.outbox[due].invoice == p.invoice && after.outbox[due].createdAt == now
            && after.outbox[due].claimedUntil == None && after.outbox[due].dispatchedAt == None)
  {
  }

  // ---------------------------------------------------------------- confirmation

  /** The lookup a confirmation uses: not scoped to a chain, and blind to retracted rows. */
  ghost predicate Finds(payments: Payments, k: TransferKey, invoice: string, txHash: string, txIndex: int) {
    k in payments && payments[k].invoice == invoice && k.txHash == txHash && k.txIndex == txIndex && !payments[k].reorged
  }

  function MarkConfirmed(payments: Payments, id: Uuid, at: int): (r: Payments) {
    map k | k in payments ::
      if payments[k].id == id && payments[k].confirmedAt.None? then payments[k].(confirmedAt := Some(at)) else payments[k]
  }

  /** The statement reports not-found unless it changed a row, so a payment that is already confirmed is an error. */
  ghost predicate ConfirmsSomething(payments: Payments, id: Uuid) {
    exists k :: k in payments && payments[k].id == id && payments[k].confirmedAt.None?
  }

  /** The first row the lookup returns, if any. */
  ghost function FindTransfer(payments: Payments, invoice: string, txHash: string, txIndex: int): Option<TransferKey> {
    if k :| Finds(payments, k, invoice, txHash, txIndex) then Some(k) else None
  }

  /** Look the transfer up among the rows that stand, then mark what was found. */
  ghost function ConfirmTransfer(payments: Payments, invoice: string, txHash: string, txIndex: int, at: int): Payments {
    var found := FindTransfer(payments, invoice, txHash, txIndex);
    if found.Some? then MarkConfirmed(payments, payments[found.value].id, at) else payments
  }

  /** Only an unconfirmed row of that id changes, and only its confirmation time. */
  lemma ConfirmedRow(payments: Payments, id: Uuid, at: int, k: TransferKey)
    requires k in payments
    ensures MarkConfirmed(payments, id, at).Keys == payments.Keys
    ensures MarkConfirmed(payments, id, at)[k] ==
      if payments[k].id == id && payments[k].confirmedAt == None then payments[k].(confirmedAt := Some(at)) else payments[k]
  {
  }

  /** Hash and index name a transfer, whatever the chain. */
  ghost predicate HashesDistinct(payments: Payments) {
    forall i, j :: i in payments && j in payments && i.txHash == j.txHash && i.txIndex == j.txIndex ==> i == j
  }

  /** Confirming a transfer, where its hash and index name one standing row of the
      invoice: that row is confirmed, at that time if it was not yet, and no other
      changes. Where they name none, nothing changes. */
  lemma ConfirmedTransfer(payments: Payments, invoice: string, txHash: string, txIndex: int, at: int, k: TransferKey)
    requires IdsUnique(payments) && k in payments
    requires HashesDistinct(payments)
    ensures var after := ConfirmTransfer(payments, invoice, txHash, txIndex, at);
      && after.Keys == payments.Keys
      && after[k] ==
           if payments[k].invoice == invoice && k.txHash == txHash && k.txIndex == txIndex && !payments[k].reorged && payments[k].confirmedAt == None
           then payments[k].(confirmedAt := Some(at)) else payments[k]
  {
    if Finds(payments, k, invoice, txHash, txIndex) {
      assert FindTransfer(payments, invoice, txHash, txIndex) == Some(k);
    }
  }

  // ---------------------------------------------------------------- retraction

  function Retracted(row: Payment): Payment {
    row.(reorged := true, confirmedAt := None)
  }

  function RetractOne(payments: Payments, id: Uuid): (r: Payments) {
    map k | k in payments :: if payments[k].id == id && !payments[k].reorged then Retracted(payments[k]) else payments[k]
  }

  predicate AtOrAbove(payments: Payments, k: TransferKey, chain: nat, fork: nat) {
    k in payments && k.chain == chain && payments[k].block.Some? && payments[k].block.value >= fork && !payments[k].reorged
  }

  /** The candidates of a reorganisation of `chain` at `fork` that paid one invoice. */
  function CandidatesOf(payments: Payments, invoice: string, chain: nat, fork: nat): set<TransferKey> {
    set k | k in payments && AtOrAbove(payments, k, chain, fork) && payments[k].invoice == invoice
  }

  function RetractAll(payments: Payments, rows: set<TransferKey>): (r: Payments) {
    map k | k in payments :: if k in rows then Retracted(payments[k]) else payments[k]
  }

  /** The single statement: retract an invoice's payments at or above the fork, and count them. */
  function MarkReorged(payments: Payments, invoice: string, chain: nat, fork: nat): (r: (Payments, nat)) {
    var rows := CandidatesOf(payments, invoice, chain, fork);
    (RetractAll(payments, rows), |rows|)
  }

  /** One statement, row by row: exactly the invoice's standing payments on the chain
      from the fork block on lose their confirmation and are retracted. */
  lemma ReorgedRow(payments: Payments, invoice: string, chain: nat, fork: nat, k: TransferKey)
    requires k in payments
    ensures var after := MarkReorged(payments, invoice, chain, fork).0;
      var p := payments[k];
      && after.Keys == payments.Keys
      && after[k] ==
           if p.invoice == invoice && k.chain == chain && p.block.Some? && p.block.value >= fork && !p.reorged
           then p.(reorged := true, confirmedAt := None) else p
  {
  }

  /** And the count is of those rows. */
  lemma ReorgedCount(payments: Payments, invoice: string, chain: nat, fork: nat, rows: set<TransferKey>)
    requires forall k :: k in rows <==>
      (k in payments && payments[k].invoice == invoice && k.chain == chain
       && payments[k].block.Some? && payments[k].block.value >= fork && !payments[k].reorged)
    ensures MarkReorged(payments, invoice, chain, fork).1 == |rows|
  {
    assert rows == CandidatesOf(payments, invoice, chain, fork);
  }

  lemma RetractedRow(payments: Payments, id: Uuid, k: TransferKey)
    requires k in payments
    ensures RetractOne(payments, id).Keys == payments.Keys
    ensures RetractOne(payments, id)[k] ==
      if payments[k].id == id && !payments[k].reorged then payments[k].(reorged := true, confirmedAt := None) else payments[k]
  {
  }

  ghost function RetractEach(payments: Payments, ids: seq<Uuid>): Payments {
    if ids == [] then payments else RetractEach(RetractOne(payments, ids[0]), ids[1..])
  }

  ghost predicate IdsUnique(payments: Payments) {
    forall j, k :: j in payments && k in payments && payments[j].id == payments[k].id ==> j == k
  }

  /** Closed form of retracting one payment after another. */
  lemma {:induction false} RetractEachIs(payments: Payments, ids: seq<Uuid>, k: TransferKey)
    requires k in payments
    ensures k in RetractEach(payments, ids)
    ensures RetractEach(payments, ids)[k] ==
      if payments[k].id in ids && !payments[k].reorged then Retracted(payments[k]) else payments[k]
    decreases |ids|
  {
    if ids != [] {
      RetractEachIs(RetractOne(payments, ids[0]), ids[1..], k);
    }
  }

  lemma {:induction false} RetractEachKeys(payments: Payments, ids: seq<Uuid>)
    ensures RetractEach(payments, ids).Keys == payments.Keys
    decreases |ids|
  {
    if ids != [] {
      RetractEachKeys(RetractOne(payments, ids[0]), ids[1..]);
    }
  }

  /** Retracting an invoice's candidates one at a time, in any order, is the
      single statement, and there are as many of them as it counts. */
  lemma OneByOneIsTheStatement(payments: Payments, invoice: string, chain: nat, fork: nat, order: seq<Uuid>)
    requires IdsUnique(payments) && Distinct(order)
    requires forall id :: id in order <==> exists k :: k in CandidatesOf(payments, invoice, chain, fork) && payments[k].id == id
    ensures RetractEach(payments, order) == MarkReorged(payments, invoice, chain, fork).0
    ensures |order| == MarkReorged(payments, invoice, chain, fork).1
  {
    var rows := CandidatesOf(payments, invoice, chain, fork);
    RetractEachKeys(payments, order);
    forall k | k in payments ensures RetractEach(payments, order)[k] == RetractAll(payments, rows)[k] {
      RetractEachIs(payments, order, k);
      if payments[k].id in order {
        var j :| j in rows && payments[j].id == payments[k].id;
      }
    }
    Counts(payments, rows, order);
  }

  /** Rows and their distinct ids are equally many. */
  lemma {:induction false} Counts(payments: Payments, rows: set<TransferKey>, order: seq<Uuid>)
    requires IdsUnique(payments) && rows <= payments.Keys && Distinct(order)
    requires forall id :: id in order <==> exists k :: k in rows && payments[k].id == id
    ensures |order| == |rows|
    decreases |order|
  {
    assert forall k :: k in rows ==> payments[k].id in order;
    if order != [] {
      assert order[0] in order;
      var k :| k in rows && payments[k].id == order[0];
      forall id ensures id in order[1..] <==> exists j :: j in rows - {k} && payments[j].id == id {
        if id in order[1..] {
          assert id in order && id != order[0];
          var j :| j in rows && payments[j].id == id;
          assert j in rows - {k};
        }
        if j :| j in rows - {k} && payments[j].id == id {
          assert id in order && id != order[0];
        }
      }
      Counts(payments, rows - {k}, order[1..]);
    }
  }
}
