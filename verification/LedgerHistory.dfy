/** Whole histories of the ledger: any list of detections (with repeats),
    confirmations, retractions, claims and dispatches, in any order. */
module LedgerHistory {
  import opened Common
  import opened PaymentLedger
  import WebhookOutbox

  /** A transfer as the chain knows it. */
  datatype OnChain = OnChain(chain: nat, txHash: string, transfer: Transfer)

  /** The key its payment is recorded under. */
  function KeyOf(on: OnChain): TransferKey {
    TransferKey(on.chain, on.txHash, TxIndex(on.transfer))
  }

  datatype Op =
    | Detect(on: OnChain, p: Payment, eventType: string, obligationId: Uuid, now: int)
    | Confirm(invoice: string, txHash: string, txIndex: int, at: int)
    | Retract(id: Uuid)
    | Reorg(invoice: string, chain: nat, fork: nat)
    | Lease(keys: set<ObligationKey>, until: int)
    | Deliver(id: Uuid, now: int)

  ghost function Apply(l: Ledger, op: Op): Ledger {
    match op
    case Detect(on, p, eventType, obligationId, now) => Record(l, KeyOf(on), p, eventType, obligationId, now)
    case Confirm(invoice, txHash, txIndex, at) => l.(payments := ConfirmTransfer(l.payments, invoice, txHash, txIndex, at))
    case Retract(id) => l.(payments := RetractOne(l.payments, id))
    case Reorg(invoice, chain, fork) => l.(payments := MarkReorged(l.payments, invoice, chain, fork).0)
    case Lease(keys, until) => l.(outbox := WebhookOutbox.Stamp(l.outbox, keys, until))
    case Deliver(id, now) => l.(outbox := WebhookOutbox.Dispatch(l.outbox, id, now))
  }

  /** Every attempt at recording a payment draws a new id, and a detection carries no confirmation. */
  ghost predicate Permitted(l: Ledger, op: Op) {
    op.Detect? ==> op.p.confirmedAt.None? && forall k :: k in l.payments ==> l.payments[k].id != op.p.id
  }

  ghost predicate PermittedAll(l: Ledger, ops: seq<Op>)
    decreases |ops|
  {
    ops == [] || (PermittedAll(l, ops[..|ops| - 1]) && Permitted(ApplyAll(l, ops[..|ops| - 1]), ops[|ops| - 1]))
  }

  ghost function ApplyAll(l: Ledger, ops: seq<Op>): Ledger
    decreases |ops|
  {
    if ops == [] then l else Apply(ApplyAll(l, ops[..|ops| - 1]), ops[|ops| - 1])
  }

  /** The row a confirmation leaves: confirmed if its transfer names it and it stands unconfirmed. */
  ghost function WhenConfirmed(op: Op, k: TransferKey, p: Payment): Payment
    requires op.Confirm?
  {
    if p.invoice == op.invoice && k.txHash == op.txHash && k.txIndex == op.txIndex && !p.reorged && p.confirmedAt == None
    then p.(confirmedAt := Some(op.at)) else p
  }

  /** What the operations of a history do: a confirmation marks the standing row its
      transfer names; a lease keeps what it names from being claimed until it runs
      out; a delivery is for good. */
  lemma OpsDo(l: Ledger, op: Op)
    requires IdsUnique(l.payments) && HashesDistinct(l.payments)
    ensures var after := Apply(l, op);
      && (op.Confirm? ==> after.outbox == l.outbox && after.payments.Keys == l.payments.Keys)
      && (op.Confirm? ==> forall k :: k in l.payments ==> after.payments[k] == WhenConfirmed(op, k, l.payments[k]))
      && (op.Lease? ==> after.payments == l.payments && forall k :: k in l.outbox && k in op.keys && l.outbox[k].dispatchedAt == None ==>
            k in after.outbox && forall t :: WebhookOutbox.Claimable(after.outbox[k], t) <==> t > op.until)
      && (op.Deliver? ==> after.payments == l.payments && forall k :: k in l.outbox && l.outbox[k].id == op.id ==>
            k in after.outbox && forall t :: !WebhookOutbox.Claimable(after.outbox[k], t))
  {
    if op.Confirm? {
      forall k | k in l.payments ensures k in Apply(l, op).payments && Apply(l, op).payments[k] == WhenConfirmed(op, k, l.payments[k]) {
        ConfirmedTransfer(l.payments, op.invoice, op.txHash, op.txIndex, op.at, k);
      }
    }
  }

  // ---------------------------------------------------------------- one row and one obligation per transfer

  datatype Sighting = Sighting(key: TransferKey, eventType: string)

  /** The distinct transfers and event types a history detected. */
  ghost function Sightings(ops: seq<Op>): set<Sighting> {
    set i | 0 <= i < |ops| && ops[i].Detect? :: Sighting(KeyOf(ops[i].on), ops[i].eventType)
  }

  ghost function Transfers(seen: set<Sighting>): set<TransferKey> {
    set s | s in seen :: s.key
  }

  /** The obligations those sightings call for, each on the row of its transfer. */
  ghost function Dues(payments: Payments, seen: set<Sighting>): set<ObligationKey>
    requires Transfers(seen) <= payments.Keys
  {
    set s | s in seen :: assert s.key in Transfers(seen); ObligationKey(payments[s.key].id, s.eventType)
  }

  /** The ledger mirrors what was seen: a row for each transfer, an obligation for each sighting. */
  ghost predicate Mirrors(l: Ledger, seen: set<Sighting>) {
    IdsUnique(l.payments) && l.payments.Keys == Transfers(seen) && l.outbox.Keys == Dues(l.payments, seen)
  }

  /** Distinct sightings call for distinct obligations, so there are exactly as many. */
  lemma {:induction false} OneObligationEach(payments: Payments, seen: set<Sighting>)
    requires IdsUnique(payments) && Transfers(seen) <= payments.Keys
    ensures |Dues(payments, seen)| == |seen|
    decreases |seen|
  {
    if seen != {} {
      var s :| s in seen;
      var rest := seen - {s};
      assert Transfers(rest) <= Transfers(seen);
      OneObligationEach(payments, rest);
      assert s.key in Transfers(seen);
      var due := ObligationKey(payments[s.key].id, s.eventType);
      forall r | r in rest ensures ObligationKey(payments[r.key].id, r.eventType) != due {
        assert r.key in Transfers(seen);
      }
      assert Dues(payments, seen) == Dues(payments, rest) + {due} by {
        assert seen == rest + {s};
      }
      assert due !in Dues(payments, rest);
    }
  }

  ghost predicate SameIds(a: Payments, b: Payments) {
    forall k :: k in a ==> k in b && b[k].id == a[k].id
  }

  lemma SameDues(a: Payments, b: Payments, seen: set<Sighting>)
    requires Transfers(seen) <= a.Keys && SameIds(a, b)
    ensures Transfers(seen) <= b.Keys && Dues(a, seen) == Dues(b, seen)
  {
    forall s | s in seen ensures s.key in a && b[s.key].id == a[s.key].id {
      assert s.key in Transfers(seen);
    }
  }

  lemma QuietKeepsMirror(l: Ledger, seen: set<Sighting>, op: Op)
    requires Mirrors(l, seen) && !op.Detect?
    ensures Mirrors(Apply(l, op), seen)
  {
    var l' := Apply(l, op);
    assert l'.payments.Keys == l.payments.Keys && l'.outbox.Keys == l.outbox.Keys;
    SameDues(l.payments, l'.payments, seen);
  }

  lemma DetectKeepsMirror(l: Ledger, seen: set<Sighting>, op: Op)
    requires Mirrors(l, seen) && op.Detect? && Permitted(l, op)
    ensures Mirrors(Apply(l, op), seen + {Sighting(KeyOf(op.on), op.eventType)})
  {
    var payments := UpsertRow(l.payments, KeyOf(op.on), op.p);
    var s := Sighting(KeyOf(op.on), op.eventType);
    UpsertKeepsIds(l.payments, KeyOf(op.on), op.p);
    OneMoreTransfer(seen, s);
    SameDues(l.payments, payments, seen);
    OneMoreDue(payments, seen, s);
  }

  lemma UpsertKeepsIds(payments: Payments, key: TransferKey, p: Payment)
    requires IdsUnique(payments) && forall k :: k in payments ==> payments[k].id != p.id
    ensures IdsUnique(UpsertRow(payments, key, p)) && SameIds(payments, UpsertRow(payments, key, p))
  {
  }

  lemma OneMoreTransfer(seen: set<Sighting>, s: Sighting)
    ensures Transfers(seen + {s}) == Transfers(seen) + {s.key}
  {
    assert s in seen + {s};
    assert forall r :: r in seen ==> r in seen + {s};
  }

  lemma OneMoreDue(payments: Payments, seen: set<Sighting>, s: Sighting)
    requires Transfers(seen) <= payments.Keys && s.key in payments
    ensures Transfers(seen + {s}) <= payments.Keys
    ensures Dues(payments, seen + {s}) == Dues(payments, seen) + {ObligationKey(payments[s.key].id, s.eventType)}
  {
    forall r | r in seen + {s} ensures r.key in payments {
      assert r in seen ==> r.key in Transfers(seen);
    }
    assert s in seen + {s};
    assert forall r :: r in seen ==> r in seen + {s};
  }

  lemma MoreHistory(ops: seq<Op>, op: Op)
    ensures Sightings(ops + [op]) == Sightings(ops) + if op.Detect? then {Sighting(KeyOf(op.on), op.eventType)} else {}
  {
    var more := ops + [op];
    assert more[|ops|] == op && forall i :: 0 <= i < |ops| ==> more[i] == ops[i];
    forall s | s in Sightings(ops) ensures s in Sightings(more) {
      var i :| 0 <= i < |ops| && ops[i].Detect? && s == Sighting(KeyOf(ops[i].on), ops[i].eventType);
      assert more[i] == ops[i];
    }
  }

  lemma StepKeepsMirror(l: Ledger, seen: set<Sighting>, op: Op)
    requires Mirrors(l, seen) && Permitted(l, op)
    ensures Mirrors(Apply(l, op), seen + if op.Detect? then {Sighting(KeyOf(op.on), op.eventType)} else {})
  {
    if op.Detect? {
      DetectKeepsMirror(l, seen, op);
    } else {
      QuietKeepsMirror(l, seen, op);
      assert seen + {} == seen;
    }
  }

  lemma {:induction false} HistoryIsMirrored(ops: seq<Op>)
    requires PermittedAll(EMPTY, ops)
    ensures Mirrors(ApplyAll(EMPTY, ops), Sightings(ops))
    decreases |ops|
  {
    if ops != [] {
      var before, op := ops[..|ops| - 1], ops[|ops| - 1];
      HistoryIsMirrored(before);
      assert before + [op] == ops;
      MoreHistory(before, op);
      StepKeepsMirror(ApplyAll(EMPTY, before), Sightings(before), op);
    }
  }

  /** However often a transfer is delivered and whatever claims, dispatches,
      confirmations and retractions come in between, it has exactly one row, and
      each event type detected for it has exactly one obligation, on that row. */
  lemma OneRowOneObligation(ops: seq<Op>)
    requires PermittedAll(EMPTY, ops)
    ensures var l := ApplyAll(EMPTY, ops);
      && IdsUnique(l.payments) && l.payments.Keys == Transfers(Sightings(ops))
      && l.outbox.Keys == Dues(l.payments, Sightings(ops)) && |l.outbox| == |Sightings(ops)|
  {
    HistoryIsMirrored(ops);
    var l := ApplyAll(EMPTY, ops);
    OneObligationEach(l.payments, Sightings(ops));
    assert |l.outbox| == |l.outbox.Keys|;
  }

  // ---------------------------------------------------------------- one row per transfer on the chain

  datatype Event = Event(on: OnChain, eventType: string)

  /** The distinct transfers a history detected, and the distinct event types of each. */
  ghost function Seen(ops: seq<Op>): set<OnChain> {
    set i | 0 <= i < |ops| && ops[i].Detect? :: ops[i].on
  }

  ghost function Events(ops: seq<Op>): set<Event> {
    set i | 0 <= i < |ops| && ops[i].Detect? :: Event(ops[i].on, ops[i].eventType)
  }

  ghost function SightingOf(e: Event): Sighting {
    Sighting(KeyOf(e.on), e.eventType)
  }

  /** Log indices are 32-bit numbers. */
  ghost predicate WellFormedHistory(ops: seq<Op>) {
    forall i :: 0 <= i < |ops| && ops[i].Detect? ==> WellFormed(ops[i].on.transfer)
  }

  /** One transaction has both the native transfer and a log with the last 32-bit index. */
  ghost predicate Collides(seen: set<OnChain>) {
    exists a, b :: a in seen && b in seen && a.chain == b.chain && a.txHash == b.txHash
      && a.transfer == Native && b.transfer == Log(0xffff_ffff)
  }

  lemma SharesAKeyIff(a: OnChain, b: OnChain)
    requires WellFormed(a.transfer) && WellFormed(b.transfer)
    ensures a != b && KeyOf(a) == KeyOf(b) <==>
      a.chain == b.chain && a.txHash == b.txHash && {a.transfer, b.transfer} == {Native, Log(0xffff_ffff)}
  {
    TxIndexCollidesIff(a.transfer, b.transfer);
  }

  ghost predicate KeysDistinct(seen: set<OnChain>) {
    forall a, b :: a in seen && b in seen && KeyOf(a) == KeyOf(b) ==> a == b
  }

  lemma KeysDistinctIff(seen: set<OnChain>)
    requires forall a :: a in seen ==> WellFormed(a.transfer)
    ensures KeysDistinct(seen) <==> !Collides(seen)
  {
    forall a, b | a in seen && b in seen && KeyOf(a) == KeyOf(b) && a != b ensures Collides(seen) {
      SharesAKeyIff(a, b);
      assert a.transfer in {Native, Log(0xffff_ffff)} && b.transfer in {Native, Log(0xffff_ffff)};
    }
    if a, b :| a in seen && b in seen && a.chain == b.chain && a.txHash == b.txHash
               && a.transfer == Native && b.transfer == Log(0xffff_ffff) {
      SharesAKeyIff(a, b);
      assert a != b && KeyOf(a) == KeyOf(b);
    }
  }

  /** As many keys as transfers, or fewer where two share one. */
  lemma {:induction false} KeysOf(seen: set<OnChain>)
    ensures |(set a | a in seen :: KeyOf(a))| <= |seen|
    ensures |(set a | a in seen :: KeyOf(a))| == |seen| <==> KeysDistinct(seen)
    decreases |seen|
  {
    var keys := set a | a in seen :: KeyOf(a);
    if a :| a in seen {
      var rest := seen - {a};
      var restKeys := set b | b in rest :: KeyOf(b);
      KeysOf(rest);
      assert keys == restKeys + {KeyOf(a)} by {
        assert seen == rest + {a};
      }
      if KeyOf(a) in restKeys {
        var b :| b in rest && KeyOf(b) == KeyOf(a);
        assert a != b && !KeysDistinct(seen);
      } else {
        forall b | b in rest ensures KeyOf(b) != KeyOf(a) {
          assert KeyOf(b) in restKeys;
        }
        assert KeysDistinct(seen) <==> KeysDistinct(rest);
      }
    } else {
      assert keys == {};
    }
  }

  lemma SeenIs(ops: seq<Op>)
    ensures Transfers(Sightings(ops)) == set a | a in Seen(ops) :: KeyOf(a)
    ensures Sightings(ops) == set e | e in Events(ops) :: SightingOf(e)
  {
    forall i | 0 <= i < |ops| && ops[i].Detect?
      ensures ops[i].on in Seen(ops) && Event(ops[i].on, ops[i].eventType) in Events(ops)
      ensures Sighting(KeyOf(ops[i].on), ops[i].eventType) in Sightings(ops) && KeyOf(ops[i].on) in Transfers(Sightings(ops))
    {
      assert Sighting(KeyOf(ops[i].on), ops[i].eventType) in Sightings(ops);
    }
  }

  /** Distinct events stay distinct as sightings, when keys tell transfers apart. */
  lemma {:induction false} SightingsOf(events: set<Event>)
    requires forall d, e :: d in events && e in events && KeyOf(d.on) == KeyOf(e.on) ==> d.on == e.on
    ensures |(set e | e in events :: SightingOf(e))| == |events|
    decreases |events|
  {
    var all := set e | e in events :: SightingOf(e);
    if e :| e in events {
      var rest := events - {e};
      SightingsOf(rest);
      assert all == (set d | d in rest :: SightingOf(d)) + {SightingOf(e)} by {
        assert events == rest + {e};
      }
    } else {
      assert all == {};
    }
  }

  /** Over any history with redeliveries, every distinct transfer on the chain has
      exactly one row, and every distinct event of a transfer exactly one obligation,
      unless one transaction has both the native transfer and the last 32-bit log:
      exactly then two transfers share a row. */
  lemma OneRowPerTransferIff(ops: seq<Op>)
    requires PermittedAll(EMPTY, ops) && WellFormedHistory(ops)
    ensures var l := ApplyAll(EMPTY, ops);
      && l.payments.Keys == (set a | a in Seen(ops) :: KeyOf(a))
      && (|l.payments| == |Seen(ops)| <==> !Collides(Seen(ops)))
      && (!Collides(Seen(ops)) ==> KeysDistinct(Seen(ops)) && |l.outbox| == |Events(ops)|)
  {
    var l := ApplyAll(EMPTY, ops);
    OneRowOneObligation(ops);
    SeenIs(ops);
    KeysOf(Seen(ops));
    KeysDistinctIff(Seen(ops));
    assert |l.payments| == |l.payments.Keys|;
    if KeysDistinct(Seen(ops)) {
      EventsDistinct(ops);
      SightingsOf(Events(ops));
    }
  }

  lemma EventsDistinct(ops: seq<Op>)
    requires KeysDistinct(Seen(ops))
    ensures forall d, e :: d in Events(ops) && e in Events(ops) && KeyOf(d.on) == KeyOf(e.on) ==> d.on == e.on
  {
    forall e | e in Events(ops) ensures e.on in Seen(ops) {
      var i :| 0 <= i < |ops| && ops[i].Detect? && e == Event(ops[i].on, ops[i].eventType);
      assert ops[i].on in Seen(ops);
    }
  }

  /** One transaction with the native transfer and the last 32-bit log: two transfers, one row. */
  lemma TwoTransfersOneRow() returns (ops: seq<Op>)
    ensures PermittedAll(EMPTY, ops) && WellFormedHistory(ops)
    ensures |Seen(ops)| == 2 && |ApplyAll(EMPTY, ops).payments| == 1
  {
    var a, b := OnChain(1, "hash", Native), OnChain(1, "hash", Log(0xffff_ffff));
    var p := Payment(1, "invoice", None, 10, "ETH", Some(5), 0, None, false, None, None, None, None);
    var first, second := Detect(a, p, "seen", 3, 0), Detect(b, p.(id := 2), "seen", 4, 0);
    ops := [first, second];
    assert ops[..1] == [first] && [first][..0] == [];
    assert PermittedAll(EMPTY, []) && ApplyAll(EMPTY, []) == EMPTY;
    assert PermittedAll(EMPTY, [first]);
    assert ApplyAll(EMPTY, [first]).payments == map[KeyOf(a) := p];
    assert KeyOf(a) == KeyOf(b);
    assert Seen(ops) == {a, b} by {
      assert ops[0].on == a && ops[1].on == b;
    }
    assert ApplyAll(EMPTY, ops).payments.Keys == {KeyOf(a)};
    assert |ApplyAll(EMPTY, ops).payments| == |ApplyAll(EMPTY, ops).payments.Keys|;
  }

  /** In particular for log indices below 2^31. */
  lemma OneRowPerTransfer(ops: seq<Op>)
    requires PermittedAll(EMPTY, ops)
    requires forall i :: 0 <= i < |ops| && ops[i].Detect? && ops[i].on.transfer.Log? ==> ops[i].on.transfer.index < 0x8000_0000
    ensures |ApplyAll(EMPTY, ops).payments| == |Seen(ops)| && |ApplyAll(EMPTY, ops).outbox| == |Events(ops)|
    ensures forall a, b :: a in Seen(ops) && b in Seen(ops) && KeyOf(a) == KeyOf(b) ==> a == b
  {
    OneRowPerTransferIff(ops);
    assert !Collides(Seen(ops));
  }

  // ---------------------------------------------------------------- retraction

  /** A row keeps its identity and, once retracted, stays retracted. */
  lemma StepKeepsRows(l: Ledger, op: Op, k: TransferKey)
    requires k in l.payments
    ensures var l' := Apply(l, op);
      k in l'.payments && l'.payments[k].id == l.payments[k].id && (l.payments[k].reorged ==> l'.payments[k].reorged)
  {
  }

  lemma {:induction false} RetractionIsFinal(l: Ledger, ops: seq<Op>, k: TransferKey)
    requires k in l.payments && l.payments[k].reorged
    ensures k in ApplyAll(l, ops).payments && ApplyAll(l, ops).payments[k].reorged
    ensures ApplyAll(l, ops).payments[k].id == l.payments[k].id
    decreases |ops|
  {
    if ops != [] {
      RetractionIsFinal(l, ops[..|ops| - 1], k);
      StepKeepsRows(ApplyAll(l, ops[..|ops| - 1]), ops[|ops| - 1], k);
    }
  }

  ghost predicate NoneBoth(payments: Payments) {
    forall k :: k in payments ==> !(payments[k].reorged && payments[k].confirmedAt.Some?)
  }

  /** Marking a payment by its id alone leaves a retracted row confirmed exactly
      when that row was retracted and unconfirmed: the lookup is what prevents it. */
  lemma MarkingIsSafeIff(payments: Payments, id: Uuid, at: int)
    requires NoneBoth(payments)
    ensures NoneBoth(MarkConfirmed(payments, id, at)) <==>
      forall k :: k in payments && payments[k].id == id ==> !payments[k].reorged
  {
    var after := MarkConfirmed(payments, id, at);
    if k :| k in payments && payments[k].id == id && payments[k].reorged {
      assert after[k].reorged && after[k].confirmedAt.Some?;
    }
  }

  lemma StepKeepsNoneBoth(l: Ledger, op: Op)
    requires NoneBoth(l.payments) && IdsUnique(l.payments) && Permitted(l, op)
    ensures NoneBoth(Apply(l, op).payments)
  {
    if op.Confirm? {
      var found := FindTransfer(l.payments, op.invoice, op.txHash, op.txIndex);
      if found.Some? {
        MarkingIsSafeIff(l.payments, l.payments[found.value].id, op.at);
      }
    }
  }

  /** In every reachable ledger no payment is both retracted and confirmed. */
  lemma {:induction false} NeverRetractedAndConfirmed(ops: seq<Op>)
    requires PermittedAll(EMPTY, ops)
    ensures NoneBoth(ApplyAll(EMPTY, ops).payments)
    decreases |ops|
  {
    if ops != [] {
      var before := ops[..|ops| - 1];
      NeverRetractedAndConfirmed(before);
      OneRowOneObligation(before);
      StepKeepsNoneBoth(ApplyAll(EMPTY, before), ops[|ops| - 1]);
    }
  }

  /** A payment is detected and retracted; marking it by its id confirms a retracted row. */
  lemma MarkingARetractedRow() returns (ops: seq<Op>, id: Uuid)
    ensures PermittedAll(EMPTY, ops) && NoneBoth(ApplyAll(EMPTY, ops).payments)
    ensures !NoneBoth(MarkConfirmed(ApplyAll(EMPTY, ops).payments, id, 0))
  {
    id := 1;
    var on := OnChain(1, "hash", Native);
    var detect := Detect(on, Payment(id, "invoice", None, 10, "ETH", Some(5), 0, None, false, None, None, None, None), "seen", 2, 0);
    ops := [detect, Retract(id)];
    assert ops[..1] == [detect] && [detect][..0] == [];
    assert PermittedAll(EMPTY, []) && ApplyAll(EMPTY, []) == EMPTY;
    assert PermittedAll(EMPTY, [detect]);
    var l := ApplyAll(EMPTY, [detect]);
    assert l.payments == map[KeyOf(on) := detect.p];
    NeverRetractedAndConfirmed(ops);
    var payments := ApplyAll(EMPTY, ops).payments;
    assert KeyOf(on) in payments && payments[KeyOf(on)].id == id && payments[KeyOf(on)].reorged;
    MarkingIsSafeIff(payments, id, 0);
  }
}
