/** Confirming is two statements, a lookup and a mark by id. Histories in which
    anything may come between them, and exactly when that goes wrong. */
module ConfirmationRace {
  import opened Common
  import opened PaymentLedger
  import History = LedgerHistory

  /** Any operation of the ledger, or the mark of a confirmation whose lookup was
      made when `looked` operations of the history had run. */
  datatype Op =
    | Plain(op: History.Op)
    | Mark(looked: nat, invoice: string, txHash: string, txIndex: int, at: int)

  ghost predicate WellFormed(ops: seq<Op>) {
    forall i :: 0 <= i < |ops| && ops[i].Mark? ==> ops[i].looked <= i
  }

  ghost function After(ops: seq<Op>): Ledger
    requires WellFormed(ops)
    decreases |ops|, 0
  {
    if ops == [] then EMPTY
    else
      var n := |ops| - 1;
      var l := After(ops[..n]);
      if ops[n].Plain? then History.Apply(l, ops[n].op)
      else if Found(ops, n).None? then l
      else l.(payments := MarkConfirmed(l.payments, After(ops[..ops[n].looked]).payments[Found(ops, n).value].id, ops[n].at))
  }

  /** The row the lookup of mark number `i` found, when it was made. */
  ghost function Found(ops: seq<Op>, i: nat): (k: Option<TransferKey>)
    requires WellFormed(ops) && i < |ops| && ops[i].Mark?
    ensures k.Some? ==> Finds(After(ops[..ops[i].looked]).payments, k.value, ops[i].invoice, ops[i].txHash, ops[i].txIndex)
    decreases i, 1
  {
    FindTransfer(After(ops[..ops[i].looked]).payments, ops[i].invoice, ops[i].txHash, ops[i].txIndex)
  }

  ghost predicate Permitted(ops: seq<Op>)
    requires WellFormed(ops)
  {
    forall i :: 0 <= i < |ops| && ops[i].Plain? ==> History.Permitted(After(ops[..i]), ops[i].op)
  }

  // ---------------------------------------------------------------- rows along a history

  /** The operation retracts this row. */
  ghost predicate Retracts(l: Ledger, op: History.Op, k: TransferKey) {
    k in l.payments && !l.payments[k].reorged &&
    ((op.Retract? && l.payments[k].id == op.id) ||
     (op.Reorg? && k in CandidatesOf(l.payments, op.invoice, op.chain, op.fork)))
  }

  /** Some operation numbered from `a` on and below `b` retracts the row. */
  ghost predicate RetractedBetween(ops: seq<Op>, k: TransferKey, a: nat, b: nat)
    requires WellFormed(ops) && b <= |ops|
  {
    a < b && (RetractsAt(ops, b - 1, k) || RetractedBetween(ops, k, a, b - 1))
  }

  ghost predicate RetractsAt(ops: seq<Op>, j: nat, k: TransferKey)
    requires WellFormed(ops) && j < |ops|
  {
    ops[j].Plain? && Retracts(After(ops[..j]), ops[j].op, k)
  }

  lemma PlainKeepsRow(l: Ledger, op: History.Op, k: TransferKey)
    requires k in l.payments
    ensures var l' := History.Apply(l, op);
      k in l'.payments && l'.payments[k].id == l.payments[k].id
      && (l'.payments[k].reorged <==> l.payments[k].reorged || Retracts(l, op, k))
  {
  }

  /** What becomes of a row between two points of a history. */
  ghost predicate Follows(before: Payments, after: Payments, k: TransferKey, retracted: bool) {
    k in before ==> k in after && after[k].id == before[k].id && (after[k].reorged <==> before[k].reorged || retracted)
  }

  /** One more operation. */
  lemma StepKeepsRow(ops: seq<Op>, n: nat, k: TransferKey)
    requires WellFormed(ops) && 0 < n <= |ops|
    ensures Follows(After(ops[..n - 1]).payments, After(ops[..n]).payments, k, RetractsAt(ops, n - 1, k))
  {
    var more := ops[..n];
    assert more[..n - 1] == ops[..n - 1] && more[n - 1] == ops[n - 1];
    if ops[n - 1].Plain? && k in After(ops[..n - 1]).payments {
      PlainKeepsRow(After(ops[..n - 1]), ops[n - 1].op, k);
    }
  }

  lemma FollowsOn(x: Payments, y: Payments, z: Payments, k: TransferKey, p: bool, q: bool)
    requires Follows(x, y, k, p) && Follows(y, z, k, q)
    ensures Follows(x, z, k, p || q)
  {
  }

  /** A standing row is retracted later exactly when some operation between retracts it. */
  lemma {:induction false} RetractedIff(ops: seq<Op>, k: TransferKey, a: nat, b: nat)
    requires WellFormed(ops) && a <= b <= |ops|
    ensures Follows(After(ops[..a]).payments, After(ops[..b]).payments, k, RetractedBetween(ops, k, a, b))
    decreases b
  {
    if a < b {
      RetractedIff(ops, k, a, b - 1);
      StepKeepsRow(ops, b, k);
      FollowsOn(After(ops[..a]).payments, After(ops[..b - 1]).payments, After(ops[..b]).payments, k,
                RetractedBetween(ops, k, a, b - 1), RetractsAt(ops, b - 1, k));
    }
  }

  lemma {:induction false} IdsStayUnique(ops: seq<Op>, n: nat)
    requires WellFormed(ops) && Permitted(ops) && n <= |ops|
    ensures IdsUnique(After(ops[..n]).payments)
    decreases n
  {
    if n > 0 {
      IdsStayUnique(ops, n - 1);
      var l := After(ops[..n - 1]);
      assert ops[..n][..n - 1] == ops[..n - 1] && ops[..n][n - 1] == ops[n - 1];
      if ops[n - 1].Plain? {
        assert History.Permitted(l, ops[n - 1].op);
        PlainKeepsIds(l, ops[n - 1].op);
      }
    }
  }

  lemma PlainKeepsIds(l: Ledger, op: History.Op)
    requires IdsUnique(l.payments) && History.Permitted(l, op)
    ensures IdsUnique(History.Apply(l, op).payments)
  {
  }

  // ---------------------------------------------------------------- exactly when it goes wrong

  /** Between its lookup and this mark, nothing retracted the row it found. */
  ghost predicate Undisturbed(ops: seq<Op>, i: nat)
    requires WellFormed(ops) && i < |ops|
  {
    ops[i].Mark? && Found(ops, i).Some? ==> !RetractedBetween(ops, Found(ops, i).value, ops[i].looked, i)
  }

  ghost predicate NeverBoth(ops: seq<Op>)
    requires WellFormed(ops)
  {
    forall n: nat :: n <= |ops| ==> History.NoneBoth(After(ops[..n]).payments)
  }

  /** One mark, made on a ledger where no row is both: it leaves it so exactly when it was undisturbed. */
  lemma MarkIsSafeIff(ops: seq<Op>, i: nat)
    requires WellFormed(ops) && Permitted(ops) && i < |ops| && ops[i].Mark? && History.NoneBoth(After(ops[..i]).payments)
    ensures History.NoneBoth(After(ops[..i + 1]).payments) <==> Undisturbed(ops, i)
  {
    var more := ops[..i + 1];
    assert more[..i] == ops[..i] && more[i] == ops[i] && more[..ops[i].looked] == ops[..ops[i].looked];
    if Found(ops, i).Some? {
      var k := Found(ops, i).value;
      var payments := After(ops[..i]).payments;
      RetractedIff(ops, k, ops[i].looked, i);
      IdsStayUnique(ops, i);
      assert forall j :: j in payments && payments[j].id == payments[k].id ==> j == k;
      History.MarkingIsSafeIff(payments, payments[k].id, ops[i].at);
    }
  }

  lemma PlainKeepsNoneBoth(ops: seq<Op>, i: nat)
    requires WellFormed(ops) && Permitted(ops) && i < |ops| && ops[i].Plain? && History.NoneBoth(After(ops[..i]).payments)
    ensures History.NoneBoth(After(ops[..i + 1]).payments)
  {
    var more := ops[..i + 1];
    assert more[..i] == ops[..i] && more[i] == ops[i];
    IdsStayUnique(ops, i);
    assert History.Permitted(After(ops[..i]), ops[i].op);
    History.StepKeepsNoneBoth(After(ops[..i]), ops[i].op);
  }

  lemma {:induction false} UndisturbedIsSafe(ops: seq<Op>, n: nat)
    requires WellFormed(ops) && Permitted(ops) && n <= |ops| && forall i: nat :: i < n ==> Undisturbed(ops, i)
    ensures History.NoneBoth(After(ops[..n]).payments)
    decreases n
  {
    if n > 0 {
      UndisturbedIsSafe(ops, n - 1);
      if ops[n - 1].Mark? {
        assert Undisturbed(ops, n - 1);
        MarkIsSafeIff(ops, n - 1);
      } else {
        PlainKeepsNoneBoth(ops, n - 1);
      }
    }
  }

  /** Over every history of interleaved lookups, marks and other operations: no
      payment is ever both retracted and confirmed, exactly when no retraction of
      the row found falls between a lookup and its mark. */
  lemma NeverBothIff(ops: seq<Op>)
    requires WellFormed(ops) && Permitted(ops)
    ensures NeverBoth(ops) <==> forall i: nat :: i < |ops| ==> Undisturbed(ops, i)
  {
    if forall i: nat :: i < |ops| ==> Undisturbed(ops, i) {
      forall n: nat | n <= |ops| ensures History.NoneBoth(After(ops[..n]).payments) {
        UndisturbedIsSafe(ops, n);
      }
    }
    if NeverBoth(ops) {
      forall i: nat | i < |ops| ensures Undisturbed(ops, i) {
        assert History.NoneBoth(After(ops[..i]).payments) && History.NoneBoth(After(ops[..i + 1]).payments);
        if ops[i].Mark? {
          MarkIsSafeIff(ops, i);
        }
      }
    }
  }

  /** The history that goes wrong: detect, look up, retract, mark. */
  lemma RetractedBeforeTheMark() returns (ops: seq<Op>)
    ensures WellFormed(ops) && Permitted(ops) && !NeverBoth(ops)
  {
    var on := History.OnChain(1, "hash", Native);
    var p := Payment(1, "invoice", None, 10, "ETH", Some(5), 0, None, false, None, None, None, None);
    var detect, retract := Plain(History.Detect(on, p, "seen", 2, 0)), Plain(History.Retract(1));
    ops := [detect, retract, Mark(1, "invoice", "hash", -1, 7)];
    var k := History.KeyOf(on);
    assert ops[..0] == [] && ops[..1] == [detect] && ops[..2] == [detect, retract];
    assert [detect][..0] == [] && [detect, retract][..1] == [detect];
    var l := After([detect]);
    assert WellFormed([]) && After([]) == EMPTY;
    assert l == History.Apply(EMPTY, detect.op);
    assert l.payments == map[k := p];
    assert Finds(l.payments, k, "invoice", "hash", -1);
    assert Found(ops, 2) == Some(k);
    assert RetractsAt(ops, 1, k);
    assert !Undisturbed(ops, 2);
    NeverBothIff(ops);
  }
}
