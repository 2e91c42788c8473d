/** The consumer of monitor events: apply an event, commit its position, read
    the next; crash at any point, and resume from the stored cursors. */
module EventConsumer {
  import opened Common
  import opened PaymentLedger
  import opened ChainCursor
  import WebhookOutbox

  /** `Malformed` stands for every event the handler refuses outright, such as a token transfer without a log index. */
  datatype Event =
    | Detected(key: TransferKey, invoice: string, amount: nat, block: nat, detectedAt: int)
    | Confirmed(invoice: string, txHash: string, txIndex: int, at: int)
    | Reorged(chain: nat, fork: nat, survivors: set<string>, verifiable: bool)
    | Informational
    | Malformed

  datatype Envelope = Envelope(chain: nat, position: int, height: int, event: Event)

  /** What one attempt at a detection draws or looks up for itself: new ids, the
      clock, the payment option and the quote it was credited at. */
  datatype Attempt = Attempt(id: Uuid, option: Option<Uuid>, symbol: string, credited: Option<string>, rate: Option<string>,
                             rateAt: Option<int>, obligationId: Uuid, now: int)

  const PAYMENT_DETECTED: string := "payment_detected"

  ghost function PaymentOf(e: Event, a: Attempt): Payment
    requires e.Detected?
  {
    Payment(a.id, e.invoice, a.option, e.amount, a.symbol, Some(e.block), e.detectedAt, None, false, None, a.credited, a.rate, a.rateAt)
  }

  /** Several attempts at one detection amount to one: identity and lookups of the first, the quote of the last that had one. */
  function Combine(first: Attempt, second: Attempt): Attempt {
    first.(credited := Coalesce(second.credited, first.credited),
           rate := Coalesce(second.rate, first.rate),
           rateAt := Coalesce(second.rateAt, first.rateAt))
  }

  /** The payments a reorganisation drops: candidates whose transaction did not survive, if survival could be checked at all. */
  ghost function Dropped(payments: Payments, e: Event): set<TransferKey>
    requires e.Reorged?
  {
    set k | k in payments && AtOrAbove(payments, k, e.chain, e.fork) && k.txHash !in e.survivors && e.verifiable
  }

  // ---------------------------------------------------------------- the reference: every event applied exactly once

  ghost function Once(l: Ledger, e: Event, a: Attempt): Ledger {
    match e
    case Detected(key, _, _, _, _) => Record(l, key, PaymentOf(e, a), PAYMENT_DETECTED, a.obligationId, a.now)
    case Confirmed(invoice, txHash, txIndex, at) => l.(payments := ConfirmTransfer(l.payments, invoice, txHash, txIndex, at))
    case Reorged(_, _, _, _) => l.(payments := RetractAll(l.payments, Dropped(l.payments, e)))
    case _ => l
  }

  ghost function AllOnce(events: seq<Envelope>, attempts: seq<Attempt>): Ledger
    requires |attempts| == |events|
  {
    if events == [] then EMPTY
    else
      var n := |events| - 1;
      Once(AllOnce(events[..n], attempts[..n]), events[n].event, attempts[n])
  }

  /** A reorganisation, row by row: retracted are exactly the standing payments on
      its chain from the fork on whose transaction did not survive, and none at all
      when survival could not be checked. */
  ghost function AfterReorg(e: Event, k: TransferKey, p: Payment): Payment
    requires e.Reorged?
  {
    if e.verifiable && k.chain == e.chain && p.block.Some? && p.block.value >= e.fork && !p.reorged && k.txHash !in e.survivors
    then p.(reorged := true, confirmedAt := None) else p
  }

  lemma ReorgedOnce(l: Ledger, e: Event, a: Attempt)
    requires e.Reorged?
    ensures var after := Once(l, e, a);
      after.outbox == l.outbox && after.payments.Keys == l.payments.Keys
      && forall k :: k in l.payments ==> after.payments[k] == AfterReorg(e, k, l.payments[k])
  {
  }

  /** A detection of a new transfer records what the event says of it, standing and
      unconfirmed, and owes the invoice a notice; a known transfer keeps its row's
      identity, invoice, amount and retraction. */
  lemma DetectedOnce(l: Ledger, e: Event, a: Attempt)
    requires e.Detected?
    ensures var after := Once(l, e, a);
      && after.payments.Keys == l.payments.Keys + {e.key}
      && (forall k :: k in l.payments && k != e.key ==> after.payments[k] == l.payments[k])
      && after.payments[e.key].block == Some(e.block)
      && ObligationKey(after.payments[e.key].id, "payment_detected") in after.outbox
      && (e.key !in l.payments ==>
            var p := after.payments[e.key];
            && p.id == a.id && p.invoice == e.invoice && p.amount == e.amount && p.detectedAt == e.detectedAt && p.option == a.option
            && p.symbol == a.symbol && p.confirmedAt == None && !p.reorged && p.credited == a.credited && p.rate == a.rate && p.rateAt == a.rateAt)
      && (e.key in l.payments ==>
            var was, p := l.payments[e.key], after.payments[e.key];
            p.id == was.id && p.invoice == was.invoice && p.amount == was.amount && p.detectedAt == was.detectedAt
            && p.confirmedAt == was.confirmedAt && p.reorged == was.reorged)
  {
    UpsertedRow(l.payments, e.key, PaymentOf(e, a));
  }

  /** A confirmation confirms the standing row its transfer names, at the event's time. */
  lemma ConfirmedOnce(l: Ledger, e: Event, a: Attempt, k: TransferKey)
    requires e.Confirmed? && IdsUnique(l.payments) && k in l.payments
    requires HashesDistinct(l.payments)
    ensures var after := Once(l, e, a);
      var p := l.payments[k];
      && after.outbox == l.outbox && k in after.payments
      && after.payments[k] ==
           if p.invoice == e.invoice && k.txHash == e.txHash && k.txIndex == e.txIndex && !p.reorged && p.confirmedAt == None
           then p.(confirmedAt := Some(e.at)) else p
  {
    ConfirmedTransfer(l.payments, e.invoice, e.txHash, e.txIndex, e.at, k);
  }

  // ---------------------------------------------------------------- the running consumer

  /** What the running process is doing; none of it survives a crash. */
  datatype Phase = Down | Ready(next: nat) | Retracting(next: nat, todo: seq<Uuid>) | Applied(next: nat)

  /** How much of the next event has already reached the database. */
  datatype Progress = Untouched | Recorded(a: Attempt) | Marked | Dropping(rows: set<TransferKey>)

  /** Durable: `ledger` and `cursors`. `done` and `progress` are the history the statements are about. */
  datatype State = State(ledger: Ledger, cursors: map<nat, Cursor>, phase: Phase, done: seq<Attempt>, progress: Progress)

  const START: State := State(EMPTY, map[], Down, [], Untouched)

  /** Positions increase along the stream, and a transaction hash belongs to one chain. */
  ghost predicate WellFormedStream(events: seq<Envelope>) {
    && (forall i, j :: 0 <= i < j < |events| ==> events[i].position < events[j].position)
    && (forall i, j :: 0 <= i < |events| && 0 <= j < |events| && events[i].event.Detected? && events[j].event.Detected?
          && events[i].event.key.txHash == events[j].event.key.txHash
          ==> events[i].event.key.chain == events[j].event.key.chain)
  }

  ghost predicate Highest(cursors: map<nat, Cursor>, p: int) {
    (exists c :: c in cursors && cursors[c].position == p) && forall c :: c in cursors ==> cursors[c].position <= p
  }

  /** Resume strictly after the highest position any chain has committed; from the start when there is none. */
  ghost function ResumeAt(events: seq<Envelope>, cursors: map<nat, Cursor>): nat {
    if p :| Highest(cursors, p) then FirstAfter(events, p) else 0
  }

  ghost function FirstAfter(events: seq<Envelope>, p: int): nat {
    if events == [] || events[0].position > p then 0 else 1 + FirstAfter(events[1..], p)
  }

  /** The handler returns an error: nothing can be done with the event, or the
      payment to confirm is confirmed already, which the statement reports as not found. */
  ghost predicate Fails(payments: Payments, e: Event) {
    e.Malformed? || (e.Confirmed? && Target(payments, e).Some? && !ConfirmsSomething(payments, payments[Target(payments, e).value].id))
  }

  /** The row a confirmation is about. */
  ghost function Target(payments: Payments, e: Event): Option<TransferKey>
    requires e.Confirmed?
  {
    FindTransfer(payments, e.invoice, e.txHash, e.txIndex)
  }

  datatype Step =
    | Restart
    | Try(a: Attempt, order: seq<Uuid>)
    | RetractNext
    | CommitCursor
    | Crash
    | Lease(keys: set<ObligationKey>, until: int)
    | Deliver(id: Uuid, now: int)

  /** `order` lists the payments to retract, in whatever order they were grouped. */
  ghost predicate Lists(payments: Payments, rows: set<TransferKey>, order: seq<Uuid>) {
    && Distinct(order)
    && forall id :: id in order <==> exists k :: k in rows && k in payments && payments[k].id == id
  }

  ghost predicate Enabled(events: seq<Envelope>, s: State, step: Step) {
    match step
    case Restart => s.phase.Down?
    case Try(a, order) =>
      && s.phase.Ready? && s.phase.next < |events|
      && (forall k :: k in s.ledger.payments ==> s.ledger.payments[k].id != a.id)
      && (events[s.phase.next].event.Reorged? ==>
            Lists(s.ledger.payments, Dropped(s.ledger.payments, events[s.phase.next].event), order))
    case RetractNext => s.phase.Retracting? && s.phase.todo != []
    case CommitCursor => s.phase.Applied? && s.phase.next < |events|
    case Crash => true
    case Lease(_, _) => true
    case Deliver(_, _) => true
  }

  /** Applying the next event, up to its first commit point. */
  ghost function TryEvent(s: State, e: Event, a: Attempt, order: seq<Uuid>): State
    requires s.phase.Ready?
  {
    var n := s.phase.next;
    if Fails(s.ledger.payments, e) then s.(phase := Down)
    else if e.Reorged? then
      s.(phase := if order == [] then Applied(n) else Retracting(n, order),
         progress := if s.progress.Dropping? then s.progress else Dropping({}))
    else
      s.(ledger := Once(s.ledger, e, a), phase := Applied(n),
         progress := if e.Detected? then Recorded(if s.progress.Recorded? then Combine(s.progress.a, a) else a)
                     else if e.Confirmed? && Target(s.ledger.payments, e).Some? then Marked else s.progress)
  }

  ghost function RetractNextOf(s: State): State
    requires s.phase.Retracting? && s.phase.todo != []
  {
    var id, rest := s.phase.todo[0], s.phase.todo[1..];
    s.(ledger := s.ledger.(payments := RetractOne(s.ledger.payments, id)),
       phase := if rest == [] then Applied(s.phase.next) else Retracting(s.phase.next, rest),
       progress := if s.progress.Dropping?
                   then Dropping(s.progress.rows + set k | k in s.ledger.payments && s.ledger.payments[k].id == id)
                   else s.progress)
  }

  ghost function CommitOf(epoch: int, s: State, v: Envelope, idle: Attempt): State
    requires s.phase.Applied?
  {
    var stored := if v.chain in s.cursors then Some(s.cursors[v.chain]) else None;
    State(s.ledger, s.cursors[v.chain := Commit(stored, Cursor(epoch, v.position, v.height))], Ready(s.phase.next + 1),
          s.done + [if s.progress.Recorded? then s.progress.a else idle], Untouched)
  }

  const IDLE: Attempt := Attempt(0, None, "", None, None, None, 0, 0)

  ghost function Take(events: seq<Envelope>, epoch: int, s: State, step: Step): State
    requires Enabled(events, s, step)
  {
    match step
    case Restart => s.(phase := Ready(ResumeAt(events, s.cursors)))
    case Try(a, order) => TryEvent(s, events[s.phase.next].event, a, order)
    case RetractNext => RetractNextOf(s)
    case CommitCursor => CommitOf(epoch, s, events[s.phase.next], IDLE)
    case Crash => s.(phase := Down)
    case Lease(keys, until) => s.(ledger := s.ledger.(outbox := WebhookOutbox.Stamp(s.ledger.outbox, keys, until)))
    case Deliver(id, now) => s.(ledger := s.ledger.(outbox := WebhookOutbox.Dispatch(s.ledger.outbox, id, now)))
  }

  /** The drain beside the consumer leases and delivers in earnest: what it leased is
      not claimed again before the lease runs out, what it delivered never is. */
  lemma DrainDoes(events: seq<Envelope>, epoch: int, s: State, step: Step, k: ObligationKey)
    requires Enabled(events, s, step) && (step.Lease? || step.Deliver?) && k in s.ledger.outbox
    ensures var after := Take(events, epoch, s, step).ledger.outbox;
      && k in after
      && (step.Lease? && k in step.keys && s.ledger.outbox[k].dispatchedAt == None ==>
            forall t :: WebhookOutbox.Claimable(after[k], t) <==> t > step.until)
      && (step.Deliver? && s.ledger.outbox[k].id == step.id ==> forall t :: !WebhookOutbox.Claimable(after[k], t))
  {
  }

  ghost predicate EnabledRun(events: seq<Envelope>, epoch: int, s: State, steps: seq<Step>)
    decreases |steps|
  {
    steps == [] || (Enabled(events, s, steps[0]) && EnabledRun(events, epoch, Take(events, epoch, s, steps[0]), steps[1..]))
  }

  ghost function TakeAll(events: seq<Envelope>, epoch: int, s: State, steps: seq<Step>): State
    requires EnabledRun(events, epoch, s, steps)
    decreases |steps|
  {
    if steps == [] then s else TakeAll(events, epoch, Take(events, epoch, s, steps[0]), steps[1..])
  }

  // ---------------------------------------------------------------- equality up to claims and dispatches

  /** The same payments and the same obligations; claiming and dispatching may differ. */
  ghost predicate Similar(a: Ledger, b: Ledger) {
    && a.payments == b.payments && a.outbox.Keys == b.outbox.Keys
    && forall k :: k in a.outbox ==>
         a.outbox[k].id == b.outbox[k].id && a.outbox[k].invoice == b.outbox[k].invoice && a.outbox[k].createdAt == b.outbox[k].createdAt
  }

  lemma OnceRespectsSimilar(a: Ledger, b: Ledger, e: Event, x: Attempt)
    requires Similar(a, b)
    ensures Similar(Once(a, e, x), Once(b, e, x))
  {
  }

  /** A detection attempted twice is the combined attempt made once. */
  lemma DetectTwice(l: Ledger, e: Event, first: Attempt, second: Attempt)
    requires e.Detected?
    ensures Once(Once(l, e, first), e, second) == Once(l, e, Combine(first, second))
  {
    var p, q := PaymentOf(e, first), PaymentOf(e, second);
    UpsertTwice(l.payments, e.key, p, q);
    assert Merge(p, q) == PaymentOf(e, Combine(first, second));
  }

  // ---------------------------------------------------------------- the invariant of a run

  /** The ledger after the committed events, plus whatever of the next one got through. */
  ghost function Partial(l: Ledger, e: Event, p: Progress): Ledger {
    match p
    case Untouched => l
    case Recorded(a) => Once(l, e, a)
    case Marked => Once(l, e, IDLE)
    case Dropping(rows) => l.(payments := RetractAll(l.payments, rows))
  }

  ghost predicate Fits(l: Ledger, e: Event, p: Progress) {
    match p
    case Untouched => true
    case Recorded(_) => e.Detected?
    case Marked => e.Confirmed? && Target(l.payments, e).Some? && !Fails(l.payments, e)
    case Dropping(rows) => e.Reorged? && rows <= Dropped(l.payments, e)
  }

  /** Nothing of the event is left to do. */
  ghost predicate Complete(l: Ledger, e: Event, p: Progress) {
    match e
    case Detected(_, _, _, _, _) => p.Recorded?
    case Confirmed(_, _, _, _) => p.Marked? || (p.Untouched? && Target(l.payments, e).None?)
    case Reorged(_, _, _, _) => p.Dropping? && p.rows == Dropped(l.payments, e)
    case Informational => p.Untouched?
    case Malformed => false
  }

  ghost predicate CursorsAt(events: seq<Envelope>, cursors: map<nat, Cursor>, epoch: int, n: nat)
    requires n <= |events|
  {
    && (if n == 0 then cursors == map[] else Highest(cursors, events[n - 1].position))
    && forall c :: c in cursors ==> cursors[c].epoch == epoch
  }

  ghost predicate KeysKnown(events: seq<Envelope>, payments: Payments) {
    forall k :: k in payments ==> exists i :: 0 <= i < |events| && events[i].event.Detected? && events[i].event.key == k
  }

  ghost predicate PhaseFits(l: Ledger, s: State, n: nat, last: bool, e: Event) {
    match s.phase
    case Down => true
    case Ready(next) => next == n
    case Applied(next) => next == n && !last && Complete(l, e, s.progress)
    case Retracting(next, todo) =>
      && next == n && !last && e.Reorged? && s.progress.Dropping? && todo != []
      && Lists(l.payments, Dropped(l.payments, e) - s.progress.rows, todo)
  }

  ghost function Base(events: seq<Envelope>, s: State): Ledger
    requires |s.done| <= |events|
  {
    AllOnce(events[..|s.done|], s.done)
  }

  /** The event being worked on; nothing happens past the last one. */
  ghost function Current(events: seq<Envelope>, s: State): Event {
    if |s.done| < |events| then events[|s.done|].event else Informational
  }

  /** Payments of detected transfers, under distinct ids. */
  ghost predicate Sound(events: seq<Envelope>, payments: Payments) {
    IdsUnique(payments) && KeysKnown(events, payments)
  }

  /** Ledger, progress and phase fit together, over the ledger `l` of the `n` committed events and the event `e` after them. */
  ghost predicate OnTrack(l: Ledger, e: Event, s: State, n: nat, last: bool) {
    Fits(l, e, s.progress) && Similar(s.ledger, Partial(l, e, s.progress)) && PhaseFits(l, s, n, last, e)
  }

  ghost predicate Faithful(events: seq<Envelope>, epoch: int, s: State) {
    && |s.done| <= |events| && CursorsAt(events, s.cursors, epoch, |s.done|) && Sound(events, s.ledger.payments)
    && OnTrack(Base(events, s), Current(events, s), s, |s.done|, |s.done| == |events|)
  }

  // ---------------------------------------------------------------- resuming

  lemma {:induction false} FirstAfterIs(events: seq<Envelope>, n: nat)
    requires 0 < n <= |events| && forall i, j :: 0 <= i < j < |events| ==> events[i].position < events[j].position
    ensures FirstAfter(events, events[n - 1].position) == n
    decreases |events|
  {
    if n == 1 {
      assert |events| == 1 || events[1..][0] == events[1];
    } else {
      FirstAfterIs(events[1..], n - 1);
      assert events[1..][n - 2] == events[n - 1];
    }
  }

  /** Whatever chains the committed events were on, resuming starts exactly after the last of them. */
  lemma ResumesAfterTheLastCommit(events: seq<Envelope>, cursors: map<nat, Cursor>, epoch: int, n: nat)
    requires WellFormedStream(events) && n <= |events| && CursorsAt(events, cursors, epoch, n)
    ensures ResumeAt(events, cursors) == n
  {
    if n > 0 {
      FirstAfterIs(events, n);
      assert forall p :: Highest(cursors, p) ==> p == events[n - 1].position;
    } else {
      assert forall p :: !Highest(cursors, p);
    }
  }

  lemma CommitMovesTheCursors(events: seq<Envelope>, cursors: map<nat, Cursor>, epoch: int, n: nat)
    requires WellFormedStream(events) && n < |events| && CursorsAt(events, cursors, epoch, n)
    ensures var v := events[n];
      var stored := if v.chain in cursors then Some(cursors[v.chain]) else None;
      CursorsAt(events, cursors[v.chain := Commit(stored, Cursor(epoch, v.position, v.height))], epoch, n + 1)
  {
    var v := events[n];
    var stored := if v.chain in cursors then Some(cursors[v.chain]) else None;
    var cursors' := cursors[v.chain := Commit(stored, Cursor(epoch, v.position, v.height))];
    assert n > 0 ==> events[n - 1].position < v.position;
    assert cursors'[v.chain].position == v.position;
  }

  // ---------------------------------------------------------------- every step keeps it

  /** A hash on one chain only: the lookup can find no other row. */
  lemma TargetIsUnique(events: seq<Envelope>, payments: Payments, e: Event, k: TransferKey)
    requires WellFormedStream(events) && KeysKnown(events, payments) && e.Confirmed?
    requires Finds(payments, k, e.invoice, e.txHash, e.txIndex)
    ensures Target(payments, e) == Some(k)
  {
    var found := Target(payments, e).value;
    var i :| 0 <= i < |events| && events[i].event.Detected? && events[i].event.key == k;
    var j :| 0 <= j < |events| && events[j].event.Detected? && events[j].event.key == found;
  }

  /** Once marked, the confirmation fails: the row it finds is confirmed already. */
  lemma MarkedFails(events: seq<Envelope>, payments: Payments, e: Event)
    requires WellFormedStream(events) && KeysKnown(events, payments) && IdsUnique(payments)
    requires e.Confirmed? && Target(payments, e).Some?
    ensures Fails(ConfirmTransfer(payments, e.invoice, e.txHash, e.txIndex, e.at), e)
  {
    var k := Target(payments, e).value;
    var after := ConfirmTransfer(payments, e.invoice, e.txHash, e.txIndex, e.at);
    assert after.Keys == payments.Keys;
    assert Finds(after, k, e.invoice, e.txHash, e.txIndex);
    TargetIsUnique(events, after, e, k);
  }

  lemma TryKeepsFaithful(events: seq<Envelope>, epoch: int, s: State, step: Step)
    requires WellFormedStream(events) && Faithful(events, epoch, s) && step.Try? && Enabled(events, s, step)
    ensures Faithful(events, epoch, Take(events, epoch, s, step))
  {
    var l, e, n := Base(events, s), Current(events, s), |s.done|;
    var s' := TryEvent(s, e, step.a, step.order);
    if Fails(s.ledger.payments, e) {
      HaltKeepsFaithful(events, epoch, s);
    } else {
      if e.Detected? {
        DetectOnTrack(l, e, s, step.a, step.order, n);
        UpsertKeepsSound(events, s.ledger.payments, e, step.a);
      } else if e.Confirmed? {
        NotMarked(events, s);
        ConfirmOnTrack(l, e, s, step.a, step.order, n);
        SameRowsSound(events, s.ledger.payments, s'.ledger.payments);
      } else if e.Reorged? {
        ReorgOnTrack(l, e, s, step.a, step.order, n);
      }
      StillFaithful(events, epoch, s, s');
    }
  }

  /** Between commits, only ledger, progress and phase are at stake. */
  lemma StillFaithful(events: seq<Envelope>, epoch: int, s: State, s': State)
    requires Faithful(events, epoch, s) && s'.done == s.done && s'.cursors == s.cursors && Sound(events, s'.ledger.payments)
    requires OnTrack(Base(events, s), Current(events, s), s', |s.done|, |s.done| == |events|)
    ensures Faithful(events, epoch, s')
  {
  }

  lemma HaltKeepsFaithful(events: seq<Envelope>, epoch: int, s: State)
    requires Faithful(events, epoch, s)
    ensures Faithful(events, epoch, s.(phase := Down))
  {
    StillFaithful(events, epoch, s, s.(phase := Down));
  }

  lemma RestartKeepsFaithful(events: seq<Envelope>, epoch: int, s: State)
    requires WellFormedStream(events) && Faithful(events, epoch, s)
    ensures Faithful(events, epoch, s.(phase := Ready(ResumeAt(events, s.cursors))))
  {
    ResumesAfterTheLastCommit(events, s.cursors, epoch, |s.done|);
    StillFaithful(events, epoch, s, s.(phase := Ready(|s.done|)));
  }

  lemma DetectOnTrack(l: Ledger, e: Event, s: State, a: Attempt, order: seq<Uuid>, n: nat)
    requires OnTrack(l, e, s, n, false) && s.phase.Ready? && e.Detected?
    ensures OnTrack(l, e, TryEvent(s, e, a, order), n, false)
  {
    OnceRespectsSimilar(s.ledger, Partial(l, e, s.progress), e, a);
    if s.progress.Recorded? {
      DetectTwice(l, e, s.progress.a, a);
    }
  }

  lemma SameRowsSound(events: seq<Envelope>, before: Payments, after: Payments)
    requires Sound(events, before) && before.Keys == after.Keys && forall k :: k in before ==> after[k].id == before[k].id
    ensures Sound(events, after)
  {
  }

  lemma UpsertKeepsSound(events: seq<Envelope>, payments: Payments, e: Event, a: Attempt)
    requires Sound(events, payments) && e.Detected?
    requires exists i :: 0 <= i < |events| && events[i].event == e
    requires forall k :: k in payments ==> payments[k].id != a.id
    ensures Sound(events, UpsertRow(payments, e.key, PaymentOf(e, a)))
  {
  }

  /** A confirmation that succeeds was not marked before. */
  lemma NotMarked(events: seq<Envelope>, s: State)
    requires WellFormedStream(events) && |s.done| <= |events| && Sound(events, s.ledger.payments)
    requires Current(events, s).Confirmed? && !Fails(s.ledger.payments, Current(events, s))
    requires OnTrack(Base(events, s), Current(events, s), s, |s.done|, |s.done| == |events|)
    ensures !s.progress.Marked?
  {
    if s.progress.Marked? {
      BaseSound(events, s);
      MarkedFails(events, Base(events, s).payments, Current(events, s));
    }
  }

  lemma ConfirmOnTrack(l: Ledger, e: Event, s: State, a: Attempt, order: seq<Uuid>, n: nat)
    requires OnTrack(l, e, s, n, false) && s.phase.Ready? && e.Confirmed?
    requires !Fails(s.ledger.payments, e) && !s.progress.Marked?
    ensures OnTrack(l, e, TryEvent(s, e, a, order), n, false)
  {
    OnceRespectsSimilar(s.ledger, l, e, a);
  }

  /** The base ledger is made of detected transfers with distinct ids, because the actual one is. */
  lemma BaseSound(events: seq<Envelope>, s: State)
    requires |s.done| <= |events| && Similar(s.ledger, Partial(Base(events, s), Current(events, s), s.progress)) && s.progress.Marked?
    requires Current(events, s).Confirmed? && Sound(events, s.ledger.payments)
    ensures Sound(events, Base(events, s).payments)
  {
    var l, e := Base(events, s), Current(events, s);
    assert s.ledger.payments.Keys == l.payments.Keys;
    assert forall k :: k in l.payments ==> s.ledger.payments[k].id == l.payments[k].id;
  }

  lemma ReorgOnTrack(l: Ledger, e: Event, s: State, a: Attempt, order: seq<Uuid>, n: nat)
    requires OnTrack(l, e, s, n, false) && s.phase.Ready? && e.Reorged?
    requires Lists(s.ledger.payments, Dropped(s.ledger.payments, e), order)
    ensures OnTrack(l, e, TryEvent(s, e, a, order), n, false)
  {
    var rows := if s.progress.Dropping? then s.progress.rows else {};
    StillToDrop(l.payments, e, rows);
    SameListing(l.payments, s.ledger.payments, Dropped(l.payments, e) - rows, order);
  }

  /** Once some rows are retracted, the candidates are the others. */
  lemma StillToDrop(payments: Payments, e: Event, rows: set<TransferKey>)
    requires e.Reorged? && rows <= Dropped(payments, e)
    ensures Dropped(RetractAll(payments, rows), e) == Dropped(payments, e) - rows
    ensures RetractAll(payments, {}) == payments
  {
  }

  lemma SameListing(a: Payments, b: Payments, rows: set<TransferKey>, order: seq<Uuid>)
    requires a.Keys == b.Keys && forall k :: k in a ==> a[k].id == b[k].id
    ensures Lists(a, rows, order) <==> Lists(b, rows, order)
    ensures Lists(a, rows, order) && order == [] ==> rows * a.Keys == {}
  {
    if Lists(a, rows, order) {
      assert forall k :: k in rows && k in a ==> a[k].id in order;
    }
  }

  /** Retracting the next listed payment moves exactly its row from the rest to the retracted. */
  lemma RetractsOneMore(payments: Payments, e: Event, rows: set<TransferKey>, todo: seq<Uuid>) returns (k: TransferKey)
    requires e.Reorged? && IdsUnique(payments) && rows <= Dropped(payments, e)
    requires todo != [] && Lists(payments, Dropped(payments, e) - rows, todo)
    ensures k in Dropped(payments, e) - rows && payments[k].id == todo[0]
    ensures (set j | j in payments && payments[j].id == todo[0]) == {k}
    ensures RetractOne(RetractAll(payments, rows), todo[0]) == RetractAll(payments, rows + {k})
    ensures Lists(payments, Dropped(payments, e) - (rows + {k}), todo[1..])
  {
    assert todo[0] in todo;
    k :| k in Dropped(payments, e) - rows && k in payments && payments[k].id == todo[0];
    ListsTheRest(payments, Dropped(payments, e) - rows, todo, k);
    assert Dropped(payments, e) - (rows + {k}) == Dropped(payments, e) - rows - {k};
  }

  lemma ListsTheRest(payments: Payments, rows: set<TransferKey>, todo: seq<Uuid>, k: TransferKey)
    requires IdsUnique(payments) && todo != [] && Lists(payments, rows, todo)
    requires k in rows && k in payments && payments[k].id == todo[0]
    ensures Lists(payments, rows - {k}, todo[1..])
  {
    forall id ensures id in todo[1..] <==> exists j :: j in rows - {k} && j in payments && payments[j].id == id {
      if id in todo[1..] {
        assert id in todo && id != todo[0];
        var j :| j in rows && j in payments && payments[j].id == id;
        assert j in rows - {k};
      }
      if j :| j in rows - {k} && j in payments && payments[j].id == id {
        assert id in todo && id != todo[0];
      }
    }
  }

  /** Each retraction brings the reorganisation one payment closer to done. */
  lemma RetractKeepsFaithful(events: seq<Envelope>, epoch: int, s: State)
    requires Faithful(events, epoch, s) && s.phase.Retracting?
    ensures Faithful(events, epoch, RetractNextOf(s))
  {
    var l, e := Base(events, s), Current(events, s);
    RetractedSound(l.payments, s.progress.rows);
    RetractOnTrack(l, e, s, |s.done|);
    SameRowsSound(events, s.ledger.payments, RetractNextOf(s).ledger.payments);
    StillFaithful(events, epoch, s, RetractNextOf(s));
  }

  lemma RetractOnTrack(l: Ledger, e: Event, s: State, n: nat)
    requires OnTrack(l, e, s, n, false) && s.phase.Retracting? && IdsUnique(l.payments)
    ensures OnTrack(l, e, RetractNextOf(s), n, false)
  {
    var k := RetractsOneMore(l.payments, e, s.progress.rows, s.phase.todo);
    RowsNamed(l.payments, s.ledger.payments, s.phase.todo[0], k);
    var rows := s.progress.rows + {k};
    if s.phase.todo[1..] == [] {
      SameListing(l.payments, l.payments, Dropped(l.payments, e) - rows, []);
      assert rows == Dropped(l.payments, e);
    }
  }

  lemma RowsNamed(a: Payments, b: Payments, id: Uuid, k: TransferKey)
    requires a.Keys == b.Keys && (forall j :: j in a ==> a[j].id == b[j].id) && (set j | j in a && a[j].id == id) == {k}
    ensures (set j | j in b && b[j].id == id) == {k}
  {
    assert (set j | j in b && b[j].id == id) == (set j | j in a && a[j].id == id);
  }

  lemma RetractedSound(payments: Payments, rows: set<TransferKey>)
    requires IdsUnique(RetractAll(payments, rows))
    ensures IdsUnique(payments)
  {
    var after := RetractAll(payments, rows);
    assert after.Keys == payments.Keys && forall k :: k in payments ==> after[k].id == payments[k].id;
  }

  /** Committing turns a completed event into one more of the events applied once. */
  lemma CommitKeepsFaithful(events: seq<Envelope>, epoch: int, s: State)
    requires WellFormedStream(events) && Faithful(events, epoch, s) && s.phase.Applied?
    ensures Faithful(events, epoch, CommitOf(epoch, s, events[s.phase.next], IDLE))
  {
    var n := |s.done|;
    var s' := CommitOf(epoch, s, events[n], IDLE);
    CommitMovesTheCursors(events, s.cursors, epoch, n);
    BaseGrows(events, s, s');
    CompletedIsOnce(Base(events, s), Current(events, s), s.progress, s'.done[n]);
  }

  lemma BaseGrows(events: seq<Envelope>, s: State, s': State)
    requires |s.done| < |events| && |s'.done| == |s.done| + 1 && s'.done[..|s.done|] == s.done
    ensures Base(events, s') == Once(Base(events, s), Current(events, s), s'.done[|s.done|])
  {
    var n := |s.done|;
    assert events[..n + 1][..n] == events[..n];
  }

  lemma CompletedIsOnce(l: Ledger, e: Event, p: Progress, a: Attempt)
    requires Fits(l, e, p) && Complete(l, e, p) && a == if p.Recorded? then p.a else IDLE
    ensures Partial(l, e, p) == Once(l, e, a)
  {
  }

  lemma TakeKeepsFaithful(events: seq<Envelope>, epoch: int, s: State, step: Step)
    requires WellFormedStream(events) && Faithful(events, epoch, s) && Enabled(events, s, step)
    ensures Faithful(events, epoch, Take(events, epoch, s, step))
  {
    if step.Try? {
      TryKeepsFaithful(events, epoch, s, step);
    } else if step.RetractNext? {
      RetractKeepsFaithful(events, epoch, s);
    } else if step.CommitCursor? {
      CommitKeepsFaithful(events, epoch, s);
    } else if step.Restart? {
      RestartKeepsFaithful(events, epoch, s);
    } else if step.Crash? {
      HaltKeepsFaithful(events, epoch, s);
    } else {
      DrainKeepsFaithful(events, epoch, s, step);
    }
  }

  /** Leases and dispatches leave everything a run is judged by alone. */
  lemma DrainKeepsFaithful(events: seq<Envelope>, epoch: int, s: State, step: Step)
    requires Faithful(events, epoch, s) && (step.Lease? || step.Deliver?)
    ensures Faithful(events, epoch, Take(events, epoch, s, step))
  {
    var s' := Take(events, epoch, s, step);
    DrainIsSimilar(s.ledger, step);
    StillFaithful(events, epoch, s, s');
  }

  lemma DrainIsSimilar(l: Ledger, step: Step)
    ensures step.Lease? ==> Similar(l.(outbox := WebhookOutbox.Stamp(l.outbox, step.keys, step.until)), l)
    ensures step.Deliver? ==> Similar(l.(outbox := WebhookOutbox.Dispatch(l.outbox, step.id, step.now)), l)
  {
  }

  lemma {:induction false} RunKeepsFaithful(events: seq<Envelope>, epoch: int, s: State, steps: seq<Step>)
    requires WellFormedStream(events) && Faithful(events, epoch, s) && EnabledRun(events, epoch, s, steps)
    ensures Faithful(events, epoch, TakeAll(events, epoch, s, steps))
    decreases |steps|
  {
    if steps != [] {
      TakeKeepsFaithful(events, epoch, s, steps[0]);
      RunKeepsFaithful(events, epoch, Take(events, epoch, s, steps[0]), steps[1..]);
    }
  }

  // ---------------------------------------------------------------- exactly-once effect

  /** However often the process crashed and resumed, and whatever the drain did
      meanwhile: whenever no event is half applied, payments and obligations are
      those of applying each committed event exactly once. */
  lemma CrashReplayIsExactlyOnce(events: seq<Envelope>, epoch: int, steps: seq<Step>)
    requires WellFormedStream(events) && EnabledRun(events, epoch, START, steps)
    ensures var s := TakeAll(events, epoch, START, steps);
      && |s.done| <= |events|
      && (s.progress.Untouched? ==> Similar(s.ledger, AllOnce(events[..|s.done|], s.done)))
      && (|s.done| == |events| ==> Similar(s.ledger, AllOnce(events, s.done)))
  {
    RunKeepsFaithful(events, epoch, START, steps);
    var s := TakeAll(events, epoch, START, steps);
    assert |s.done| == |events| ==> events[..|s.done|] == events;
  }

  /** Once a reorganisation is through, whatever crashes its retractions were spread
      over, every payment is as the one reorganisation leaves it. */
  lemma ReorgIsThrough(events: seq<Envelope>, epoch: int, s: State)
    requires Faithful(events, epoch, s) && s.phase.Applied? && Current(events, s).Reorged?
    ensures var before := Base(events, s).payments;
      s.ledger.payments.Keys == before.Keys
      && forall k :: k in before ==> s.ledger.payments[k] == AfterReorg(Current(events, s), k, before[k])
  {
    CompletedIsOnce(Base(events, s), Current(events, s), s.progress, IDLE);
    ReorgedOnce(Base(events, s), Current(events, s), IDLE);
  }

  ghost predicate ConfirmedAlready(payments: Payments, e: Event, k: TransferKey)
    requires e.Confirmed?
  {
    k in payments && payments[k].invoice == e.invoice && k.txHash == e.txHash && k.txIndex == e.txIndex
    && !payments[k].reorged && payments[k].confirmedAt.Some?
  }

  /** Handling fails exactly for a malformed event, and for a confirmation whose row is confirmed already. */
  lemma FailsExactly(payments: Payments, e: Event)
    requires IdsUnique(payments) && HashesDistinct(payments)
    ensures Fails(payments, e) <==> e.Malformed? || (e.Confirmed? && exists k :: ConfirmedAlready(payments, e, k))
  {
    if e.Confirmed? {
      forall k | Finds(payments, k, e.invoice, e.txHash, e.txIndex)
        ensures Target(payments, e) == Some(k)
        ensures ConfirmsSomething(payments, payments[k].id) <==> payments[k].confirmedAt.None?
        ensures ConfirmedAlready(payments, e, k) <==> payments[k].confirmedAt.Some?
      {
      }
      assert forall k :: ConfirmedAlready(payments, e, k) ==> Finds(payments, k, e.invoice, e.txHash, e.txIndex);
    }
  }

  /** A commit stores the event's own position and height, under the epoch resumed with, for its chain only. */
  lemma CommitStores(events: seq<Envelope>, epoch: int, s: State)
    requires WellFormedStream(events) && Faithful(events, epoch, s) && s.phase.Applied?
    ensures var v := events[|s.done|];
      var after := CommitOf(epoch, s, v, IDLE).cursors;
      && v.chain in after && after[v.chain] == Cursor(epoch, v.position, v.height)
      && forall c :: c != v.chain ==> (c in after <==> c in s.cursors) && (c in after ==> after[c] == s.cursors[c])
  {
    var n := |s.done|;
    assert n > 0 ==> events[n - 1].position < events[n].position;
  }

  /** A consumer about to apply the next event fails on it exactly when the event
      fails on a single pass too, or it is a confirmation that an earlier
      incarnation already marked without living to commit the cursor. */
  lemma FailsIff(events: seq<Envelope>, epoch: int, s: State)
    requires WellFormedStream(events) && Faithful(events, epoch, s) && s.phase.Ready?
    ensures Fails(s.ledger.payments, Current(events, s)) <==>
      Fails(Base(events, s).payments, Current(events, s)) || s.progress.Marked?
  {
    if s.progress.Marked? {
      BaseSound(events, s);
      MarkedFails(events, Base(events, s).payments, Current(events, s));
    }
  }

  /** A crash is harmless, in that the restarted consumer applies the event it was
      on, exactly when it does not fall between marking a payment confirmed and
      committing that position. */
  lemma CrashIsHarmlessIff(events: seq<Envelope>, epoch: int, s: State)
    requires WellFormedStream(events) && Faithful(events, epoch, s)
    requires !Fails(Base(events, s).payments, Current(events, s))
    ensures var back := Take(events, epoch, Take(events, epoch, s, Crash), Restart);
      back.phase == Ready(|s.done|) && (!Fails(back.ledger.payments, Current(events, back)) <==> !s.progress.Marked?)
  {
    var down := Take(events, epoch, s, Crash);
    TakeKeepsFaithful(events, epoch, s, Crash);
    TakeKeepsFaithful(events, epoch, down, Restart);
    FailsIff(events, epoch, Take(events, epoch, down, Restart));
  }

  // ---------------------------------------------------------------- the crash that is not harmless

  /** Not running an event, and the event it would run next fails. */
  ghost predicate Stuck(events: seq<Envelope>, s: State) {
    (s.phase.Down? || s.phase.Ready?) && Fails(s.ledger.payments, Current(events, s))
  }

  lemma StuckStep(events: seq<Envelope>, epoch: int, s: State, step: Step)
    requires WellFormedStream(events) && Faithful(events, epoch, s) && Stuck(events, s) && Enabled(events, s, step)
    ensures var next := Take(events, epoch, s, step);
      Stuck(events, next) && next.done == s.done && next.cursors == s.cursors && next.ledger.payments == s.ledger.payments
  {
  }

  /** And then it never gets past it: no number of restarts commits another event. */
  lemma {:induction false} StuckForever(events: seq<Envelope>, epoch: int, s: State, steps: seq<Step>)
    requires WellFormedStream(events) && Faithful(events, epoch, s) && Stuck(events, s) && EnabledRun(events, epoch, s, steps)
    ensures var end := TakeAll(events, epoch, s, steps);
      Stuck(events, end) && end.done == s.done && end.cursors == s.cursors && end.ledger.payments == s.ledger.payments
    decreases |steps|
  {
    if steps != [] {
      var next := Take(events, epoch, s, steps[0]);
      TakeKeepsFaithful(events, epoch, s, steps[0]);
      StuckStep(events, epoch, s, steps[0]);
      StuckForever(events, epoch, next, steps[1..]);
    }
  }

  lemma RunFrom(events: seq<Envelope>, epoch: int, s: State, step: Step, rest: seq<Step>)
    requires Enabled(events, s, step) && EnabledRun(events, epoch, Take(events, epoch, s, step), rest)
    ensures EnabledRun(events, epoch, s, [step] + rest)
    ensures TakeAll(events, epoch, s, [step] + rest) == TakeAll(events, epoch, Take(events, epoch, s, step), rest)
  {
    assert ([step] + rest)[1..] == rest;
  }

  lemma RunsFiveSteps(events: seq<Envelope>, s0: State, s1: State, s2: State, s3: State, s4: State,
                      a: Step, b: Step, c: Step, d: Step, e: Step)
    requires Enabled(events, s0, a) && s1 == Take(events, 0, s0, a) && Enabled(events, s1, b) && s2 == Take(events, 0, s1, b)
    requires Enabled(events, s2, c) && s3 == Take(events, 0, s2, c) && Enabled(events, s3, d) && s4 == Take(events, 0, s3, d)
    requires Enabled(events, s4, e)
    ensures EnabledRun(events, 0, s0, [a] + ([b] + ([c] + ([d] + ([e] + [])))))
    ensures TakeAll(events, 0, s0, [a] + ([b] + ([c] + ([d] + ([e] + []))))) == Take(events, 0, s4, e)
  {
    RunFrom(events, 0, s4, e, []);
    RunFrom(events, 0, s3, d, [e] + []);
    RunFrom(events, 0, s2, c, [d] + ([e] + []));
    RunFrom(events, 0, s1, b, [c] + ([d] + ([e] + [])));
    RunFrom(events, 0, s0, a, [b] + ([c] + ([d] + ([e] + []))));
  }

  /** A payment is detected and committed; its confirmation is marked; the process
      dies before that commit. Applying the confirmation once would have
      succeeded, yet the consumer is stuck on it, and stays so. */
  lemma ConfirmationCrash() returns (events: seq<Envelope>, steps: seq<Step>)
    ensures WellFormedStream(events) && EnabledRun(events, 0, START, steps)
    ensures var s := TakeAll(events, 0, START, steps);
      Faithful(events, 0, s) && Stuck(events, s) && !Fails(Base(events, s).payments, Current(events, s))
  {
    var key := TransferKey(1, "hash", -1);
    var a := IDLE.(id := 1);
    events := [Envelope(1, 1, 1, Detected(key, "invoice", 10, 1, 0)), Envelope(1, 2, 2, Confirmed("invoice", "hash", -1, 5))];
    assert WellFormedStream(events);
    steps := [Restart] + ([Try(a, [])] + ([CommitCursor] + ([Try(IDLE, [])] + ([Crash] + []))));

    var s1 := Take(events, 0, START, Restart);
    assert s1 == START.(phase := Ready(0)) by {
      ResumesAfterTheLastCommit(events, START.cursors, 0, 0);
    }
    var s2 := Take(events, 0, s1, Try(a, []));
    assert s2.ledger.payments == map[key := PaymentOf(events[0].event, a)];
    var s3 := Take(events, 0, s2, CommitCursor);
    assert s3.phase == Ready(1) && Enabled(events, s3, Try(IDLE, []));
    var s4 := Take(events, 0, s3, Try(IDLE, []));
    MarksIt(s3.ledger.payments, key, events[1].event);
    assert s4.progress.Marked?;
    RunsFiveSteps(events, START, s1, s2, s3, s4, Restart, Try(a, []), CommitCursor, Try(IDLE, []), Crash);
    MarkedRunIsStuck(events, 0, steps);
  }

  /** Any run that went down with a mark made and not committed is stuck. */
  lemma MarkedRunIsStuck(events: seq<Envelope>, epoch: int, steps: seq<Step>)
    requires WellFormedStream(events) && EnabledRun(events, epoch, START, steps)
    requires TakeAll(events, epoch, START, steps).phase.Down? && TakeAll(events, epoch, START, steps).progress.Marked?
    ensures var s := TakeAll(events, epoch, START, steps);
      Faithful(events, epoch, s) && Stuck(events, s) && !Fails(Base(events, s).payments, Current(events, s))
  {
    RunKeepsFaithful(events, epoch, START, steps);
    MarkedIsStuck(events, epoch, TakeAll(events, epoch, START, steps));
  }

  lemma MarksIt(payments: Payments, key: TransferKey, e: Event)
    requires payments.Keys == {key} && e.Confirmed? && payments[key].confirmedAt.None?
    requires Finds(payments, key, e.invoice, e.txHash, e.txIndex)
    ensures Target(payments, e) == Some(key) && !Fails(payments, e)
  {
    var found := Target(payments, e);
    assert found.Some? && Finds(payments, found.value, e.invoice, e.txHash, e.txIndex);
    assert ConfirmsSomething(payments, payments[key].id);
  }

  lemma MarkedIsStuck(events: seq<Envelope>, epoch: int, s: State)
    requires WellFormedStream(events) && Faithful(events, epoch, s) && s.phase.Down? && s.progress.Marked?
    ensures Stuck(events, s) && !Fails(Base(events, s).payments, Current(events, s))
  {
    BaseSound(events, s);
    MarkedFails(events, Base(events, s).payments, Current(events, s));
  }
}
