/** Claiming and dispatching webhook obligations: a lease on each row, taken by
    any number of drain instances at once. */
module WebhookOutbox {
  import opened Common
  import opened PaymentLedger

  predicate Claimable(o: Obligation, now: int) {
    o.dispatchedAt.None? && (o.claimedUntil.None? || o.claimedUntil.value < now)
  }

  function Stamp(rows: Outbox, keys: set<ObligationKey>, until: int): (r: Outbox) {
    map k | k in rows :: if k in keys then rows[k].(claimedUntil := Some(until)) else rows[k]
  }

  function Dispatch(rows: Outbox, id: Uuid, now: int): (r: Outbox) {
    map k | k in rows :: if rows[k].id == id then rows[k].(dispatchedAt := Some(now)) else rows[k]
  }

  /** Dispatching marks the named obligation for good and no other. */
  lemma DispatchedRow(rows: Outbox, id: Uuid, now: int, k: ObligationKey)
    requires k in rows
    ensures var after := Dispatch(rows, id, now);
      && after.Keys == rows.Keys
      && (rows[k].id == id ==> after[k] == rows[k].(dispatchedAt := Some(now)) && forall t :: !Claimable(after[k], t))
      && (rows[k].id != id ==> after[k] == rows[k])
  {
  }

  /** A lease keeps exactly the rows it names from being claimed, until it has run out. */
  lemma LeasedRow(rows: Outbox, keys: set<ObligationKey>, until: int, k: ObligationKey)
    requires k in rows
    ensures var after := Stamp(rows, keys, until);
      && after.Keys == rows.Keys && (k !in keys ==> after[k] == rows[k])
      && (k in keys ==> after[k] == rows[k].(claimedUntil := Some(until)))
      && (k in keys && rows[k].dispatchedAt == None ==> forall t :: Claimable(after[k], t) <==> t > until)
  {
  }

  // ---------------------------------------------------------------- concurrent claims

  /** A claim: the rows it picked, when, and until when they are its own. */
  datatype Claim = Claim(keys: set<ObligationKey>, at: int, until: int)

  /** `open` claims have locked their rows and not committed; `returned` ones were handed to their claimant. */
  datatype State = State(rows: Outbox, open: map<nat, Claim>, returned: seq<Claim>)

  ghost predicate Locked(s: State, k: ObligationKey) {
    exists c :: c in s.open && k in s.open[c].keys
  }

  ghost predicate Eligible(s: State, k: ObligationKey, now: int) {
    k in s.rows && Claimable(s.rows[k], now) && !Locked(s, k)
  }

  /** The selection: eligible rows, skipping locked ones, oldest first, as many as the limit allows. */
  ghost predicate Selects(s: State, keys: set<ObligationKey>, limit: nat, now: int) {
    && (forall k :: k in keys ==> Eligible(s, k, now))
    && (|keys| == limit || (|keys| < limit && forall k :: Eligible(s, k, now) ==> k in keys))
    && (forall j, k :: j in keys && Eligible(s, k, now) && k !in keys ==> s.rows[j].createdAt <= s.rows[k].createdAt)
  }

  /** The oldest goes first: a row older than every other eligible one is in any claim that takes something. */
  lemma OldestGoesFirst(s: State, keys: set<ObligationKey>, limit: nat, now: int, k: ObligationKey)
    requires Selects(s, keys, limit, now) && limit > 0 && Eligible(s, k, now)
    requires forall j :: Eligible(s, j, now) && j != k ==> s.rows[k].createdAt < s.rows[j].createdAt
    ensures k in keys
  {
    assert keys == {} || exists j :: j in keys;
    assert forall j :: j in keys && j != k ==> Eligible(s, j, now) && s.rows[k].createdAt < s.rows[j].createdAt;
  }

  datatype Step =
    | Pick(c: nat, keys: set<ObligationKey>, limit: nat, visibility: nat, now: int)
    | Return(c: nat)
    | Lose(c: nat)
    | Done(id: Uuid, now: int)
    | Add(key: ObligationKey, o: Obligation)

  /** A claim selects and locks, then stamps and returns or is lost with its
      connection. Dispatching waits for the row lock. Nothing is assumed about
      how the clock readings of different claims compare. */
  ghost predicate Enabled(s: State, step: Step) {
    match step
    case Pick(c, keys, limit, _, now) => c !in s.open && Selects(s, keys, limit, now)
    case Return(c) => c in s.open
    case Lose(c) => c in s.open
    case Done(id, _) => forall k :: k in s.rows && s.rows[k].id == id ==> !Locked(s, k)
    case Add(key, o) => key !in s.rows && o.claimedUntil.None? && o.dispatchedAt.None? && !Locked(s, key) && Unreturned(s, key)
  }

  ghost predicate Unreturned(s: State, k: ObligationKey) {
    forall i :: 0 <= i < |s.returned| ==> k !in s.returned[i].keys
  }

  ghost function Take(s: State, step: Step): State
    requires Enabled(s, step)
  {
    match step
    case Pick(c, keys, _, visibility, now) => s.(open := s.open[c := Claim(keys, now, now + visibility)])
    case Return(c) => State(Stamp(s.rows, s.open[c].keys, s.open[c].until), s.open - {c}, s.returned + [s.open[c]])
    case Lose(c) => s.(open := s.open - {c})
    case Done(id, now) => s.(rows := Dispatch(s.rows, id, now))
    case Add(key, o) => s.(rows := s.rows[key := o])
  }

  /** A claim made at `now` for `visibility` and then returned: the rows it picked are
      its own until then and nobody's before it; a dispatch is for good. */
  lemma ClaimLasts(s: State, c: nat, keys: set<ObligationKey>, limit: nat, visibility: nat, now: int, k: ObligationKey)
    requires Enabled(s, Pick(c, keys, limit, visibility, now)) && k in keys
    ensures var picked := Take(s, Pick(c, keys, limit, visibility, now));
      var after := Take(picked, Return(c));
      && Locked(picked, k) && picked.rows == s.rows
      && k in after.rows && (forall t :: Claimable(after.rows[k], t) <==> t > now + visibility)
      && |after.returned| == |s.returned| + 1
      && after.returned[|s.returned|].keys == keys && after.returned[|s.returned|].at == now
      && after.returned[|s.returned|].until == now + visibility
  {
    assert Eligible(s, k, now);
    var picked := Take(s, Pick(c, keys, limit, visibility, now));
    assert c in picked.open && k in picked.open[c].keys;
  }

  lemma DoneIsForGood(s: State, id: Uuid, now: int, k: ObligationKey)
    requires Enabled(s, Done(id, now)) && k in s.rows
    ensures var after := Take(s, Done(id, now));
      && k in after.rows && (s.rows[k].id == id ==> forall t :: !Claimable(after.rows[k], t))
      && (s.rows[k].id != id ==> after.rows[k] == s.rows[k])
  {
  }

  ghost predicate EnabledRun(s: State, steps: seq<Step>)
    decreases |steps|
  {
    steps == [] || (Enabled(s, steps[0]) && EnabledRun(Take(s, steps[0]), steps[1..]))
  }

  ghost function TakeAll(s: State, steps: seq<Step>): State
    requires EnabledRun(s, steps)
    decreases |steps|
  {
    if steps == [] then s else TakeAll(Take(s, steps[0]), steps[1..])
  }

  /** A payment that calls for a new obligation adds one, free for any claim from then on. */
  lemma RecordIsAdd(s: State, l: Ledger, key: TransferKey, p: Payment, eventType: string, id: Uuid, now: int)
    requires s.rows == l.outbox
    ensures var after := Record(l, key, p, eventType, id, now);
      var due := ObligationKey(after.payments[key].id, eventType);
      if due in l.outbox then after.outbox == s.rows
      else
        && due in after.outbox && (forall t :: Claimable(after.outbox[due], t))
        && (!Locked(s, due) && Unreturned(s, due) ==>
              Enabled(s, Add(due, after.outbox[due])) && Take(s, Add(due, after.outbox[due])) == s.(rows := after.outbox))
  {
    RecordedObligation(l, key, p, eventType, id, now);
  }

  // ---------------------------------------------------------------- the invariant of a run

  /** Later claims of a row come strictly after the earlier lease ran out. */
  ghost predicate LeasesHold(returned: seq<Claim>) {
    forall i, j, k :: 0 <= i < j < |returned| && k in returned[i].keys && k in returned[j].keys
      ==> returned[j].at > returned[i].until
  }

  /** An open claim's rows are free to it: undispatched, not anyone else's, and past every returned lease. */
  ghost predicate OpenSound(s: State, c: nat)
    requires c in s.open
  {
    && s.open[c].at <= s.open[c].until
    && (forall k :: k in s.open[c].keys ==> k in s.rows && s.rows[k].dispatchedAt.None?)
    && (forall i, k :: 0 <= i < |s.returned| && k in s.open[c].keys && k in s.returned[i].keys ==> s.open[c].at > s.returned[i].until)
  }

  ghost predicate OpenDisjoint(s: State) {
    forall c, d, k :: c in s.open && d in s.open && c != d && k in s.open[c].keys ==> k !in s.open[d].keys
  }

  ghost predicate RowsStamped(s: State) {
    forall i, k :: 0 <= i < |s.returned| && k in s.returned[i].keys ==>
      k in s.rows && s.rows[k].claimedUntil.Some? && s.rows[k].claimedUntil.value >= s.returned[i].until
  }

  ghost predicate Safe(s: State) {
    LeasesHold(s.returned) && OpenDisjoint(s) && RowsStamped(s) && forall c :: c in s.open ==> OpenSound(s, c)
  }

  lemma PickKeepsSafe(s: State, step: Step)
    requires Safe(s) && step.Pick? && Enabled(s, step)
    ensures Safe(Take(s, step))
  {
    var s' := Take(s, step);
    forall c | c in s'.open ensures OpenSound(s', c) {
      if c != step.c {
        assert OpenSound(s, c);
      } else {
        assert forall k :: k in step.keys ==> Eligible(s, k, step.now);
      }
    }
    forall c, d, k | c in s'.open && d in s'.open && c != d && k in s'.open[c].keys ensures k !in s'.open[d].keys {
      assert c == step.c ==> Eligible(s, k, step.now);
      assert d == step.c && k in step.keys ==> Eligible(s, k, step.now);
    }
  }

  lemma ReturnKeepsSafe(s: State, c: nat)
    requires Safe(s) && c in s.open
    ensures Safe(Take(s, Return(c)))
  {
    var s' := Take(s, Return(c));
    assert OpenSound(s, c);
    forall d | d in s'.open ensures OpenSound(s', d) {
      assert OpenSound(s, d);
    }
  }

  lemma TakeKeepsSafe(s: State, step: Step)
    requires Safe(s) && Enabled(s, step)
    ensures Safe(Take(s, step))
  {
    var s' := Take(s, step);
    if step.Pick? {
      PickKeepsSafe(s, step);
    } else if step.Return? {
      ReturnKeepsSafe(s, step.c);
    } else {
      forall c | c in s'.open ensures OpenSound(s', c) {
        assert OpenSound(s, c);
      }
    }
  }

  /** Over every run: if a row is returned by two claims, the later one picked it
      strictly after the earlier lease expired. So overlapping claims return
      disjoint rows, and a row claimed at t for v seconds is in no other claim
      until after t + v. */
  lemma {:induction false} LeasesNeverOverlap(s: State, steps: seq<Step>)
    requires Safe(s) && EnabledRun(s, steps)
    ensures Safe(TakeAll(s, steps))
    decreases |steps|
  {
    if steps != [] {
      TakeKeepsSafe(s, steps[0]);
      LeasesNeverOverlap(Take(s, steps[0]), steps[1..]);
    }
  }

  /** Once dispatched, never claimed again: no claim returned from then on holds the row. */
  lemma {:induction false} DispatchedIsNeverClaimed(s: State, steps: seq<Step>, k: ObligationKey)
    requires Safe(s) && EnabledRun(s, steps) && k in s.rows && s.rows[k].dispatchedAt.Some?
    ensures var end := TakeAll(s, steps);
      && k in end.rows && end.rows[k].dispatchedAt.Some?
      && |s.returned| <= |end.returned| && end.returned[..|s.returned|] == s.returned
      && forall i :: |s.returned| <= i < |end.returned| ==> k !in end.returned[i].keys
    decreases |steps|
  {
    if steps != [] {
      var next := Take(s, steps[0]);
      TakeKeepsSafe(s, steps[0]);
      assert steps[0].Return? ==> OpenSound(s, steps[0].c);
      DispatchedIsNeverClaimed(next, steps[1..], k);
      var end := TakeAll(next, steps[1..]);
      assert end.returned[..|s.returned|] == end.returned[..|next.returned|][..|s.returned|];
      assert |next.returned| > |s.returned| ==> end.returned[|s.returned|] == end.returned[..|next.returned|][|s.returned|];
    }
  }

  // ---------------------------------------------------------------- draining

  ghost function Due(rows: Outbox): set<ObligationKey> {
    set k | k in rows && rows[k].dispatchedAt.None?
  }

  ghost predicate Returned(s: State, k: ObligationKey) {
    exists i :: 0 <= i < |s.returned| && k in s.returned[i].keys
  }

  /** Undispatched, and in no claim so far, open or returned. */
  ghost function Unclaimed(s: State): set<ObligationKey> {
    set k | k in s.rows && s.rows[k].dispatchedAt.None? && !Locked(s, k) && !Returned(s, k)
  }

  /** A step of drain instances that all claim `limit` rows at a time, lose no
      claim, dispatch what they were given, and do so within the lease: at every
      pick, a row that was returned and is not dispatched is still leased. No
      obligation is added meanwhile, and no clock reads earlier than `since`. */
  ghost predicate Orderly(s: State, limit: nat, since: int, step: Step) {
    match step
    case Pick(_, _, most, _, now) =>
      && most == limit && since <= now
      && forall k :: k in s.rows && s.rows[k].dispatchedAt.None? && Returned(s, k) ==> !Claimable(s.rows[k], now)
    case Return(_) => true
    case Done(id, _) => forall k :: k in s.rows && s.rows[k].id == id ==> Returned(s, k)
    case Lose(_) => false
    case Add(_, _) => false
  }

  ghost predicate OrderlyRun(s: State, limit: nat, since: int, steps: seq<Step>)
    decreases |steps|
  {
    steps == [] ||
    (Enabled(s, steps[0]) && Orderly(s, limit, since, steps[0]) && OrderlyRun(Take(s, steps[0]), limit, since, steps[1..]))
  }

  /** Claims begun in a run, whoever began them. */
  ghost function Picks(steps: seq<Step>): nat {
    if steps == [] then 0 else (if steps[0].Pick? then 1 else 0) + Picks(steps[1..])
  }

  /** What nobody has claimed yet is free to claim from `since` on. */
  ghost predicate Free(s: State, since: int) {
    forall k :: k in Unclaimed(s) ==> Claimable(s.rows[k], since)
  }

  /** Take `limit` from `n`, or all of it, `r` times. */
  ghost function LeftAfter(n: nat, limit: nat, r: nat): nat
    decreases r
  {
    if r == 0 then n else LeftAfter(if n <= limit then 0 else n - limit, limit, r - 1)
  }

  lemma {:induction false} LeftAfterIs(n: nat, limit: nat, r: nat)
    ensures LeftAfter(n, limit, r) == if n <= r * limit then 0 else n - r * limit
    decreases r
  {
    if r > 0 {
      LeftAfterIs(if n <= limit then 0 else n - limit, limit, r - 1);
      assert r * limit == limit + (r - 1) * limit;
    }
  }

  /** A pick takes `limit` unclaimed rows or all of them, whatever else is locked, leased or under way. */
  lemma PickTakes(s: State, limit: nat, since: int, step: Step)
    requires step.Pick? && Enabled(s, step) && Orderly(s, limit, since, step) && Free(s, since)
    ensures var s' := Take(s, step);
      && Unclaimed(s') == Unclaimed(s) - step.keys && step.keys <= Unclaimed(s)
      && |Unclaimed(s')| == if |Unclaimed(s)| <= limit then 0 else |Unclaimed(s)| - limit
  {
    var s' := Take(s, step);
    forall k ensures Eligible(s, k, step.now) <==> k in Unclaimed(s) {
      assert k in Unclaimed(s) ==> Claimable(s.rows[k], since);
    }
    PickLocks(s, step);
    Remaining(Unclaimed(s), step.keys);
    if |step.keys| < limit {
      assert step.keys == Unclaimed(s);
    }
  }

  lemma PickLocks(s: State, step: Step)
    requires step.Pick? && Enabled(s, step)
    ensures Unclaimed(Take(s, step)) == Unclaimed(s) - step.keys
  {
    var s' := Take(s, step);
    forall k ensures Locked(s', k) <==> Locked(s, k) || k in step.keys {
      if Locked(s, k) {
        var c :| c in s.open && k in s.open[c].keys;
        assert c in s'.open && k in s'.open[c].keys;
      }
      if k in step.keys {
        assert step.c in s'.open && k in s'.open[step.c].keys;
      }
    }
    assert forall k :: Returned(s', k) <==> Returned(s, k);
  }

  /** Returning a claim and dispatching returned rows leave the unclaimed rows alone. */
  lemma OthersLeave(s: State, limit: nat, since: int, step: Step)
    requires !step.Pick? && Enabled(s, step) && Orderly(s, limit, since, step)
    ensures Unclaimed(Take(s, step)) == Unclaimed(s)
    ensures forall k :: k in Unclaimed(s) ==> k in Take(s, step).rows && Take(s, step).rows[k] == s.rows[k]
  {
    var s' := Take(s, step);
    if step.Return? {
      forall k ensures Locked(s', k) || Returned(s', k) <==> Locked(s, k) || Returned(s, k) {
        ReturnKeepsClaims(s, step.c, k);
      }
    }
  }

  lemma ReturnKeepsClaims(s: State, c: nat, k: ObligationKey)
    requires c in s.open
    ensures var s' := Take(s, Return(c));
      (Locked(s', k) || Returned(s', k) <==> Locked(s, k) || Returned(s, k)) && (k in s.open[c].keys ==> Returned(s', k))
  {
    var s' := Take(s, Return(c));
    assert s'.returned[|s.returned|] == s.open[c] && forall i :: 0 <= i < |s.returned| ==> s'.returned[i] == s.returned[i];
    if Locked(s, k) {
      var d :| d in s.open && k in s.open[d].keys;
      assert d != c ==> d in s'.open && k in s'.open[d].keys;
    }
    if Returned(s, k) {
      var i :| 0 <= i < |s.returned| && k in s.returned[i].keys;
      assert k in s'.returned[i].keys;
    }
  }

  /** Counting over every orderly run: each pick takes a full batch until nothing is left. */
  lemma {:induction false} UnclaimedAfter(s: State, limit: nat, since: int, steps: seq<Step>)
    requires OrderlyRun(s, limit, since, steps) && Free(s, since)
    ensures EnabledRun(s, steps)
    ensures |Unclaimed(TakeAll(s, steps))| == LeftAfter(|Unclaimed(s)|, limit, Picks(steps))
    decreases |steps|
  {
    if steps != [] {
      UnclaimedStep(s, limit, since, steps[0]);
      UnclaimedAfter(Take(s, steps[0]), limit, since, steps[1..]);
    }
  }

  lemma UnclaimedStep(s: State, limit: nat, since: int, step: Step)
    requires Enabled(s, step) && Orderly(s, limit, since, step) && Free(s, since)
    ensures Free(Take(s, step), since)
    ensures |Unclaimed(Take(s, step))| == LeftAfter(|Unclaimed(s)|, limit, if step.Pick? then 1 else 0)
  {
    if step.Pick? {
      PickTakes(s, limit, since, step);
    } else {
      OthersLeave(s, limit, since, step);
    }
  }

  lemma Remaining(all: set<ObligationKey>, taken: set<ObligationKey>)
    requires taken <= all
    ensures |all - taken| == |all| - |taken|
  {
    assert all == (all - taken) + taken;
  }

  /** Every claim was returned, and every row returned was dispatched. */
  ghost predicate Settled(s: State) {
    s.open == map[] && forall k :: k in s.rows && Returned(s, k) ==> s.rows[k].dispatchedAt.Some?
  }

  /** A backlog of n drains in ceil(n / limit) claims, by however many drain
      instances, their picks, returns and dispatches interleaved in any way: once
      all are settled, nothing is due exactly when at least that many were begun. */
  lemma DrainsInCeilingClaims(rows: Outbox, limit: nat, since: int, steps: seq<Step>)
    requires limit > 0 && forall k :: k in Due(rows) ==> Claimable(rows[k], since)
    requires OrderlyRun(State(rows, map[], []), limit, since, steps)
    ensures EnabledRun(State(rows, map[], []), steps)
    ensures var end := TakeAll(State(rows, map[], []), steps);
      Settled(end) ==> (Due(end.rows) == {} <==> Picks(steps) >= (|Due(rows)| + limit - 1) / limit)
  {
    var s := State(rows, map[], []);
    assert Unclaimed(s) == Due(rows);
    UnclaimedAfter(s, limit, since, steps);
    LeftAfterIs(|Due(rows)|, limit, Picks(steps));
    CeilingDivision(|Due(rows)|, limit, Picks(steps));
    var end := TakeAll(s, steps);
    if Settled(end) {
      assert Unclaimed(end) == Due(end.rows);
    }
  }

  lemma CeilingDivision(n: nat, limit: nat, r: nat)
    requires limit > 0
    ensures n <= r * limit <==> r >= (n + limit - 1) / limit
  {
    var q := (n + limit - 1) / limit;
    Quotient(n + limit - 1, limit);
    if r >= q {
      MoreBatches(q, r, limit);
    } else {
      MoreBatches(r + 1, q, limit);
      OneMoreBatch(r, limit);
    }
  }

  lemma Quotient(m: nat, limit: nat)
    requires limit > 0
    ensures (m / limit) * limit <= m < (m / limit) * limit + limit
  {
    assert m == limit * (m / limit) + m % limit;
  }

  lemma {:induction false} MoreBatches(a: nat, b: nat, limit: nat)
    requires a <= b
    ensures a * limit <= b * limit
    decreases b - a
  {
    if a < b {
      MoreBatches(a, b - 1, limit);
      OneMoreBatch(b - 1, limit);
    }
  }

  lemma OneMoreBatch(a: nat, limit: nat)
    ensures (a + 1) * limit == a * limit + limit
  {
  }
}
