/** Account standing pushed by a billing service: a compare-and-set on the
    version, and the verdict on creating an invoice. */
module AccountStanding {
  import opened Common

  datatype Standing = Standing(version: int, good: bool, paidThrough: Option<int>, plan: string, checkoutUrl: Option<string>)

  datatype Held = Held(standing: Standing, receivedAt: int, lastHeardAt: int)

  datatype Outcome = Applied(version: int) | Kept(heldVersion: int)

  // ---------------------------------------------------------------- statements

  /** The statements pushes consist of. Those of different pushes may interleave in any way. */
  datatype Statement = Push(standing: Standing, at: int) | Touch(version: int, at: int)

  function Execute(held: Option<Held>, s: Statement): Option<Held> {
    match s
    case Push(standing, at) =>
      if held.None? || standing.version > held.value.standing.version then Some(Held(standing, at, at)) else held
    case Touch(version, at) =>
      if held.Some? && held.value.standing.version == version then Some(held.value.(lastHeardAt := at)) else held
  }

  ghost function ExecuteAll(statements: seq<Statement>): Option<Held> {
    if statements == [] then None else Execute(ExecuteAll(statements[..|statements| - 1]), statements[|statements| - 1])
  }

  // ---------------------------------------------------------------- closed form

  /** Push `j` is the first with the greatest version. */
  ghost predicate FirstGreatest(statements: seq<Statement>, j: nat) {
    && j < |statements| && statements[j].Push?
    && (forall i :: 0 <= i < |statements| && statements[i].Push? ==> statements[i].standing.version <= statements[j].standing.version)
    && (forall i :: 0 <= i < j && statements[i].Push? ==> statements[i].standing.version < statements[j].standing.version)
  }

  /** Statement `k` is push `j`, or the last later one to hear that version again. */
  ghost predicate LastHeard(statements: seq<Statement>, j: nat, k: nat)
    requires j < |statements| && statements[j].Push?
  {
    && j <= k < |statements|
    && (k == j || (statements[k].Touch? && statements[k].version == statements[j].standing.version))
    && (forall i :: k < i < |statements| && statements[i].Touch? ==> statements[i].version != statements[j].standing.version)
  }

  /** After any interleaving, what is held is the first push with the greatest
      version, heard when it was applied or when its version was last repeated. */
  lemma {:induction false} HeldIs(statements: seq<Statement>) returns (j: nat, k: nat)
    requires exists i :: 0 <= i < |statements| && statements[i].Push?
    ensures FirstGreatest(statements, j) && LastHeard(statements, j, k)
    ensures ExecuteAll(statements) == Some(Held(statements[j].standing, statements[j].at, statements[k].at))
    decreases |statements|
  {
    var n := |statements| - 1;
    var front, last := statements[..n], statements[n];
    if i :| 0 <= i < n && front[i].Push? {
      j, k := HeldIs(front);
      if last.Push? && last.standing.version > statements[j].standing.version {
        j, k := n, n;
      } else if last.Touch? && last.version == statements[j].standing.version {
        k := n;
      }
    } else {
      NothingHeld(front);
      assert forall i :: 0 <= i < n ==> !front[i].Push?;
      j, k := n, n;
    }
  }

  lemma {:induction false} NothingHeld(statements: seq<Statement>)
    requires forall i :: 0 <= i < |statements| ==> !statements[i].Push?
    ensures ExecuteAll(statements) == None
    decreases |statements|
  {
    if statements != [] {
      NothingHeld(statements[..|statements| - 1]);
    }
  }

  /** The time of hearing moves only on an applied push or a repeat of the version held. */
  lemma HeardOnlyThen(held: Held, s: Statement)
    ensures Execute(Some(held), s).Some?
    ensures Execute(Some(held), s).value.lastHeardAt != held.lastHeardAt ==>
      (s.Push? && s.standing.version > held.standing.version) || (s.Touch? && s.version == held.standing.version)
    ensures Execute(Some(held), s).value.standing.version >= held.standing.version
    ensures Execute(Some(held), s).value.standing.version == held.standing.version ==>
      Execute(Some(held), s).value.standing == held.standing
  {
  }

  // ---------------------------------------------------------------- the verdict

  datatype Decision = Allow | AllowStale(silentFor: int) | AllowUnheard | Deny(plan: string, checkoutUrl: Option<string>)

  function Decide(held: Option<Held>, now: int, maxAge: int): Decision {
    if held.None? then AllowUnheard
    else if !held.value.standing.good then Deny(held.value.standing.plan, held.value.standing.checkoutUrl)
    else
      var silentFor := now - held.value.lastHeardAt;
      if silentFor > maxAge then AllowStale(silentFor) else Allow
  }

  /** The verdict, exactly: refused with the plan and the way to pay exactly when the
      standing held is bad; else allowed, as stale exactly when the sender has been
      silent for longer than the bound, and as unheard when nothing is held. */
  lemma DecideIs(held: Option<Held>, now: int, maxAge: int)
    ensures Decide(held, now, maxAge) == AllowUnheard <==> held.None?
    ensures held.Some? && !held.value.standing.good <==>
      Decide(held, now, maxAge).Deny?
    ensures Decide(held, now, maxAge).Deny? ==>
      Decide(held, now, maxAge) == Deny(held.value.standing.plan, held.value.standing.checkoutUrl)
    ensures held.Some? && held.value.standing.good ==>
      Decide(held, now, maxAge) ==
        if now > held.value.lastHeardAt + maxAge then AllowStale(now - held.value.lastHeardAt) else Allow
  {
  }

  ghost predicate Pushed(statements: seq<Statement>, s: Standing) {
    exists i :: 0 <= i < |statements| && statements[i].Push? && statements[i].standing == s
  }

  /** A version is never reused for different content. */
  ghost predicate VersionsDetermine(statements: seq<Statement>) {
    forall s, t :: Pushed(statements, s) && Pushed(statements, t) && s.version == t.version ==> s == t
  }

  /** Delivery order does not matter: the same standings, reordered and repeated
      at will, leave the same standing held, and refuse or allow alike at any time. */
  lemma OrderDoesNotMatter(a: seq<Statement>, b: seq<Statement>, now: int, maxAge: int)
    requires VersionsDetermine(a) && forall s :: Pushed(a, s) <==> Pushed(b, s)
    requires exists s :: Pushed(a, s)
    ensures ExecuteAll(a).Some? && ExecuteAll(b).Some? && ExecuteAll(a).value.standing == ExecuteAll(b).value.standing
    ensures Decide(ExecuteAll(a), now, maxAge).Deny? <==> Decide(ExecuteAll(b), now, maxAge).Deny?
    ensures Decide(ExecuteAll(a), now, maxAge).Deny? ==> Decide(ExecuteAll(a), now, maxAge) == Decide(ExecuteAll(b), now, maxAge)
  {
    var s :| Pushed(a, s);
    assert Pushed(b, s);
    var i, k := HeldIs(a);
    var j, l := HeldIs(b);
    assert Pushed(a, a[i].standing) && Pushed(b, b[j].standing);
    assert Pushed(b, a[i].standing) && Pushed(a, b[j].standing);
  }

  lemma OnlyOneIsFirst(statements: seq<Statement>, j: nat, l: nat)
    requires FirstGreatest(statements, j) && FirstGreatest(statements, l)
    ensures j == l
  {
  }

  /** The invoice is refused exactly when the sender's greatest version said no, however long ago. */
  lemma DeniedIff(statements: seq<Statement>, now: int, maxAge: int)
    ensures Decide(ExecuteAll(statements), now, maxAge).Deny? <==>
      exists j: nat :: FirstGreatest(statements, j) && !statements[j].standing.good
  {
    if i :| 0 <= i < |statements| && statements[i].Push? {
      var j, k := HeldIs(statements);
      forall l: nat | FirstGreatest(statements, l) ensures l == j {
        OnlyOneIsFirst(statements, j, l);
      }
    } else {
      NothingHeld(statements);
    }
  }

  // ---------------------------------------------------------------- the store

  class StandingStore {
    var held: map<Uuid, Held>

    ghost function Of(account: Uuid): Option<Held>
      reads this
    {
      if account in held then Some(held[account]) else None
    }

    constructor ()
      ensures held == map[]
    {
      held := map[];
    }

    /** Compare-and-set; when it kept what it had, note that a repeated version was heard. */
    method ApplyAccountStanding(account: Uuid, s: Standing, at: int, later: int) returns (outcome: Outcome)
      modifies this
      ensures Of(account) == if outcome.Applied? then Execute(old(Of(account)), Push(s, at))
                             else Execute(Execute(old(Of(account)), Push(s, at)), Touch(s.version, later))
      ensures outcome.Applied? <==> account !in old(held) || s.version > old(held)[account].standing.version
      ensures outcome.Applied? ==> outcome.version == s.version && held[account].standing == s
      ensures outcome.Kept? ==> account in held && outcome.heldVersion == held[account].standing.version && s.version <= outcome.heldVersion
      ensures held.Keys == old(held.Keys) + {account} && forall other :: other in held && other != account ==> held[other] == old(held)[other]
    {
      if account !in held || s.version > held[account].standing.version {
        held := held[account := Held(s, at, at)];
        return Applied(s.version);
      }
      if held[account].standing.version == s.version {
        held := held[account := held[account].(lastHeardAt := later)];
      }
      return Kept(held[account].standing.version);
    }
  }
}
