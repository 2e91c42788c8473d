/** The live watch index the monitor reads, and its reconciliation with the
    watches the database expects. */
module WatchIndex {
  import opened Common
  import opened Text
  import opened WatchKeys

  /** Only EIP-155 chains have a number, and only those can be watched. */
  datatype Chain = Evm(id: nat) | Foreign(name: string)

  // ---------------------------------------------------------------- reconciliation

  /** A watch as either side sees it, invoice included; address and token in lower case. */
  datatype WatchKey = WatchKey(chain: Chain, address: string, token: Option<string>, invoice: string)

  function NewWatchKey(chain: Chain, address: string, token: Option<string>, invoice: string): WatchKey {
    WatchKey(chain, Lower(address), LowerOption(token), invoice)
  }

  /** A difference in spelling alone never makes two watches of one. */
  lemma SpellingNeverSeparates(chain: Chain, address: string, address': string, token: Option<string>, token': Option<string>, invoice: string)
    ensures NewWatchKey(chain, address, token, invoice) == NewWatchKey(chain, address', token', invoice)
      <==> Lower(address) == Lower(address') && LowerOption(token) == LowerOption(token')
  {
  }

  datatype Reconciliation = Reconciliation(stale: set<WatchKey>, missed: set<WatchKey>)

  function Members(keys: seq<WatchKey>): set<WatchKey> {
    set k | k in keys
  }

  function Reconcile(expected: seq<WatchKey>, actual: seq<WatchKey>): Reconciliation {
    Reconciliation(Members(actual) - Members(expected), Members(expected) - Members(actual))
  }

  const AGREED: Reconciliation := Reconciliation({}, {})

  lemma AgreedIff(expected: seq<WatchKey>, actual: seq<WatchKey>)
    ensures Reconcile(expected, actual) == AGREED <==> Members(expected) == Members(actual)
  {
    if Reconcile(expected, actual) == AGREED {
      forall k ensures k in Members(expected) <==> k in Members(actual) {
        assert k !in Members(actual) - Members(expected) && k !in Members(expected) - Members(actual);
      }
    }
  }

  // ---------------------------------------------------------------- what the index stands for

  /** Invoices by key, as Redis holds them, and by what the key says. */
  type Index = map<string, string>
  type Watched = map<Triple, string>

  function KeyFor(t: Triple): string {
    Print(t.chain, t.address, t.token)
  }

  ghost predicate Normal(t: Triple) {
    t.chain <= MAX_CHAIN && Printable(t.address, t.token) && Lower(t.address) == t.address && LowerOption(t.token) == t.token
  }

  ghost function Normalised(t: Triple): Triple {
    Triple(t.chain, Lower(t.address), LowerOption(t.token))
  }

  ghost predicate Represents(index: Index, watched: Watched) {
    && (forall t :: t in watched ==> Normal(t) && KeyFor(t) in index && index[KeyFor(t)] == watched[t])
    && (forall key :: key in index ==> exists t :: t in watched && KeyFor(t) == key)
  }

  /** The watch a key stands for, as the reconciler sees it: none if it is gone, or cannot be parsed. */
  function Entry(index: Index, key: string): Option<WatchKey> {
    if key in index && Parse(key).Some? then
      var t := Parse(key).value;
      Some(NewWatchKey(Evm(t.chain), t.address, t.token, index[key]))
    else None
  }

  function Entries(index: Index, names: set<string>): set<WatchKey> {
    set key | key in names && Entry(index, key).Some? :: Entry(index, key).value
  }

  ghost function EntryOf(watched: Watched, t: Triple): WatchKey
    requires t in watched
  {
    WatchKey(Evm(t.chain), t.address, t.token, watched[t])
  }

  ghost function AllEntries(watched: Watched): set<WatchKey> {
    set t | t in watched :: EntryOf(watched, t)
  }

  /** The same watch, however its address and token are spelled, has the same key. */
  lemma SpellingDoesNotMatter(t: Triple)
    requires t.chain <= MAX_CHAIN && Printable(t.address, t.token)
    ensures Normal(Normalised(t)) && KeyFor(Normalised(t)) == KeyFor(t) && Parse(KeyFor(t)) == Some(Normalised(t))
  {
    LowerIsIdempotent(t.address);
    LowerKeepsColons(t.address);
    if t.token.Some? {
      LowerIsIdempotent(t.token.value);
      LowerKeepsColons(t.token.value);
    }
    RoundTripIff(t.chain, t.address, t.token);
  }

  lemma NormalKeyParses(t: Triple)
    requires Normal(t)
    ensures Parse(KeyFor(t)) == Some(t)
  {
    SpellingDoesNotMatter(t);
  }

  lemma WatchRepresents(index: Index, watched: Watched, t: Triple, invoice: string)
    requires Represents(index, watched) && t.chain <= MAX_CHAIN && Printable(t.address, t.token)
    ensures Represents(index[KeyFor(t) := invoice], watched[Normalised(t) := invoice])
  {
    SpellingDoesNotMatter(t);
    var index', watched' := index[KeyFor(t) := invoice], watched[Normalised(t) := invoice];
    forall u | u in watched' ensures Normal(u) && KeyFor(u) in index' && index'[KeyFor(u)] == watched'[u] {
      NormalKeyParses(u);
    }
    forall key | key in index' ensures exists u :: u in watched' && KeyFor(u) == key {
      if key == KeyFor(t) {
        assert Normalised(t) in watched' && KeyFor(Normalised(t)) == key;
      } else {
        var u :| u in watched && KeyFor(u) == key;
        assert u in watched' && KeyFor(u) == key;
      }
    }
  }

  lemma UnwatchRepresents(index: Index, watched: Watched, t: Triple)
    requires Represents(index, watched) && t.chain <= MAX_CHAIN && Printable(t.address, t.token)
    ensures Represents(index - {KeyFor(t)}, watched - {Normalised(t)})
  {
    SpellingDoesNotMatter(t);
    var index', watched' := index - {KeyFor(t)}, watched - {Normalised(t)};
    forall u | u in watched' ensures Normal(u) && KeyFor(u) in index' && index'[KeyFor(u)] == watched'[u] {
      NormalKeyParses(u);
    }
    forall key | key in index' ensures exists u :: u in watched' && KeyFor(u) == key {
      var u :| u in watched && KeyFor(u) == key;
      assert u in watched' && KeyFor(u) == key;
    }
  }

  /** Whatever the scan returned besides, it shows exactly the watches, if it returned every key. */
  lemma ScanShowsTheWatches(index: Index, watched: Watched, names: set<string>)
    requires Represents(index, watched) && index.Keys <= names
    ensures Entries(index, names) == AllEntries(watched)
  {
    forall w | w in Entries(index, names) ensures w in AllEntries(watched) {
      var key :| key in names && Entry(index, key) == Some(w);
      var t :| t in watched && KeyFor(t) == key;
      NormalKeyParses(t);
      assert w == EntryOf(watched, t);
    }
    forall w | w in AllEntries(watched) ensures w in Entries(index, names) {
      var t :| t in watched && w == EntryOf(watched, t);
      NormalKeyParses(t);
      assert KeyFor(t) in names && Entry(index, KeyFor(t)) == Some(w);
    }
  }

  // ---------------------------------------------------------------- every history of the index

  datatype Op = Watch(t: Triple, invoice: string) | Unwatch(t: Triple)

  ghost predicate PrintableOps(ops: seq<Op>) {
    forall i :: 0 <= i < |ops| ==> ops[i].t.chain <= MAX_CHAIN && Printable(ops[i].t.address, ops[i].t.token)
  }

  ghost function IndexAfter(ops: seq<Op>): Index {
    if ops == [] then map[]
    else
      var n := |ops| - 1;
      if ops[n].Watch? then IndexAfter(ops[..n])[KeyFor(ops[n].t) := ops[n].invoice] else IndexAfter(ops[..n]) - {KeyFor(ops[n].t)}
  }

  ghost function WatchedAfter(ops: seq<Op>): Watched {
    if ops == [] then map[]
    else
      var n := |ops| - 1;
      if ops[n].Watch? then WatchedAfter(ops[..n])[Normalised(ops[n].t) := ops[n].invoice]
      else WatchedAfter(ops[..n]) - {Normalised(ops[n].t)}
  }

  /** The last word on a watch is the one that counts, whatever the spelling. */
  lemma LastWordCounts(ops: seq<Op>, op: Op)
    requires PrintableOps(ops + [op])
    ensures var watched, index := WatchedAfter(ops + [op]), IndexAfter(ops + [op]);
      && (op.Watch? ==> Normalised(op.t) in watched && watched[Normalised(op.t)] == op.invoice && KeyFor(op.t) in index && index[KeyFor(op.t)] == op.invoice)
      && (op.Unwatch? ==> Normalised(op.t) !in watched && KeyFor(op.t) !in index)
      && (forall t :: t != Normalised(op.t) ==> (t in watched <==> t in WatchedAfter(ops)) && (t in watched ==> watched[t] == WatchedAfter(ops)[t]))
  {
    assert (ops + [op])[..|ops|] == ops;
  }

  lemma {:induction false} HistoryIsRepresented(ops: seq<Op>)
    requires PrintableOps(ops)
    ensures Represents(IndexAfter(ops), WatchedAfter(ops))
    decreases |ops|
  {
    if ops != [] {
      var n := |ops| - 1;
      HistoryIsRepresented(ops[..n]);
      if ops[n].Watch? {
        WatchRepresents(IndexAfter(ops[..n]), WatchedAfter(ops[..n]), ops[n].t, ops[n].invoice);
      } else {
        UnwatchRepresents(IndexAfter(ops[..n]), WatchedAfter(ops[..n]), ops[n].t);
      }
    }
  }

  /** After any history of watching and unwatching, the reconciler is quiet exactly
      when the database expects precisely the live watches. */
  lemma QuietIff(ops: seq<Op>, expected: seq<WatchKey>, actual: seq<WatchKey>, names: set<string>)
    requires PrintableOps(ops) && IndexAfter(ops).Keys <= names && Members(actual) == Entries(IndexAfter(ops), names)
    ensures Reconcile(expected, actual) == AGREED <==> Members(expected) == AllEntries(WatchedAfter(ops))
  {
    HistoryIsRepresented(ops);
    ScanShowsTheWatches(IndexAfter(ops), WatchedAfter(ops), names);
    AgreedIff(expected, actual);
  }

  /** Caught half-way, a reassignment is one missed watch and one stale one: the
      database already expects the new invoice, the index still holds the old. */
  lemma HalfFinishedReassignment(watched: Watched, t: Triple, invoice: string, expected: seq<WatchKey>, actual: seq<WatchKey>)
    requires t in watched && watched[t] != invoice
    requires Members(actual) == AllEntries(watched) && Members(expected) == AllEntries(watched[t := invoice])
    ensures Reconcile(expected, actual) == Reconciliation({EntryOf(watched, t)}, {EntryOf(watched[t := invoice], t)})
  {
    var next := watched[t := invoice];
    forall w ensures w in AllEntries(next) <==> w == EntryOf(next, t) || (w in AllEntries(watched) && w != EntryOf(watched, t)) {
      if w in AllEntries(next) {
        var u :| u in next && w == EntryOf(next, u);
        assert u != t ==> w == EntryOf(watched, u);
      }
      if w in AllEntries(watched) && w != EntryOf(watched, t) {
        var u :| u in watched && w == EntryOf(watched, u);
        assert w == EntryOf(next, u);
      }
      assert EntryOf(next, t) in AllEntries(next);
    }
    assert EntryOf(watched, t) in AllEntries(watched);
    NewEntryIsNew(watched, t, invoice);
  }

  lemma NewEntryIsNew(watched: Watched, t: Triple, invoice: string)
    requires t in watched && watched[t] != invoice
    ensures EntryOf(watched[t := invoice], t) !in AllEntries(watched)
  {
    var w := EntryOf(watched[t := invoice], t);
    forall u | u in watched ensures EntryOf(watched, u) != w {
      assert EntryOf(watched, u) == w ==> u == t;
    }
  }

  // ---------------------------------------------------------------- the index

  class LiveIndex {
    var keys: Index

    constructor ()
      ensures keys == map[]
    {
      keys := map[];
    }

    method WatchAddress(address: string, invoice: string, chain: Chain, token: Option<string>) returns (r: Result<()>)
      modifies this
      ensures if chain.Foreign? then r == Err(InvalidData) && keys == old(keys)
              else r == Ok(()) && keys == old(keys)[KeyFor(Triple(chain.id, address, token)) := invoice]
    {
      if chain.Foreign? {
        return Err(InvalidData);
      }
      keys := keys[Print(chain.id, address, token) := invoice];
      return Ok(());
    }

    method UnwatchAddress(address: string, chain: Chain, token: Option<string>) returns (r: Result<bool>)
      modifies this
      ensures if chain.Foreign? then r == Err(InvalidData) && keys == old(keys)
              else r == Ok(KeyFor(Triple(chain.id, address, token)) in old(keys)) && keys == old(keys) - {KeyFor(Triple(chain.id, address, token))}
    {
      if chain.Foreign? {
        return Err(InvalidData);
      }
      var key := Print(chain.id, address, token);
      var deleted := key in keys;
      keys := keys - {key};
      return Ok(deleted);
    }

    /** Batch after batch of key names, as the scan returns them: possibly repeated, possibly gone by now. */
    method GetAllWatched(batches: seq<seq<string>>) returns (result: seq<WatchKey>)
      ensures Members(result) == Entries(keys, Names(batches))
    {
      result := [];
      var i := 0;
      while i < |batches|
        invariant i <= |batches| && Members(result) == Entries(keys, Names(batches[..i]))
      {
        result := AddBatch(batches[i], result, Names(batches[..i]));
        NamesOfOneMore(batches, i);
        i := i + 1;
      }
      assert batches[..i] == batches;
    }

    method AddBatch(batch: seq<string>, before: seq<WatchKey>, ghost names: set<string>) returns (result: seq<WatchKey>)
      requires Members(before) == Entries(keys, names)
      ensures Members(result) == Entries(keys, names + NamesIn(batch))
    {
      result := before;
      for j := 0 to |batch|
        invariant Members(result) == Entries(keys, names + NamesIn(batch[..j]))
      {
        assert NamesIn(batch[..j + 1]) == NamesIn(batch[..j]) + {batch[j]};
        OneMoreName(keys, names + NamesIn(batch[..j]), batch[j]);
        var entry := Entry(keys, batch[j]);
        if entry.Some? {
          assert Members(result + [entry.value]) == Members(result) + {entry.value};
          result := result + [entry.value];
        }
        assert names + NamesIn(batch[..j]) + {batch[j]} == names + NamesIn(batch[..j + 1]);
      }
      assert batch[..|batch|] == batch;
    }
  }

  ghost function NamesIn(batch: seq<string>): set<string> {
    set n | n in batch
  }

  ghost function Names(batches: seq<seq<string>>): set<string> {
    set i, n | 0 <= i < |batches| && n in batches[i] :: n
  }

  lemma NamesOfOneMore(batches: seq<seq<string>>, i: nat)
    requires i < |batches|
    ensures Names(batches[..i + 1]) == Names(batches[..i]) + NamesIn(batches[i])
  {
    var more := batches[..i + 1];
    forall n ensures n in Names(more) <==> n in Names(batches[..i]) || n in batches[i] {
      if n in Names(more) {
        var k :| 0 <= k < |more| && n in more[k];
        assert k < i ==> batches[..i][k] == more[k];
      }
      if n in Names(batches[..i]) {
        var k :| 0 <= k < i && n in batches[..i][k];
        assert more[k] == batches[..i][k];
      }
      assert more[i] == batches[i];
    }
  }

  lemma OneMoreName(index: Index, names: set<string>, n: string)
    ensures Entries(index, names + {n}) ==
      Entries(index, names) + (if Entry(index, n).Some? then {Entry(index, n).value} else {})
  {
    assert Entry(index, n).Some? ==> n in names + {n};
  }
}
