/** Writing an invoice, its payment options and their watched addresses in one transaction. */
module InvoiceCreation {
  import opened Common
  import opened KeyTables
  import opened Text

  datatype Invoice = Invoice(id: string, store: Uuid, expiresAt: int)

  datatype PaymentOption = PaymentOption(id: Uuid, invoice: string, chain: ChainId, token: Option<string>, address: string)

  /** What is watched: an address, on a chain, for one token or for the native asset. */
  datatype Triple = Triple(address: string, chain: ChainId, token: Option<string>)

  /** `invoice` is the denormalised column; lookups go through `option` instead. */
  datatype WatchRow = WatchRow(invoice: string, option: Uuid, active: bool, expiresAt: int, notified: bool)

  datatype Tables = Tables(invoices: map<string, Invoice>, options: map<Uuid, PaymentOption>, watched: map<Triple, WatchRow>)

  predicate Same(k: Triple, address: string, chain: ChainId, token: Option<string>) {
    Lower(k.address) == Lower(address) && k.chain == chain && LowerOption(k.token) == LowerOption(token)
  }

  /** The rows one option's write touches. The unique index compares a token row
      byte for byte; it cannot see native rows, which are matched up to case. */
  predicate Hits(k: Triple, o: PaymentOption) {
    if o.token.Some? then k == Triple(o.address, o.chain, o.token) else Same(k, o.address, o.chain, None)
  }

  function Rewatch(row: WatchRow, option: Uuid, expiresAt: int): WatchRow {
    WatchRow(row.invoice, option, true, expiresAt, false)
  }

  ghost function UpsertWatched(watched: map<Triple, WatchRow>, invoice: Invoice, o: PaymentOption): (r: map<Triple, WatchRow>) {
    if exists k :: k in watched && Hits(k, o)
    then map k | k in watched :: if Hits(k, o) then Rewatch(watched[k], o.id, invoice.expiresAt) else watched[k]
    else watched[Triple(o.address, o.chain, o.token) := WatchRow(invoice.id, o.id, true, invoice.expiresAt, false)]
  }

  /** One turn of the loop. The primary key refuses a repeated option id and the
      foreign key an option of an invoice that does not exist. */
  ghost function WriteOption(t: Tables, invoice: Invoice, o: PaymentOption): Option<Tables> {
    if o.id in t.options || o.invoice !in t.invoices then None
    else Some(t.(options := t.options[o.id := o], watched := UpsertWatched(t.watched, invoice, o)))
  }

  ghost function WriteOptions(t: Tables, invoice: Invoice, options: seq<PaymentOption>): Option<Tables> {
    if options == [] then Some(t)
    else
      var before := WriteOptions(t, invoice, options[..|options| - 1]);
      if before.None? then None else WriteOption(before.value, invoice, options[|options| - 1])
  }

  ghost function Create(t: Tables, invoice: Invoice, options: seq<PaymentOption>): Option<Tables> {
    if invoice.id in t.invoices then None
    else WriteOptions(t.(invoices := t.invoices[invoice.id := invoice]), invoice, options)
  }

  // ---------------------------------------------------------------- the lookups that give watched rows their meaning

  /** A payment to this address is credited to `invoice`: some active row for it names an option of that invoice. */
  ghost predicate CreditedTo(t: Tables, address: string, chain: ChainId, token: Option<string>, invoice: string) {
    exists k :: CreditsVia(t, k, address, chain, token, invoice)
  }

  ghost predicate CreditsVia(t: Tables, k: Triple, address: string, chain: ChainId, token: Option<string>, invoice: string) {
    && k in t.watched && Same(k, address, chain, token) && t.watched[k].active
    && t.watched[k].option in t.options && t.options[t.watched[k].option].invoice == invoice
  }

  /** The monitor was told about this address. */
  ghost function MarkNotified(watched: map<Triple, WatchRow>, address: string, chain: ChainId, token: Option<string>)
    : (r: map<Triple, WatchRow>)
  {
    map k | k in watched :: if Same(k, address, chain, token) then watched[k].(notified := true) else watched[k]
  }

  /** The address is no longer watched. */
  ghost function Deactivate(watched: map<Triple, WatchRow>, address: string, chain: ChainId, token: Option<string>)
    : (r: map<Triple, WatchRow>)
  {
    map k | k in watched :: if Same(k, address, chain, token) then watched[k].(active := false) else watched[k]
  }

  /** Telling the monitor marks exactly the rows of that address, chain and token, up to case. */
  lemma NotifiedRows(watched: map<Triple, WatchRow>, address: string, chain: ChainId, token: Option<string>, k: Triple)
    requires k in watched
    ensures var after := MarkNotified(watched, address, chain, token);
      && after.Keys == watched.Keys
      && after[k] ==
           if Lower(k.address) == Lower(address) && k.chain == chain && LowerOption(k.token) == LowerOption(token)
           then watched[k].(notified := true) else watched[k]
  {
  }

  /** Once deactivated, an address credits nothing; what any other address, chain or token credits is as it was. */
  lemma DeactivatedCreditsNothing(t: Tables, address: string, chain: ChainId, token: Option<string>,
                                  address': string, chain': ChainId, token': Option<string>, invoice: string)
    ensures var after := t.(watched := Deactivate(t.watched, address, chain, token));
      CreditedTo(after, address', chain', token', invoice) <==>
        CreditedTo(t, address', chain', token', invoice)
        && !(Lower(address') == Lower(address) && chain' == chain && LowerOption(token') == LowerOption(token))
  {
    var after := t.(watched := Deactivate(t.watched, address, chain, token));
    var same := Lower(address') == Lower(address) && chain' == chain && LowerOption(token') == LowerOption(token);
    forall k ensures CreditsVia(after, k, address', chain', token', invoice) <==> CreditsVia(t, k, address', chain', token', invoice) && !same {
    }
    if CreditedTo(t, address', chain', token', invoice) && !same {
      var k :| CreditsVia(t, k, address', chain', token', invoice);
      assert CreditsVia(after, k, address', chain', token', invoice);
    }
  }

  /** A deactivated row keeps everything but the flag. */
  lemma DeactivatedRow(watched: map<Triple, WatchRow>, address: string, chain: ChainId, token: Option<string>, k: Triple)
    requires k in watched
    ensures k in Deactivate(watched, address, chain, token)
    ensures Deactivate(watched, address, chain, token)[k] == watched[k].(active := Deactivate(watched, address, chain, token)[k].active)
  {
  }

  // ---------------------------------------------------------------- what creation guarantees

  /** The row was written last by option number `i`. */
  ghost predicate WrittenBy(row: WatchRow, k: Triple, invoice: Invoice, options: seq<PaymentOption>, i: nat) {
    && i < |options| && Hits(k, options[i]) && (forall j :: i < j < |options| ==> !Hits(k, options[j]))
    && row.option == options[i].id && row.active && !row.notified && row.expiresAt == invoice.expiresAt
  }

  ghost predicate Touched(k: Triple, options: seq<PaymentOption>) {
    exists i :: 0 <= i < |options| && Hits(k, options[i])
  }

  /** Row by row: what the loop leaves behind, for every row whether hit or not. */
  lemma {:induction false} RowsAfterWriting(t: Tables, invoice: Invoice, options: seq<PaymentOption>, k: Triple)
    requires WriteOptions(t, invoice, options).Some?
    ensures var u := WriteOptions(t, invoice, options).value;
      && (k in t.watched ==> k in u.watched && u.watched[k].invoice == t.watched[k].invoice)
      && (k in u.watched && k !in t.watched ==> Touched(k, options) && u.watched[k].invoice == invoice.id)
      && (k in u.watched && !Touched(k, options) ==> u.watched[k] == t.watched[k])
      && (k in u.watched && Touched(k, options) ==> exists i :: WrittenBy(u.watched[k], k, invoice, options, i))
  {
    if options != [] {
      var n := |options| - 1;
      RowsAfterWriting(t, invoice, options[..n], k);
      var before := WriteOptions(t, invoice, options[..n]).value;
      var u := WriteOptions(t, invoice, options).value;
      assert Touched(k, options) <==> Touched(k, options[..n]) || Hits(k, options[n]);
      if k in u.watched && Hits(k, options[n]) {
        assert WrittenBy(u.watched[k], k, invoice, options, n);
      } else if k in u.watched && Touched(k, options[..n]) {
        var i :| WrittenBy(before.watched[k], k, invoice, options[..n], i);
        assert WrittenBy(u.watched[k], k, invoice, options, i);
      }
    }
  }

  /** Every option is stored, and no stored option is lost or changed. */
  lemma {:induction false} OptionsAreStored(t: Tables, invoice: Invoice, options: seq<PaymentOption>)
    requires WriteOptions(t, invoice, options).Some?
    ensures var u := WriteOptions(t, invoice, options).value;
      && u.invoices == t.invoices
      && (forall id :: id in t.options ==> id in u.options && u.options[id] == t.options[id])
      && (forall i :: 0 <= i < |options| ==> options[i].id in u.options && u.options[options[i].id] == options[i])
  {
    if options != [] {
      var n := |options| - 1;
      OptionsAreStored(t, invoice, options[..n]);
      var before := WriteOptions(t, invoice, options[..n]).value;
      assert forall i :: 0 <= i < n ==> options[i] == options[..n][i] && options[i].id in before.options;
    }
  }

  /** The foreign key of `watched_addresses`: every row names a stored option. */
  ghost predicate ReferencesSound(t: Tables) {
    forall k :: k in t.watched ==> t.watched[k].option in t.options
  }

  lemma CreationKeepsReferences(t: Tables, invoice: Invoice, options: seq<PaymentOption>)
    requires ReferencesSound(t) && Create(t, invoice, options).Some?
    ensures ReferencesSound(Create(t, invoice, options).value)
  {
    var t1 := t.(invoices := t.invoices[invoice.id := invoice]);
    var u := Create(t, invoice, options).value;
    OptionsAreStored(t1, invoice, options);
    forall k | k in u.watched ensures u.watched[k].option in u.options {
      RowsAfterWriting(t1, invoice, options, k);
      if Touched(k, options) {
        var j :| WrittenBy(u.watched[k], k, invoice, options, j);
      }
    }
  }

  lemma {:induction false} OptionHasARow(t: Tables, invoice: Invoice, options: seq<PaymentOption>, i: nat)
    requires WriteOptions(t, invoice, options).Some? && i < |options|
    ensures exists k :: k in WriteOptions(t, invoice, options).value.watched && Hits(k, options[i])
  {
    var n := |options| - 1;
    var before := WriteOptions(t, invoice, options[..n]).value;
    var u := WriteOptions(t, invoice, options).value;
    if i < n {
      OptionHasARow(t, invoice, options[..n], i);
      var k :| k in before.watched && Hits(k, options[i]);
      assert k in u.watched;
    } else if k :| k in before.watched && Hits(k, options[n]) {
      assert k in u.watched;
    } else {
      assert Hits(Triple(options[n].address, options[n].chain, options[n].token), options[n]);
    }
  }

  /** Atomic creation. Every option is payable: it has an active, un-notified row
      that expires with the invoice, and its address credits this invoice. Every
      row no option hits is exactly as it was. */
  lemma CreatedInvoiceIsPayable(t: Tables, invoice: Invoice, options: seq<PaymentOption>, i: nat)
    requires Create(t, invoice, options).Some? && i < |options|
    requires forall j :: 0 <= j < |options| ==> options[j].invoice == invoice.id
    ensures var u := Create(t, invoice, options).value;
      && CreditedTo(u, options[i].address, options[i].chain, options[i].token, invoice.id)
      && forall k :: k in u.watched && Hits(k, options[i]) ==>
           u.watched[k].active && !u.watched[k].notified && u.watched[k].expiresAt == invoice.expiresAt &&
           CreditsVia(u, k, options[i].address, options[i].chain, options[i].token, invoice.id)
  {
    var t1 := t.(invoices := t.invoices[invoice.id := invoice]);
    var u := Create(t, invoice, options).value;
    OptionsAreStored(t1, invoice, options);
    OptionHasARow(t1, invoice, options, i);
    forall k | k in u.watched && Hits(k, options[i])
      ensures u.watched[k].active && !u.watched[k].notified && u.watched[k].expiresAt == invoice.expiresAt
      ensures CreditsVia(u, k, options[i].address, options[i].chain, options[i].token, invoice.id)
    {
      RowsAfterWriting(t1, invoice, options, k);
      var j :| WrittenBy(u.watched[k], k, invoice, options, j);
    }
  }

  lemma CreationTouchesNothingElse(t: Tables, invoice: Invoice, options: seq<PaymentOption>, k: Triple)
    requires Create(t, invoice, options).Some? && !Touched(k, options)
    ensures var u := Create(t, invoice, options).value;
      (k in u.watched <==> k in t.watched) && (k in t.watched ==> u.watched[k] == t.watched[k])
  {
    RowsAfterWriting(t.(invoices := t.invoices[invoice.id := invoice]), invoice, options, k);
  }

  /** An option is credited to this invoice and to no other exactly when no
      active row that differs from it only by letter case, and that the write
      did not hit, belongs to another invoice. Native options hit every such row. */
  lemma CreditIsUnambiguousIff(t: Tables, invoice: Invoice, options: seq<PaymentOption>, i: nat)
    requires ReferencesSound(t) && Create(t, invoice, options).Some? && i < |options|
    requires forall j :: 0 <= j < |options| ==> options[j].invoice == invoice.id
    ensures var o := options[i];
      (forall other :: CreditedTo(Create(t, invoice, options).value, o.address, o.chain, o.token, other) ==> other == invoice.id)
      <==>
      (forall k, other :: !Touched(k, options) && CreditsVia(t, k, o.address, o.chain, o.token, other) ==> other == invoice.id)
    ensures options[i].token.None? ==> forall k :: Same(k, options[i].address, options[i].chain, None) ==> Touched(k, options)
  {
    var o := options[i];
    var t1 := t.(invoices := t.invoices[invoice.id := invoice]);
    var u := Create(t, invoice, options).value;
    OptionsAreStored(t1, invoice, options);
    forall k, other | CreditsVia(u, k, o.address, o.chain, o.token, other)
      ensures if Touched(k, options) then other == invoice.id else CreditsVia(t, k, o.address, o.chain, o.token, other)
    {
      RowsAfterWriting(t1, invoice, options, k);
      if Touched(k, options) {
        var j :| WrittenBy(u.watched[k], k, invoice, options, j);
      }
    }
    forall k, other | !Touched(k, options) && CreditsVia(t, k, o.address, o.chain, o.token, other)
      ensures CreditedTo(u, o.address, o.chain, o.token, other)
    {
      RowsAfterWriting(t1, invoice, options, k);
      assert CreditsVia(u, k, o.address, o.chain, o.token, other);
    }
  }

  /** Creation stores the invoice and its options, and nothing else there. */
  lemma CreatedRecords(t: Tables, invoice: Invoice, options: seq<PaymentOption>)
    requires Create(t, invoice, options).Some?
    ensures var u := Create(t, invoice, options).value;
      && u.invoices == t.invoices[invoice.id := invoice]
      && (forall id :: id in t.options ==> id in u.options && u.options[id] == t.options[id])
      && (forall i :: 0 <= i < |options| ==> options[i].id in u.options && u.options[options[i].id] == options[i])
      && (forall id :: id in u.options && id !in t.options ==> exists i :: 0 <= i < |options| && options[i].id == id)
  {
    var t1 := t.(invoices := t.invoices[invoice.id := invoice]);
    OptionsAreStored(t1, invoice, options);
    forall id | id in Create(t, invoice, options).value.options && id !in t.options ensures exists i :: 0 <= i < |options| && options[i].id == id {
      NoOtherOption(t1, invoice, options, id);
    }
  }

  lemma {:induction false} NoOtherOption(t: Tables, invoice: Invoice, options: seq<PaymentOption>, id: Uuid)
    requires WriteOptions(t, invoice, options).Some? && id in WriteOptions(t, invoice, options).value.options && id !in t.options
    ensures exists i :: 0 <= i < |options| && options[i].id == id
  {
    if options != [] {
      var n := |options| - 1;
      if options[n].id != id {
        NoOtherOption(t, invoice, options[..n], id);
      }
    }
  }

  /** Creation is refused exactly for an invoice id in use, an option id in use or
      repeated, or an option of an invoice there is not. */
  lemma CreateRefusedIff(t: Tables, invoice: Invoice, options: seq<PaymentOption>)
    ensures Create(t, invoice, options).None? <==>
      || invoice.id in t.invoices
      || (exists i :: 0 <= i < |options| && (options[i].id in t.options || (options[i].invoice !in t.invoices && options[i].invoice != invoice.id)))
      || (exists i, j :: 0 <= i < j < |options| && options[i].id == options[j].id)
  {
    WritesIff(t.(invoices := t.invoices[invoice.id := invoice]), invoice, options);
  }

  ghost predicate Writable(t: Tables, options: seq<PaymentOption>) {
    && (forall i :: 0 <= i < |options| ==> options[i].id !in t.options && options[i].invoice in t.invoices)
    && (forall i, j :: 0 <= i < j < |options| ==> options[i].id != options[j].id)
  }

  lemma {:induction false} WritesIff(t: Tables, invoice: Invoice, options: seq<PaymentOption>)
    ensures WriteOptions(t, invoice, options).Some? <==> Writable(t, options)
  {
    if options != [] {
      var n := |options| - 1;
      var front := options[..n];
      WritesIff(t, invoice, front);
      if WriteOptions(t, invoice, front).Some? {
        var before := WriteOptions(t, invoice, front).value;
        OptionsAreStored(t, invoice, front);
        assert forall i :: 0 <= i < n ==> front[i] == options[i] && options[i].id in before.options;
        if options[n].id in before.options && options[n].id !in t.options {
          NoOtherOption(t, invoice, front, options[n].id);
        }
      }
    }
  }

  /** The option's exact triple, with no row there yet that the option would hit. */
  ghost predicate FirstRowOf(watched: map<Triple, WatchRow>, k: Triple, o: PaymentOption) {
    k == Triple(o.address, o.chain, o.token) && forall j :: j in watched ==> !Hits(j, o)
  }

  /** A new row appears only for an option no row was there for, and is that option's exact triple. */
  lemma {:induction false} NewRowOnlyWhereNone(t: Tables, invoice: Invoice, options: seq<PaymentOption>, k: Triple)
    requires WriteOptions(t, invoice, options).Some? && k in WriteOptions(t, invoice, options).value.watched && k !in t.watched
    ensures exists i :: 0 <= i < |options| && FirstRowOf(t.watched, k, options[i])
  {
    if options != [] {
      var n := |options| - 1;
      var before := WriteOptions(t, invoice, options[..n]).value;
      if k in before.watched {
        NewRowOnlyWhereNone(t, invoice, options[..n], k);
        var i :| 0 <= i < n && FirstRowOf(t.watched, k, options[..n][i]);
        assert options[i] == options[..n][i];
      } else {
        forall j | j in t.watched ensures !Hits(j, options[n]) {
          RowsAfterWriting(t, invoice, options[..n], j);
        }
        assert FirstRowOf(t.watched, k, options[n]);
      }
    }
  }

  /** Two tokens watched at one address under two spellings: a payment there is
      credited to both invoices. */
  lemma TwoSpellingsTwoInvoices() returns (t: Tables, invoice: Invoice, o: PaymentOption)
    ensures ReferencesSound(t) && o.invoice == invoice.id && Create(t, invoice, [o]).Some?
    ensures var u := Create(t, invoice, [o]).value;
      exists other :: other != invoice.id && CreditedTo(u, o.address, o.chain, o.token, other)
        && CreditedTo(u, o.address, o.chain, o.token, invoice.id)
  {
    var chain := ChainId("eip155", "1");
    var first := PaymentOption(1, "first", chain, Some("t"), "a");
    o, invoice := PaymentOption(2, "second", chain, Some("t"), "A"), Invoice("second", 0, 9);
    var k := Triple("a", chain, Some("t"));
    t := Tables(map["first" := Invoice("first", 0, 9)], map[1 := first], map[k := WatchRow("first", 1, true, 9, false)]);
    assert Lower("A") == Lower("a") by {
      assert LowerChar('A') == 'a' && LowerChar('a') == 'a';
    }
    assert !Hits(k, o) by {
      assert "a"[0] != "A"[0];
    }
    assert "first" != "second" by {
      assert "first"[0] != "second"[0];
    }
    assert [o][..0] == [];
    var t1 := t.(invoices := t.invoices[invoice.id := invoice]);
    assert WriteOptions(t1, invoice, []) == Some(t1);
    assert Create(t, invoice, [o]) == WriteOption(t1, invoice, o);
    CreatedInvoiceIsPayable(t, invoice, [o], 0);
    var u := Create(t, invoice, [o]).value;
    assert !Touched(k, [o]);
    CreationTouchesNothingElse(t, invoice, [o], k);
    assert CreditsVia(u, k, o.address, o.chain, o.token, "first");
    assert CreditedTo(u, o.address, o.chain, o.token, "first");
  }

  /** Re-pointing a row leaves its own invoice column behind: after creation the
      column names this invoice exactly when the row is new or already did. */
  lemma InvoiceColumnAgreesIff(t: Tables, invoice: Invoice, options: seq<PaymentOption>, k: Triple)
    requires Create(t, invoice, options).Some? && k in Create(t, invoice, options).value.watched && Touched(k, options)
    ensures Create(t, invoice, options).value.watched[k].invoice == invoice.id
      <==> (k !in t.watched || t.watched[k].invoice == invoice.id)
  {
    RowsAfterWriting(t.(invoices := t.invoices[invoice.id := invoice]), invoice, options, k);
  }

  /** A row watched for one invoice, written again for another: it credits the new
      one, and its column still names the old. */
  lemma StaleInvoiceColumn() returns (t: Tables, invoice: Invoice, o: PaymentOption, k: Triple)
    ensures ReferencesSound(t) && o.invoice == invoice.id && Create(t, invoice, [o]).Some?
    ensures var u := Create(t, invoice, [o]).value;
      CreditsVia(u, k, o.address, o.chain, o.token, invoice.id) && u.watched[k].invoice != invoice.id
  {
    var chain := ChainId("eip155", "1");
    var first := PaymentOption(1, "first", chain, Some("t"), "a");
    o, invoice, k := PaymentOption(2, "second", chain, Some("t"), "a"), Invoice("second", 0, 9), Triple("a", chain, Some("t"));
    t := Tables(map["first" := Invoice("first", 0, 9)], map[1 := first], map[k := WatchRow("first", 1, true, 9, false)]);
    assert "first" != "second" by {
      assert "first"[0] != "second"[0];
    }
    assert [o][..0] == [];
    var t1 := t.(invoices := t.invoices[invoice.id := invoice]);
    assert WriteOptions(t1, invoice, []) == Some(t1);
    assert Create(t, invoice, [o]) == WriteOption(t1, invoice, o);
    assert Hits(k, o) && k in Create(t, invoice, [o]).value.watched;
    CreatedInvoiceIsPayable(t, invoice, [o], 0);
    assert Touched(k, [o]) by {
      assert Hits(k, [o][0]);
    }
    InvoiceColumnAgreesIff(t, invoice, [o], k);
  }

  // ---------------------------------------------------------------- the transaction as it runs

  /** An option takes its insert and an upsert; a native one selects for update before it updates or inserts. */
  function Statements(options: seq<PaymentOption>): nat {
    if options == [] then 0
    else Statements(options[..|options| - 1]) + if options[|options| - 1].token.None? then 3 else 2
  }

  /** Which options are native. */
  ghost function Natives(options: seq<PaymentOption>): set<nat> {
    set i: nat | i < |options| && options[i].token == None
  }

  lemma OneMoreOption(front: seq<PaymentOption>, o: PaymentOption)
    ensures |Natives(front + [o])| == |Natives(front)| + if o.token == None then 1 else 0
  {
    var n := |front|;
    assert n !in Natives(front);
    assert Natives(front + [o]) == if o.token == None then Natives(front) + {n} else Natives(front);
  }

  /** Two statements for each option and one more for each native one. */
  lemma {:induction false} StatementsAre(options: seq<PaymentOption>)
    ensures Statements(options) == 2 * |options| + |Natives(options)|
  {
    if options == [] {
      assert Natives(options) == {};
    } else {
      var n := |options| - 1;
      StatementsAre(options[..n]);
      OneMoreOption(options[..n], options[n]);
      assert options == options[..n] + [options[n]];
    }
  }

  lemma {:induction false} MoreStatements(options: seq<PaymentOption>, n: nat)
    requires n <= |options|
    ensures Statements(options[..n]) <= Statements(options)
    decreases |options| - n
  {
    if n < |options| {
      assert options[..n + 1][..n] == options[..n];
      MoreStatements(options, n + 1);
    } else {
      assert options[..n] == options;
    }
  }

  /** One turn of the loop, on the transaction's own copy of the tables. */
  method WriteOne(t: Tables, invoice: Invoice, o: PaymentOption) returns (r: Option<Tables>)
    ensures r == WriteOption(t, invoice, o)
  {
    if o.id in t.options || o.invoice !in t.invoices {
      return None;
    }
    var watched: map<Triple, WatchRow>;
    if exists k :: k in t.watched && Hits(k, o) {
      watched := map k | k in t.watched :: if Hits(k, o) then Rewatch(t.watched[k], o.id, invoice.expiresAt) else t.watched[k];
    } else {
      watched := t.watched[Triple(o.address, o.chain, o.token) := WatchRow(invoice.id, o.id, true, invoice.expiresAt, false)];
    }
    return Some(t.(options := t.options[o.id := o], watched := watched));
  }

  /** The loop. Besides the option's statements, two are needed for the invoice and the commit. */
  method WriteAll(t: Tables, invoice: Invoice, opts: seq<PaymentOption>, statements: nat) returns (r: Option<Tables>)
    requires statements >= 2
    ensures r == if statements >= Statements(opts) + 2 then WriteOptions(t, invoice, opts) else None
  {
    r := Some(t);
    for i := 0 to |opts|
      invariant r.Some? && r == WriteOptions(t, invoice, opts[..i]) && statements >= Statements(opts[..i]) + 2
    {
      assert opts[..i + 1][..i] == opts[..i];
      FailureIsFinal(t, invoice, opts, i + 1);
      MoreStatements(opts, i + 1);
      if statements < Statements(opts[..i + 1]) + 2 {
        return None;
      }
      r := WriteOne(r.value, invoice, opts[i]);
      if r.None? {
        return None;
      }
    }
    assert opts[..|opts|] == opts;
  }

  class InvoiceRepository {
    var invoices: map<string, Invoice>
    var options: map<Uuid, PaymentOption>
    var watched: map<Triple, WatchRow>

    ghost function View(): Tables
      reads this
    {
      Tables(invoices, options, watched)
    }

    /** `statements` is how many statements the connection survives, the commit included. The loop
        works on the transaction's own copy; only a commit makes it visible, so a
        refused or lost statement leaves every table as it was. */
    method CreateInvoiceWithOptions(invoice: Invoice, opts: seq<PaymentOption>, statements: nat) returns (ok: bool)
      modifies this
      ensures ok <==> Create(old(View()), invoice, opts).Some? && statements >= Statements(opts) + 2
      ensures ok ==> View() == Create(old(View()), invoice, opts).value
      ensures !ok ==> View() == old(View())
    {
      if invoice.id in invoices || statements < 2 {
        return false;
      }
      var written := WriteAll(Tables(invoices[invoice.id := invoice], options, watched), invoice, opts, statements);
      if written.None? {
        return false;
      }
      invoices, options, watched := written.value.invoices, written.value.options, written.value.watched;
      return true;
    }
  }

  /** A write that failed partway cannot succeed as a whole. */
  lemma {:induction false} FailureIsFinal(t: Tables, invoice: Invoice, options: seq<PaymentOption>, n: nat)
    requires n <= |options|
    ensures WriteOptions(t, invoice, options[..n]).None? ==> WriteOptions(t, invoice, options).None?
    decreases |options| - n
  {
    if n < |options| {
      assert options[..n + 1][..n] == options[..n];
      FailureIsFinal(t, invoice, options, n + 1);
    } else {
      assert options[..n] == options;
    }
  }
}
