/** The durable resume point: a conditional overwrite per (adapter, chain). */
module ChainCursor {
  import opened Common

  datatype Cursor = Cursor(epoch: int, position: int, height: int)

  /** Overwrite when the lineage changed or the position moved forward; otherwise the write is ignored. */
  function Commit(stored: Option<Cursor>, c: Cursor): Cursor {
    if stored.None? || stored.value.epoch != c.epoch || stored.value.position < c.position then c else stored.value
  }

  ghost function CommitAll(commits: seq<Cursor>): Option<Cursor> {
    if commits == [] then None else Some(Commit(CommitAll(commits[..|commits| - 1]), commits[|commits| - 1]))
  }

  /** `i` starts the longest run of commits, up to the last, under the last commit's epoch. */
  ghost predicate LineageStart(commits: seq<Cursor>, i: nat) {
    && i < |commits|
    && (forall j :: i <= j < |commits| ==> commits[j].epoch == commits[|commits| - 1].epoch)
    && (i > 0 ==> commits[i - 1].epoch != commits[|commits| - 1].epoch)
  }

  /** Commit `j` is the first from `i` on to reach the greatest position. */
  ghost predicate FirstHighest(commits: seq<Cursor>, i: nat, j: nat) {
    && i <= j < |commits|
    && (forall k :: i <= k < |commits| ==> commits[k].position <= commits[j].position)
    && (forall k :: i <= k < j ==> commits[k].position < commits[j].position)
  }

  /** Closed form: what is stored is the first commit with the greatest position
      among the last commit's lineage, of which there is only one. */
  lemma {:induction false} StoredIs(commits: seq<Cursor>) returns (i: nat, j: nat)
    requires commits != []
    ensures LineageStart(commits, i) && FirstHighest(commits, i, j) && CommitAll(commits) == Some(commits[j])
    ensures forall start: nat :: LineageStart(commits, start) ==> start == i
    decreases |commits|
  {
    var n := |commits| - 1;
    if n == 0 {
      assert commits[..n] == [];
      i, j := 0, 0;
    } else {
      i, j := StoredIs(commits[..n]);
      if commits[n - 1].epoch != commits[n].epoch {
        i, j := n, n;
      } else if commits[j].position < commits[n].position {
        j := n;
      }
    }
  }

  ghost predicate SameLineage(commits: seq<Cursor>) {
    forall i, j :: 0 <= i < |commits| && 0 <= j < |commits| ==> commits[i].epoch == commits[j].epoch
  }

  /** Lagging writers of one lineage commute: in whatever order, and however often
      repeated, the same commits leave the same epoch and position. */
  lemma LaggingWritersCommute(a: seq<Cursor>, b: seq<Cursor>)
    requires SameLineage(a) && a != [] && forall c :: c in a <==> c in b
    ensures CommitAll(a).Some? && CommitAll(b).Some?
    ensures CommitAll(a).value.epoch == CommitAll(b).value.epoch && CommitAll(a).value.position == CommitAll(b).value.position
  {
    assert a[0] in a;
    assert b != [];
    var i, j := StoredIs(a);
    forall x, y | 0 <= x < |b| && 0 <= y < |b| ensures b[x].epoch == b[y].epoch {
      assert b[x] in a && b[y] in a;
    }
    var k, l := StoredIs(b);
    assert LineageStart(a, 0) && LineageStart(b, 0);
    assert a[j] in b && b[l] in a;
  }

  /** Within a lineage the stored position never moves back. */
  lemma NeverMovesBack(stored: Cursor, c: Cursor)
    ensures Commit(Some(stored), c).epoch == c.epoch
    ensures c.epoch == stored.epoch ==>
      Commit(Some(stored), c).position == if c.position > stored.position then c.position else stored.position
  {
  }

  datatype Key = Key(adapter: string, chain: nat)

  class CursorRepository {
    var cursors: map<Key, Cursor>

    constructor ()
      ensures cursors == map[]
    {
      cursors := map[];
    }

    /** Insert, or overwrite the conflicting row when the guard allows; say whether a row was written. */
    method CommitChainCursor(key: Key, c: Cursor) returns (written: bool)
      modifies this
      ensures cursors == old(cursors)[key := Commit(if key in old(cursors) then Some(old(cursors)[key]) else None, c)]
      ensures !written ==> cursors == old(cursors)
      ensures written ==> cursors[key] == c
    {
      if key !in cursors {
        cursors := cursors[key := c];
        return true;
      }
      written := cursors[key].epoch != c.epoch || cursors[key].position < c.position;
      if written {
        cursors := cursors[key := c];
      }
    }

    method DeleteChainCursor(key: Key)
      modifies this
      ensures cursors == old(cursors) - {key}
    {
      cursors := cursors - {key};
    }
  }
}
