/** Tables of records (one row per layout) and hash indices from record id to position. */
module Tables {
  import opened Common

  type Table<T> = seq<seq<T>>

  datatype Pos = Pos(row: nat, col: nat)

  predicate Has<T>(t: Table<T>, p: Pos) {
    p.row < |t| && p.col < |t[p.row]|
  }

  function Get<T>(t: Table<T>, p: Pos): T
    requires Has(t, p)
  {
    t[p.row][p.col]
  }

  function Set<T>(t: Table<T>, p: Pos, x: T): Table<T>
    requires Has(t, p)
  {
    t[p.row := t[p.row][p.col := x]]
  }

  /** Some record of the table has id `k`: a full scan, no index. */
  ghost predicate Contains<T, K>(t: Table<T>, id: T -> K, k: K) {
    exists p :: Has(t, p) && id(Get(t, p)) == k
  }

  /** No two records of the table share an id. */
  ghost predicate UniqueIds<T, K>(t: Table<T>, id: T -> K) {
    forall p, q :: Has(t, p) && Has(t, q) && id(Get(t, p)) == id(Get(t, q)) ==> p == q
  }

  /** `index` sends the id of every record to the slot holding it, and holds nothing else. */
  ghost predicate Indexes<T, K>(t: Table<T>, id: T -> K, index: map<K, Pos>) {
    && (forall p :: Has(t, p) ==> id(Get(t, p)) in index && index[id(Get(t, p))] == p)
    && (forall k :: k in index ==> Has(t, index[k]) && id(Get(t, index[k])) == k)
  }

  /** The records reachable through an index, keyed by id. */
  function Rows<T, K(==)>(t: Table<T>, index: map<K, Pos>): map<K, T> {
    map k | k in index && Has(t, index[k]) :: Get(t, index[k])
  }

  /** Remove slot `pos` by overwriting it with the last element and popping. */
  function SwapRemove<T>(s: seq<T>, pos: nat): seq<T>
    requires pos < |s|
  {
    s[pos := s[|s| - 1]][..|s| - 1]
  }

  function Rekey<K(==), V>(m: map<K, V>, from: K, to: K): map<K, V> {
    if from in m then (if to in m then m else m[to := m[from]]) - {from} else m
  }

  // ---- What an index says about its table ----

  lemma IndexKeys<T, K>(t: Table<T>, id: T -> K, index: map<K, Pos>)
    requires Indexes(t, id, index)
    ensures UniqueIds(t, id)
    ensures forall k :: k in index <==> Contains(t, id, k)
  {
    forall k ensures k in index <==> Contains(t, id, k) {
      if k in index {
        assert Has(t, index[k]);
      }
    }
  }

  /** A table has at most one index: any two agree on every key. */
  lemma IndexIsUnique<T, K>(t: Table<T>, id: T -> K, x: map<K, Pos>, y: map<K, Pos>)
    requires Indexes(t, id, x) && Indexes(t, id, y)
    ensures x == y
  {
    IndexKeys(t, id, x);
    IndexKeys(t, id, y);
    forall k | k in x ensures k in y && x[k] == y[k] {
      assert Has(t, x[k]);
    }
    assert x.Keys == y.Keys;
  }

  /** The index that a table with unique ids has. */
  ghost function IndexOf<T, K>(t: Table<T>, id: T -> K): map<K, Pos> {
    map k | k in (set i, j | 0 <= i < |t| && 0 <= j < |t[i]| :: id(t[i][j])) ::
      PosOf(t, id, k)
  }

  ghost function PosOf<T, K>(t: Table<T>, id: T -> K, k: K): Pos
  {
    if Contains(t, id, k) then (var p :| Has(t, p) && id(Get(t, p)) == k; p) else Pos(0, 0)
  }

  lemma IndexOfIndexes<T, K>(t: Table<T>, id: T -> K)
    requires UniqueIds(t, id)
    ensures Indexes(t, id, IndexOf(t, id))
  {
    var x := IndexOf(t, id);
    forall p | Has(t, p) ensures id(Get(t, p)) in x && x[id(Get(t, p))] == p {
      assert t[p.row][p.col] == Get(t, p);
    }
    forall k | k in x ensures Has(t, x[k]) && id(Get(t, x[k])) == k {
      var i, j :| 0 <= i < |t| && 0 <= j < |t[i]| && id(t[i][j]) == k;
      assert Has(t, Pos(i, j)) && id(Get(t, Pos(i, j))) == k;
    }
  }

  // ---- Append, swap-remove, rewrite ----

  lemma AppendKeepsIndex<T, K>(t: Table<T>, id: T -> K, index: map<K, Pos>, li: nat, x: T)
    requires Indexes(t, id, index) && li < |t| && id(x) !in index
    ensures Indexes(t[li := t[li] + [x]], id, index[id(x) := Pos(li, |t[li]|)])
    ensures Rows(t[li := t[li] + [x]], index[id(x) := Pos(li, |t[li]|)]) == Rows(t, index)[id(x) := x]
  {
    var t' := t[li := t[li] + [x]];
    var index' := index[id(x) := Pos(li, |t[li]|)];
    forall p | Has(t', p) ensures id(Get(t', p)) in index' && index'[id(Get(t', p))] == p {
      if Has(t, p) {
        assert Get(t', p) == Get(t, p);
      } else {
        assert p == Pos(li, |t[li]|);
      }
    }
    forall k | k in index' ensures Has(t', index'[k]) && id(Get(t', index'[k])) == k {
      if k != id(x) {
        assert Has(t, index[k]) && Get(t', index[k]) == Get(t, index[k]);
      }
    }
    var rows, rows' := Rows(t, index), Rows(t', index');
    forall k | k in index ensures Get(t', index[k]) == Get(t, index[k]) {
      assert Has(t, index[k]);
    }
    assert rows'.Keys == rows.Keys + {id(x)};
  }

  lemma NewRowKeepsIndex<T, K>(t: Table<T>, id: T -> K, index: map<K, Pos>)
    requires Indexes(t, id, index)
    ensures Indexes(t + [[]], id, index)
  {
    var t' := t + [[]];
    forall p | Has(t', p) ensures id(Get(t', p)) in index && index[id(Get(t', p))] == p {
      assert Has(t, p);
    }
    forall k | k in index ensures Has(t', index[k]) && id(Get(t', index[k])) == k {
      assert Has(t, index[k]);
    }
  }

  /** Dropping the removed id and repointing the moved one keeps the index exact. */
  lemma SwapRemoveKeepsIndex<T, K>(t: Table<T>, id: T -> K, index: map<K, Pos>, p: Pos, index': map<K, Pos>)
    requires Indexes(t, id, index) && Has(t, p)
    requires var last := Pos(p.row, |t[p.row]| - 1);
             index' == if p == last then index - {id(Get(t, p))}
                       else (index - {id(Get(t, p))})[id(Get(t, last)) := p]
    ensures Indexes(t[p.row := SwapRemove(t[p.row], p.col)], id, index')
    ensures Rows(t[p.row := SwapRemove(t[p.row], p.col)], index') == Rows(t, index) - {id(Get(t, p))}
  {
    var t' := t[p.row := SwapRemove(t[p.row], p.col)];
    var last := Pos(p.row, |t[p.row]| - 1);
    assert Has(t, last);
    forall q | Has(t', q) ensures id(Get(t', q)) in index' && index'[id(Get(t', q))] == q {
      assert Has(t, q);
      assert Get(t', q) == if q == p then Get(t, last) else Get(t, q);
    }
    forall k | k in index' ensures Has(t', index'[k]) && id(Get(t', index'[k])) == k && k in index
                                   && Get(t', index'[k]) == Get(t, index[k]) {
      if p != last && k == id(Get(t, last)) {
      } else {
        assert k in index && k != id(Get(t, p)) && index'[k] == index[k] && Has(t, index[k]);
        assert index[k] != last;
      }
    }
    assert index'.Keys == index.Keys - {id(Get(t, p))};
    assert Rows(t', index').Keys == index'.Keys;
    assert Rows(t, index).Keys == index.Keys;
  }

  /** Overwriting a record with one of a fresh id and rekeying its entry keeps the index. */
  lemma RenameKeepsIndex<T, K>(t: Table<T>, id: T -> K, index: map<K, Pos>, p: Pos, x: T)
    requires Indexes(t, id, index) && Has(t, p) && id(x) !in index
    ensures Indexes(Set(t, p, x), id, Rekey(index, id(Get(t, p)), id(x)))
    ensures Rows(Set(t, p, x), Rekey(index, id(Get(t, p)), id(x)))
         == (Rows(t, index) - {id(Get(t, p))})[id(x) := x]
  {
    var t' := Set(t, p, x);
    var old_id := id(Get(t, p));
    var index' := Rekey(index, old_id, id(x));
    forall q | Has(t', q) ensures id(Get(t', q)) in index' && index'[id(Get(t', q))] == q {
      assert Has(t, q);
    }
    forall k | k in index' ensures Has(t', index'[k]) && id(Get(t', index'[k])) == k
                                   && (k != id(x) ==> k in index && Get(t', index'[k]) == Get(t, index[k])) {
      if k != id(x) {
        assert Has(t, index[k]);
      }
    }
    assert Rows(t', index').Keys == index'.Keys;
    assert Rows(t, index).Keys == index.Keys;
    assert index'.Keys == index.Keys - {old_id} + {id(x)};
  }

  /** Rewriting records one by one without touching ids keeps the index, as does rewriting all at once. */
  lemma MapKeepsIndex<T, K>(t: Table<T>, id: T -> K, index: map<K, Pos>, f: T -> T)
    requires Indexes(t, id, index)
    requires forall p :: Has(t, p) ==> id(f(Get(t, p))) == id(Get(t, p))
    ensures Indexes(MapTable(f, t), id, index)
    ensures Rows(MapTable(f, t), index) == map k | k in Rows(t, index) :: f(Rows(t, index)[k])
  {
    var t' := MapTable(f, t);
    forall p | Has(t', p) ensures id(Get(t', p)) in index && index[id(Get(t', p))] == p {
      assert Has(t, p);
    }
    forall k | k in index ensures Has(t', index[k]) && id(Get(t', index[k])) == k {
      assert Has(t, index[k]);
    }
  }

  function MapTable<T, U>(f: T -> U, t: Table<T>): (r: Table<U>)
    ensures |r| == |t| && forall i :: 0 <= i < |t| ==> |r[i]| == |t[i]|
    ensures forall p :: Has(t, p) ==> Has(r, p) && Get(r, p) == f(Get(t, p))
  {
    seq(|t|, i requires 0 <= i < |t| => MapSeq(f, t[i]))
  }

  /** Tables of the same shape holding the same records are equal. */
  lemma SameTable<T>(t: Table<T>, u: Table<T>)
    requires |t| == |u|
    requires forall i :: 0 <= i < |t| ==> |t[i]| == |u[i]|
    requires forall p :: Has(t, p) ==> Get(t, p) == Get(u, p)
    ensures t == u
  {
    forall i | 0 <= i < |t| ensures t[i] == u[i] {
      forall j | 0 <= j < |t[i]| ensures t[i][j] == u[i][j] {
        assert Has(t, Pos(i, j)) && Get(t, Pos(i, j)) == t[i][j] && Get(u, Pos(i, j)) == u[i][j];
      }
    }
  }

  // ---- Scan order ----

  /** All records in scan order. */
  function Flatten<T>(t: Table<T>): seq<T> {
    if t == [] then [] else Flatten(t[..|t| - 1]) + t[|t| - 1]
  }

  lemma {:induction false} FlattenPrefix<T>(t: Table<T>, n: nat)
    requires n < |t|
    ensures Flatten(t[..n + 1]) == Flatten(t[..n]) + t[n]
  {
    assert t[..n + 1][..n] == t[..n];
  }

  /** The scan meets exactly the records of the table. */
  lemma {:induction false} FlattenMembers<T>(t: Table<T>, x: T)
    ensures x in Flatten(t) <==> exists p :: Has(t, p) && Get(t, p) == x
  {
    if t != [] {
      var init, last := t[..|t| - 1], t[|t| - 1];
      FlattenMembers(init, x);
      if x in Flatten(init) {
        var p :| Has(init, p) && Get(init, p) == x;
        assert Has(t, p) && Get(t, p) == x;
      }
      if x in last {
        var j :| 0 <= j < |last| && last[j] == x;
        assert Has(t, Pos(|t| - 1, j)) && Get(t, Pos(|t| - 1, j)) == x;
      }
      if p :| Has(t, p) && Get(t, p) == x {
        if p.row < |init| {
          assert Has(init, p) && Get(init, p) == x;
        } else {
          assert last[p.col] == x;
        }
      }
    }
  }

  lemma {:induction false} FlattenEmpty<T>(t: Table<T>)
    ensures Flatten(t) == [] <==> forall i :: 0 <= i < |t| ==> t[i] == []
  {
    if t != [] {
      var init := t[..|t| - 1];
      FlattenEmpty(init);
      assert forall i :: 0 <= i < |init| ==> init[i] == t[i];
    }
  }

  /** Unique ids stay pairwise distinct along the scan. */
  lemma {:induction false} FlattenDistinct<T, K>(t: Table<T>, id: T -> K)
    requires UniqueIds(t, id)
    ensures forall i, j :: 0 <= i < j < |Flatten(t)| ==> id(Flatten(t)[i]) != id(Flatten(t)[j])
  {
    if t != [] {
      var init, last := t[..|t| - 1], t[|t| - 1];
      assert forall p :: Has(init, p) ==> Has(t, p) && Get(t, p) == Get(init, p);
      FlattenDistinct(init, id);
      var flat := Flatten(init);
      forall i, j | 0 <= i < |flat| && 0 <= j < |last| ensures id(flat[i]) != id(last[j]) {
        FlattenMembers(init, flat[i]);
        var p :| Has(init, p) && Get(init, p) == flat[i];
        assert Has(t, Pos(|t| - 1, j)) && Get(t, Pos(|t| - 1, j)) == last[j];
      }
      forall i, j | 0 <= i < j < |last| ensures id(last[i]) != id(last[j]) {
        assert Has(t, Pos(|t| - 1, i)) && Has(t, Pos(|t| - 1, j));
      }
    }
  }

  // ---- Deleting by id, stated as a scan ----

  /** First slot of the row holding id `k`, or the length of the row. */
  function SlotOf<T, K(==)>(row: seq<T>, id: T -> K, k: K): (j: nat)
    ensures j <= |row|
    ensures j < |row| ==> id(row[j]) == k
    ensures forall i :: 0 <= i < j ==> id(row[i]) != k
  {
    if row == [] then 0
    else if id(row[0]) == k then 0
    else
      assert forall i :: 0 < i < |row| ==> row[i] == row[1..][i - 1];
      1 + SlotOf(row[1..], id, k)
  }

  function RemoveFromRow<T, K(==)>(row: seq<T>, id: T -> K, k: K): seq<T> {
    var j := SlotOf(row, id, k);
    if j < |row| then SwapRemove(row, j) else row
  }

  /** Every row rid of the record with id `k`. */
  function RemoveId<T, K(==)>(t: Table<T>, id: T -> K, k: K): Table<T> {
    seq(|t|, i requires 0 <= i < |t| => RemoveFromRow(t[i], id, k))
  }

  lemma RemoveIdAtIndex<T, K>(t: Table<T>, id: T -> K, index: map<K, Pos>, k: K)
    requires Indexes(t, id, index) && k in index
    ensures Has(t, index[k])
    ensures RemoveId(t, id, k) == t[index[k].row := SwapRemove(t[index[k].row], index[k].col)]
  {
    var p := index[k];
    assert Has(t, p);
    forall i | 0 <= i < |t|
      ensures RemoveFromRow(t[i], id, k) == if i == p.row then SwapRemove(t[i], p.col) else t[i]
    {
      var j := SlotOf(t[i], id, k);
      if j < |t[i]| {
        assert Has(t, Pos(i, j)) && id(Get(t, Pos(i, j))) == k;
      }
    }
  }

  // ---- Indexing a table slot by slot ----

  /** `emplace`: an existing entry stays. */
  function Emplace<K(==), V>(m: map<K, V>, k: K, v: V): map<K, V> {
    if k in m then m else m[k := v]
  }

  /** The rows before `li` and the first `n` slots of row `li`; the whole table once `li` is past the end. */
  ghost function Prefix<T>(t: Table<T>, li: nat, n: nat): Table<T>
    requires li <= |t| && (li < |t| ==> n <= |t[li]|)
  {
    if li < |t| then t[..li] + [t[li][..n]] else t
  }

  lemma PrefixOneMore<T>(t: Table<T>, li: nat, n: nat)
    requires li < |t| && n < |t[li]|
    ensures var u := Prefix(t, li, n);
            li < |u| && |u[li]| == n && Prefix(t, li, n + 1) == u[li := u[li] + [t[li][n]]]
    ensures Flatten(Prefix(t, li, n + 1)) == Flatten(Prefix(t, li, n)) + [t[li][n]]
  {
    assert t[li][..n + 1] == t[li][..n] + [t[li][n]];
    FlattenPrefixRow(t, li, n);
    FlattenPrefixRow(t, li, n + 1);
  }

  lemma FlattenPrefixRow<T>(t: Table<T>, li: nat, n: nat)
    requires li < |t| && n <= |t[li]|
    ensures Flatten(Prefix(t, li, n)) == Flatten(t[..li]) + t[li][..n]
  {
    assert Prefix(t, li, n)[..li] == t[..li];
  }

  lemma PrefixRowDone<T>(t: Table<T>, li: nat)
    requires li < |t|
    ensures Prefix(t, li, |t[li]|) == t[..li + 1]
  {
    assert t[li][..|t[li]|] == t[li];
  }

  lemma PrefixNextIndex<T, K>(t: Table<T>, id: T -> K, li: nat, index: map<K, Pos>)
    requires li < |t| && Indexes(Prefix(t, li, |t[li]|), id, index)
    ensures Indexes(Prefix(t, li + 1, 0), id, index)
  {
    PrefixRowDone(t, li);
    if li + 1 < |t| {
      NewRowKeepsIndex(t[..li + 1], id, index);
      assert t[li + 1][..0] == [];
    } else {
      assert t[..li + 1] == t;
    }
  }

  lemma PrefixNextFlatten<T>(t: Table<T>, li: nat)
    requires li < |t|
    ensures Flatten(Prefix(t, li + 1, 0)) == Flatten(Prefix(t, li, |t[li]|))
  {
    PrefixRowDone(t, li);
    if li + 1 < |t| {
      FlattenPrefixRow(t, li + 1, 0);
    } else {
      assert t[..li + 1] == t;
    }
  }

  lemma PrefixNothing<T, K>(t: Table<T>, id: T -> K)
    ensures Indexes(Prefix(t, 0, 0), id, map[])
    ensures Flatten(Prefix(t, 0, 0)) == []
  {
    if t != [] {
      FlattenPrefixRow(t, 0, 0);
    }
  }

  /** Indexing one more slot of a table with unique ids. */
  lemma IndexOneMore<T, K>(t: Table<T>, id: T -> K, index: map<K, Pos>, li: nat, n: nat)
    requires UniqueIds(t, id) && li < |t| && n < |t[li]| && Indexes(Prefix(t, li, n), id, index)
    ensures id(t[li][n]) !in index
    ensures Indexes(Prefix(t, li, n + 1), id, Emplace(index, id(t[li][n]), Pos(li, n)))
  {
    var u, x := Prefix(t, li, n), t[li][n];
    assert Has(t, Pos(li, n)) && Get(t, Pos(li, n)) == x;
    forall k | k in index ensures k != id(x) {
      var p := index[k];
      assert Has(u, p) && Has(t, p) && Get(t, p) == Get(u, p) && p != Pos(li, n);
    }
    PrefixOneMore(t, li, n);
    AppendKeepsIndex(u, id, index, li, x);
  }
}
