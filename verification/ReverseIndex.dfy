/** Reverse indices: from a referenced key to the list of records referencing it.
    Outbound adjacency, inbound adjacency and node-to-station lookup are three instances. */
module ReverseIndex {
  import opened Common
  import opened Tables

  /** The list stored under `n`; a missing key reads as empty. */
  function ListAt<K(==), V>(rev: map<K, seq<V>>, n: K): seq<V> {
    if n in rev then rev[n] else []
  }

  /** How often `v` is listed under `n`. */
  function Listed<K(==), V(==)>(rev: map<K, seq<V>>, n: K, v: V): nat {
    multiset(ListAt(rev, n))[v]
  }

  /** How often record `v` references `n`. */
  function Refers<K(==), V(==)>(refs: map<V, seq<K>>, v: V, n: K): nat {
    if v in refs then multiset(refs[v])[n] else 0
  }

  /** `rev` lists `v` under `n` exactly as often as `v` references `n`. */
  ghost predicate Mirrors<K(!new), V(!new)>(rev: map<K, seq<V>>, refs: map<V, seq<K>>) {
    forall v, n :: Listed(rev, n, v) == Refers(refs, v, n)
  }

  // ---- The four updates ----

  function Push<K(==), V>(rev: map<K, seq<V>>, n: K, v: V): map<K, seq<V>> {
    rev[n := ListAt(rev, n) + [v]]
  }

  function PushAll<K(==), V>(rev: map<K, seq<V>>, ns: seq<K>, v: V): map<K, seq<V>>
    decreases |ns|
  {
    if ns == [] then rev else Push(PushAll(rev, ns[..|ns| - 1], v), ns[|ns| - 1], v)
  }

  /** Remove the first occurrence of `v`, if any. */
  function EraseFirst<V(==)>(s: seq<V>, v: V): (r: seq<V>)
    ensures multiset(r) == multiset(s) - multiset{v}
    ensures v !in s ==> r == s
  {
    if s == [] then []
    else if s[0] == v then
      assert s == [s[0]] + s[1..];
      s[1..]
    else
      assert s == [s[0]] + s[1..];
      [s[0]] + EraseFirst(s[1..], v)
  }

  function Erase<K(==), V(==)>(rev: map<K, seq<V>>, n: K, v: V): map<K, seq<V>> {
    if n in rev then rev[n := EraseFirst(rev[n], v)] else rev
  }

  function EraseAll<K(==), V(==)>(rev: map<K, seq<V>>, ns: seq<K>, v: V): map<K, seq<V>>
    decreases |ns|
  {
    if ns == [] then rev else Erase(EraseAll(rev, ns[..|ns| - 1], v), ns[|ns| - 1], v)
  }

  function Subst<V(==)>(v: V, from: V, to: V): V {
    if v == from then to else v
  }

  function Replace<V(==)>(s: seq<V>, from: V, to: V): (r: seq<V>)
    ensures |r| == |s| && forall i :: 0 <= i < |s| ==> r[i] == Subst(s[i], from, to)
  {
    seq(|s|, i requires 0 <= i < |s| => Subst(s[i], from, to))
  }

  function ReplaceAt<K(==), V(==)>(rev: map<K, seq<V>>, n: K, from: V, to: V): map<K, seq<V>> {
    if n in rev then rev[n := Replace(rev[n], from, to)] else rev
  }

  function ReplaceAll<K(==), V(==)>(rev: map<K, seq<V>>, ns: seq<K>, from: V, to: V): map<K, seq<V>>
    decreases |ns|
  {
    if ns == [] then rev else ReplaceAt(ReplaceAll(rev, ns[..|ns| - 1], from, to), ns[|ns| - 1], from, to)
  }

  // ---- Effect of each update on the multiplicities ----

  lemma CountOneMore<K(!new)>(ns: seq<K>, n: K)
    requires ns != []
    ensures multiset(ns)[n] == multiset(ns[..|ns| - 1])[n] + if ns[|ns| - 1] == n then 1 else 0
  {
    assert ns == ns[..|ns| - 1] + [ns[|ns| - 1]];
  }

  lemma {:induction false} PushAllListed<K(!new), V(!new)>(rev: map<K, seq<V>>, ns: seq<K>, v: V, n: K, w: V)
    ensures Listed(PushAll(rev, ns, v), n, w)
         == Listed(rev, n, w) + if w == v then multiset(ns)[n] else 0
    ensures PushAll(rev, ns, v).Keys == rev.Keys + set m | m in ns
    decreases |ns|
  {
    if ns != [] {
      var init, m := ns[..|ns| - 1], ns[|ns| - 1];
      CountOneMore(ns, n);
      PushAllListed(rev, init, v, n, w);
    }
  }

  lemma EraseListed<K(!new), V(!new)>(rev: map<K, seq<V>>, m: K, v: V, n: K, w: V)
    requires m == n ==> Listed(rev, n, v) >= 1
    ensures Listed(Erase(rev, m, v), n, w) == Listed(rev, n, w) - if m == n && w == v then 1 else 0
    ensures Erase(rev, m, v).Keys == rev.Keys
  {
  }

  lemma {:induction false} EraseAllListed<K(!new), V(!new)>(rev: map<K, seq<V>>, ns: seq<K>, v: V, n: K, w: V)
    requires Listed(rev, n, v) >= multiset(ns)[n]
    ensures Listed(EraseAll(rev, ns, v), n, w)
         == Listed(rev, n, w) - if w == v then multiset(ns)[n] else 0
    ensures EraseAll(rev, ns, v).Keys == rev.Keys
    decreases |ns|
  {
    if ns != [] {
      var init, m := ns[..|ns| - 1], ns[|ns| - 1];
      CountOneMore(ns, n);
      EraseAllListed(rev, init, v, n, w);
      EraseAllListed(rev, init, v, n, v);
      EraseListed(EraseAll(rev, init, v), m, v, n, w);
    }
  }

  lemma {:induction false} ReplaceListed<V(!new)>(s: seq<V>, from: V, to: V, w: V)
    requires from != to && to !in s
    ensures multiset(Replace(s, from, to))[w]
         == if w == from then 0 else if w == to then multiset(s)[from] else multiset(s)[w]
  {
    if s == [] {
    } else {
      assert s == [s[0]] + s[1..];
      assert Replace(s, from, to) == [Subst(s[0], from, to)] + Replace(s[1..], from, to);
      ReplaceListed(s[1..], from, to, w);
    }
  }

  lemma ReplaceIdle<V>(s: seq<V>, from: V, to: V)
    requires from !in s
    ensures Replace(s, from, to) == s
  {
  }

  lemma {:induction false} ReplaceAllAt<K(!new), V(!new)>(rev: map<K, seq<V>>, ns: seq<K>, from: V, to: V, n: K)
    requires from != to
    ensures ListAt(ReplaceAll(rev, ns, from, to), n)
         == if n in ns then Replace(ListAt(rev, n), from, to) else ListAt(rev, n)
    ensures ReplaceAll(rev, ns, from, to).Keys == rev.Keys
    decreases |ns|
  {
    if ns != [] {
      var init, m := ns[..|ns| - 1], ns[|ns| - 1];
      assert ns == init + [m];
      ReplaceAllAt(rev, init, from, to, n);
      if n == m && n in init {
        ReplaceIdle(Replace(ListAt(rev, n), from, to), from, to);
      }
    }
  }

  // ---- Each update keeps the mirror ----

  lemma InsertKeepsMirror<K(!new), V(!new)>(rev: map<K, seq<V>>, refs: map<V, seq<K>>, v: V, ns: seq<K>)
    requires Mirrors(rev, refs) && v !in refs
    ensures Mirrors(PushAll(rev, ns, v), refs[v := ns])
    ensures PushAll(rev, ns, v).Keys == rev.Keys + set m | m in ns
  {
    forall w, n ensures Listed(PushAll(rev, ns, v), n, w) == Refers(refs[v := ns], w, n) {
      PushAllListed(rev, ns, v, n, w);
      assert Listed(rev, n, w) == Refers(refs, w, n);
    }
    if ns != [] {
      PushAllListed(rev, ns, v, ns[0], v);
    }
  }

  lemma RemoveKeepsMirror<K(!new), V(!new)>(rev: map<K, seq<V>>, refs: map<V, seq<K>>, v: V)
    requires Mirrors(rev, refs) && v in refs
    ensures Mirrors(EraseAll(rev, refs[v], v), refs - {v})
    ensures EraseAll(rev, refs[v], v).Keys == rev.Keys
  {
    forall w, n ensures Listed(EraseAll(rev, refs[v], v), n, w) == Refers(refs - {v}, w, n) {
      assert Listed(rev, n, w) == Refers(refs, w, n);
      assert Listed(rev, n, v) == Refers(refs, v, n);
      EraseAllListed(rev, refs[v], v, n, w);
    }
    if refs[v] != [] {
      var n := refs[v][0];
      assert Listed(rev, n, v) == Refers(refs, v, n);
      EraseAllListed(rev, refs[v], v, n, v);
    }
  }

  /** Renaming a record, visiting only the lists it references. */
  lemma RenameRecordKeepsMirror<K(!new), V(!new)>(rev: map<K, seq<V>>, refs: map<V, seq<K>>, from: V, to: V)
    requires Mirrors(rev, refs) && from in refs && to !in refs
    ensures Mirrors(ReplaceAll(rev, refs[from], from, to), (refs - {from})[to := refs[from]])
    ensures ReplaceAll(rev, refs[from], from, to).Keys == rev.Keys
  {
    var rev' := ReplaceAll(rev, refs[from], from, to);
    var refs' := (refs - {from})[to := refs[from]];
    forall w, n ensures Listed(rev', n, w) == Refers(refs', w, n) {
      ReplaceAllAt(rev, refs[from], from, to, n);
      assert Listed(rev, n, from) == Refers(refs, from, n);
      assert Listed(rev, n, to) == Refers(refs, to, n);
      assert Listed(rev, n, w) == Refers(refs, w, n);
      assert to !in ListAt(rev, n);
      if n in refs[from] {
        ReplaceListed(ListAt(rev, n), from, to, w);
      }
    }
    if refs[from] != [] {
      ReplaceAllAt(rev, refs[from], from, to, refs[from][0]);
    }
  }

  /** References with every `from` replaced by `to`. */
  ghost function SubstRefs<K, V>(refs: map<V, seq<K>>, from: K, to: K): map<V, seq<K>> {
    map v | v in refs :: Replace(refs[v], from, to)
  }

  /** Renaming a referenced key by rekeying its one list. */
  lemma RenameKeyKeepsMirror<K(!new), V(!new)>(rev: map<K, seq<V>>, refs: map<V, seq<K>>, from: K, to: K)
    requires Mirrors(rev, refs) && from != to && to !in rev
    ensures Mirrors(Rekey(rev, from, to), SubstRefs(refs, from, to))
  {
    var rev' := Rekey(rev, from, to);
    var refs' := SubstRefs(refs, from, to);
    forall w, n ensures Listed(rev', n, w) == Refers(refs', w, n) {
      assert Listed(rev, n, w) == Refers(refs, w, n);
      assert Listed(rev, to, w) == Refers(refs, w, to);
      assert Listed(rev, from, w) == Refers(refs, w, from);
      if w in refs {
        ReplaceListed(refs[w], from, to, n);
      }
    }
  }

  // ---- Scan form: what a rebuild from the document computes ----

  datatype Entry<V, K> = Entry(record: V, targets: seq<K>)

  /** `v` repeated once per occurrence of `n` in `ns`. */
  function Repeats<K(==), V>(ns: seq<K>, n: K, v: V): seq<V> {
    if ns == [] then []
    else Repeats(ns[..|ns| - 1], n, v) + if ns[|ns| - 1] == n then [v] else []
  }

  /** The records referencing `n`, in scan order, once per reference. */
  function Scan<K(==), V>(entries: seq<Entry<V, K>>, n: K): seq<V> {
    if entries == [] then []
    else
      var e := entries[|entries| - 1];
      Scan(entries[..|entries| - 1], n) + Repeats(e.targets, n, e.record)
  }

  /** `refs` holds exactly the entries, keyed by record. */
  ghost predicate Keyed<K, V>(entries: seq<Entry<V, K>>, refs: map<V, seq<K>>) {
    && (forall i, j :: 0 <= i < j < |entries| ==> entries[i].record != entries[j].record)
    && (forall i :: 0 <= i < |entries| ==> entries[i].record in refs && refs[entries[i].record] == entries[i].targets)
    && (forall v :: v in refs ==> exists i :: 0 <= i < |entries| && entries[i].record == v)
  }

  lemma {:induction false} RepeatsCount<K(!new), V(!new)>(ns: seq<K>, n: K, v: V, w: V)
    ensures multiset(Repeats(ns, n, v))[w] == if w == v then multiset(ns)[n] else 0
    ensures |Repeats(ns, n, v)| == multiset(ns)[n]
  {
    if ns != [] {
      assert ns == ns[..|ns| - 1] + [ns[|ns| - 1]];
      RepeatsCount(ns[..|ns| - 1], n, v, w);
    }
  }

  lemma {:induction false} PushAllAppends<K(!new), V(!new)>(rev: map<K, seq<V>>, ns: seq<K>, v: V, n: K)
    ensures ListAt(PushAll(rev, ns, v), n) == ListAt(rev, n) + Repeats(ns, n, v)
    decreases |ns|
  {
    if ns != [] {
      PushAllAppends(rev, ns[..|ns| - 1], v, n);
    }
  }

  lemma {:induction false} ScanCount<K(!new), V(!new)>(entries: seq<Entry<V, K>>, refs: map<V, seq<K>>, n: K, v: V)
    requires Keyed(entries, refs)
    ensures multiset(Scan(entries, n))[v] == Refers(refs, v, n)
    decreases |entries|
  {
    if entries != [] {
      var init, e := entries[..|entries| - 1], entries[|entries| - 1];
      forall w | w in refs - {e.record} ensures exists i :: 0 <= i < |init| && init[i].record == w {
        var i :| 0 <= i < |entries| && entries[i].record == w;
        assert init[i].record == w;
      }
      ScanCount(init, refs - {e.record}, n, v);
      RepeatsCount(e.targets, n, e.record, v);
    }
  }

  lemma SameLength<V(!new)>(a: seq<V>, b: seq<V>)
    requires forall v :: multiset(a)[v] == multiset(b)[v]
    ensures multiset(a) == multiset(b) && |a| == |b|
  {
    assert multiset(a) == multiset(b);
    assert |multiset(a)| == |a| && |multiset(b)| == |b|;
  }

  /** Any reverse index mirroring the references lists, key by key, what the scan lists. */
  lemma MirrorMatchesScan<K(!new), V(!new)>(rev: map<K, seq<V>>, entries: seq<Entry<V, K>>, refs: map<V, seq<K>>, n: K)
    requires Mirrors(rev, refs) && Keyed(entries, refs)
    ensures multiset(ListAt(rev, n)) == multiset(Scan(entries, n))
    ensures |ListAt(rev, n)| == |Scan(entries, n)|
  {
    var a, b := ListAt(rev, n), Scan(entries, n);
    forall v ensures multiset(a)[v] == multiset(b)[v] {
      ScanCount(entries, refs, n, v);
      assert Listed(rev, n, v) == Refers(refs, v, n);
    }
    SameLength(a, b);
  }

  lemma ScanMirrors<K(!new), V(!new)>(rev: map<K, seq<V>>, entries: seq<Entry<V, K>>, refs: map<V, seq<K>>)
    requires Keyed(entries, refs)
    requires forall n :: ListAt(rev, n) == Scan(entries, n)
    ensures Mirrors(rev, refs)
  {
    forall v, n ensures Listed(rev, n, v) == Refers(refs, v, n) {
      ScanCount(entries, refs, n, v);
    }
  }

  // ---- Conservation ----

  ghost function SumLengths<K, V>(rev: map<K, seq<V>>, keys: seq<K>): nat {
    if keys == [] then 0 else |ListAt(rev, keys[0])| + SumLengths(rev, keys[1..])
  }

  ghost function SumScans<K, V>(entries: seq<Entry<V, K>>, keys: seq<K>): nat {
    if keys == [] then 0 else |Scan(entries, keys[0])| + SumScans(entries, keys[1..])
  }

  ghost function TotalTargets<K, V>(entries: seq<Entry<V, K>>): nat {
    if entries == [] then 0
    else TotalTargets(entries[..|entries| - 1]) + |entries[|entries| - 1].targets|
  }

  ghost function SumHits<K>(targets: seq<K>, keys: seq<K>): nat {
    if keys == [] then 0 else multiset(targets)[keys[0]] + SumHits(targets, keys[1..])
  }

  lemma {:induction false} SumHitsStep<K(!new)>(targets: seq<K>, t: K, keys: seq<K>)
    requires Distinct(keys)
    ensures SumHits(targets + [t], keys) == SumHits(targets, keys) + if t in keys then 1 else 0
  {
    if keys != [] {
      SumHitsStep(targets, t, keys[1..]);
    }
  }

  lemma {:induction false} SumHitsNone<K(!new)>(keys: seq<K>)
    ensures SumHits([], keys) == 0
  {
    if keys != [] {
      SumHitsNone(keys[1..]);
    }
  }

  /** Distinct keys that cover every target hit each target once. */
  lemma {:induction false} SumHitsTotal<K(!new)>(targets: seq<K>, keys: seq<K>)
    requires Distinct(keys) && forall t :: t in targets ==> t in keys
    ensures SumHits(targets, keys) == |targets|
  {
    if targets == [] {
      SumHitsNone(keys);
    } else {
      var init, t := targets[..|targets| - 1], targets[|targets| - 1];
      assert targets == init + [t];
      SumHitsTotal(init, keys);
      SumHitsStep(init, t, keys);
    }
  }

  lemma {:induction false} SumScansStep<K(!new), V(!new)>(entries: seq<Entry<V, K>>, e: Entry<V, K>, keys: seq<K>)
    ensures SumScans(entries + [e], keys) == SumScans(entries, keys) + SumHits(e.targets, keys)
  {
    if keys != [] {
      assert (entries + [e])[..|entries|] == entries;
      RepeatsCount(e.targets, keys[0], e.record, e.record);
      SumScansStep(entries, e, keys[1..]);
    }
  }

  lemma {:induction false} SumScansNone<K(!new), V(!new)>(keys: seq<K>)
    ensures SumScans<K, V>([], keys) == 0
  {
    if keys != [] {
      SumScansNone<K, V>(keys[1..]);
    }
  }

  lemma {:induction false} SumScansTotal<K(!new), V(!new)>(entries: seq<Entry<V, K>>, keys: seq<K>)
    requires Distinct(keys)
    requires forall i, t :: 0 <= i < |entries| && t in entries[i].targets ==> t in keys
    ensures SumScans(entries, keys) == TotalTargets(entries)
    decreases |entries|
  {
    if entries == [] {
      SumScansNone<K, V>(keys);
    } else {
      var init, e := entries[..|entries| - 1], entries[|entries| - 1];
      assert entries == init + [e];
      assert forall t :: t in e.targets ==> t in entries[|entries| - 1].targets;
      SumScansTotal(init, keys);
      SumScansStep(init, e, keys);
      SumHitsTotal(e.targets, keys);
    }
  }

  /** Summed over all keys, the list lengths count every reference exactly once. */
  lemma {:induction false} SumLengthsTotal<K(!new), V(!new)>(
      rev: map<K, seq<V>>, entries: seq<Entry<V, K>>, refs: map<V, seq<K>>, keys: seq<K>)
    requires Mirrors(rev, refs) && Keyed(entries, refs)
    ensures SumLengths(rev, keys) == SumScans(entries, keys)
    decreases |keys|
  {
    if keys != [] {
      MirrorMatchesScan(rev, entries, refs, keys[0]);
      SumLengthsTotal(rev, entries, refs, keys[1..]);
    }
  }

  // ---- Undo ----

  function Copies<V>(v: V, c: nat): seq<V> {
    seq(c, _ => v)
  }

  lemma {:induction false} RepeatsAreCopies<K(!new), V(!new)>(ns: seq<K>, n: K, v: V)
    ensures Repeats(ns, n, v) == Copies(v, multiset(ns)[n])
  {
    if ns != [] {
      assert ns == ns[..|ns| - 1] + [ns[|ns| - 1]];
      RepeatsAreCopies(ns[..|ns| - 1], n, v);
    }
  }

  lemma {:induction false} EraseFirstCopy<V(!new)>(rest: seq<V>, v: V, c: nat)
    requires v !in rest && c > 0
    ensures EraseFirst(rest + Copies(v, c), v) == rest + Copies(v, c - 1)
  {
    var s := rest + Copies(v, c);
    if rest != [] {
      assert s[1..] == rest[1..] + Copies(v, c);
      EraseFirstCopy(rest[1..], v, c);
    }
  }

  lemma EraseAt<K, V>(rev: map<K, seq<V>>, m: K, v: V, n: K)
    ensures ListAt(Erase(rev, m, v), n) == if m == n then EraseFirst(ListAt(rev, n), v) else ListAt(rev, n)
  {
  }

  lemma {:induction false} EraseAllTakesCopies<K(!new), V(!new)>(
      rev: map<K, seq<V>>, ns: seq<K>, v: V, n: K, rest: seq<V>, c: nat)
    requires v !in rest && multiset(ns)[n] <= c && ListAt(rev, n) == rest + Copies(v, c)
    ensures ListAt(EraseAll(rev, ns, v), n) == rest + Copies(v, c - multiset(ns)[n])
    decreases |ns|
  {
    if ns != [] {
      var init, m := ns[..|ns| - 1], ns[|ns| - 1];
      assert ns == init + [m];
      var k := multiset(init)[n];
      assert multiset(ns)[n] == k + if m == n then 1 else 0;
      EraseAllTakesCopies(rev, init, v, n, rest, c);
      EraseAt(EraseAll(rev, init, v), m, v, n);
      if m == n {
        EraseFirstCopy(rest, v, c - k);
      }
    }
  }

  /** Erasing what was just pushed restores every list; keys it created stay behind, empty. */
  lemma EraseAllUndoesPushAll<K(!new), V(!new)>(rev: map<K, seq<V>>, ns: seq<K>, v: V, n: K)
    requires v !in ListAt(rev, n)
    ensures ListAt(EraseAll(PushAll(rev, ns, v), ns, v), n) == ListAt(rev, n)
  {
    PushAllAppends(rev, ns, v, n);
    RepeatsAreCopies(ns, n, v);
    EraseAllTakesCopies(PushAll(rev, ns, v), ns, v, n, ListAt(rev, n), multiset(ns)[n]);
  }
}
