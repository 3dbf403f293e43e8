/** The visitors: document order, and order by id through an ordered map. */
module Visitors {
  import opened Tables
  import opened Lif
  import opened LayoutGraph

  /** Lexicographic order of ids. */
  predicate Less(a: string, b: string) {
    b != [] && (a == [] || a[0] < b[0] || (a[0] == b[0] && Less(a[1..], b[1..])))
  }

  /** At the first place where the ids differ the smaller has the smaller character, or has ended. */
  ghost predicate SmallerAt(a: string, b: string, n: nat) {
    n <= |a| && n < |b| && a[..n] == b[..n] && (n == |a| || a[n] < b[n])
  }

  lemma {:induction false} LessIsLexicographic(a: string, b: string)
    ensures Less(a, b) <==> exists n: nat :: SmallerAt(a, b, n)
  {
    if a != [] && b != [] && a[0] == b[0] {
      LessIsLexicographic(a[1..], b[1..]);
      forall n: nat | SmallerAt(a[1..], b[1..], n) ensures SmallerAt(a, b, n + 1) {
        assert a[..n + 1] == [a[0]] + a[1..][..n] && b[..n + 1] == [b[0]] + b[1..][..n];
      }
      forall n: nat | SmallerAt(a, b, n) ensures n > 0 && SmallerAt(a[1..], b[1..], n - 1) {
        assert a[1..][..n - 1] == a[..n][1..] && b[1..][..n - 1] == b[..n][1..];
      }
    } else if b != [] && (a == [] || a[0] < b[0]) {
      assert SmallerAt(a, b, 0);
    } else {
      forall n: nat | SmallerAt(a, b, n) ensures n == 0 {
        PrefixStarts(a, b, n);
      }
    }
  }

  lemma PrefixStarts(a: string, b: string, n: nat)
    requires n <= |a| && n <= |b| && a[..n] == b[..n]
    ensures n > 0 ==> a[0] == b[0]
  {
    if n > 0 {
      assert a[..n][0] == b[..n][0];
    }
  }

  lemma {:induction false} LessTransitive(a: string, b: string, c: string)
    requires Less(a, b) && Less(b, c)
    ensures Less(a, c)
  {
    if a != [] && a[0] == b[0] && b[0] == c[0] {
      LessTransitive(a[1..], b[1..], c[1..]);
    }
  }

  lemma {:induction false} LessTotal(a: string, b: string)
    ensures !(Less(a, b) && Less(b, a)) && !(a == b && Less(a, b))
    ensures Less(a, b) || Less(b, a) || a == b
  {
    if a != [] && b != [] && a[0] == b[0] {
      LessTotal(a[1..], b[1..]);
      assert a == [a[0]] + a[1..] && b == [b[0]] + b[1..];
    }
  }

  ghost predicate Increasing<T>(s: seq<T>, id: T -> string) {
    forall i, j :: 0 <= i < j < |s| ==> Less(id(s[i]), id(s[j]))
  }

  /** Some element has that id. */
  ghost predicate HasKey<T>(s: seq<T>, id: T -> string, key: string) {
    exists i :: 0 <= i < |s| && id(s[i]) == key
  }

  /** `emplace` into an ordered map kept as its in-order sequence: an existing key stays. */
  method EmplaceOrdered<T>(s: seq<T>, x: T, id: T -> string) returns (r: seq<T>)
    requires Increasing(s, id)
    ensures Increasing(r, id)
    ensures HasKey(s, id, id(x)) ==> r == s
    ensures !HasKey(s, id, id(x)) ==> multiset(r) == multiset(s) + multiset{x}
  {
    var i := 0;
    while i < |s| && Less(id(s[i]), id(x))
      invariant 0 <= i <= |s|
      invariant forall j :: 0 <= j < i ==> Less(id(s[j]), id(x))
    {
      i := i + 1;
    }
    if i < |s| && id(s[i]) == id(x) {
      return s;
    }
    RestIsLarger(s, x, id, i);
    InsertedIsIncreasing(s, x, id, i);
    KeyIsNew(s, x, id, i);
    r := s[..i] + [x] + s[i..];
    assert s == s[..i] + s[i..];
  }

  lemma RestIsLarger<T>(s: seq<T>, x: T, id: T -> string, i: nat)
    requires Increasing(s, id) && i <= |s|
    requires i < |s| ==> !Less(id(s[i]), id(x)) && id(s[i]) != id(x)
    ensures forall j :: i <= j < |s| ==> Less(id(x), id(s[j]))
  {
    forall j | i <= j < |s| ensures Less(id(x), id(s[j])) {
      LessTotal(id(s[i]), id(x));
      if i < j {
        LessTransitive(id(x), id(s[i]), id(s[j]));
      }
    }
  }

  lemma KeyIsNew<T>(s: seq<T>, x: T, id: T -> string, i: nat)
    requires i <= |s| && (forall j :: 0 <= j < i ==> Less(id(s[j]), id(x))) && (forall j :: i <= j < |s| ==> Less(id(x), id(s[j])))
    ensures !HasKey(s, id, id(x))
  {
    forall j | 0 <= j < |s| ensures id(s[j]) != id(x) {
      LessTotal(id(s[j]), id(x));
    }
  }

  lemma InsertedIsIncreasing<T>(s: seq<T>, x: T, id: T -> string, i: nat)
    requires Increasing(s, id) && i <= |s|
    requires (forall j :: 0 <= j < i ==> Less(id(s[j]), id(x))) && (forall j :: i <= j < |s| ==> Less(id(x), id(s[j])))
    ensures Increasing(s[..i] + [x] + s[i..], id)
  {
    var r := s[..i] + [x] + s[i..];
    forall j, k | 0 <= j < k < |r| ensures Less(id(r[j]), id(r[k])) {
      if j < i && k == i {
      } else if j == i {
        assert r[k] == s[k - 1];
      } else {
        assert r[j] == s[if j < i then j else j - 1] && r[k] == s[if k < i then k else k - 1];
      }
    }
  }

  /** Every record of the table once, in strictly increasing id order. */
  method VisitOrdered<T>(t: Table<T>, id: T -> string) returns (visited: seq<T>)
    requires UniqueIds(t, id)
    ensures Increasing(visited, id)
    ensures multiset(visited) == multiset(Flatten(t))
  {
    visited := [];
    FlattenDistinct(t, id);
    for li := 0 to |t|
      invariant Increasing(visited, id)
      invariant multiset(visited) == multiset(Flatten(t[..li]))
    {
      FlattenPrefix(t, li);
      ghost var done := Flatten(t[..li]);
      assert done + t[li][..0] == done;
      for i := 0 to |t[li]|
        invariant Increasing(visited, id)
        invariant multiset(visited) == multiset(done + t[li][..i])
      {
        NotVisited(t, id, li, i, visited);
        assert done + t[li][..i + 1] == done + t[li][..i] + [t[li][i]];
        visited := EmplaceOrdered(visited, t[li][i], id);
      }
      assert t[li][..|t[li]|] == t[li];
    }
    assert t[..|t|] == t;
  }

  lemma NotVisited<T>(t: Table<T>, id: T -> string, li: nat, i: nat, visited: seq<T>)
    requires UniqueIds(t, id) && li < |t| && i < |t[li]|
    requires multiset(visited) == multiset(Flatten(t[..li]) + t[li][..i])
    ensures forall k :: 0 <= k < |visited| ==> id(visited[k]) != id(t[li][i])
  {
    var x := t[li][i];
    assert Has(t, Pos(li, i)) && Get(t, Pos(li, i)) == x;
    forall k | 0 <= k < |visited| ensures id(visited[k]) != id(x) {
      var v := visited[k];
      assert v in multiset(visited);
      if v in Flatten(t[..li]) {
        FlattenMembers(t[..li], v);
        var p :| Has(t[..li], p) && Get(t[..li], p) == v;
        assert Has(t, p) && Get(t, p) == v;
      } else {
        var j :| 0 <= j < i && t[li][..i][j] == v;
        assert Has(t, Pos(li, j)) && Get(t, Pos(li, j)) == v;
      }
    }
  }

  /** The records in document order. */
  method Visit<T>(t: Table<T>) returns (visited: seq<T>)
    ensures visited == Flatten(t)
  {
    visited := [];
    for li := 0 to |t|
      invariant visited == Flatten(t[..li])
    {
      FlattenPrefix(t, li);
      ghost var done := visited;
      for i := 0 to |t[li]|
        invariant visited == done + t[li][..i]
      {
        visited := visited + [t[li][i]];
      }
      assert t[li][..|t[li]|] == t[li];
    }
    assert t[..|t|] == t;
  }

  method ForEachNode(g: Graph) returns (visited: seq<Node>)
    ensures visited == Flatten(NodeTable(g.lif))
  {
    visited := Visit(NodeTable(g.lif));
  }

  method ForEachEdge(g: Graph) returns (visited: seq<Edge>)
    ensures visited == Flatten(EdgeTable(g.lif))
  {
    visited := Visit(EdgeTable(g.lif));
  }

  method ForEachStation(g: Graph) returns (visited: seq<Station>)
    ensures visited == Flatten(StationTable(g.lif))
  {
    visited := Visit(StationTable(g.lif));
  }

  method ForEachNodeOrdered(g: Graph) returns (visited: seq<Node>)
    requires g.Valid()
    ensures Increasing(visited, NodeId) && multiset(visited) == multiset(Flatten(NodeTable(g.lif)))
  {
    g.IdsAreUnique();
    visited := VisitOrdered(NodeTable(g.lif), NodeId);
  }

  method ForEachEdgeOrdered(g: Graph) returns (visited: seq<Edge>)
    requires g.Valid()
    ensures Increasing(visited, EdgeId) && multiset(visited) == multiset(Flatten(EdgeTable(g.lif)))
  {
    g.IdsAreUnique();
    visited := VisitOrdered(EdgeTable(g.lif), EdgeId);
  }

  method ForEachStationOrdered(g: Graph) returns (visited: seq<Station>)
    requires g.Valid()
    ensures Increasing(visited, StationId) && multiset(visited) == multiset(Flatten(StationTable(g.lif)))
  {
    g.IdsAreUnique();
    visited := VisitOrdered(StationTable(g.lif), StationId);
  }
}
