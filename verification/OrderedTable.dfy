/** The bounded ordered table over a balanced tree: a finite map with an order, a cursor and a scan. */
module OrderedTable {
  import opened Wrappers
  import opened AvlTree

  // ---- the map a run of entries stands for -------------------------------------------------------------

  ghost function MapOf<V>(s: seq<(nat, V)>): map<nat, V> {
    if s == [] then map[] else MapOf(s[..|s| - 1])[s[|s| - 1].0 := s[|s| - 1].1]
  }

  lemma {:induction false} MapKeys<V>(s: seq<(nat, V)>, k: nat)
    ensures k in MapOf(s) <==> !Absent(s, k)
  {
    if s != [] {
      var n := |s| - 1;
      MapKeys(s[..n], k);
      if !Absent(s[..n], k) { var i :| 0 <= i < n && s[..n][i].0 == k; assert s[i].0 == k; }
      if !Absent(s, k) && s[n].0 != k { var i :| 0 <= i < |s| && s[i].0 == k; assert s[..n][i].0 == k; }
    }
  }

  lemma {:induction false} MapConcat<V>(a: seq<(nat, V)>, b: seq<(nat, V)>)
    ensures MapOf(a + b) == MapOf(a) + MapOf(b)
  {
    if b == [] {
      assert a + b == a;
    } else {
      var n := |b| - 1;
      MapConcat(a, b[..n]);
      assert (a + b)[..|a + b| - 1] == a + b[..n];
    }
  }

  lemma MapJoin<V>(a: seq<(nat, V)>, e: (nat, V), b: seq<(nat, V)>)
    ensures MapOf(Join(a, e, b)) == MapOf(a)[e.0 := e.1] + MapOf(b)
  {
    MapConcat(a + [e], b);
    MapConcat(a, [e]);
    MapOne(e);
  }

  lemma MapOne<V>(e: (nat, V))
    ensures MapOf([e]) == map[e.0 := e.1]
  {
    assert [e][..0] == [];
  }

  lemma MapPut<V>(s: seq<(nat, V)>, i: nat, x: (nat, V))
    requires Fits(s, i, x.0)
    ensures MapOf(PutAt(s, i, x)) == MapOf(s)[x.0 := x.1] && Absent(s, x.0)
  {
    var a, b := s[..i], s[i..];
    assert s == a + b && PutAt(s, i, x) == Join(a, x, b);
    MapConcat(a, b);
    MapJoin(a, x, b);
    MapKeys(b, x.0);
  }

  lemma MapCut<V>(s: seq<(nat, V)>, i: nat)
    requires i < |s| && Ascending(s)
    ensures MapOf(CutAt(s, i)) == MapOf(s) - {s[i].0} && s[i].0 in MapOf(s) && MapOf(s)[s[i].0] == s[i].1
  {
    hide MapOf, Join, CutAt, Ascending, AllBelow, AllAbove;
    var a, b := s[..i], s[i + 1..];
    SplitJoin(s, i);
    JoinAscending(a, s[i], b);
    NotAmong(a, s[i].0);
    NotAmong(b, s[i].0);
    MapConcat(a, b);
    MapJoin(a, s[i], b);
    MapKeys(a, s[i].0);
    MapKeys(b, s[i].0);
  }

  lemma SplitJoin<X>(s: seq<X>, i: nat)
    requires i < |s|
    ensures s == Join(s[..i], s[i], s[i + 1..]) && CutAt(s, i) == s[..i] + s[i + 1..]
  {}

  lemma NotAmong<V>(s: seq<(nat, V)>, k: nat)
    requires AllBelow(s, k) || AllAbove(s, k)
    ensures Absent(s, k)
  {}

  ghost function Lookup<V>(s: seq<(nat, V)>, k: nat): Option<V> { if k in MapOf(s) then Some(MapOf(s)[k]) else None }

  lemma LookupJoin<V>(a: seq<(nat, V)>, e: (nat, V), b: seq<(nat, V)>, k: nat)
    requires Ascending(Join(a, e, b))
    ensures Lookup(Join(a, e, b), k) == if k < e.0 then Lookup(a, k) else if k > e.0 then Lookup(b, k) else Some(e.1)
  {
    JoinAscending(a, e, b);
    MapJoin(a, e, b);
    MapKeys(a, k);
    MapKeys(b, k);
  }

  lemma PutAscending<V>(s: seq<(nat, V)>, i: nat, x: (nat, V))
    requires Fits(s, i, x.0) && Ascending(s)
    ensures Ascending(PutAt(s, i, x)) && |PutAt(s, i, x)| == |s| + 1
  {}

  lemma CutAscending<V>(s: seq<(nat, V)>, i: nat)
    requires i < |s| && Ascending(s)
    ensures Ascending(CutAt(s, i)) && |CutAt(s, i)| == |s| - 1
  {}

  // ---- the entries after a cursor ----------------------------------------------------------------------

  function After<V>(s: seq<(nat, V)>, c: nat): (r: seq<(nat, V)>) {
    if s == [] then [] else if s[0].0 <= c then After(s[1..], c) else s
  }

  lemma {:induction false} AfterSkips<V>(a: seq<(nat, V)>, e: (nat, V), b: seq<(nat, V)>, c: nat)
    requires AllBelow(a, e.0) && e.0 <= c
    ensures After(Join(a, e, b), c) == After(b, c)
  {
    if a == [] {
      assert Join(a, e, b)[1..] == b;
    } else {
      assert Join(a, e, b)[1..] == Join(a[1..], e, b);
      AfterSkips(a[1..], e, b, c);
    }
  }

  lemma {:induction false} AfterStops<V>(a: seq<(nat, V)>, e: (nat, V), b: seq<(nat, V)>, c: nat)
    requires c < e.0
    ensures After(Join(a, e, b), c) == Join(After(a, c), e, b)
  {
    if a != [] {
      assert Join(a, e, b)[1..] == Join(a[1..], e, b);
      AfterStops(a[1..], e, b, c);
    }
  }

  lemma AfterAll<V>(s: seq<(nat, V)>, c: nat)
    requires AllAbove(s, c)
    ensures After(s, c) == s
  {}

  /** What is after a cursor is every entry above it, in order. */
  lemma {:induction false} AfterMeans<V>(s: seq<(nat, V)>, c: nat)
    requires Ascending(s)
    ensures Ascending(After(s, c)) && AllAbove(After(s, c), c) && |After(s, c)| <= |s|
            && After(s, c) == s[|s| - |After(s, c)|..]
    ensures forall i :: 0 <= i < |s| - |After(s, c)| ==> s[i].0 <= c
  {
    if s != [] && s[0].0 <= c {
      AfterMeans(s[1..], c);
      assert forall i :: 1 <= i < |s| - |After(s, c)| ==> s[i] == s[1..][i - 1];
    }
  }

  // ---- scanning ----------------------------------------------------------------------------------------

  /** How many entries a scan with room for `room` keys takes: up to the first it may not see. */
  function Reach<V>(s: seq<(nat, V)>, visible: V -> bool, room: nat): nat {
    if s == [] || room == 0 || !visible(s[0].1) then 0 else 1 + Reach(s[1..], visible, room - 1)
  }

  /** It is the longest run that is visible and fits. */
  lemma {:induction false} ReachIsLongest<V>(s: seq<(nat, V)>, visible: V -> bool, room: nat)
    ensures Reach(s, visible, room) <= |s| && Reach(s, visible, room) <= room
    ensures forall i :: 0 <= i < Reach(s, visible, room) ==> visible(s[i].1)
    ensures Reach(s, visible, room) < |s| && Reach(s, visible, room) < room ==> !visible(s[Reach(s, visible, room)].1)
  {
    if s != [] && room > 0 && visible(s[0].1) {
      ReachIsLongest(s[1..], visible, room - 1);
      forall i | 0 <= i < Reach(s, visible, room) ensures visible(s[i].1) { if i > 0 { assert s[i] == s[1..][i - 1]; } }
    }
  }

  lemma {:induction false} ReachJoin<V>(a: seq<(nat, V)>, e: (nat, V), b: seq<(nat, V)>, visible: V -> bool, room: nat)
    ensures Reach(a, visible, room) <= |a| && Reach(a, visible, room) <= room
    ensures Reach(Join(a, e, b), visible, room) ==
            if Reach(a, visible, room) < |a| then Reach(a, visible, room)
            else if room == |a| || !visible(e.1) then |a|
            else |a| + 1 + Reach(b, visible, room - |a| - 1)
  {
    if a == [] {
      assert Join(a, e, b)[1..] == b;
    } else if room > 0 && visible(a[0].1) {
      assert Join(a, e, b)[1..] == Join(a[1..], e, b);
      ReachJoin(a[1..], e, b, visible, room - 1);
    }
  }

  function KeysOf<V>(s: seq<(nat, V)>): (r: seq<nat>)
    ensures |r| == |s| && forall i :: 0 <= i < |s| ==> r[i] == s[i].0
  {
    seq(|s|, i requires 0 <= i < |s| => s[i].0)
  }

  datatype Insertion = Inserted | LimitReached | NoMemory

  class OrderedTable<V> {
    var root: Tree<V>
    var len: nat
    const limit: nat

    ghost predicate Valid()
      reads this
    {
      Avl(root) && Ascending(Items(root)) && len == |Items(root)| <= limit
    }

    ghost function Contents(): map<nat, V>
      reads this
    {
      MapOf(Items(root))
    }

    constructor (most: nat)
      requires most > 0
      ensures Valid() && Contents() == map[] && limit == most
    {
      root, len, limit := Nil, 0, most;
    }

    method Get(key: nat) returns (r: Option<V>)
      requires Valid()
      ensures r == if key in Contents() then Some(Contents()[key]) else None
    {
      hide Ascending, Join, MapOf, Avl;
      var current := root;
      while current.Node?
        invariant Ascending(Items(current)) && Lookup(Items(current), key) == Lookup(Items(root), key)
        decreases current
      {
        LookupJoin(Items(current.left), (current.key, current.value), Items(current.right), key);
        JoinAscending(Items(current.left), (current.key, current.value), Items(current.right));
        if key < current.key { current := current.left; }
        else if key > current.key { current := current.right; }
        else { return Some(current.value); }
      }
      MapKeys(Items(current), key);
      return None;
    }

    /** Puts a prepared entry in; there must be room, and its key must be new. */
    method InsertPrepared(key: nat, value: V)
      requires Valid() && len < limit && key !in Contents()
      modifies this`root, this`len
      ensures Valid() && Contents() == old(Contents())[key := value] && len == old(len) + 1
    {
      hide Ascending, Fits, PutAt, MapOf, Avl, Items, Insert;
      ghost var s := Items(root);
      MapKeys(s, key);
      ghost var i := InsertItems(root, key, value);
      FitsSize(s, i, key);
      MapPut(s, i, (key, value));
      PutAscending(s, i, (key, value));
      root := Insert(root, key, value);
      len := len + 1;
    }

    /** Inserts a new key, unless the table is full or there is no memory for it. */
    method TryInsert(key: nat, value: V, memory: bool) returns (r: Insertion)
      requires Valid() && (len == limit || key !in Contents())
      modifies this`root, this`len
      ensures Valid() && r == if old(len) == limit then LimitReached else if !memory then NoMemory else Inserted
      ensures Contents() == if r == Inserted then old(Contents())[key := value] else old(Contents())
    {
      if len == limit { return LimitReached; }
      if !memory { return NoMemory; }
      InsertPrepared(key, value);
      return Inserted;
    }

    /** Whether an entry may be prepared whose key may be there already: if it is, taking it out makes the room. */
    method PrepareCandidate(key: nat) returns (ok: bool)
      requires Valid()
      ensures ok == (key in Contents() || len < limit)
    {
      var found := Get(key);
      ok := !(found.None? && len == limit);
    }

    method RemoveKey(key: nat) returns (r: Option<V>)
      requires Valid()
      modifies this`root, this`len
      ensures Valid() && Contents() == old(Contents()) - {key} && len == old(len) - (if r.Some? then 1 else 0)
      ensures r == if key in old(Contents()) then Some(old(Contents())[key]) else None
    {
      hide Ascending, CutAt, MapOf, Avl, Items, Remove;
      ghost var s := Items(root);
      ghost var i := RemoveItems(root, key);
      MapKeys(s, key);
      var (t, removed) := Remove(root, key);
      if removed.Some? {
        MapCut(s, i);
        CutAscending(s, i);
        len := len - 1;
      }
      root := t;
      r := removed;
    }

    /** The smallest entry goes out. */
    method PopFirst() returns (r: Option<(nat, V)>)
      requires Valid()
      modifies this`root, this`len
      ensures Valid() && (r.None? <==> old(Contents()) == map[])
      ensures r.None? ==> Contents() == old(Contents())
      ensures r.Some? ==>
              r.value.0 in old(Contents()) && old(Contents())[r.value.0] == r.value.1
              && Contents() == old(Contents()) - {r.value.0} && len == old(len) - 1
      ensures r.Some? ==> forall k :: k in old(Contents()) ==> r.value.0 <= k
    {
      hide MapOf, Avl, TakeMin, CutAt;
      ghost var s := Items(root);
      if root.Nil? {
        NoMap();
        return None;
      }
      TakeMinItems(root);
      var (t, min) := TakeMin(root);
      MapCut(s, 0);
      CutAscending(s, 0);
      CutFirst(s, Items(t), min);
      forall k | k in MapOf(s) ensures min.0 <= k { MapKeys(s, k); assert s[0] == min; }
      root := t;
      len := len - 1;
      r := Some(min);
    }

    lemma NoMap()
      ensures MapOf<V>([]) == map[]
    {}

    lemma CutFirst(s: seq<(nat, V)>, rest: seq<(nat, V)>, min: (nat, V))
      requires s == [min] + rest
      ensures CutAt(s, 0) == rest && s[0] == min
    {}

    /** The next entry after a cursor, or the first. */
    method NextAfter(cursor: Option<nat>) returns (r: Option<(nat, V)>)
      requires Valid()
      ensures var s := if cursor.None? then Items(root) else After(Items(root), cursor.value);
              r == if s == [] then None else Some(s[0])
    {
      hide Ascending, Join, Avl, After, AllBelow, AllAbove;
      var current := root;
      r := None;
      FirstOf(Items(root), cursor);
      while current.Node?
        invariant Ascending(Items(current))
        invariant First(Items(root), cursor) == if First(Items(current), cursor).Some? then
                  First(Items(current), cursor) else r
        decreases current
      {
        JoinAscending(Items(current.left), (current.key, current.value), Items(current.right));
        FirstJoin(Items(current.left), (current.key, current.value), Items(current.right), cursor);
        if cursor.None? || current.key > cursor.value {
          r := Some((current.key, current.value));
          current := current.left;
        } else {
          current := current.right;
        }
      }
      FirstOf(Items(current), cursor);
    }

    ghost function First(s: seq<(nat, V)>, cursor: Option<nat>): Option<(nat, V)> {
      var a := if cursor.None? then s else After(s, cursor.value);
      if a == [] then None else Some(a[0])
    }

    lemma FirstOf(s: seq<(nat, V)>, cursor: Option<nat>)
      ensures s == [] ==> First(s, cursor) == None
    {}

    lemma FirstJoin(a: seq<(nat, V)>, e: (nat, V), b: seq<(nat, V)>, cursor: Option<nat>)
      requires AllBelow(a, e.0)
      ensures First(Join(a, e, b), cursor) ==
              if cursor.None? || e.0 > cursor.value then (if First(a, cursor).Some? then First(a, cursor) else Some(e))
                  else First(b, cursor)
    {
      if cursor.Some? {
        if e.0 > cursor.value { AfterStops(a, e, b, cursor.value); } else { AfterSkips(a, e, b, cursor.value); }
      }
    }

    /** Fills `out` from a place on with the keys a scan takes, and says whether a later key is left. */
    method Scan(t: Tree<V>, visible: V -> bool, cursor: nat, out: array<nat>, start: nat) returns (end: nat, more: bool)
      requires Ascending(Items(t)) && start <= out.Length
      modifies out
      ensures var s := After(Items(t), cursor); var n := Reach(s, visible, out.Length - start);
              && n <= |s| && end == start + n <= out.Length && more == (n < |s|)
                  && out[..] == Filled(old(out[..]), start, s, n)
      decreases t
    {
      hide Ascending, Join, After, AllBelow, AllAbove, Reach, Filled;
      if t.Nil? {
        ScanNone(visible, cursor, out[..], start);
        return start, false;
      }
      ghost var a, e, b := Items(t.left), (t.key, t.value), Items(t.right);
      ghost var before := out[..];
      JoinAscending(a, e, b);
      if t.key <= cursor {
        AfterSkips(a, e, b, cursor);
        end, more := Scan(t.right, visible, cursor, out, start);
        return;
      }
      AfterStops(a, e, b, cursor);
      AboveAll(b, e.0, cursor);
      ghost var s := After(a, cursor);
      ReachJoin(s, e, b, visible, out.Length - start);
      end, more := Scan(t.left, visible, cursor, out, start);
      FilledLeft(before, start, s, e, b, end - start);
      if more { return; }
      if end == out.Length || !visible(t.value) {
        more := true;
        return;
      }
      ghost var at := end;
      out[end] := t.key;
      end := end + 1;
      assert out[..] == Filled(before, start, s, |s|)[at := t.key];
      end, more := Scan(t.right, visible, cursor, out, end);
      FilledOn(before, start, s, e, b, end - at - 1);
    }

    /** Keys of the first `n` of a run, written over a stretch of a buffer. */
    ghost function Filled(out: seq<nat>, start: nat, s: seq<(nat, V)>, n: nat): (r: seq<nat>)
      requires start + n <= |out| && n <= |s|
      ensures |r| == |out|
    {
      out[..start] + KeysOf(s[..n]) + out[start + n..]
    }

    lemma ScanNone(visible: V -> bool, cursor: nat, out: seq<nat>, start: nat)
      requires start <= |out|
      ensures After<V>([], cursor) == [] && Reach([], visible, |out| - start) == 0 && Filled(out, start, [], 0) == out
    {}

    lemma AboveAll(b: seq<(nat, V)>, k: nat, cursor: nat)
      requires AllAbove(b, k) && cursor < k
      ensures After(b, cursor) == b
    {
      AfterAll(b, cursor);
    }

    lemma FilledLeft(out: seq<nat>, start: nat, s: seq<(nat, V)>, e: (nat, V), b: seq<(nat, V)>, n: nat)
      requires start + n <= |out| && n <= |s|
      ensures n <= |Join(s, e, b)| == |s| + 1 + |b| && Filled(out, start, Join(s, e, b), n) == Filled(out, start, s, n)
    {
      assert Join(s, e, b)[..n] == s[..n];
    }

    lemma FilledOn(out: seq<nat>, start: nat, s: seq<(nat, V)>, e: (nat, V), b: seq<(nat, V)>, n: nat)
      requires start + |s| + 1 + n <= |out| && n <= |b|
      ensures |Join(s, e, b)| == |s| + 1 + |b|
      ensures Filled(Filled(out, start, s, |s|)[start + |s| := e.0], start + |s| + 1, b, n)
              == Filled(out, start, Join(s, e, b), |s| + 1 + n)
    {
      var at, m := start + |s|, |s| + 1 + n;
      assert Join(s, e, b)[..m] == s + [e] + b[..n] && s[..|s|] == s;
      assert KeysOf(s + [e] + b[..n]) == KeysOf(s) + [e.0] + KeysOf(b[..n]);
      var mid := Filled(out, start, s, |s|);
      assert mid[at := e.0][..at + 1] == out[..start] + KeysOf(s) + [e.0];
      assert mid[at := e.0][at + 1 + n..] == out[start + m..];
    }

    /** The longest visible run of keys after the cursor that fits, and whether some key is left after it. */
    method ScanVisible(visible: V -> bool, cursor: nat, out: array<nat>) returns (actual: nat, more: bool)
      requires Valid()
      modifies out
      ensures var s := After(Items(root), cursor);
              && actual == Reach(s, visible, out.Length) && actual <= |s| && actual <= out.Length
              && out[..actual] == KeysOf(s[..actual]) && out[actual..] == old(out[actual..]) && more == (actual < |s|)
    {
      ReachIsLongest(After(Items(root), cursor), visible, out.Length);
      actual, more := Scan(root, visible, cursor, out, 0);
    }
  }
}
