/** Regions of an address space and what they say about each address. */
module SpaceLedger {
  import opened Wrappers

  datatype ChangeError =
    | OutOfBounds | Conflict | Busy | NotCovered | GuardHit | OwnerDenied | PermissionDenied | BackingOutOfRange
    | ObjectAuthorization | PageLimit | RegionLimit | TransactionLimit | LeaseInvalid | LeaseTooLarge
    | PermitMismatch | Stale | EmptyRange | Unaligned

  const PAGE_SIZE: nat := 4096

  predicate Within(r: Range, x: nat) { r.start <= x < r.end }

  predicate Contains(r: Range, q: Range) { r.start <= q.start && q.end <= r.end }

  predicate Overlaps(r: Range, q: Range) { r.start < q.end && q.start < r.end }

  predicate OnPage(x: nat) { x % PAGE_SIZE == 0 }

  predicate Paged(r: Range) { r.start < r.end && OnPage(r.start) && OnPage(r.end) }

  datatype Protection = ReadOnly | ReadWrite | ReadExecute

  predicate Permits(maximum: Protection, requested: Protection) {
    requested == ReadOnly || requested == maximum
  }

  datatype Source = Anonymous(identity: nat, initialExecutable: bool) | Object(id: nat)

  datatype Kind = Guard | Mapping(source: Source, offset: nat, current: Protection, maximum: Protection)

  datatype Owner = AddressSpace | Leased(lease: nat)

  /** What a region says, apart from its key and its write permit. */
  datatype Body = Body(allocation: nat, range: Range, owner: Owner, kind: Kind)

  datatype Region = Region(key: nat, body: Body, permit: Option<nat>)

  /** What the ledger says about one address. */
  datatype Cell = Cell(allocation: nat, owner: Owner, kind: Kind)

  function Shifted(k: Kind, bytes: nat): Kind {
    if k.Guard? then Guard else k.(offset := k.offset + bytes)
  }

  function At(b: Body, x: nat): Cell
    requires Within(b.range, x)
  {
    Cell(b.allocation, b.owner, Shifted(b.kind, x - b.range.start))
  }

  function View(bs: seq<Body>, x: nat): Option<Cell> {
    if bs == [] then None
    else if Within(bs[0].range, x) then Some(At(bs[0], x))
    else View(bs[1..], x)
  }

  function Bodies(rs: seq<Region>): (bs: seq<Body>)
    ensures |bs| == |rs| && forall i :: 0 <= i < |rs| ==> bs[i] == rs[i].body
  {
    seq(|rs|, i requires 0 <= i < |rs| => rs[i].body)
  }

  ghost predicate Apart(bs: seq<Body>) {
    forall i, j :: 0 <= i < j < |bs| ==> !Overlaps(bs[i].range, bs[j].range)
  }

  ghost predicate Sorted(bs: seq<Body>) {
    && (forall i :: 0 <= i < |bs| ==> bs[i].range.start < bs[i].range.end)
    && (forall i, j :: 0 <= i < j < |bs| ==> bs[i].range.end <= bs[j].range.start)
  }

  lemma {:induction false} ViewAt(bs: seq<Body>, i: nat, x: nat)
    requires Apart(bs) && i < |bs| && Within(bs[i].range, x)
    ensures View(bs, x) == Some(At(bs[i], x))
    decreases |bs|
  {
    if i > 0 {
      assert !Overlaps(bs[0].range, bs[i].range);
      ViewAt(bs[1..], i - 1, x);
    }
  }

  lemma {:induction false} ViewNone(bs: seq<Body>, x: nat)
    requires forall i :: 0 <= i < |bs| ==> !Within(bs[i].range, x)
    ensures View(bs, x) == None
    decreases |bs|
  {
    if bs != [] { ViewNone(bs[1..], x); }
  }

  lemma {:induction false} ViewFrom(bs: seq<Body>, x: nat) returns (i: nat)
    requires View(bs, x).Some?
    ensures i < |bs| && Within(bs[i].range, x) && View(bs, x) == Some(At(bs[i], x))
    decreases |bs|
  {
    if Within(bs[0].range, x) {
      i := 0;
    } else {
      i := ViewFrom(bs[1..], x);
      i := i + 1;
    }
  }

  // ---- sorting by start -------------------------------------------------------------------

  function Insert<T>(s: seq<T>, t: T, start: T -> nat): seq<T> {
    if s == [] || start(s[|s| - 1]) <= start(t) then s + [t]
    else Insert(s[..|s| - 1], t, start) + [s[|s| - 1]]
  }

  /** Insertion sort by the start of each entry. */
  function SortBy<T>(s: seq<T>, start: T -> nat): seq<T> {
    if s == [] then [] else Insert(SortBy(s[..|s| - 1], start), s[|s| - 1], start)
  }

  ghost predicate Ascending<T(!new)>(s: seq<T>, start: T -> nat) {
    forall i, j :: 0 <= i < j < |s| ==> start(s[i]) <= start(s[j])
  }

  lemma {:induction false} InsertHolds<T(!new)>(s: seq<T>, t: T, start: T -> nat)
    ensures multiset(Insert(s, t, start)) == multiset(s) + multiset{t} && |Insert(s, t, start)| == |s| + 1
    ensures Ascending(s, start) ==> Ascending(Insert(s, t, start), start)
    decreases |s|
  {
    if s == [] || start(s[|s| - 1]) <= start(t) {
    } else {
      var r, l := s[..|s| - 1], s[|s| - 1];
      InsertHolds(r, t, start);
      assert s == r + [l];
      if Ascending(s, start) {
        var q := Insert(r, t, start);
        forall i | 0 <= i < |q| ensures start(q[i]) <= start(l) {
          assert q[i] in multiset(q);
          assert q[i] == t || q[i] in multiset(r);
        }
      }
    }
  }

  lemma {:induction false} SortHolds<T(!new)>(s: seq<T>, start: T -> nat)
    ensures multiset(SortBy(s, start)) == multiset(s) && |SortBy(s, start)| == |s| && Ascending(SortBy(s, start), start)
    decreases |s|
  {
    if s != [] {
      SortHolds(s[..|s| - 1], start);
      InsertHolds(SortBy(s[..|s| - 1], start), s[|s| - 1], start);
      assert s == s[..|s| - 1] + [s[|s| - 1]];
    }
  }

  lemma {:induction false} SortedStays<T(!new)>(s: seq<T>, start: T -> nat)
    requires Ascending(s, start)
    ensures SortBy(s, start) == s
    decreases |s|
  {
    if s != [] {
      SortedStays(s[..|s| - 1], start);
      assert s == s[..|s| - 1] + [s[|s| - 1]];
      assert |s| >= 2 ==> s[..|s| - 1][|s| - 2] == s[|s| - 2];
    }
  }

  /** An entry that starts before all others goes to the front. */
  lemma {:induction false} InsertFront<T(!new)>(s: seq<T>, t: T, start: T -> nat)
    requires forall i :: 0 <= i < |s| ==> start(t) < start(s[i])
    ensures Insert(s, t, start) == [t] + s
    decreases |s|
  {
    if s != [] {
      InsertFront(s[..|s| - 1], t, start);
      assert s == s[..|s| - 1] + [s[|s| - 1]];
    }
  }

}
