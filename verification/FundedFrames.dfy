/**
  Page credit held together with the physical extents it pays for: funding, splitting and merging, over the flat
  sequence of pages.
*/
module FundedFrames {
  import opened Wrappers
  import opened MemoryPool

  datatype Extent = Extent(start: nat, pages: nat)

  datatype Credit = Credit(owner: nat, pages: nat)

  datatype Merging = Merged | PageOverflow | ExtentLimit | CreditRefused(error: PoolError)

  datatype FundError = ZeroPages | PageLimit | TooManyExtents | InvalidClaim | Quota(error: PoolError) | Physical

  datatype Funding = FundOk(owner: Funded) | FundErr(error: FundError)

  // ---- the flat sequence of pages ----------------------------------------------------------------------

  function Pages(e: Extent): (s: seq<nat>)
    ensures |s| == e.pages && forall i :: 0 <= i < e.pages ==> s[i] == e.start + i
  {
    seq(e.pages, i => e.start + i)
  }

  function Flat(es: seq<Extent>): seq<nat> {
    if es == [] then [] else Flat(es[..|es| - 1]) + Pages(es[|es| - 1])
  }

  lemma FlatPush(es: seq<Extent>, e: Extent)
    ensures Flat(es + [e]) == Flat(es) + Pages(e)
  {
    assert (es + [e])[..|es|] == es;
  }

  lemma {:induction false} FlatConcat(a: seq<Extent>, b: seq<Extent>)
    ensures Flat(a + b) == Flat(a) + Flat(b)
  {
    hide Pages;
    if b == [] {
      assert a + b == a;
    } else {
      hide Flat;
      var c, e := b[..|b| - 1], b[|b| - 1];
      assert b == c + [e] && a + b == (a + c) + [e];
      FlatConcat(a, c);
      FlatPush(a + c, e);
      FlatPush(c, e);
    }
  }

  lemma {:induction false} FlatPrefix(es: seq<Extent>, i: nat)
    requires i < |es|
    ensures Flat(es[..i + 1]) == Flat(es[..i]) + Pages(es[i]) && |Flat(es[..i + 1])| <= |Flat(es)|
  {
    assert es[..i + 1] == es[..i] + [es[i]];
    FlatPush(es[..i], es[i]);
    assert es == es[..i + 1] + es[i + 1..];
    FlatConcat(es[..i + 1], es[i + 1..]);
  }

  /** An extent cut inside becomes two neighbours with the same pages. */
  lemma CutPages(e: Extent, left: nat)
    requires left <= e.pages
    ensures Pages(Extent(e.start, left)) == Pages(e)[..left]
            && Pages(Extent(e.start + left, e.pages - left)) == Pages(e)[left..]
  {}

  // ---- owners ------------------------------------------------------------------------------------------

  ghost predicate AllReal(es: seq<Extent>) { forall i :: 0 <= i < |es| ==> es[i].pages > 0 }

  /** The slots of an owner hold its extents, and nothing after them. */
  ghost predicate Holding(slots: seq<Option<Extent>>, es: seq<Extent>) {
    && |es| <= |slots|
    && (forall i :: 0 <= i < |es| ==> slots[i] == Some(es[i]))
    && (forall i :: |es| <= i < |slots| ==> slots[i] == None)
  }

  // ---- dividing ----------------------------------------------------------------------------------------

  /** What the first extents give to the left owner and to the right one. */
  ghost predicate Divided(es: seq<Extent>, left: nat, ls: seq<Extent>, rs: seq<Extent>) {
    && AllReal(ls) && AllReal(rs) && |ls| <= |es| && |rs| <= |es|
    && Flat(ls) == Flat(es)[..Min(left, |Flat(es)|)] && Flat(rs) == Flat(es)[Min(left, |Flat(es)|)..]
  }

  lemma DivideLeft(es: seq<Extent>, left: nat, ls: seq<Extent>, rs: seq<Extent>, e: Extent)
    requires Divided(es, left, ls, rs) && e.pages > 0 && |Flat(es)| + e.pages <= left
    ensures Divided(es + [e], left, ls + [e], rs)
  {
    hide Flat, Pages;
    FlatPush(es, e);
    FlatPush(ls, e);
    var f, g := Flat(es), Flat(es) + Pages(e);
    assert f[..|f|] == f && g[..|g|] == g && f[|f|..] == [] && g[|g|..] == [];
  }

  lemma DivideRight(es: seq<Extent>, left: nat, ls: seq<Extent>, rs: seq<Extent>, e: Extent)
    requires Divided(es, left, ls, rs) && e.pages > 0 && |Flat(es)| >= left
    ensures Divided(es + [e], left, ls, rs + [e])
  {
    hide Flat, Pages;
    FlatPush(es, e);
    FlatPush(rs, e);
    var f, g := Flat(es), Flat(es) + Pages(e);
    assert g[..left] == f[..left] && g[left..] == f[left..] + Pages(e);
  }

  lemma DivideCut(es: seq<Extent>, left: nat, ls: seq<Extent>, rs: seq<Extent>, e: Extent)
    requires Divided(es, left, ls, rs) && e.pages > 0 && |Flat(es)| < left < |Flat(es)| + e.pages
    ensures var n := left - |Flat(es)|;
            Divided(es + [e], left, ls + [Extent(e.start, n)], rs + [Extent(e.start + n, e.pages - n)])
  {
    hide Flat, Pages;
    var n := left - |Flat(es)|;
    FlatPush(es, e);
    CutPages(e, n);
    FlatPush(ls, Extent(e.start, n));
    FlatPush(rs, Extent(e.start + n, e.pages - n));
    var f, g := Flat(es), Flat(es) + Pages(e);
    assert f[..|f|] == f && f[|f|..] == [] && g[..left] == f + Pages(e)[..n] && g[left..] == Pages(e)[n..];
    assert [] + Pages(e)[n..] == Pages(e)[n..];
  }

  // ---- the slots while an owner is divided -------------------------------------------------------------

  /** The first `i` slots have been emptied and those kept put back at the front. */
  ghost predicate Walked(slots: seq<Option<Extent>>, es: seq<Extent>, ls: seq<Extent>, i: nat) {
    && |ls| <= i <= |es| <= |slots|
    && (forall k :: 0 <= k < |ls| ==> slots[k] == Some(ls[k]))
    && (forall k :: |ls| <= k < i ==> slots[k] == None)
    && (forall k :: i <= k < |slots| ==> slots[k] == if k < |es| then Some(es[k]) else None)
  }

  lemma WalkStep(slots: seq<Option<Extent>>, es: seq<Extent>, ls: seq<Extent>, i: nat, x: Extent)
    requires Walked(slots, es, ls, i) && i < |es|
    ensures i < |slots| && |ls| <= i && slots[i] == Some(es[i])
    ensures Walked(slots[i := None], es, ls, i + 1) && Walked(slots[i := None][|ls| := Some(x)], es, ls + [x], i + 1)
  {}

  lemma HoldPush(slots: seq<Option<Extent>>, es: seq<Extent>, x: Extent)
    requires Holding(slots, es) && |es| < |slots|
    ensures Holding(slots[|es| := Some(x)], es + [x])
  {}

  class Funded {
    const claims: array<Option<Extent>>
    var count: nat
    var pages: nat
    var credit: Option<Credit>
    ghost var extents: seq<Extent>

    /** The extents make up the pages, and the credit is for just as many; an owner emptied by a merge has neither. */
    ghost predicate Valid()
      reads this, claims
    {
      && Holding(claims[..], extents) && count == |extents| && AllReal(extents) && pages == |Flat(extents)| <= U64_MAX
      && (credit.Some? ==> credit.value.pages == pages > 0) && (credit.None? ==> extents == [])
    }

    ghost function Now(): seq<nat>
      reads this
    {
      Flat(extents)
    }

    constructor (size: nat, es: seq<Extent>, c: Credit)
      requires |es| <= size && AllReal(es) && es != [] && c.pages == |Flat(es)| <= U64_MAX
      ensures Valid() && extents == es && credit == Some(c) && fresh(claims) && claims.Length == size
              && pages == c.pages
    {
      claims := new Option<Extent>[size](i => if 0 <= i < |es| then Some(es[i]) else None);
      count, pages, credit, extents := |es|, c.pages, Some(c), es;
      new;
      FlatNonempty(es);
    }

    static lemma FlatNonempty(es: seq<Extent>)
      requires AllReal(es) && es != []
      ensures |Flat(es)| > 0
    {}

    constructor FromParts(slots: array<Option<Extent>>, n: nat, c: Credit, ghost es: seq<Extent>)
      requires Holding(slots[..], es) && n == |es| && AllReal(es) && c.pages == |Flat(es)| <= U64_MAX && c.pages > 0
      ensures Valid() && extents == es && credit == Some(c) && claims == slots && pages == c.pages
    {
      claims := slots;
      count, pages, credit, extents := n, c.pages, Some(c), es;
    }

    /**
      Walks the extents once, leaving those of the first pages here and putting the others in a new array; one may be
      cut in two.
    */
    method Divide(left: nat)
        returns (right: array<Option<Extent>>, leftCount: nat, rightCount: nat, ghost ls: seq<Extent>,
                 ghost rs: seq<Extent>)
      requires Holding(claims[..], extents) && count == |extents| && AllReal(extents)
      modifies claims
      ensures fresh(right) && right.Length == claims.Length
      ensures Divided(extents, left, ls, rs) && Holding(claims[..], ls) && Holding(right[..], rs) && leftCount == |ls|
              && rightCount == |rs|
    {
      hide Divided, Flat, AllReal, Walked, Holding, Front;
      right := EmptySlots(claims.Length);
      leftCount, rightCount, ls, rs := 0, 0, [], [];
      var cursor: nat := 0;
      NoneDivided(left);
      FrontAll(extents);
      WalkStarts(claims[..], extents);
      for index := 0 to count
        invariant leftCount == |ls| && rightCount == |rs| <= index <= count <= claims.Length
        invariant cursor == |Flat(Front(extents, index))| && Divided(Front(extents, index), left, ls, rs)
        invariant Walked(claims[..], extents, ls, index) && Holding(right[..], rs)
      {
        ghost var slots, others := claims[..], right[..];
        WalkStep(slots, extents, ls, index, extents[index]);
        var claim := claims[index].value;
        claims[index] := None;
        RealAt(extents, index);
        FrontStep(extents, index);
        var end := cursor + claim.pages;
        if end <= left {
          DivideLeft(Front(extents, index), left, ls, rs, claim);
          claims[leftCount] := Some(claim);
          assert claims[..] == slots[index := None][|ls| := Some(claim)];
          ls := ls + [claim];
          leftCount := leftCount + 1;
        } else if cursor >= left {
          DivideRight(Front(extents, index), left, ls, rs, claim);
          assert claims[..] == slots[index := None];
          HoldPush(others, rs, claim);
          right[rightCount] := Some(claim);
          assert right[..] == others[|rs| := Some(claim)];
          rs := rs + [claim];
          rightCount := rightCount + 1;
        } else {
          DivideCut(Front(extents, index), left, ls, rs, claim);
          var a, b := Extent(claim.start, left - cursor),
              Extent(claim.start + (left - cursor), claim.pages - (left - cursor));
          WalkStep(slots, extents, ls, index, a);
          HoldPush(others, rs, b);
          claims[leftCount] := Some(a);
          assert claims[..] == slots[index := None][|ls| := Some(a)];
          ls := ls + [a];
          leftCount := leftCount + 1;
          right[rightCount] := Some(b);
          assert right[..] == others[|rs| := Some(b)];
          rs := rs + [b];
          rightCount := rightCount + 1;
        }
        cursor := end;
      }
      FrontAll(extents);
      WalkEnds(claims[..], extents, ls);
    }

    static method EmptySlots(n: nat) returns (a: array<Option<Extent>>)
      ensures fresh(a) && a.Length == n && Holding(a[..], [])
    {
      a := new Option<Extent>[n](_ => None);
    }

    static lemma WalkStarts(slots: seq<Option<Extent>>, es: seq<Extent>)
      requires Holding(slots, es)
      ensures Walked(slots, es, [], 0) && |es| <= |slots|
    {}

    static lemma WalkEnds(slots: seq<Option<Extent>>, es: seq<Extent>, ls: seq<Extent>)
      requires Walked(slots, es, ls, |es|)
      ensures Holding(slots, ls)
    {}

    static lemma NoneDivided(left: nat)
      ensures Divided([], left, [], []) && Flat([]) == []
    {}

    static ghost function Front(es: seq<Extent>, i: nat): seq<Extent>
      requires i <= |es|
    {
      es[..i]
    }

    static lemma FrontStep(es: seq<Extent>, i: nat)
      requires i < |es|
      ensures Front(es, i + 1) == Front(es, i) + [es[i]]
              && |Flat(Front(es, i + 1))| == |Flat(Front(es, i))| + es[i].pages
    {
      FlatPrefix(es, i);
    }

    static lemma FrontAll(es: seq<Extent>)
      ensures Front(es, 0) == [] && Front(es, |es|) == es
    {}

    static lemma RealAt(es: seq<Extent>, i: nat)
      requires AllReal(es) && i < |es|
      ensures es[i].pages > 0
    {}

    /** The first pages stay here and the rest goes to a new owner, with the credit for just those. */
    method SplitOff(left: nat) returns (r: Option<Funded>)
      requires Valid()
      modifies this, claims
      ensures Valid() && (r.Some? <==> 0 < left < |old(Now())|)
      ensures r.None? ==> Now() == old(Now()) && credit == old(credit)
      ensures r.Some? ==>
              fresh(r.value) && fresh(r.value.claims) && r.value.Valid() && Now() == old(Now())[..left]
              && r.value.Now() == old(Now())[left..]
      ensures r.Some? ==>
              old(credit).Some? && credit == Some(Credit(old(credit).value.owner, left))
              && r.value.credit == Some(Credit(old(credit).value.owner, |old(Now())| - left))
    {
      if left == 0 || left >= pages { return None; }
      var right := pages - left;
      var rightCredit := Credit(credit.value.owner, right);
      credit := Some(credit.value.(pages := left));
      var rightClaims, leftCount, rightCount, ls, rs := Divide(left);
      count, pages, extents := leftCount, left, ls;
      var other := new Funded.FromParts(rightClaims, rightCount, rightCredit, rs);
      r := Some(other);
    }

    /** The first extent leaves, with its credit. */
    method SplitFirst() returns (r: Option<(Extent, Credit)>)
      requires Valid()
      modifies this, claims
      ensures Valid() && (r.Some? <==> old(extents) != [])
      ensures r.None? ==> Now() == old(Now()) && credit == old(credit)
      ensures r.Some? ==>
              r.value.0 == old(extents)[0] && extents == old(extents)[1..] && old(Now()) == Pages(r.value.0) + Now()
      ensures r.Some? ==> old(credit).Some? && r.value.1 == Credit(old(credit).value.owner, r.value.0.pages)
      ensures r.Some? ==> credit == if extents == [] then None else Some(Credit(old(credit).value.owner, |Now()|))
    {
      hide Flat, AllReal, Shifted;
      if count == 0 { return None; }
      var first := claims[0].value;
      FirstOff(extents);
      if count == 1 {
        claims[0] := None;
        r := Some((first, credit.value));
        credit, count, pages := None, 0, 0;
        extents := extents[1..];
      } else {
        r := Some((first, Credit(credit.value.owner, first.pages)));
        credit := Some(credit.value.(pages := credit.value.pages - first.pages));
        ShiftDown();
        HoldingShift(old(claims[..]), extents);
        count := count - 1;
        pages := pages - first.pages;
        extents := extents[1..];
      }
    }

    /** The slots after the first move one down. */
    method ShiftDown()
      requires 1 <= count <= claims.Length
      modifies claims
      ensures claims[..] == Shifted(old(claims[..]), count)
    {
      hide Shifted;
      claims[0] := None;
      ShiftFirst(old(claims[..]));
      assert claims[..] == old(claims[..])[0 := None];
      for index := 1 to count
        invariant claims[..] == Shifted(old(claims[..]), index)
      {
        ghost var slots := claims[..];
        claims[index - 1] := claims[index];
        claims[index] := None;
        assert claims[..] == slots[index - 1 := slots[index]][index := None];
        ShiftStep(old(claims[..]), index);
      }
    }

    static lemma ShiftFirst(slots: seq<Option<Extent>>)
      requires |slots| > 0
      ensures Shifted(slots, 1) == slots[0 := None]
    {}

    static lemma ShiftStep(slots: seq<Option<Extent>>, n: nat)
      requires 1 <= n < |slots|
      ensures var r := Shifted(slots, n); |r| == |slots| && r[n - 1 := r[n]][n := None] == Shifted(slots, n + 1)
    {}

    static lemma HoldingShift(slots: seq<Option<Extent>>, es: seq<Extent>)
      requires Holding(slots, es) && es != []
      ensures Holding(Shifted(slots, |es|), es[1..])
    {
      var r := Shifted(slots, |es|);
      forall i | 0 <= i < |es| - 1 ensures r[i] == Some(es[1..][i]) { assert r[i] == slots[i + 1]; }
    }

    /** The first `n` slots have been moved one down. */
    static ghost function Shifted(slots: seq<Option<Extent>>, n: nat): seq<Option<Extent>>
      requires 1 <= n <= |slots|
    {
      slots[1..n] + [None] + slots[n..]
    }

    static lemma FirstOff(es: seq<Extent>)
      requires AllReal(es) && es != []
      ensures AllReal(es[1..]) && Flat(es) == Pages(es[0]) + Flat(es[1..]) && es[0].pages > 0
              && (|es| > 1 ==> |Flat(es[1..])| > 0) && Flat([]) == []
    {
      assert es == [es[0]] + es[1..];
      FlatConcat([es[0]], es[1..]);
      assert Flat([es[0]]) == Pages(es[0]) by { FlatPush([], es[0]); assert [] + [es[0]] == [es[0]]; }
      if |es| > 1 { FlatNonempty(es[1..]); }
    }

    /** Another owner's pages are put after these, with their credit; refused, neither changes. */
    method MergeFrom(donor: Funded) returns (r: Merging)
      requires Valid() && donor.Valid() && this != donor && claims != donor.claims && credit.Some? && donor.credit.Some?
      modifies this, claims, donor, donor.claims
      ensures Valid() && donor.Valid()
      ensures r == if |old(Now())| + |old(donor.Now())| > U64_MAX then PageOverflow
                   else if |old(extents)| + |old(donor.extents)| > claims.Length then ExtentLimit
                   else if old(credit).value.owner != old(donor.credit).value.owner then CreditRefused(WrongOwner)
                   else Merged
      ensures r != Merged ==>
              extents == old(extents) && credit == old(credit) && donor.extents == old(donor.extents)
              && donor.credit == old(donor.credit)
      ensures r == Merged ==>
              extents == old(extents) + old(donor.extents) && Now() == old(Now()) + old(donor.Now())
              && donor.Now() == [] && donor.credit == None
      ensures r == Merged ==>
              credit == Some(Credit(old(credit).value.owner, old(credit).value.pages + old(donor.credit).value.pages))
    {
      hide Flat, AllReal, Holding, Walked;
      var sum := pages + donor.pages;
      if sum > U64_MAX { return PageOverflow; }
      HoldingSize(donor.claims[..], donor.extents);
      HoldingSize(claims[..], extents);
      if count + donor.count > claims.Length { return ExtentLimit; }
      var other := donor.credit.value;
      donor.credit := None;
      if credit.value.owner != other.owner {
        donor.credit := Some(other);
        return CreditRefused(WrongOwner);
      }
      credit := Some(credit.value.(pages := credit.value.pages + other.pages));
      FlatConcat(extents, donor.extents);
      RealConcat(extents, donor.extents);
      NoneDivided(0);
      MoveAll(donor);
      pages := sum;
      donor.count, donor.pages, donor.extents := 0, 0, [];
      r := Merged;
    }

    method MoveAll(donor: Funded)
      requires this != donor && claims != donor.claims && count == |extents| && donor.count == |donor.extents|
               && count + donor.count <= claims.Length
      requires Holding(claims[..], extents) && Holding(donor.claims[..], donor.extents)
      modifies this`count, this`extents, claims, donor.claims
      ensures extents == old(extents) + donor.extents && count == |extents| && Holding(claims[..], extents)
              && Holding(donor.claims[..], [])
    {
      hide Holding, Walked, Front;
      ghost var es, ds := extents, donor.extents;
      WalkStarts(donor.claims[..], ds);
      FrontAll(ds);
      assert es + [] == es;
      for i := 0 to donor.count
        invariant donor.count == |ds| && donor.extents == ds && extents == es + Front(ds, i)
                  && count == |extents| == |es| + i
        invariant Holding(claims[..], extents) && Walked(donor.claims[..], ds, [], i)
      {
        ghost var slots, others := claims[..], donor.claims[..];
        WalkStep(others, ds, [], i, ds[i]);
        HoldPush(slots, extents, ds[i]);
        FrontStep(ds, i);
        assert es + (Front(ds, i) + [ds[i]]) == (es + Front(ds, i)) + [ds[i]];
        claims[count] := donor.claims[i];
        donor.claims[i] := None;
        assert claims[..] == slots[|extents| := Some(ds[i])] && donor.claims[..] == others[i := None];
        extents := extents + [ds[i]];
        count := count + 1;
      }
      WalkEnds(donor.claims[..], ds, []);
    }

    static lemma HoldingSize(slots: seq<Option<Extent>>, es: seq<Extent>)
      requires Holding(slots, es)
      ensures |es| <= |slots|
    {}

    static lemma RealConcat(a: seq<Extent>, b: seq<Extent>)
      requires AllReal(a) && AllReal(b)
      ensures AllReal(a + b) && AllReal([])
    {}
  }

  // ---- funding -----------------------------------------------------------------------------------------

  ghost predicate AllGiven(answers: seq<Option<Extent>>, n: nat) {
    n <= |answers| && forall i :: 0 <= i < n ==> answers[i].Some?
  }

  ghost function Given(answers: seq<Option<Extent>>, n: nat): (es: seq<Extent>)
    requires AllGiven(answers, n)
    ensures |es| == n && forall i :: 0 <= i < n ==> es[i] == answers[i].value
  {
    seq(n, i requires 0 <= i < n => answers[i].value)
  }

  /** Why a request is refused before anything is taken, if so. */
  function RequestRefusal(size: nat, pages: nat, maxPages: nat, maxExtents: nat): Option<FundError> {
    if pages == 0 then Some(ZeroPages)
    else if pages > maxPages then Some(PageLimit)
    else if maxExtents == 0 || maxExtents > size then Some(TooManyExtents)
    else None
  }

  /** How claiming ends after so many extents: the pages are made up, or the next step or the last claim is at fault. */
  ghost predicate ClaimEnds(problem: Option<FundError>, pages: nat, maxExtents: nat, answers: seq<Option<Extent>>,
                            used: nat)
    requires AllGiven(answers, used)
  {
    match problem
    case None => used <= maxExtents && |Flat(Given(answers, used))| == pages
    case Some(TooManyExtents) => used == maxExtents && |Flat(Given(answers, used))| < pages
    case Some(Physical) =>
      used < maxExtents && |Flat(Given(answers, used))| < pages && (used == |answers| || answers[used].None?)
    case Some(InvalidClaim) =>
      && 0 < used <= maxExtents
      && var before, claim := |Flat(Given(answers, used - 1))|, answers[used - 1].value.pages;
      before < pages && (claim == 0 || before + claim > pages)
    case _ => false
  }

  /**
    Reserves quota, takes extents one by one from what the inventory answers, and commits. Whatever goes wrong, the
    quota is as it was and every extent taken is given back; otherwise every page is both claimed and charged.
  */
  method Fund(quota: PoolState, size: nat, pages: nat, maxPages: nat, maxExtents: nat, answers: seq<Option<Extent>>)
    returns (r: Funding, released: seq<Extent>, used: nat)
    requires quota.Valid() && pages <= U64_MAX
    modifies quota
    ensures quota.Valid() && AllGiven(answers, used)
    ensures r.FundErr? ==> quota.Now() == old(quota.Now()) && released == Given(answers, used)
    ensures r.FundOk? ==>
            released == [] && fresh(r.owner) && fresh(r.owner.claims) && r.owner.Valid()
            && r.owner.extents == Given(answers, used) && |r.owner.Now()| == pages
    ensures r.FundOk? ==>
            r.owner.credit == Some(Credit(quota.key, pages)) && 0 < pages <= maxPages && used <= maxExtents <= size
    ensures r.FundOk? ==>
            Reserve(old(quota.Now()), pages).Ok?
            && Commit(Reserve(old(quota.Now()), pages).value, true, pages, Allocated) == Ok(quota.Now())
    ensures var refusal := RequestRefusal(size, pages, maxPages, maxExtents);
            var reserved := Reserve(old(quota.Now()), pages);
            if refusal.Some? then r == FundErr(refusal.value) && used == 0
            else if reserved.Err? then r == FundErr(Quota(reserved.error)) && used == 0
            else ClaimEnds(if r.FundOk? then None else Some(r.error), pages, maxExtents, answers, used)
  {
    hide Flat, AllReal, Reserve, Commit, Rollback, Given, ClaimEnds;
    used, released := 0, [];
    if pages == 0 { return FundErr(ZeroPages), [], 0; }
    if maxPages == 0 || pages > maxPages { return FundErr(PageLimit), [], 0; }
    if maxExtents == 0 || maxExtents > size { return FundErr(TooManyExtents), [], 0; }
    MovesClose(quota.Now(), true, pages, Allocated);
    var reservation := quota.ReservePages(pages);
    if reservation.Err? { return FundErr(Quota(reservation.error)), [], 0; }
    MovesUndone(old(quota.Now()), pages, Allocated);
    var claims: seq<Extent>, problem: Option<FundError>;
    claims, used, problem := Claim(pages, maxExtents, answers);
    if problem.Some? {
      var back := quota.RollbackPages(quota.key, pages);
      return FundErr(problem.value), claims, used;
    }
    var credit := quota.CommitReserved(quota.key, pages, Allocated);
    var owner := new Funded(size, claims, Credit(quota.key, pages));
    r := FundOk(owner);
  }

  /** Takes extents until they make up the pages; `used` counts the answers that were an extent. */
  method Claim(pages: nat, maxExtents: nat, answers: seq<Option<Extent>>)
      returns (claims: seq<Extent>, used: nat, problem: Option<FundError>)
    requires pages > 0
    ensures AllGiven(answers, used) && claims == Given(answers, used)
    ensures ClaimEnds(problem, pages, maxExtents, answers, used)
    ensures problem.None? ==> claims != [] && AllReal(claims) && |Flat(claims)| == pages && |claims| <= maxExtents
  {
    claims, used, problem := [], 0, None;
    var claimed: nat := 0;
    while claimed < pages
      invariant used == |claims| <= maxExtents && AllGiven(answers, used) && claims == Given(answers, used)
      invariant AllReal(claims) && claimed == |Flat(claims)| <= pages
      decreases pages - claimed
    {
      if used == maxExtents { problem := Some(TooManyExtents); return; }
      if used >= |answers| || answers[used].None? { problem := Some(Physical); return; }
      var claim := answers[used].value;
      FlatPush(claims, claim);
      assert Given(answers, used + 1) == claims + [claim];
      assert Given(answers, used + 1 - 1) == claims;
      claims := claims + [claim];
      used := used + 1;
      if claim.pages == 0 || claim.pages > pages - claimed { problem := Some(InvalidClaim); return; }
      claimed := claimed + claim.pages;
    }
  }
}
