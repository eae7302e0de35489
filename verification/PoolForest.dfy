/**
  A forest of memory pools over whole runs: reservations, credits, children and returns in any order, no token dropped.
*/
module PoolForest {
  import opened Wrappers
  import opened MemoryPool

  /** What a child has of its parent: the pool it came from, that pool's identity, and the pages. */
  datatype Backing = Backing(pool: nat, identity: nat, pages: nat)

  /** Identities are the callers' names for pools; `parent` is where the pool stands in the forest. */
  datatype Pool = Pool(
    parent: Option<nat>, depth: nat, accounts: Accounts, alive: bool, identity: nat, parentIdentity: Option<nat>,
    credit: Option<Backing>)

  /** What a holder may have in hand; a prepared child still counts against its parent's reservation. */
  datatype Token =
    | Charge(pool: nat, pages: nat)
    | Delegation(pool: nat, pages: nat)
    | Prepared(pool: nat, pages: nat, identity: nat, parentIdentity: nat)
    | Credit(pool: nat, pages: nat)
    | Homebound(pool: nat, pages: nat)
    | Spent

  datatype State = State(pools: seq<Pool>, tokens: seq<Token>)

  datatype Step =
    | DoRoot(identity: nat, total: nat)
    | DoReserve(p: nat, pages: nat)
    | DoDelegate(p: nat, pages: nat)
    | DoRollback(p: nat, t: nat)
    | DoCommit(p: nat, t: nat)
    | DoPrepare(t: nat, identity: nat)
    | DoAdopt(p: nat, t: nat)
    | DoSplit(t: nat, pages: nat)
    | DoMerge(t: nat, u: nat)
    | DoReturn(p: nat, t: nat)
    | DoRetire(p: nat)
    | DoReturnHome(p: nat, t: nat)

  predicate Reserving(t: Token) { t.Charge? || t.Delegation? || t.Prepared? }

  /** Which calls the holders can make; a call on a pool needs the pool, a call with a token needs the token. */
  predicate Enabled(s: State, step: Step) {
    match step
    case DoRoot(_, total) => 0 < total <= U64_MAX
    case DoReserve(p, _) => p < |s.pools| && s.pools[p].alive
    case DoDelegate(p, _) => p < |s.pools| && s.pools[p].alive
    case DoRollback(p, t) => p < |s.pools| && s.pools[p].alive && t < |s.tokens| && Reserving(s.tokens[t])
    case DoCommit(p, t) => p < |s.pools| && s.pools[p].alive && t < |s.tokens| && s.tokens[t].Charge?
    case DoPrepare(t, _) => t < |s.tokens| && s.tokens[t].Delegation? && s.tokens[t].pool < |s.pools|
    case DoAdopt(p, t) => p < |s.pools| && s.pools[p].alive && t < |s.tokens| && s.tokens[t].Prepared?
    case DoSplit(t, _) => t < |s.tokens| && s.tokens[t].Credit?
    case DoMerge(t, u) => t < |s.tokens| && u < |s.tokens| && t != u && s.tokens[t].Credit? && s.tokens[u].Credit?
    case DoReturn(p, t) => p < |s.pools| && s.pools[p].alive && t < |s.tokens| && s.tokens[t].Credit?
    case DoRetire(p) => p < |s.pools| && s.pools[p].alive
    case DoReturnHome(p, t) => p < |s.pools| && s.pools[p].alive && t < |s.tokens| && s.tokens[t].Homebound?
  }

  function SetAccounts(s: State, p: nat, a: Accounts): State
    requires p < |s.pools|
  {
    s.(pools := s.pools[p := s.pools[p].(accounts := a)])
  }

  function SetToken(s: State, t: nat, x: Token): State
    requires t < |s.tokens|
  {
    s.(tokens := s.tokens[t := x])
  }

  function RootPool(identity: nat, total: nat): Pool { Pool(None, 1, Fresh(total), true, identity, None, None) }

  /** A prepared child once its parent has committed to it. */
  function ChildPool(parent: Pool, p: nat, x: Token): Pool
    requires x.Prepared?
  {
    Pool(Some(p), parent.depth + 1, Fresh(x.pages), true, x.identity, Some(x.parentIdentity),
         Some(Backing(p, parent.identity, x.pages)))
  }

  /** A root has neither parent nor credit; a child's credit is of its parent and for all it has. */
  predicate TopologyOk(q: Pool) {
    match q.credit
    case None => q.parentIdentity.None?
    case Some(c) => q.parentIdentity == Some(c.identity) && c.pages == q.accounts.total
  }

  /** The outcome of a call: the new state, or the refusal. */
  function Try(s: State, step: Step): Result<State, PoolError>
    requires Enabled(s, step)
  {
    match step
    case DoRoot(identity, total) => Ok(s.(pools := s.pools + [RootPool(identity, total)]))
    case DoReserve(p, pages) =>
      var r := Reserve(s.pools[p].accounts, pages);
      if r.Err? then Err(r.error) else Ok(SetAccounts(s, p, r.value).(tokens := s.tokens + [Charge(p, pages)]))
    case DoDelegate(p, pages) =>
      var r := Reserve(s.pools[p].accounts, pages);
      if s.pools[p].depth >= MAX_DEPTH then Err(DepthLimit)
      else if r.Err? then Err(r.error)
      else Ok(SetAccounts(s, p, r.value).(tokens := s.tokens + [Delegation(p, pages)]))
    case DoRollback(p, t) =>
      var x := s.tokens[t];
      var r := Rollback(s.pools[p].accounts, x.pool == p, x.pages);
      if r.Err? then Err(r.error) else Ok(SetToken(SetAccounts(s, p, r.value), t, Spent))
    case DoCommit(p, t) =>
      var x := s.tokens[t];
      var r := Commit(s.pools[p].accounts, x.pool == p, x.pages, Allocated);
      if r.Err? then Err(r.error) else Ok(SetToken(SetAccounts(s, p, r.value), t, Credit(p, x.pages)))
    case DoPrepare(t, identity) =>
      var x := s.tokens[t];
      var depth := s.pools[x.pool].depth + 1;
      if identity == s.pools[x.pool].identity || depth <= 1 || depth > MAX_DEPTH || x.pages == 0
      then Err(InvalidTopology)
      else Ok(SetToken(s, t, Prepared(x.pool, x.pages, identity, s.pools[x.pool].identity)))
    case DoAdopt(p, t) =>
      var x := s.tokens[t];
      var r := Commit(s.pools[p].accounts, x.pool == p, x.pages, Delegated);
      if r.Err? then Err(r.error)
      else
        var n := SetToken(SetAccounts(s, p, r.value), t, Spent);
        Ok(n.(pools := n.pools + [ChildPool(s.pools[p], p, x)]))
    case DoSplit(t, pages) =>
      var x := s.tokens[t];
      if pages == 0 then Err(ZeroAmount)
      else if pages >= x.pages then Err(InvalidSplit)
      else Ok(SetToken(s, t,
                       Credit(x.pool, x.pages - pages)).(tokens := s.tokens[t := Credit(x.pool, x.pages - pages)]
                       + [Credit(x.pool, pages)]))
    case DoMerge(t, u) =>
      var x, y := s.tokens[t], s.tokens[u];
      if x.pool != y.pool then Err(WrongOwner)
      else if x.pages + y.pages > U64_MAX then Err(ArithmeticOverflow)
      else Ok(SetToken(SetToken(s, t, Credit(x.pool, x.pages + y.pages)), u, Spent))
    case DoReturn(p, t) =>
      var x := s.tokens[t];
      var r := Return(s.pools[p].accounts, x.pool == p, x.pages, Allocated);
      if r.Err? then Err(r.error) else Ok(SetToken(SetAccounts(s, p, r.value), t, Spent))
    case DoRetire(p) =>
      var q := s.pools[p];
      if !FullyAvailable(q.accounts) || !TopologyOk(q) then Err(InvariantViolation)
      else
        var n := s.(pools := s.pools[p := q.(alive := false)]);
        Ok(if q.credit.None? then n
           else n.(tokens := n.tokens + [Homebound(q.credit.value.pool, q.credit.value.pages)]))
    case DoReturnHome(p, t) =>
      var x := s.tokens[t];
      var r := Return(s.pools[p].accounts, x.pool == p, x.pages, Delegated);
      if r.Err? then Err(r.error) else Ok(SetToken(SetAccounts(s, p, r.value), t, Spent))
  }

  function Next(s: State, step: Step): State
    requires Enabled(s, step)
  {
    if Try(s, step).Ok? then Try(s, step).value else s
  }

  ghost predicate Run(s: State, steps: seq<Step>, e: State)
    decreases |steps|
  {
    if steps == [] then s == e else Enabled(s, steps[0]) && Run(Next(s, steps[0]), steps[1..], e)
  }

  // ---- sums over what is outstanding -------------------------------------------------------------------

  datatype Kind = InReserve | InUse | OnTheWay

  function Weight(t: Token, p: nat, kind: Kind): nat {
    if t.Spent? || t.pool != p then 0
    else if (kind == InReserve && Reserving(t)) || (kind == InUse && t.Credit?)
         || (kind == OnTheWay && t.Homebound?) then t.pages
    else 0
  }

  function Sum(tokens: seq<Token>, p: nat, kind: Kind): nat {
    if tokens == [] then 0 else Sum(tokens[..|tokens| - 1], p, kind) + Weight(tokens[|tokens| - 1], p, kind)
  }

  lemma SumPush(tokens: seq<Token>, x: Token, p: nat, kind: Kind)
    ensures Sum(tokens + [x], p, kind) == Sum(tokens, p, kind) + Weight(x, p, kind)
  {
    assert (tokens + [x])[..|tokens|] == tokens;
  }

  lemma {:induction false} SumPut(tokens: seq<Token>, t: nat, x: Token, p: nat, kind: Kind)
    requires t < |tokens|
    ensures Sum(tokens[t := x], p, kind) == Sum(tokens, p, kind) - Weight(tokens[t], p, kind) + Weight(x, p, kind)
    ensures Weight(tokens[t], p, kind) <= Sum(tokens, p, kind)
  {
    var n := |tokens| - 1;
    if t == n {
      assert tokens[t := x][..n] == tokens[..n];
    } else {
      assert tokens[t := x][..n] == tokens[..n][t := x];
      SumPut(tokens[..n], t, x, p, kind);
    }
  }

  lemma {:induction false} SumTwo(tokens: seq<Token>, t: nat, u: nat, p: nat, kind: Kind)
    requires t < |tokens| && u < |tokens| && t != u
    ensures Weight(tokens[t], p, kind) + Weight(tokens[u], p, kind) <= Sum(tokens, p, kind)
  {
    SumPut(tokens, t, Spent, p, kind);
    SumPut(tokens[t := Spent], u, Spent, p, kind);
  }

  /** What a pool's live children have. */
  function ChildWeight(q: Pool, p: nat): nat { if q.alive && q.parent == Some(p) then q.accounts.total else 0 }

  function Children(pools: seq<Pool>, p: nat): nat {
    if pools == [] then 0 else Children(pools[..|pools| - 1], p) + ChildWeight(pools[|pools| - 1], p)
  }

  lemma ChildPush(pools: seq<Pool>, x: Pool, p: nat)
    ensures Children(pools + [x], p) == Children(pools, p) + ChildWeight(x, p)
  {
    assert (pools + [x])[..|pools|] == pools;
  }

  lemma {:induction false} ChildPut(pools: seq<Pool>, q: nat, x: Pool, p: nat)
    requires q < |pools|
    ensures Children(pools[q := x], p) == Children(pools, p) - ChildWeight(pools[q], p) + ChildWeight(x, p)
    ensures ChildWeight(pools[q], p) <= Children(pools, p)
  {
    var n := |pools| - 1;
    if q == n {
      assert pools[q := x][..n] == pools[..n];
    } else {
      assert pools[q := x][..n] == pools[..n][q := x];
      ChildPut(pools[..n], q, x, p);
    }
  }

  // ---- the invariant -----------------------------------------------------------------------------------

  /** Each account is the sum of the tokens and children it stands for, and the four make up the total. */
  predicate PoolInv(s: State, p: nat) {
    p < |s.pools| ==>
      var q := s.pools[p];
      && Closes(q.accounts) && q.accounts.total > 0 && 1 <= q.depth <= MAX_DEPTH
      && (q.parent.Some? ==> q.parent.value < p && q.depth == s.pools[q.parent.value].depth + 1)
      && (if q.parent.None? then q.credit.None? && q.parentIdentity.None?
          else var parent := s.pools[q.parent.value].identity;
          && q.identity != parent && q.parentIdentity == Some(parent)
          && q.credit == Some(Backing(q.parent.value, parent, q.accounts.total)))
      && q.accounts.reserved == Sum(s.tokens, p, InReserve)
      && q.accounts.charged == Sum(s.tokens, p, InUse)
      && q.accounts.delegated == Sum(s.tokens, p, OnTheWay) + Children(s.pools, p)
      && (!q.alive ==> FullyAvailable(q.accounts))
  }

  predicate TokenInv(s: State, t: nat) {
    t < |s.tokens| && !s.tokens[t].Spent? ==>
      && s.tokens[t].pages > 0 && s.tokens[t].pool < |s.pools|
      && (s.tokens[t].Delegation? || s.tokens[t].Prepared? ==> s.pools[s.tokens[t].pool].depth < MAX_DEPTH)
      && (s.tokens[t].Prepared? ==>
          s.tokens[t].parentIdentity == s.pools[s.tokens[t].pool].identity != s.tokens[t].identity)
  }

  ghost predicate Inv(s: State) { (forall p: nat :: PoolInv(s, p)) && (forall t: nat :: TokenInv(s, t)) }

  /** A token's pages are in the account of its pool, so the pool is there. */
  lemma TokenCounted(s: State, t: nat)
    requires Inv(s) && t < |s.tokens| && !s.tokens[t].Spent?
    ensures var x := s.tokens[t];
            x.pool < |s.pools| && x.pages > 0 && Closes(s.pools[x.pool].accounts) && s.pools[x.pool].alive
    ensures var x := s.tokens[t]; var a := s.pools[x.pool].accounts;
            (Reserving(x) ==> x.pages <= a.reserved) && (x.Credit? ==> x.pages <= a.charged)
                && (x.Homebound? ==> x.pages <= a.delegated)
  {
    var x := s.tokens[t];
    assert TokenInv(s, t) && PoolInv(s, x.pool);
    SumPut(s.tokens, t, Spent, x.pool, if Reserving(x) then InReserve else if x.Credit? then InUse else OnTheWay);
  }

  /** One pool's accounts and one token change together. */
  lemma PutKeeps(s: State, p: nat, a: Accounts, t: nat, x: Token)
    requires Inv(s) && p < |s.pools| && t < |s.tokens| && s.pools[p].alive && Closes(a)
             && a.total == s.pools[p].accounts.total
    requires !s.tokens[t].Spent? && s.tokens[t].pool == p
             && (x.Spent?
                 || (x.pool == p && x.pages > 0 && (x.Delegation? || x.Prepared? ==> s.pools[p].depth < MAX_DEPTH)
                     && (x.Prepared? ==> x.parentIdentity == s.pools[p].identity != x.identity)))
    requires a.reserved == s.pools[p].accounts.reserved - Weight(s.tokens[t], p, InReserve) + Weight(x, p, InReserve)
    requires a.charged == s.pools[p].accounts.charged - Weight(s.tokens[t], p, InUse) + Weight(x, p, InUse)
    requires a.delegated == s.pools[p].accounts.delegated - Weight(s.tokens[t], p, OnTheWay) + Weight(x, p, OnTheWay)
    ensures Inv(SetToken(SetAccounts(s, p, a), t, x))
  {
    hide Sum, Children;
    var n := SetToken(SetAccounts(s, p, a), t, x);
    forall q: nat ensures PoolInv(n, q) {
      assert PoolInv(s, q);
      ChildPut(s.pools, p, n.pools[p], q);
      SumPut(s.tokens, t, x, q, InReserve);
      SumPut(s.tokens, t, x, q, InUse);
      SumPut(s.tokens, t, x, q, OnTheWay);
    }
    forall u: nat ensures TokenInv(n, u) { assert TokenInv(s, u); }
  }

  /** One pool's accounts change and a token is given out. */
  lemma PushKeeps(s: State, p: nat, a: Accounts, x: Token)
    requires Inv(s) && p < |s.pools| && s.pools[p].alive && Closes(a) && a.total == s.pools[p].accounts.total
    requires !x.Spent? && !x.Prepared? && x.pool == p && x.pages > 0
             && (x.Delegation? ==> s.pools[p].depth < MAX_DEPTH)
    requires a.reserved == s.pools[p].accounts.reserved + Weight(x, p, InReserve)
    requires a.charged == s.pools[p].accounts.charged + Weight(x, p, InUse)
    requires a.delegated == s.pools[p].accounts.delegated + Weight(x, p, OnTheWay)
    ensures Inv(SetAccounts(s, p, a).(tokens := s.tokens + [x]))
  {
    hide Sum, Children;
    var n := SetAccounts(s, p, a).(tokens := s.tokens + [x]);
    forall q: nat ensures PoolInv(n, q) {
      assert PoolInv(s, q);
      ChildPut(s.pools, p, n.pools[p], q);
      SumPush(s.tokens, x, q, InReserve);
      SumPush(s.tokens, x, q, InUse);
      SumPush(s.tokens, x, q, OnTheWay);
    }
    forall u: nat ensures TokenInv(n, u) { assert TokenInv(s, u); }
  }

  lemma RootKeeps(s: State, identity: nat, total: nat)
    requires Inv(s) && 0 < total <= U64_MAX
    ensures Inv(Next(s, DoRoot(identity, total)))
  {
    hide Sum, Children;
    var n := Next(s, DoRoot(identity, total));
    NothingBeyond(s, |s.pools|);
    forall q: nat ensures PoolInv(n, q) { assert PoolInv(s, q); ChildPush(s.pools, n.pools[|s.pools|], q); }
    forall u: nat ensures TokenInv(n, u) { assert TokenInv(s, u); }
  }

  /** No token and no child belongs to a pool that is not there yet. */
  lemma NothingBeyond(s: State, p: nat)
    requires Inv(s) && p >= |s.pools|
    ensures Sum(s.tokens, p, InReserve) == 0 && Sum(s.tokens, p, InUse) == 0 && Sum(s.tokens, p, OnTheWay) == 0
            && Children(s.pools, p) == 0
  {
    forall t: nat | t < |s.tokens| ensures s.tokens[t].Spent? || s.tokens[t].pool != p { assert TokenInv(s, t); }
    NoTokens(s.tokens, p, InReserve);
    NoTokens(s.tokens, p, InUse);
    NoTokens(s.tokens, p, OnTheWay);
    forall q: nat | q < |s.pools| ensures s.pools[q].parent != Some(p) { assert PoolInv(s, q); }
    NoChildren(s.pools, p);
  }

  lemma {:induction false} NoTokens(tokens: seq<Token>, p: nat, kind: Kind)
    requires forall t: nat :: t < |tokens| ==> tokens[t].Spent? || tokens[t].pool != p
    ensures Sum(tokens, p, kind) == 0
  {
    if tokens != [] { NoTokens(tokens[..|tokens| - 1], p, kind); }
  }

  lemma {:induction false} NoChildren(pools: seq<Pool>, p: nat)
    requires forall q: nat :: q < |pools| ==> pools[q].parent != Some(p)
    ensures Children(pools, p) == 0
  {
    if pools != [] { NoChildren(pools[..|pools| - 1], p); }
  }

  /** A prepared child becomes a pool: its parent's reserve becomes what the child has. */
  lemma AdoptKeeps(s: State, p: nat, t: nat)
    requires Inv(s) && Enabled(s, DoAdopt(p, t)) && s.tokens[t].pool == p
    ensures Try(s, DoAdopt(p, t)).Ok? && Inv(Next(s, DoAdopt(p, t)))
  {
    hide Sum, Children;
    var x := s.tokens[t];
    TokenCounted(s, t);
    MovesClose(s.pools[x.pool].accounts, true, x.pages, Delegated);
    var n := Next(s, DoAdopt(p, t));
    forall q: nat ensures PoolInv(n, q) { AdoptPool(s, p, t, q); }
    forall u: nat ensures TokenInv(n, u) { assert TokenInv(s, u); }
  }

  lemma AdoptSums(s: State, p: nat, t: nat, q: nat)
    requires Inv(s) && Enabled(s, DoAdopt(p, t)) && Try(s, DoAdopt(p, t)).Ok?
    ensures var n, x := Next(s, DoAdopt(p, t)), s.tokens[t];
            && Sum(n.tokens, q, InReserve) == Sum(s.tokens, q, InReserve) - (if q == x.pool then x.pages else 0)
            && Sum(n.tokens, q, InUse) == Sum(s.tokens, q, InUse)
                && Sum(n.tokens, q, OnTheWay) == Sum(s.tokens, q, OnTheWay)
            && Children(n.pools, q) == Children(s.pools, q) + (if q == x.pool then x.pages else 0)
  {
    hide Sum, Children, Inv, PoolInv, TokenInv;
    var n, x := Next(s, DoAdopt(p, t)), s.tokens[t];
    var a, child := n.pools[x.pool], n.pools[|s.pools|];
    assert n.pools == s.pools[x.pool := a] + [child];
    ChildPut(s.pools, x.pool, a, q);
    ChildPush(s.pools[x.pool := a], child, q);
    SumPut(s.tokens, t, Spent, q, InReserve);
    SumPut(s.tokens, t, Spent, q, InUse);
    SumPut(s.tokens, t, Spent, q, OnTheWay);
  }

  lemma AdoptPool(s: State, p: nat, t: nat, q: nat)
    requires Inv(s) && Enabled(s, DoAdopt(p, t)) && Try(s, DoAdopt(p, t)).Ok?
    ensures PoolInv(Next(s, DoAdopt(p, t)), q)
  {
    hide Sum, Children;
    var n, x := Next(s, DoAdopt(p, t)), s.tokens[t];
    assert PoolInv(s, q) && PoolInv(s, x.pool) && TokenInv(s, t);
    AdoptSums(s, p, t, q);
    if q == |s.pools| { NothingBeyond(s, q); }
    else if q == x.pool {
      MovesClose(s.pools[q].accounts, true, x.pages, Delegated);
      TokenCounted(s, t);
    }
  }

  /** A pool with everything back is given up, and its pages set out for its parent. */
  lemma RetireKeeps(s: State, p: nat)
    requires Inv(s) && Enabled(s, DoRetire(p))
    ensures Inv(Next(s, DoRetire(p)))
  {
    hide Sum, Children;
    var n := Next(s, DoRetire(p));
    assert PoolInv(s, p);
    if FullyAvailable(s.pools[p].accounts) {
      forall q: nat ensures PoolInv(n, q) {
        assert PoolInv(s, q);
        ChildPut(s.pools, p, n.pools[p], q);
        if s.pools[p].parent.Some? {
          var x := Homebound(s.pools[p].parent.value, s.pools[p].accounts.total);
          SumPush(s.tokens, x, q, InReserve);
          SumPush(s.tokens, x, q, InUse);
          SumPush(s.tokens, x, q, OnTheWay);
        }
      }
      forall u: nat ensures TokenInv(n, u) { assert TokenInv(s, u); }
    }
  }

  lemma SplitKeeps(s: State, t: nat, pages: nat)
    requires Inv(s) && Enabled(s, DoSplit(t, pages))
    ensures Inv(Next(s, DoSplit(t, pages)))
  {
    hide Sum, Children;
    var n, x := Next(s, DoSplit(t, pages)), s.tokens[t];
    if Try(s, DoSplit(t, pages)).Ok? {
      var less, more := Credit(x.pool, x.pages - pages), Credit(x.pool, pages);
      forall q: nat ensures PoolInv(n, q) {
        assert PoolInv(s, q);
        SplitSum(s.tokens, t, less, more, q, InReserve);
        SplitSum(s.tokens, t, less, more, q, InUse);
        SplitSum(s.tokens, t, less, more, q, OnTheWay);
      }
      forall u: nat ensures TokenInv(n, u) { assert TokenInv(s, u) && TokenInv(s, t); }
    }
  }

  lemma SplitSum(tokens: seq<Token>, t: nat, less: Token, more: Token, p: nat, kind: Kind)
    requires t < |tokens| && Weight(less, p, kind) + Weight(more, p, kind) == Weight(tokens[t], p, kind)
    ensures Sum(tokens[t := less] + [more], p, kind) == Sum(tokens, p, kind)
  {
    SumPut(tokens, t, less, p, kind);
    SumPush(tokens[t := less], more, p, kind);
  }

  /** Two credits of one pool merge; with a pool's total in 64 bits the sum never overflows. */
  lemma MergeKeeps(s: State, t: nat, u: nat)
    requires Inv(s) && Enabled(s, DoMerge(t, u))
    ensures Inv(Next(s, DoMerge(t, u))) && (Try(s, DoMerge(t, u)).Ok? <==> s.tokens[t].pool == s.tokens[u].pool)
  {
    hide Sum, Children;
    var x, y := s.tokens[t], s.tokens[u];
    TokenCounted(s, t);
    SumTwo(s.tokens, t, u, x.pool, InUse);
    assert PoolInv(s, x.pool);
    if x.pool == y.pool {
      var n, both := Next(s, DoMerge(t, u)), Credit(x.pool, x.pages + y.pages);
      forall q: nat ensures PoolInv(n, q) {
        assert PoolInv(s, q);
        MergeSum(s.tokens, t, u, both, q, InReserve);
        MergeSum(s.tokens, t, u, both, q, InUse);
        MergeSum(s.tokens, t, u, both, q, OnTheWay);
      }
      forall v: nat ensures TokenInv(n, v) { assert TokenInv(s, v) && TokenInv(s, t); }
    }
  }

  lemma MergeSum(tokens: seq<Token>, t: nat, u: nat, both: Token, p: nat, kind: Kind)
    requires t < |tokens| && u < |tokens| && t != u
             && Weight(both, p, kind) == Weight(tokens[t], p, kind) + Weight(tokens[u], p, kind)
    ensures Sum(tokens[t := both][u := Spent], p, kind) == Sum(tokens, p, kind)
  {
    SumPut(tokens, t, both, p, kind);
    SumPut(tokens[t := both], u, Spent, p, kind);
  }

  lemma StepKeeps(s: State, step: Step)
    requires Inv(s) && Enabled(s, step)
    ensures Inv(Next(s, step))
  {
    hide Inv;
    match step
    case DoRoot(identity, total) => RootKeeps(s, identity, total);
    case DoReserve(p, pages) => ReserveKeeps(s, p, pages, Charge(p, pages));
    case DoDelegate(p, pages) => if s.pools[p].depth < MAX_DEPTH { ReserveKeeps(s, p, pages, Delegation(p, pages)); }
    case DoAdopt(p, t) => if s.tokens[t].pool == p { AdoptKeeps(s, p, t); }
    case DoSplit(t, pages) => SplitKeeps(s, t, pages);
    case DoMerge(t, u) => MergeKeeps(s, t, u);
    case DoRetire(p) => RetireKeeps(s, p);
    case DoPrepare(t, identity) => PrepareKeeps(s, t, identity);
    case DoRollback(p, t) => if s.tokens[t].pool == p { TokenMoves(s, step, p, t); }
    case DoCommit(p, t) => if s.tokens[t].pool == p { TokenMoves(s, step, p, t); }
    case DoReturn(p, t) => if s.tokens[t].pool == p { TokenMoves(s, step, p, t); }
    case DoReturnHome(p, t) => if s.tokens[t].pool == p { TokenMoves(s, step, p, t); }
  }

  lemma ReserveKeeps(s: State, p: nat, pages: nat, x: Token)
    requires Inv(s) && p < |s.pools| && s.pools[p].alive
             && (x == Charge(p, pages) || (x == Delegation(p, pages) && s.pools[p].depth < MAX_DEPTH))
    ensures Reserve(s.pools[p].accounts, pages).Ok? ==>
            Inv(SetAccounts(s, p, Reserve(s.pools[p].accounts, pages).value).(tokens := s.tokens + [x]))
  {
    assert PoolInv(s, p);
    MovesClose(s.pools[p].accounts, true, pages, Allocated);
    if Reserve(s.pools[p].accounts, pages).Ok? { PushKeeps(s, p, Reserve(s.pools[p].accounts, pages).value, x); }
  }

  lemma PrepareKeeps(s: State, t: nat, identity: nat)
    requires Inv(s) && Enabled(s, DoPrepare(t, identity))
    ensures Inv(Next(s, DoPrepare(t, identity)))
    ensures if identity == s.pools[s.tokens[t].pool].identity
            then Try(s, DoPrepare(t, identity)) == Err(InvalidTopology) else Try(s, DoPrepare(t, identity)).Ok?
  {
    var x := s.tokens[t];
    TokenCounted(s, t);
    assert TokenInv(s, t) && PoolInv(s, x.pool);
    var parent := s.pools[x.pool];
    if identity != parent.identity {
      var y := Prepared(x.pool, x.pages, identity, parent.identity);
      PutKeeps(s, x.pool, parent.accounts, t, y);
      assert SetToken(SetAccounts(s, x.pool, parent.accounts), t, y) == Next(s, DoPrepare(t, identity));
    }
  }

  /** A call that uses a token up is never refused. */
  lemma TokenMoves(s: State, step: Step, p: nat, t: nat)
    requires Inv(s) && Enabled(s, step)
             && step in {DoRollback(p, t), DoCommit(p, t), DoReturn(p, t), DoReturnHome(p, t)} && s.tokens[t].pool == p
    ensures Try(s, step).Ok? && Inv(Next(s, step))
  {
    hide Sum, Children, Inv, Reserve, Rollback, Commit, Return, Closes;
    var x := s.tokens[t];
    TokenCounted(s, t);
    var a := s.pools[x.pool].accounts;
    MovesClose(a, true, x.pages, Allocated);
    MovesClose(a, true, x.pages, Delegated);
    if step == DoRollback(p, t) {
      RollbackMoves(a, x.pages);
      PutKeeps(s, x.pool, Rollback(a, true, x.pages).value, t, Spent);
    }
    else if step == DoCommit(p, t) {
      CommitMoves(a, x.pages);
      PutKeeps(s, x.pool, Commit(a, true, x.pages, Allocated).value, t, Credit(x.pool, x.pages));
    }
    else if step == DoReturn(p, t) {
      ReturnMoves(a, x.pages, Allocated);
      PutKeeps(s, x.pool, Return(a, true, x.pages, Allocated).value, t, Spent);
    }
    else {
      ReturnMoves(a, x.pages, Delegated);
      PutKeeps(s, x.pool, Return(a, true, x.pages, Delegated).value, t, Spent);
    }
  }

  lemma RollbackMoves(a: Accounts, pages: nat)
    requires Rollback(a, true, pages).Ok?
    ensures var r := Rollback(a, true, pages).value;
            r.total == a.total && r.reserved == a.reserved - pages && r.charged == a.charged
            && r.delegated == a.delegated
  {}

  lemma CommitMoves(a: Accounts, pages: nat)
    requires Commit(a, true, pages, Allocated).Ok?
    ensures var r := Commit(a, true, pages, Allocated).value;
            r.total == a.total && r.reserved == a.reserved - pages && r.charged == a.charged + pages
            && r.delegated == a.delegated
  {}

  lemma ReturnMoves(a: Accounts, pages: nat, account: Account)
    requires Return(a, true, pages, account).Ok?
    ensures var r := Return(a, true, pages, account).value;
            && r.total == a.total && r.reserved == a.reserved
            && r.charged == a.charged - (if account == Allocated then pages else 0)
                && r.delegated == a.delegated - (if account == Delegated then pages else 0)
  {}

  // ---- whole runs --------------------------------------------------------------------------------------

  lemma {:induction false} RunKeeps(s: State, steps: seq<Step>, e: State)
    requires Inv(s) && Run(s, steps, e)
    ensures Inv(e)
    decreases |steps|
  {
    hide Inv, Enabled, Next;
    if steps != [] {
      StepKeeps(s, steps[0]);
      RunKeeps(Next(s, steps[0]), steps[1..], e);
    }
  }

  function Initial(): State { State([], []) }

  /**
    In every run, each account of a pool is the sum of the tokens or children it stands for, and the four add up to the
    total.
  */
  lemma AccountsAreTokens(steps: seq<Step>, e: State, p: nat)
    requires Run(Initial(), steps, e) && p < |e.pools|
    ensures var a := e.pools[p].accounts;
            && a.available + a.reserved + a.charged + a.delegated == a.total
            && a.reserved == Sum(e.tokens, p, InReserve) && a.charged == Sum(e.tokens, p, InUse)
            && a.delegated == Sum(e.tokens, p, OnTheWay) + Children(e.pools, p)
    ensures 1 <= e.pools[p].depth <= MAX_DEPTH
  {
    RunKeeps(Initial(), steps, e);
    assert PoolInv(e, p);
  }

  /**
    In every run, a call that uses a token up succeeds on the token's own pool; on any other it is refused for that
    reason alone, and changes nothing.
  */
  lemma TokensNeverRefused(steps: seq<Step>, e: State, step: Step)
    requires Run(Initial(), steps, e) && Enabled(e, step)
    requires step.DoRollback? || step.DoCommit? || step.DoAdopt? || step.DoReturn? || step.DoReturnHome?
    ensures if e.tokens[step.t].pool == step.p then Try(e, step).Ok?
            else Try(e, step) == Err(WrongOwner) && Next(e, step) == e
  {
    RunKeeps(Initial(), steps, e);
    if e.tokens[step.t].pool == step.p {
      if step.DoAdopt? { AdoptKeeps(e, step.p, step.t); } else { TokenMoves(e, step, step.p, step.t); }
    }
  }

  /** In every run, a reserved delegation can be prepared under any identity but its parent's. */
  lemma DelegationPrepares(steps: seq<Step>, e: State, t: nat, identity: nat)
    requires Run(Initial(), steps, e) && Enabled(e, DoPrepare(t, identity))
    ensures Try(e, DoPrepare(t, identity))
         == if identity == e.pools[e.tokens[t].pool].identity then Err(InvalidTopology)
            else Ok(Next(e, DoPrepare(t, identity)))
  {
    RunKeeps(Initial(), steps, e);
    PrepareKeeps(e, t, identity);
  }

  /** In every run, the credit of each pool is of its own parent and for all it has: the topology test never fails. */
  lemma TopologyHolds(steps: seq<Step>, e: State, p: nat)
    requires Run(Initial(), steps, e) && p < |e.pools|
    ensures TopologyOk(e.pools[p])
    ensures e.pools[p].parent.Some? ==>
            e.pools[p].parent.value < p && e.pools[e.pools[p].parent.value].identity != e.pools[p].identity
  {
    RunKeeps(Initial(), steps, e);
    assert PoolInv(e, p);
  }

  /** The pool a live token is for is there to be called. */
  lemma OwnerAlive(steps: seq<Step>, e: State, t: nat)
    requires Run(Initial(), steps, e) && t < |e.tokens| && !e.tokens[t].Spent?
    ensures e.tokens[t].pool < |e.pools| && e.pools[e.tokens[t].pool].alive
  {
    RunKeeps(Initial(), steps, e);
    TokenCounted(e, t);
  }

  /** A pool can be given up exactly when no token and no live child of it is left. */
  lemma RetireWhenQuiet(steps: seq<Step>, e: State, p: nat)
    requires Run(Initial(), steps, e) && Enabled(e, DoRetire(p))
    ensures Try(e, DoRetire(p)).Ok? <==>
            Sum(e.tokens, p, InReserve) == 0 && Sum(e.tokens, p, InUse) == 0 && Sum(e.tokens, p, OnTheWay) == 0
            && Children(e.pools, p) == 0
  {
    RunKeeps(Initial(), steps, e);
    assert PoolInv(e, p);
  }

  // ---- conservation across the forest ------------------------------------------------------------------

  function HeldIn(q: Pool): nat {
    if q.alive then q.accounts.available + q.accounts.reserved + q.accounts.charged else 0
  }

  function RootPages(q: Pool): nat { if q.alive && q.parent == None then q.accounts.total else 0 }

  function Held(pools: seq<Pool>): nat {
    if pools == [] then 0 else Held(pools[..|pools| - 1]) + HeldIn(pools[|pools| - 1])
  }

  function Roots(pools: seq<Pool>): nat {
    if pools == [] then 0 else Roots(pools[..|pools| - 1]) + RootPages(pools[|pools| - 1])
  }

  function HomeWeight(t: Token): nat { if t.Homebound? then t.pages else 0 }

  function Travelling(tokens: seq<Token>): nat {
    if tokens == [] then 0 else Travelling(tokens[..|tokens| - 1]) + HomeWeight(tokens[|tokens| - 1])
  }

  lemma {:induction false} HeldPut(pools: seq<Pool>, p: nat, x: Pool)
    requires p < |pools|
    ensures Held(pools[p := x]) == Held(pools) - HeldIn(pools[p]) + HeldIn(x)
    ensures Roots(pools[p := x]) == Roots(pools) - RootPages(pools[p]) + RootPages(x)
  {
    var n := |pools| - 1;
    if p == n {
      assert pools[p := x][..n] == pools[..n];
    } else {
      assert pools[p := x][..n] == pools[..n][p := x];
      HeldPut(pools[..n], p, x);
    }
  }

  lemma HeldPush(pools: seq<Pool>, x: Pool)
    ensures Held(pools + [x]) == Held(pools) + HeldIn(x) && Roots(pools + [x]) == Roots(pools) + RootPages(x)
  {
    assert (pools + [x])[..|pools|] == pools;
  }

  lemma {:induction false} TravelPut(tokens: seq<Token>, t: nat, x: Token)
    requires t < |tokens|
    ensures Travelling(tokens[t := x]) == Travelling(tokens) - HomeWeight(tokens[t]) + HomeWeight(x)
  {
    var n := |tokens| - 1;
    if t == n {
      assert tokens[t := x][..n] == tokens[..n];
    } else {
      assert tokens[t := x][..n] == tokens[..n][t := x];
      TravelPut(tokens[..n], t, x);
    }
  }

  lemma TravelPush(tokens: seq<Token>, x: Token)
    ensures Travelling(tokens + [x]) == Travelling(tokens) + HomeWeight(x)
  {
    assert (tokens + [x])[..|tokens|] == tokens;
  }

  predicate Conserved(s: State) { Held(s.pools) + Travelling(s.tokens) == Roots(s.pools) }

  lemma StepConserves(s: State, step: Step)
    requires Inv(s) && Enabled(s, step) && Conserved(s)
    ensures Conserved(Next(s, step))
  {
    hide Sum, Children, Held, Roots, Travelling, Inv;
    if Try(s, step).Ok? {
      var n := Next(s, step);
      match step
      case DoRoot(_, total) => HeldPush(s.pools, n.pools[|s.pools|]);
      case DoReserve(p, pages) => HeldPut(s.pools, p, n.pools[p]); TravelPush(s.tokens, Charge(p, pages));
      case DoDelegate(p, pages) => HeldPut(s.pools, p, n.pools[p]); TravelPush(s.tokens, Delegation(p, pages));
      case DoRollback(p, t) => TokenConserves(s, step, p, t);
      case DoCommit(p, t) => TokenConserves(s, step, p, t);
      case DoReturn(p, t) => TokenConserves(s, step, p, t);
      case DoReturnHome(p, t) => TokenConserves(s, step, p, t);
      case DoPrepare(t, _) => TravelPut(s.tokens, t, n.tokens[t]);
      case DoAdopt(p, t) => AdoptConserves(s, p, t);
      case DoSplit(t, pages) =>
        TravelPut(s.tokens, t, n.tokens[t]);
        TravelPush(s.tokens[t := n.tokens[t]], n.tokens[|s.tokens|]);
      case DoMerge(t, u) =>
        TravelPut(s.tokens, t, n.tokens[t]);
        TravelPut(s.tokens[t := n.tokens[t]], u, Spent);
      case DoRetire(p) => RetireConserves(s, p);
    }
  }

  lemma TokenConserves(s: State, step: Step, p: nat, t: nat)
    requires Enabled(s, step) && step in {DoRollback(p, t), DoCommit(p, t), DoReturn(p, t), DoReturnHome(p, t)}
             && Try(s, step).Ok? && Conserved(s) && Inv(s)
    ensures Conserved(Next(s, step))
  {
    hide Sum, Children, Held, Roots, Travelling, Inv;
    var n := Next(s, step);
    TokenCounted(s, t);
    HeldPut(s.pools, p, n.pools[p]);
    TravelPut(s.tokens, t, n.tokens[t]);
  }

  lemma AdoptConserves(s: State, p: nat, t: nat)
    requires Enabled(s, DoAdopt(p, t)) && Try(s, DoAdopt(p, t)).Ok? && Conserved(s) && Inv(s)
    ensures Conserved(Next(s, DoAdopt(p, t)))
  {
    hide Sum, Children, Held, Roots, Travelling, Inv;
    var n := Next(s, DoAdopt(p, t));
    TokenCounted(s, t);
    HeldPut(s.pools, p, n.pools[p]);
    HeldPush(s.pools[p := n.pools[p]], n.pools[|s.pools|]);
    assert n.pools == s.pools[p := n.pools[p]] + [n.pools[|s.pools|]];
    TravelPut(s.tokens, t, Spent);
  }

  lemma RetireConserves(s: State, p: nat)
    requires Enabled(s, DoRetire(p)) && Try(s, DoRetire(p)).Ok? && Conserved(s) && Inv(s)
    ensures Conserved(Next(s, DoRetire(p)))
  {
    hide Sum, Children, Held, Roots, Travelling;
    assert PoolInv(s, p);
    var n := Next(s, DoRetire(p));
    HeldPut(s.pools, p, n.pools[p]);
    if s.pools[p].parent.Some? { TravelPush(s.tokens, Homebound(s.pools[p].parent.value, s.pools[p].accounts.total)); }
  }

  lemma {:induction false} RunConserves(s: State, steps: seq<Step>, e: State)
    requires Inv(s) && Conserved(s) && Run(s, steps, e)
    ensures Conserved(e)
    decreases |steps|
  {
    hide Inv, Enabled, Next, Conserved;
    if steps != [] {
      StepKeeps(s, steps[0]);
      StepConserves(s, steps[0]);
      RunConserves(Next(s, steps[0]), steps[1..], e);
    }
  }

  /**
    In every run no page is made or lost: what all live pools have available, reserved and charged, and what travels
    home, is what the live roots were given.
  */
  lemma PagesConserved(steps: seq<Step>, e: State)
    requires Run(Initial(), steps, e)
    ensures Held(e.pools) + Travelling(e.tokens) == Roots(e.pools)
  {
    RunConserves(Initial(), steps, e);
  }
}
