/** The four accounts of a memory pool and the moves between them. */
module MemoryPool {
  import opened Wrappers

  const MAX_DEPTH: nat := 32

  datatype PoolError = ZeroAmount | InvalidSplit | QuotaExceeded | DepthLimit | ArithmeticOverflow | InvalidTopology
      | WrongOwner | InvariantViolation

  datatype Accounts = Accounts(total: nat, available: nat, reserved: nat, charged: nat, delegated: nat)

  datatype Account = Allocated | Delegated

  predicate Closes(a: Accounts) { a.available + a.reserved + a.charged + a.delegated == a.total <= U64_MAX }

  function Fresh(total: nat): Accounts { Accounts(total, total, 0, 0, 0) }

  predicate FullyAvailable(a: Accounts) {
    a.available == a.total && a.reserved == 0 && a.charged == 0 && a.delegated == 0
  }

  function Balance(a: Accounts, account: Account): nat { if account == Allocated then a.charged else a.delegated }

  function SetBalance(a: Accounts, account: Account, n: nat): Accounts {
    if account == Allocated then a.(charged := n) else a.(delegated := n)
  }

  function Reserve(a: Accounts, pages: nat): Result<Accounts, PoolError> {
    if pages == 0 then Err(ZeroAmount)
    else if a.available < pages then Err(QuotaExceeded)
    else if a.reserved + pages > U64_MAX then Err(ArithmeticOverflow)
    else Ok(a.(available := a.available - pages, reserved := a.reserved + pages))
  }

  function Rollback(a: Accounts, mine: bool, pages: nat): Result<Accounts, PoolError> {
    if !mine then Err(WrongOwner)
    else if pages == 0 then Err(ZeroAmount)
    else if a.reserved < pages then Err(InvariantViolation)
    else if a.available + pages > U64_MAX then Err(ArithmeticOverflow)
    else if a.available + pages > a.total then Err(InvariantViolation)
    else Ok(a.(reserved := a.reserved - pages, available := a.available + pages))
  }

  function Commit(a: Accounts, mine: bool, pages: nat, account: Account): Result<Accounts, PoolError> {
    if !mine then Err(WrongOwner)
    else if pages == 0 then Err(ZeroAmount)
    else if a.reserved < pages then Err(InvariantViolation)
    else if Balance(a, account) + pages > U64_MAX then Err(ArithmeticOverflow)
    else Ok(SetBalance(a.(reserved := a.reserved - pages), account, Balance(a, account) + pages))
  }

  function Return(a: Accounts, mine: bool, pages: nat, account: Account): Result<Accounts, PoolError> {
    if !mine then Err(WrongOwner)
    else if pages == 0 then Err(ZeroAmount)
    else if Balance(a, account) < pages then Err(InvariantViolation)
    else if a.available + pages > U64_MAX then Err(ArithmeticOverflow)
    else if a.available + pages > a.total then Err(InvariantViolation)
    else Ok(SetBalance(a, account, Balance(a, account) - pages).(available := a.available + pages))
  }

  /**
    In accounts that close nothing overflows: a move is refused only for want of pages or ownership, and the accounts
    go on closing.
  */
  lemma MovesClose(a: Accounts, mine: bool, pages: nat, account: Account)
    requires Closes(a)
    ensures Reserve(a, pages).Ok? <==> 0 < pages <= a.available
    ensures Rollback(a, mine, pages).Ok? <==> mine && 0 < pages <= a.reserved
    ensures Commit(a, mine, pages, account).Ok? <==> mine && 0 < pages <= a.reserved
    ensures Return(a, mine, pages, account).Ok? <==> mine && 0 < pages <= Balance(a, account)
    ensures Reserve(a, pages).Ok? ==> Closes(Reserve(a, pages).value)
    ensures Rollback(a, mine, pages).Ok? ==> Closes(Rollback(a, mine, pages).value)
    ensures Commit(a, mine, pages, account).Ok? ==> Closes(Commit(a, mine, pages, account).value)
    ensures Return(a, mine, pages, account).Ok? ==> Closes(Return(a, mine, pages, account).value)
  {}

  /** Reserving and rolling back, and reserving, committing and returning, leave the accounts as they were. */
  lemma MovesUndone(a: Accounts, pages: nat, account: Account)
    requires Closes(a) && 0 < pages <= a.available
    ensures var r := Reserve(a, pages).value;
            && Rollback(r, true, pages) == Ok(a)
            && Commit(r, true, pages, account).Ok?
                && Return(Commit(r, true, pages, account).value, true, pages, account) == Ok(a)
  {
    MovesClose(a, true, pages, account);
    MovesClose(Reserve(a, pages).value, true, pages, account);
  }

  class PoolState {
    const key: nat
    const depth: nat
    const total: nat
    var available: nat
    var reserved: nat
    var charged: nat
    var delegated: nat

    ghost predicate Valid()
      reads this
    {
      Closes(Now())
    }

    ghost function Now(): Accounts
      reads this
    {
      Accounts(total, available, reserved, charged, delegated)
    }

    constructor (owner: nat, level: nat, pages: nat)
      requires 0 < pages <= U64_MAX
      ensures Valid() && Now() == Fresh(pages) && key == owner && depth == level
    {
      key, depth, total := owner, level, pages;
      available, reserved, charged, delegated := pages, 0, 0, 0;
    }

    method ReservePages(pages: nat) returns (r: Result<nat, PoolError>)
      requires Valid()
      modifies this
      ensures Valid()
              && r == (if Reserve(old(Now()), pages).Ok? then Ok(pages) else Err(Reserve(old(Now()), pages).error))
      ensures Now() == if r.Ok? then Reserve(old(Now()), pages).value else old(Now())
    {
      if pages == 0 { return Err(ZeroAmount); }
      if available < pages { return Err(QuotaExceeded); }
      if reserved + pages > U64_MAX { return Err(ArithmeticOverflow); }
      available := available - pages;
      reserved := reserved + pages;
      return Ok(pages);
    }

    /** Delegating needs room below the depth limit; the child is one level down. */
    method ReserveDelegation(pages: nat) returns (r: Result<nat, PoolError>)
      requires Valid()
      modifies this
      ensures Valid() && (depth >= MAX_DEPTH ==> r == Err(DepthLimit))
              && (r.Ok? ==> r.value == depth + 1 <= MAX_DEPTH && Reserve(old(Now()), pages).Ok?)
      ensures depth < MAX_DEPTH && r.Err? ==> Reserve(old(Now()), pages) == Err(r.error)
      ensures Now() == if r.Ok? then Reserve(old(Now()), pages).value else old(Now())
    {
      if depth >= MAX_DEPTH { return Err(DepthLimit); }
      var reserve := ReservePages(pages);
      if reserve.Err? { return Err(reserve.error); }
      return Ok(depth + 1);
    }

    method RollbackPages(owner: nat, pages: nat) returns (r: Result<nat, PoolError>)
      requires Valid()
      modifies this
      ensures Valid()
              && r == (if Rollback(old(Now()), owner == key, pages).Ok? then Ok(pages)
                       else Err(Rollback(old(Now()), owner == key, pages).error))
      ensures Now() == if r.Ok? then Rollback(old(Now()), owner == key, pages).value else old(Now())
    {
      if owner != key { return Err(WrongOwner); }
      if pages == 0 { return Err(ZeroAmount); }
      if reserved < pages { return Err(InvariantViolation); }
      if available + pages > U64_MAX { return Err(ArithmeticOverflow); }
      if available + pages > total { return Err(InvariantViolation); }
      reserved := reserved - pages;
      available := available + pages;
      return Ok(pages);
    }

    method CommitReserved(owner: nat, pages: nat, account: Account) returns (r: Result<nat, PoolError>)
      requires Valid()
      modifies this
      ensures Valid()
              && r == (if Commit(old(Now()), owner == key, pages, account).Ok? then Ok(pages)
                       else Err(Commit(old(Now()), owner == key, pages, account).error))
      ensures Now() == if r.Ok? then Commit(old(Now()), owner == key, pages, account).value else old(Now())
    {
      if owner != key { return Err(WrongOwner); }
      if pages == 0 { return Err(ZeroAmount); }
      if reserved < pages { return Err(InvariantViolation); }
      var value := (if account == Allocated then charged else delegated) + pages;
      if value > U64_MAX { return Err(ArithmeticOverflow); }
      reserved := reserved - pages;
      if account == Allocated { charged := value; } else { delegated := value; }
      return Ok(pages);
    }

    method ReturnCredit(owner: nat, pages: nat, account: Account) returns (r: Result<nat, PoolError>)
      requires Valid()
      modifies this
      ensures Valid()
              && r == (if Return(old(Now()), owner == key, pages, account).Ok? then Ok(pages)
                       else Err(Return(old(Now()), owner == key, pages, account).error))
      ensures Now() == if r.Ok? then Return(old(Now()), owner == key, pages, account).value else old(Now())
    {
      if owner != key { return Err(WrongOwner); }
      if pages == 0 { return Err(ZeroAmount); }
      var source := if account == Allocated then charged else delegated;
      if source < pages { return Err(InvariantViolation); }
      if available + pages > U64_MAX { return Err(ArithmeticOverflow); }
      if available + pages > total { return Err(InvariantViolation); }
      if account == Allocated { charged := source - pages; } else { delegated := source - pages; }
      available := available + pages;
      return Ok(pages);
    }
  }
}
