/** A memory object on its one-way path from mutable to executable, and the permits of its writable views. */
module ObjectState {
  import opened Wrappers
  import opened SpaceLedger

  datatype ExecutableState = Mutable | Sealing | Executable

  datatype ObjectError = ViewDenied | PermitDenied | PermitLimit | PermitOverflow

  datatype SealOutcome = Published | Pending

  datatype Obj = Obj(state: ExecutableState, permits: nat, limit: nat)

  /** Which maximum protection a view may ask for. */
  predicate MayView(o: Obj, maximum: Protection) {
    match o.state
    case Mutable => maximum != ReadExecute
    case Sealing => maximum == ReadOnly
    case Executable => maximum != ReadWrite
  }

  /** Why `count` permits, `newWrites` of them for new writers, are refused, if so. */
  function WriteRefusal(o: Obj, count: nat, newWrites: nat): Option<ObjectError> {
    if count == 0 then None
    else if newWrites > count then Some(PermitOverflow)
    else if o.state == Executable || (o.state == Sealing && newWrites != 0) then Some(PermitDenied)
    else if o.permits + count > o.limit then Some(PermitLimit)
    else None
  }

  function Granted(o: Obj, count: nat): Obj { o.(permits := o.permits + count) }

  function Released(o: Obj): Obj
    requires o.permits > 0
  {
    var p := o.permits - 1;
    o.(permits := p, state := if o.state == Sealing && p == 0 then Executable else o.state)
  }

  function Sealed(o: Obj): Obj {
    if o.state == Mutable then o.(state := if o.permits == 0 then Executable else Sealing) else o
  }

  /** An executable object has no writer, a sealing one still has. */
  predicate ObjOk(o: Obj) {
    && (o.state == Executable ==> o.permits == 0) && (o.state == Sealing ==> o.permits > 0) && o.permits <= o.limit
  }

  class MemoryObjectState {
    var state: ExecutableState
    var permits: nat
    const permitLimit: nat

    function Value(): Obj
      reads this
    {
      Obj(state, permits, permitLimit)
    }

    ghost predicate Valid()
      reads this
    {
      ObjOk(Value())
    }

    constructor (limit: nat)
      ensures Valid() && Value() == Obj(Mutable, 0, limit)
    {
      state, permits, permitLimit := Mutable, 0, limit;
    }

    method AuthorizeView(maximum: Protection) returns (ok: bool)
      ensures ok <==> MayView(Value(), maximum)
    {
      match state {
        case Mutable => ok := maximum != ReadExecute;
        case Sealing => ok := maximum == ReadOnly;
        case Executable => ok := maximum != ReadWrite;
      }
    }

    /** Permits for writable views, or a refusal that changes nothing. */
    method ReserveWrites(count: nat, newWrites: nat) returns (refusal: Option<ObjectError>)
      requires Valid()
      modifies this`permits
      ensures Valid() && refusal == WriteRefusal(old(Value()), count, newWrites)
      ensures Value() == if refusal.None? then Granted(old(Value()), count) else old(Value())
    {
      if count == 0 { return None; }
      if newWrites > count { return Some(PermitOverflow); }
      if state == Executable || (state == Sealing && newWrites != 0) { return Some(PermitDenied); }
      if permits + count > permitLimit { return Some(PermitLimit); }
      permits := permits + count;
      return None;
    }

    /** One permit gone; true when it was the last that sealing waited for. */
    method ReleaseOne() returns (published: bool)
      requires Valid() && permits > 0
      modifies this
      ensures Valid() && Value() == Released(old(Value()))
              && published == (old(state) != Executable && state == Executable)
    {
      permits := permits - 1;
      published := state == Sealing && permits == 0;
      if published { state := Executable; }
    }

    method Seal() returns (r: SealOutcome)
      requires Valid()
      modifies this`state
      ensures Valid() && Value() == Sealed(old(Value())) && (r == Published <==> state == Executable)
    {
      if state == Mutable { state := if permits == 0 then Executable else Sealing; }
      r := if state == Executable then Published else Pending;
    }
  }
}
