/** The plan of a new mapping: optional guards around one mapping in an empty place. */
module SpaceMap {
  import opened Wrappers
  import opened SpaceLedger
  import opened SpacePieces
  import opened SpaceState

  datatype Placement = Anywhere | FixedEmpty(usableStart: nat)

  datatype Backing =
    | AnonymousBacking(identity: nat, initialExecutable: bool)
    | ObjectBacking(id: nat, maximum: Protection, bytes: nat, offset: nat)

  datatype MapRequest = MapRequest(bytes: nat, guardBefore: nat, guardAfter: nat, placement: Placement,
                                   current: Protection, maximum: Protection, owner: Owner, backing: Backing,
                                       result: Option<Range>)

  /** Bytes rounded up to whole pages. */
  function Rounded(bytes: nat): (r: nat)
    ensures bytes <= r < bytes + PAGE_SIZE && OnPage(r)
  {
    (bytes + PAGE_SIZE - 1) / PAGE_SIZE * PAGE_SIZE
  }

  lemma OnPageSum(a: nat, b: nat)
    requires OnPage(a) && OnPage(b)
    ensures OnPage(a + b) && (a >= b ==> OnPage(a - b))
  {}

  /** Why the backing cannot serve the request, if so. */
  function BackingFault(r: MapRequest, usableBytes: nat): Option<ChangeError> {
    match r.backing
    case AnonymousBacking(_, initialExecutable) =>
      if r.maximum == (if initialExecutable then ReadWrite else ReadExecute) then Some(PermissionDenied) else None
    case ObjectBacking(_, maximum, bytes, offset) =>
      if maximum != r.maximum then Some(ObjectAuthorization)
      else if offset + usableBytes > bytes then Some(BackingOutOfRange) else None
  }

  function MapKind(r: MapRequest): Kind {
    match r.backing
    case AnonymousBacking(identity, initialExecutable) =>
      Mapping(Anonymous(identity, initialExecutable), 0, r.current, r.maximum)
    case ObjectBacking(id, _, _, offset) => Mapping(Object(id), offset, r.current, r.maximum)
  }

  function ViewOf(r: MapRequest): Option<(nat, Protection)> {
    match r.backing
    case AnonymousBacking(_, _) => None
    case ObjectBacking(id, maximum, _, _) => Some((id, maximum))
  }

  function NewTemplate(range: Range, owner: Owner, kind: Kind): Template {
    Template(Body(0, range, owner, kind), true, false)
  }

  function GuardAt(range: Range, owner: Owner): seq<Template> {
    if range.start < range.end then [NewTemplate(range, owner, Guard)] else []
  }

  /** Guard, mapping, guard. */
  function MapTemplates(place: Range, usable: Range, owner: Owner, kind: Kind): seq<Template> {
    GuardAt(Range(place.start, usable.start), owner) + [NewTemplate(usable, owner, kind)]
        + GuardAt(Range(usable.end, place.end), owner)
  }

  function MapIntents(usable: Range, kind: Kind): seq<Intent>
    requires kind.Mapping?
  {
    [Install(usable, kind.source, kind.offset, kind.current)]
  }

  function MapChange(r: MapRequest, place: Range, usable: Range, snapshot: seq<nat>, lease: Option<Lease>): Validated {
    var ts := MapTemplates(place, usable, r.owner, MapKind(r));
    Validated(Plan(OpMap, [], ts, [], MapIntents(usable, MapKind(r)), place), snapshot, lease, |ts|, ViewOf(r))
  }

  ghost predicate LeaseKnown(deeds: map<nat, Region>, lease: Option<Lease>) {
    lease.Some? ==>
        Tiled(lease.value)
        && forall i :: 0 <= i < |lease.value.segments| ==> SegmentKnown(deeds, lease.value.segments[i])
  }

  /** Each address of the place is what its template says; only the mapping is translated. */
  lemma MapMirrored(place: Range, usable: Range, owner: Owner, kind: Kind)
    requires kind.Mapping? && Contains(place, usable) && usable.start < usable.end
    ensures Mirrored([], TemplateBodies(MapTemplates(place, usable, owner, kind)), MapIntents(usable, kind))
  {
    hide View, TemplateBodies, Ledger;
    var ts, todo := MapTemplates(place, usable, owner, kind), MapIntents(usable, kind);
    forall x: nat ensures MirroredAt([], TemplateBodies(ts), todo, x) {
      MapSeen(place, usable, owner, kind, x);
      NothingSeen(x);
      InstallApplied(usable, kind, x);
    }
  }

  lemma InstallApplied(usable: Range, kind: Kind, x: nat)
    requires kind.Mapping?
    ensures Apply(MapIntents(usable, kind), x, None)
         == if Within(usable, x) then Some(Leaf(kind.source, kind.offset + (x - usable.start), kind.current)) else None
    ensures !Within(usable, x) ==> Untouched(MapIntents(usable, kind), x)
  {
    var todo := MapIntents(usable, kind);
    assert todo[..0] == [];
    assert Apply(todo[..0], x, None) == None;
  }

  lemma MapSeen(place: Range, usable: Range, owner: Owner, kind: Kind, x: nat)
    requires Contains(place, usable) && usable.start < usable.end
    ensures Seen(MapTemplates(place, usable, owner, kind), x)
         == if Within(usable, x) then Some(Cell(0, owner, Shifted(kind, x - usable.start)))
            else if Within(place, x) then Some(Cell(0, owner, Guard)) else None
  {
    hide Seen;
    var a, b, c := GuardAt(Range(place.start, usable.start), owner), [NewTemplate(usable, owner, kind)],
        GuardAt(Range(usable.end, place.end), owner);
    SeenConcat(a + b, c, x);
    SeenConcat(a, b, x);
    PieceSeen(a, x);
    PieceSeen(b, x);
    PieceSeen(c, x);
  }

  lemma MapNeat(place: Range, usable: Range, owner: Owner, kind: Kind)
    requires Contains(place, usable) && usable.start < usable.end
    ensures Neat(MapTemplates(place, usable, owner, kind))
            && Inside(MapTemplates(place, usable, owner, kind), place.start, place.end)
  {
    var a, b, c := GuardAt(Range(place.start, usable.start), owner), [NewTemplate(usable, owner, kind)],
        GuardAt(Range(usable.end, place.end), owner);
    NeatConcat(a, b, place.start, usable.start, usable.end);
    NeatConcat(a + b, c, place.start, usable.end, place.end);
  }

  /** The plan of a new mapping keeps its promises. */
  lemma MapValid(deeds: map<nat, Region>, bounds: Range, r: MapRequest, place: Range, usable: Range,
                 snapshot: seq<nat>, lease: Option<Lease>)
    requires Paged(place) && Paged(usable) && Contains(place, usable) && Contains(bounds, place)
             && Permits(r.maximum, r.current)
    requires BackingFault(r, usable.end - usable.start) == None && Known(deeds, snapshot) && LeaseKnown(deeds, lease)
    ensures ValidatedOk(deeds, bounds, MapChange(r, place, usable, snapshot, lease))
  {
    hide Mirrored, OnPage, Known, Deeded, Sorted, SegmentKnown, Tiled;
    var ts := MapTemplates(place, usable, r.owner, MapKind(r));
    MapMirrored(place, usable, r.owner, MapKind(r));
    MapNeat(place, usable, r.owner, MapKind(r));
    NothingKnown(deeds);
    MapOk(r, place, usable);
  }

  lemma NothingKnown(deeds: map<nat, Region>)
    ensures Known(deeds, []) && Deeded(deeds, []) == []
  {}

  lemma MapOk(r: MapRequest, place: Range, usable: Range)
    requires Paged(place) && Paged(usable) && Contains(place, usable) && Permits(r.maximum, r.current)
    requires BackingFault(r, usable.end - usable.start) == None
    ensures var ts := MapTemplates(place, usable, r.owner, MapKind(r));
            && (forall i :: 0 <= i < |ts| ==> TemplateOk(OpMap, ts[i]))
            && (forall i ::
                0 <= i < |ts| ==> Paged(TemplateBodies(ts)[i].range) && Contains(place, TemplateBodies(ts)[i].range))
            && (forall i ::
                0 <= i < |ts| && ts[i].body.kind.Mapping? && ts[i].body.kind.source.Object? ==>
                ViewOf(r) == Some((ts[i].body.kind.source.id, ts[i].body.kind.maximum)))
  {
    hide OnPage;
  }
}
