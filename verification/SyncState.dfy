/** The durable state of the sync engine, and the writes its awaits perform on it. */
module SyncState {
  import opened Wrappers

  datatype Iri = EntityGraph(id: string) | SchemaGraph(id: string) | GlobalGraph
  datatype EntityStatus = Current | Pending | Failed | Gap | Deleted | Restoring | Redirect

  datatype Row = Row(
    indexedRevision: nat,
    latestSeenRevision: nat,
    status: EntityStatus,
    checksum: Option<string>,
    errorCode: Option<string>)

  /** A place in the change log: a second, then an id within it. */
  datatype Position = Position(timestamp: nat, rcid: nat)

  predicate Before(a: Position, b: Position) {
    a.timestamp < b.timestamp || (a.timestamp == b.timestamp && a.rcid < b.rcid)
  }

  datatype Durable = Durable(
    rows: map<string, Row>,
    graphs: map<Iri, string>,
    registry: set<Iri>,
    schemaCurrent: bool,
    cursor: Option<Position>)

  function LoadEntity(rows: map<string, Row>, id: string): Row {
    if id in rows then rows[id] else Row(0, 0, Pending, None, None)
  }

  /** One awaited call that leaves a trace: each is atomic, and a crash can fall between any two. */
  datatype Write =
    | SaveEntity(id: string, row: Row)
    | ReplaceGraph(iri: Iri, rdf: string)
    | DeleteGraph(iri: Iri)
    | RegisterGraph(iri: Iri)
    | UnregisterGraph(iri: Iri)
    | SchemaIsCurrent
    | CommitEvent(cursor: Position, saved: Option<(string, Row)>)

  function Apply(d: Durable, w: Write): Durable {
    match w
    case SaveEntity(id, row) => d.(rows := d.rows[id := row])
    case ReplaceGraph(iri, rdf) => d.(graphs := d.graphs[iri := rdf])
    case DeleteGraph(iri) => d.(graphs := d.graphs - {iri})
    case RegisterGraph(iri) => d.(registry := d.registry + {iri})
    case UnregisterGraph(iri) => d.(registry := d.registry - {iri})
    case SchemaIsCurrent => d.(schemaCurrent := true)
    case CommitEvent(cursor, saved) =>
      d.(cursor := Some(cursor), rows := if saved.Some? then d.rows[saved.value.0 := saved.value.1] else d.rows)
  }

  function ApplyAll(d: Durable, ws: seq<Write>): Durable
    decreases |ws|
  {
    if ws == [] then d else ApplyAll(Apply(d, ws[0]), ws[1..])
  }

  lemma {:induction false} ApplyAppend(d: Durable, a: seq<Write>, b: seq<Write>)
    ensures ApplyAll(d, a + b) == ApplyAll(ApplyAll(d, a), b)
    decreases |a|
  {
    if a == [] {
      assert a + b == b;
    } else {
      assert (a + b)[1..] == a[1..] + b && (a + b)[0] == a[0];
      ApplyAppend(Apply(d, a[0]), a[1..], b);
    }
  }

  // ------------------------------------------------------ cell by cell

  datatype Place = RowOf(id: string) | GraphAt(iri: Iri) | RegisteredAt(iri: Iri) | SchemaFlag | CursorCell
  datatype Cell =
    | RowCell(row: Option<Row>)
    | GraphCell(rdf: Option<string>)
    | FlagCell(flag: bool)
    | PositionCell(at: Option<Position>)

  function Look(d: Durable, p: Place): Cell {
    match p
    case RowOf(id) => RowCell(if id in d.rows then Some(d.rows[id]) else None)
    case GraphAt(iri) => GraphCell(if iri in d.graphs then Some(d.graphs[iri]) else None)
    case RegisteredAt(iri) => FlagCell(iri in d.registry)
    case SchemaFlag => FlagCell(d.schemaCurrent)
    case CursorCell => PositionCell(d.cursor)
  }

  function Touched(w: Write): set<Place> {
    match w
    case SaveEntity(id, _) => {RowOf(id)}
    case ReplaceGraph(iri, _) => {GraphAt(iri)}
    case DeleteGraph(iri) => {GraphAt(iri)}
    case RegisterGraph(iri) => {RegisteredAt(iri)}
    case UnregisterGraph(iri) => {RegisteredAt(iri)}
    case SchemaIsCurrent => {SchemaFlag}
    case CommitEvent(_, saved) => {CursorCell} + (if saved.Some? then {RowOf(saved.value.0)} else {})
  }

  function TouchedAll(ws: seq<Write>): set<Place> {
    if ws == [] then {} else Touched(ws[0]) + TouchedAll(ws[1..])
  }

  lemma SameCells(a: Durable, b: Durable)
    requires forall p :: Look(a, p) == Look(b, p)
    ensures a == b
  {
    forall id ensures id in a.rows <==> id in b.rows
              ensures id in a.rows ==> a.rows[id] == b.rows[id] { assert Look(a, RowOf(id)) == Look(b, RowOf(id)); }
    forall iri ensures iri in a.graphs <==> iri in b.graphs
               ensures iri in a.graphs ==>
                 a.graphs[iri] == b.graphs[iri] { assert Look(a, GraphAt(iri)) == Look(b, GraphAt(iri)); }
    forall iri
      ensures iri in a.registry <==> iri in b.registry
    {
      assert Look(a, RegisteredAt(iri)) == Look(b, RegisteredAt(iri));
    }
    assert a.rows == b.rows && a.graphs == b.graphs && a.registry == b.registry;
    assert Look(a, SchemaFlag) == Look(b, SchemaFlag) && Look(a, CursorCell) == Look(b, CursorCell);
  }

  /** A write leaves alone what it does not touch, and what it leaves behind does not depend on what was there. */
  lemma WriteIsBlind(a: Durable, b: Durable, w: Write, p: Place)
    ensures p !in Touched(w) ==> Look(Apply(a, w), p) == Look(a, p)
    ensures p in Touched(w) ==> Look(Apply(a, w), p) == Look(Apply(b, w), p)
  {}

  lemma {:induction false} WritesAreBlind(a: Durable, b: Durable, ws: seq<Write>, p: Place)
    ensures p !in TouchedAll(ws) ==> Look(ApplyAll(a, ws), p) == Look(a, p)
    ensures p in TouchedAll(ws) || Look(a, p) == Look(b, p) ==> Look(ApplyAll(a, ws), p) == Look(ApplyAll(b, ws), p)
    decreases |ws|
  {
    if ws != [] {
      WriteIsBlind(a, b, ws[0], p);
      WriteIsBlind(b, a, ws[0], p);
      WritesAreBlind(Apply(a, ws[0]), Apply(b, ws[0]), ws[1..], p);
    }
  }

  lemma {:induction false} TouchedPrefix(ws: seq<Write>, n: nat)
    requires n <= |ws|
    ensures TouchedAll(ws[..n]) <= TouchedAll(ws)
  {
    if n > 0 {
      TouchedPrefix(ws[1..], n - 1);
      assert ws[..n][1..] == ws[1..][..n - 1];
    }
  }

  /** States that differ only where `ws` writes are brought together by `ws`. */
  lemma Converge(a: Durable, b: Durable, ws: seq<Write>)
    requires forall p :: p !in TouchedAll(ws) ==> Look(a, p) == Look(b, p)
    ensures ApplyAll(a, ws) == ApplyAll(b, ws)
  {
    forall p ensures Look(ApplyAll(a, ws), p) == Look(ApplyAll(b, ws), p) { WritesAreBlind(a, b, ws, p); }
    SameCells(ApplyAll(a, ws), ApplyAll(b, ws));
  }

  /** Starting the same writes over, after any number of them, ends where one uninterrupted pass ends. */
  lemma Redo(d: Durable, ws: seq<Write>, n: nat)
    requires n <= |ws|
    ensures ApplyAll(ApplyAll(d, ws[..n]), ws) == ApplyAll(d, ws)
  {
    TouchedPrefix(ws, n);
    forall p | p !in TouchedAll(ws)
      ensures Look(ApplyAll(d, ws[..n]), p) == Look(d, p)
    {
      WritesAreBlind(d, d, ws[..n], p);
    }
    Converge(ApplyAll(d, ws[..n]), d, ws);
  }
}
