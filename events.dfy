/**
 * Revertible connection events (gaphor/diagram/connectors.py,
 * `ItemConnected`, `ItemDisconnected`, `ItemTemporaryDisconnected`,
 * `ItemReconnected`).  An event records a connection by the position of the
 * handle among the item's handles, the id of the connected item and the
 * position of the port among that item's ports; reverting it on a target
 * item undoes the diagram-level change the event stands for.
 */
module Events {
  import opened Wrappers
  import opened Modeling

  datatype EventKind = Connected | Disconnected | TemporaryDisconnected | Reconnected

  datatype ConnectionEvent = ConnectionEvent(
    kind: EventKind,
    element: ItemId,
    handleIndex: nat,
    connectedId: ItemId,
    portIndex: nat)

  /** The outcome of a revert: the new state, and the event it hands to the target, if any. */
  datatype Reverted = Reverted(st: State, emitted: Option<ConnectionEvent>)

  /**
   * The event constructors: `element.handles().index(handle)` and
   * `connected.ports().index(port)`, each failing with `ValueError` when
   * the handle or the port does not belong to its item.
   */
  function Capture(st: State, kind: EventKind, element: ItemId, handle: HandleId, connected: ItemId, port: PortId): (r: Result<ConnectionEvent>)
    requires element in st.items && connected in st.items
    ensures r.Ok? <==> handle in st.items[element].handles && port in st.items[connected].ports
    ensures r.Fail? ==> r.fault == ValueError
    ensures r.Ok? ==>
      r.value.kind == kind && r.value.element == element && r.value.connectedId == connected &&
      r.value.handleIndex < |st.items[element].handles| && st.items[element].handles[r.value.handleIndex] == handle &&
      r.value.portIndex < |st.items[connected].ports| && st.items[connected].ports[r.value.portIndex] == port
  {
    match IndexOf(st.items[element].handles, handle)
    case Fail(f) => Fail(f)
    case Ok(hi) =>
      match IndexOf(st.items[connected].ports, port)
      case Fail(f) => Fail(f)
      case Ok(pi) => Ok(ConnectionEvent(kind, element, hi, connected, pi))
  }

  /** `diagram.lookup(id)`: the item with that id among those on the diagram. */
  function Lookup(st: State, d: DiagramId, id: ItemId): (r: Option<ItemId>)
    ensures r.Some? <==> id in st.items && st.items[id].diagram == Some(d)
    ensures r.Some? ==> r.value == id
  {
    if id in st.items && st.items[id].diagram == Some(d) then Some(id) else None
  }

  /** `target.handles()[i]`. */
  function HandleAt(st: State, target: ItemId, i: nat): Result<HandleId>
    requires target in st.items
  {
    if i < |st.items[target].handles| then Ok(st.items[target].handles[i]) else Fail(IndexError)
  }

  /** `target.diagram`; its `connections` cannot be reached without one. */
  function DiagramOf(st: State, target: ItemId): Result<DiagramId>
    requires target in st.items
  {
    match st.items[target].diagram
    case Some(d) => Ok(d)
    case None => Fail(AttributeError)
  }

  /**
   * The sink of a revert that connects again: the item `connectedId` on diagram
   * `d` (an `AttributeError` when the diagram has no such item) and its port
   * at `portIndex` (an `IndexError` when there are fewer ports).
   */
  function Sink(st: State, d: DiagramId, ev: ConnectionEvent): (r: Result<(ItemId, PortId)>)
    ensures r.Ok? ==> r.value.0 == ev.connectedId && r.value.0 in st.items
  {
    match Lookup(st, d, ev.connectedId)
    case None => Fail(AttributeError)
    case Some(connected) =>
      if ev.portIndex < |st.items[connected].ports| then Ok((connected, st.items[connected].ports[ev.portIndex]))
      else Fail(IndexError)
  }

  /** `ItemConnected.revert`: disconnect the target's handle. */
  function RevertConnected(st: State, ev: ConnectionEvent, target: ItemId): Result<Reverted>
    requires target in st.items
  {
    match DiagramOf(st, target)
    case Fail(f) => Fail(f)
    case Ok(d) =>
      match HandleAt(st, target, ev.handleIndex)
      case Fail(f) => Fail(f)
      case Ok(h) => Ok(Reverted(DisconnectItem(st, d, target, h), None))
  }

  /** `ItemDisconnected.revert`: connect the target's handle to the recorded port again. */
  function RevertDisconnected(st: State, ev: ConnectionEvent, target: ItemId): Result<Reverted>
    requires target in st.items
  {
    match HandleAt(st, target, ev.handleIndex)
    case Fail(f) => Fail(f)
    case Ok(h) =>
      match DiagramOf(st, target)
      case Fail(f) => Fail(f)
      case Ok(d) =>
        match Sink(st, d, ev)
        case Fail(f) => Fail(f)
        case Ok(sink) =>
          match ConnectItem(st, d, target, h, sink.0, sink.1)
          case Fail(f) => Fail(f)
          case Ok(st') => Ok(Reverted(st', None))
  }

  /** `ItemTemporaryDisconnected.revert`: reconnect the target's handle to the recorded port. */
  function RevertTemporaryDisconnected(st: State, ev: ConnectionEvent, target: ItemId): Result<Reverted>
    requires target in st.items
  {
    match HandleAt(st, target, ev.handleIndex)
    case Fail(f) => Fail(f)
    case Ok(h) =>
      match DiagramOf(st, target)
      case Fail(f) => Fail(f)
      case Ok(d) =>
        match Sink(st, d, ev)
        case Fail(f) => Fail(f)
        case Ok(sink) =>
          match ReconnectItem(st, d, h, sink.1)
          case Fail(f) => Fail(f)
          case Ok(st') => Ok(Reverted(st', None))
  }

  /**
   * `ItemReconnected.revert`: drop the constraint of the target handle's
   * connection and hand the target an `ItemTemporaryDisconnected` for it;
   * a handle without a connection fails with `AttributeError`.
   */
  function RevertReconnected(st: State, ev: ConnectionEvent, target: ItemId): Result<Reverted>
    requires target in st.items && RegistriesValid(st)
  {
    match DiagramOf(st, target)
    case Fail(f) => Fail(f)
    case Ok(d) =>
      match HandleAt(st, target, ev.handleIndex)
      case Fail(f) => Fail(f)
      case Ok(h) =>
        match GetConnection(Registry(st, d), h)
        case None => Fail(AttributeError)
        case Some(cinfo) =>
          assert cinfo.connected in st.items by {
            var k := RecordIndex(Registry(st, d), h);
            assert ConnectionsValid(st.items, st.connections[d]);
          }
          match Capture(st, TemporaryDisconnected, target, h, cinfo.connected, cinfo.port)
          case Fail(f) => Fail(f)
          case Ok(ev') => Ok(Reverted(RemoveConstraint(st, d, h), Some(ev')))
  }

  /** `event.revert(target)`. */
  function Revert(st: State, ev: ConnectionEvent, target: ItemId): Result<Reverted>
    requires target in st.items && RegistriesValid(st)
  {
    match ev.kind
    case Connected => RevertConnected(st, ev, target)
    case Disconnected => RevertDisconnected(st, ev, target)
    case TemporaryDisconnected => RevertTemporaryDisconnected(st, ev, target)
    case Reconnected => RevertReconnected(st, ev, target)
  }

  /**
   * The state a revert that raises leaves behind.  Every revert raises
   * before it changes anything, except `ItemReconnected.revert`: it drops
   * the constraint first and only then builds the `ItemTemporaryDisconnected`,
   * which raises `ValueError` when the recorded port is not among the
   * connected item's ports.
   */
  function RaisedState(st: State, ev: ConnectionEvent, target: ItemId): State
    requires target in st.items
  {
    if ev.kind == Reconnected && DiagramOf(st, target).Ok? && HandleAt(st, target, ev.handleIndex).Ok? then
      RemoveConstraint(st, DiagramOf(st, target).value, HandleAt(st, target, ev.handleIndex).value)
    else st
  }

  /**
   * The late failure of `ItemReconnected.revert`: once the target handle's
   * record is found, the revert fails exactly when its port is not a port of
   * the connected item, with `ValueError`, and the constraint is gone by then.
   * Any other failing revert leaves the state as it was.
   */
  lemma RaisedStateCases(st: State, ev: ConnectionEvent, target: ItemId)
    requires target in st.items && RegistriesValid(st)
    ensures ev.kind != Reconnected ==> RaisedState(st, ev, target) == st
    ensures ev.kind == Reconnected && DiagramOf(st, target).Ok? && HandleAt(st, target, ev.handleIndex).Ok? ==>
      var d := DiagramOf(st, target).value;
      var h := HandleAt(st, target, ev.handleIndex).value;
      var found := GetConnection(Registry(st, d), h);
      (found.None? ==> Revert(st, ev, target) == Fail(AttributeError) && RaisedState(st, ev, target) == st) &&
      (found.Some? ==>
         found.value.connected in st.items &&
         (Revert(st, ev, target).Fail? <==> found.value.port !in st.items[found.value.connected].ports) &&
         (Revert(st, ev, target).Fail? ==>
            Revert(st, ev, target).fault == ValueError &&
            GetConnection(Registry(RaisedState(st, ev, target), d), h) == Some(found.value.(constrained := false))))
  {
  }

  // ---------------------------------------------------------------------
  // Reverting keeps the store valid
  // ---------------------------------------------------------------------

  lemma RevertKeepsValid(st: State, ev: ConnectionEvent, target: ItemId)
    requires StoreValid(st) && target in st.items
    requires Revert(st, ev, target).Ok?
    ensures StoreValid(Revert(st, ev, target).value.st)
    ensures Revert(st, ev, target).value.st.items == st.items
    ensures Revert(st, ev, target).value.st.elements == st.elements
    ensures Revert(st, ev, target).value.emitted.Some? ==> ev.kind == Reconnected
  {
    match ev.kind
    case Connected =>
      var d := DiagramOf(st, target).value;
      var h := HandleAt(st, target, ev.handleIndex).value;
      DisconnectItemKeepsValid(st, d, target, h);
    case Disconnected =>
      var d := DiagramOf(st, target).value;
      var h := HandleAt(st, target, ev.handleIndex).value;
      var sink := Sink(st, d, ev).value;
      ConnectItemKeepsValid(st, d, target, h, sink.0, sink.1);
    case TemporaryDisconnected =>
      var d := DiagramOf(st, target).value;
      var h := HandleAt(st, target, ev.handleIndex).value;
      var sink := Sink(st, d, ev).value;
      ReconnectItemKeepsValid(st, d, h, sink.1);
    case Reconnected =>
      var d := DiagramOf(st, target).value;
      var h := HandleAt(st, target, ev.handleIndex).value;
      RemoveConstraintKeepsValid(st, d, h);
  }

  // ---------------------------------------------------------------------
  // Round trips: reverting an event undoes the change it records
  // ---------------------------------------------------------------------

  /** A registry without a record for `h` gains one by appending and loses it again by dropping. */
  lemma {:induction false} DropAppended(conns: seq<Connection>, c: Connection)
    requires forall k :: 0 <= k < |conns| ==> conns[k].handle != c.handle
    ensures DropRecords(conns + [c], c.item, c.handle) == conns
  {
    if |conns| > 0 {
      assert (conns + [c])[1..] == conns[1..] + [c];
      DropAppended(conns[1..], c);
    }
  }

  /**
   * Undoing a connection: after `connect_item` attached `h` of `item` to
   * `port` of `connected`, reverting the `ItemConnected` captured for it
   * gives every diagram its registry from before.
   */
  lemma RevertConnectedUndoes(st: State, item: ItemId, h: HandleId, connected: ItemId, port: PortId)
    requires StoreValid(st) && item in st.items && connected in st.items
    requires st.items[item].diagram.Some?
    requires ConnectItem(st, st.items[item].diagram.value, item, h, connected, port).Ok?
    requires Capture(st, Connected, item, h, connected, port).Ok?
    ensures var d := st.items[item].diagram.value;
      var st1 := ConnectItem(st, d, item, h, connected, port).value;
      var ev := Capture(st1, Connected, item, h, connected, port);
      StoreValid(st1) && ev.Ok? && Revert(st1, ev.value, item).Ok? &&
      var st2 := Revert(st1, ev.value, item).value;
      st2.emitted.None? && st2.st.items == st.items && st2.st.elements == st.elements &&
      forall d' :: Registry(st2.st, d') == Registry(st, d')
  {
    var d := st.items[item].diagram.value;
    var conns := Registry(st, d);
    var c := Connection(item, h, connected, port, true);
    assert forall k :: 0 <= k < |conns| ==> conns[k].handle != h;
    DropAppended(conns, c);
    ConnectItemKeepsValid(st, d, item, h, connected, port);
  }

  /**
   * Undoing a disconnection: after `disconnect_item` removed the record of
   * `h`, reverting the `ItemDisconnected` captured for that record attaches
   * `h` to the same port of the same item again, constrained, and leaves the
   * other records of the diagram as they were.
   */
  lemma RevertDisconnectedRestores(st: State, d: DiagramId, item: ItemId, h: HandleId)
    requires StoreValid(st) && item in st.items && st.items[item].diagram == Some(d)
    requires GetConnection(Registry(st, d), h).Some? && GetConnection(Registry(st, d), h).value.item == item
    requires var ci := GetConnection(Registry(st, d), h).value;
      st.items[ci.connected].diagram == Some(d) &&
      Capture(st, Disconnected, item, h, ci.connected, ci.port).Ok?
    ensures var ci := GetConnection(Registry(st, d), h).value;
      var st1 := DisconnectItem(st, d, item, h);
      var ev := Capture(st1, Disconnected, item, h, ci.connected, ci.port);
      StoreValid(st1) && ev.Ok? && Revert(st1, ev.value, item).Ok? &&
      var st2 := Revert(st1, ev.value, item).value.st;
      GetConnection(Registry(st2, d), h) == Some(ci.(constrained := true)) &&
      (forall x :: x in Registry(st2, d) && x.handle != h <==> x in Registry(st, d) && x.handle != h) &&
      (forall d' :: d' != d ==> Registry(st2, d') == Registry(st, d'))
  {
    var conns := Registry(st, d);
    var ci := GetConnection(conns, h).value;
    assert ConnectionsValid(st.items, conns);
    var st1 := DisconnectItem(st, d, item, h);
    DisconnectItemKeepsValid(st, d, item, h);
    var dropped := DropRecords(conns, item, h);
    assert Registry(st1, d) == dropped;
    var k0 := RecordIndex(conns, h);
    assert forall j :: 0 <= j < |conns| && conns[j].handle == h ==> j == k0;
    assert forall x :: x in conns && x.handle == h ==> x == ci;
    assert forall k :: 0 <= k < |dropped| ==> dropped[k] in conns;
    assert GetConnection(Registry(st1, d), h).None?;
    var ev := Capture(st1, Disconnected, item, h, ci.connected, ci.port).value;
    assert Sink(st1, d, ev) == Ok((ci.connected, ci.port));
  }

  /** In a registry with unique handles, the record at `k` is the one of its handle. */
  lemma UniqueRecord(conns: seq<Connection>, k: nat, h: HandleId)
    requires k < |conns| && conns[k].handle == h
    requires forall i, j :: 0 <= i < j < |conns| ==> conns[i].handle != conns[j].handle
    ensures GetConnection(conns, h) == Some(conns[k]) && RecordIndex(conns, h) == k
  {
    var k1 := RecordIndex(conns, h);
    assert k1 == k by {
      assert !(k1 < k) && !(k < k1);
    }
  }

  /**
   * Undoing a temporary disconnection: after the constraint of a constrained
   * connection was dropped, reverting the `ItemTemporaryDisconnected`
   * captured for it gives back exactly the state from before.
   */
  lemma RevertTemporaryDisconnectedRestores(st: State, d: DiagramId, item: ItemId, h: HandleId)
    requires StoreValid(st) && item in st.items && st.items[item].diagram == Some(d)
    requires GetConnection(Registry(st, d), h).Some? && GetConnection(Registry(st, d), h).value.constrained
    requires var ci := GetConnection(Registry(st, d), h).value;
      st.items[ci.connected].diagram == Some(d) &&
      Capture(st, TemporaryDisconnected, item, h, ci.connected, ci.port).Ok?
    ensures var ci := GetConnection(Registry(st, d), h).value;
      var st1 := RemoveConstraint(st, d, h);
      var ev := Capture(st1, TemporaryDisconnected, item, h, ci.connected, ci.port);
      StoreValid(st1) && ev.Ok? && Revert(st1, ev.value, item) == Ok(Reverted(st, None))
  {
    var conns := Registry(st, d);
    var ci := GetConnection(conns, h).value;
    var k := RecordIndex(conns, h);
    var st1 := RemoveConstraint(st, d, h);
    var conns1 := UpdateRecord(conns, k, ci.(constrained := false));
    assert Registry(st1, d) == conns1;
    RemoveConstraintKeepsValid(st, d, h);
    assert ConnectionsValid(st.items, conns);
    UniqueRecord(conns1, k, h);
    assert GetConnection(conns1, h) == Some(ci.(constrained := false));
    assert RecordIndex(conns1, h) == k;
    var ev := Capture(st1, TemporaryDisconnected, item, h, ci.connected, ci.port).value;
    assert HandleAt(st1, item, ev.handleIndex) == Ok(h);
    assert DiagramOf(st1, item) == Ok(d);
    assert Sink(st1, d, ev) == Ok((ci.connected, ci.port));
    assert UpdateRecord(conns1, k, ci.(constrained := true)) == conns;
    assert d in st.connections;
    assert st1.connections[d := conns] == st.connections;
    assert st1.(connections := st.connections) == st;
  }

  /**
   * Undoing a reconnection and redoing it: reverting the `ItemReconnected`
   * of a handle moved to port `p` drops the constraint and hands the target
   * an `ItemTemporaryDisconnected`; reverting that one in turn gives back the
   * reconnected state.
   */
  lemma RevertReconnectedRedoes(st: State, d: DiagramId, item: ItemId, h: HandleId, p: PortId)
    requires StoreValid(st) && item in st.items && st.items[item].diagram == Some(d)
    requires GetConnection(Registry(st, d), h).Some?
    requires var ci := GetConnection(Registry(st, d), h).value;
      st.items[ci.connected].diagram == Some(d) &&
      Capture(st, Reconnected, item, h, ci.connected, p).Ok?
    ensures var ci := GetConnection(Registry(st, d), h).value;
      ReconnectItem(st, d, h, p).Ok? &&
      var st1 := ReconnectItem(st, d, h, p).value;
      var ev := Capture(st1, Reconnected, item, h, ci.connected, p);
      ev.Ok? && Revert(st1, ev.value, item).Ok? &&
      var undone := Revert(st1, ev.value, item).value;
      undone.st == RemoveConstraint(st1, d, h) &&
      undone.emitted == Capture(st1, TemporaryDisconnected, item, h, ci.connected, p).ToOption() &&
      undone.emitted.Some? &&
      StoreValid(undone.st) &&
      Revert(undone.st, undone.emitted.value, item) == Ok(Reverted(st1, None))
  {
    var conns := Registry(st, d);
    var ci := GetConnection(conns, h).value;
    var k := RecordIndex(conns, h);
    ReconnectItemKeepsValid(st, d, h, p);
    var st1 := ReconnectItem(st, d, h, p).value;
    var conns1 := UpdateRecord(conns, k, ci.(port := p, constrained := true));
    assert Registry(st1, d) == conns1;
    assert ConnectionsValid(st.items, conns);
    UniqueRecord(conns1, k, h);
    assert GetConnection(conns1, h) == Some(ci.(port := p, constrained := true));
    var ev := Capture(st1, Reconnected, item, h, ci.connected, p).value;
    assert HandleAt(st1, item, ev.handleIndex) == Ok(h);
    RemoveConstraintKeepsValid(st1, d, h);
    var st2 := RemoveConstraint(st1, d, h);
    assert GetConnection(Registry(st1, d), h).value == ci.(port := p, constrained := true);
    assert Registry(st1, d)[RecordIndex(Registry(st1, d), h)].handle == h;
    RevertTemporaryDisconnectedRestores(st1, d, item, h);
  }

  // ---------------------------------------------------------------------
  // The revert, applied to the repository
  // ---------------------------------------------------------------------

  /** `event.revert(target)` on the repository; the event handed to the target, if any, is returned. */
  method RevertOn(m: Model, ev: ConnectionEvent, target: ItemId) returns (r: Result<Option<ConnectionEvent>>)
    requires m.Valid() && target in m.items
    modifies m
    ensures m.Valid()
    ensures var outcome := Revert(old(m.Snapshot()), ev, target);
      (outcome.Fail? ==> r == Fail(outcome.fault) && m.Snapshot() == RaisedState(old(m.Snapshot()), ev, target)) &&
      (outcome.Ok? ==> r == Ok(outcome.value.emitted) && m.Snapshot() == outcome.value.st)
  {
    var outcome := Revert(m.Snapshot(), ev, target);
    if outcome.Fail? {
      var raised := RaisedState(m.Snapshot(), ev, target);
      if raised != m.Snapshot() {
        RemoveConstraintKeepsValid(m.Snapshot(), DiagramOf(m.Snapshot(), target).value, HandleAt(m.Snapshot(), target, ev.handleIndex).value);
        m.Assign(raised);
      }
      return Fail(outcome.fault);
    }
    RevertKeepsValid(m.Snapshot(), ev, target);
    m.Assign(outcome.value.st);
    return Ok(outcome.value.emitted);
  }
}
