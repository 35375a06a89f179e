/**
 * Handle bookkeeping of presentation items (gaphor/diagram/presentation.py):
 * a line's head and tail, loading a line's points and an element's top-left
 * corner, the position events that undo handle moves, the minimal-value
 * constraint, the side of an element a port lies on, and the single handle
 * of an attached presentation.  Positions are integer pairs.
 */
module Presentation {
  import opened Wrappers
  import opened Modeling

  datatype Pos = Pos(x: int, y: int)

  /** A handle: where it is, and whether `watch_handle` hooked its position. */
  datatype Handle = Handle(pos: Pos, watched: bool)

  /** `HandlePositionEvent`: the handle's index, the position before and the position after. */
  datatype HandlePositionEvent = HandlePositionEvent(handleIndex: nat, oldValue: Pos, newValue: Pos)

  /** A handle created by `Handle((0, 0))`, not yet watched. */
  const NewHandle := Handle(Pos(0, 0), false)

  /** The handles after the handle at `i` moved to `p`. */
  function Moved(hs: seq<Handle>, i: nat, p: Pos): (r: seq<Handle>)
    requires i < |hs|
    ensures |r| == |hs| && r[i].pos == p && r[i].watched == hs[i].watched
    ensures forall k :: 0 <= k < |hs| && k != i ==> r[k] == hs[k]
  {
    hs[i := hs[i].(pos := p)]
  }

  /**
   * What `_on_handle_position_update` hands to the item when the handle at
   * `i` moves to `p`: a `HandlePositionEvent` if the handle is watched,
   * nothing otherwise.
   */
  function Notice(hs: seq<Handle>, i: nat, p: Pos): (r: seq<HandlePositionEvent>)
    requires i < |hs|
  {
    if hs[i].watched then [HandlePositionEvent(i, hs[i].pos, p)] else []
  }

  /** `HandlePositionEvent.revert` on handles `hs`: the indexed handle goes back to the old position. */
  function RevertPosition(hs: seq<Handle>, ev: HandlePositionEvent): (r: Result<seq<Handle>>)
    ensures r.Ok? <==> ev.handleIndex < |hs|
    ensures r.Fail? ==> r.fault == IndexError
  {
    if ev.handleIndex < |hs| then Ok(Moved(hs, ev.handleIndex, ev.oldValue)) else Fail(IndexError)
  }

  /**
   * Moving a watched handle and reverting the event it produced gives back
   * the handles as they were, and the revert announces the opposite move.
   */
  lemma RevertUndoesMove(hs: seq<Handle>, i: nat, p: Pos)
    requires i < |hs| && hs[i].watched
    ensures Notice(hs, i, p) == [HandlePositionEvent(i, hs[i].pos, p)]
    ensures RevertPosition(Moved(hs, i, p), Notice(hs, i, p)[0]) == Ok(hs)
    ensures Notice(Moved(hs, i, p), i, hs[i].pos) == [HandlePositionEvent(i, p, hs[i].pos)]
  {
    assert Moved(Moved(hs, i, p), i, hs[i].pos) == hs;
  }

  /**
   * The handles of an item and the events it was handed (`HandlePositionUpdate`,
   * with `self.handle(event)` recorded in `emitted`).
   */
  class HandleList {
    var handles: seq<Handle>
    var emitted: seq<HandlePositionEvent>

    constructor (hs: seq<Handle>)
      ensures handles == hs && emitted == []
    {
      handles := hs;
      emitted := [];
    }

    /** `handle.pos = p` for the handle at `i`; a watched handle reports the move. */
    method SetPos(i: nat, p: Pos)
      requires i < |handles|
      modifies this
      ensures handles == Moved(old(handles), i, p)
      ensures emitted == old(emitted) + Notice(old(handles), i, p)
    {
      emitted := emitted + Notice(handles, i, p);
      handles := Moved(handles, i, p);
    }

    /** `watch_handle(handle)` for the handle at `i`. */
    method Watch(i: nat)
      requires i < |handles|
      modifies this
      ensures handles == old(handles)[i := old(handles)[i].(watched := true)]
      ensures emitted == old(emitted)
    {
      handles := handles[i := handles[i].(watched := true)];
    }

    /** `self._handles.insert(i, h)`. */
    method Insert(i: nat, h: Handle)
      requires i <= |handles|
      modifies this
      ensures handles == old(handles)[..i] + [h] + old(handles)[i..]
      ensures emitted == old(emitted)
    {
      handles := handles[..i] + [h] + handles[i..];
    }

    /** The insertion loop of `load("points", ...)`: `k` times, insert a new handle at index 1 and watch it. */
    method InsertWatched(k: nat)
      requires |handles| >= 1
      modifies this
      ensures handles == Inserted(old(handles), k)
      ensures emitted == old(emitted)
    {
      ghost var start := handles;
      var n := 0;
      while n < k
        invariant 0 <= n <= k
        invariant handles == Inserted(start, n)
        invariant emitted == old(emitted)
      {
        Insert(1, NewHandle);
        Watch(1);
        assert Fresh(n + 1) == [Handle(Pos(0, 0), true)] + Fresh(n);
        n := n + 1;
      }
    }

    /** The assignment loop of `load("points", pts)`: `handles()[i].pos = pts[i]` for each point in order. */
    method AssignAll(pts: seq<Pos>)
      requires |pts| <= |handles| && AllWatched(handles)
      modifies this
      ensures handles == Assigned(old(handles), pts)
      ensures emitted == old(emitted) + LoadNotices(old(handles), pts)
    {
      ghost var base := handles;
      var i := 0;
      while i < |pts|
        invariant 0 <= i <= |pts| <= |base|
        invariant handles == Assigned(base, pts[..i])
        invariant emitted == old(emitted) + LoadNotices(base, pts[..i])
      {
        assert handles[i] == base[i];
        SetPos(i, pts[i]);
        assert pts[..i + 1][..i] == pts[..i];
        assert LoadNotices(base, pts[..i + 1]) == LoadNotices(base, pts[..i]) + [HandlePositionEvent(i, base[i].pos, pts[i])];
        i := i + 1;
      }
      assert pts[..i] == pts;
    }

    /**
     * `HandlePositionEvent.revert(target)` with this item as the target: the
     * handle at the recorded index goes back to the old position (which, as
     * for any move, a watched handle reports); an index out of range fails.
     */
    method Revert(ev: HandlePositionEvent) returns (r: Result<()>)
      modifies this
      ensures r.Ok? <==> RevertPosition(old(handles), ev).Ok?
      ensures r.Ok? ==> handles == RevertPosition(old(handles), ev).value &&
                        emitted == old(emitted) + Notice(old(handles), ev.handleIndex, ev.oldValue)
      ensures r.Fail? ==> r.fault == IndexError && handles == old(handles) && emitted == old(emitted)
    {
      if ev.handleIndex >= |handles| {
        return Fail(IndexError);
      }
      SetPos(ev.handleIndex, ev.oldValue);
      return Ok(());
    }
  }

  // ---------------------------------------------------------------------
  // LinePresentation
  // ---------------------------------------------------------------------

  /** How many handles `load("points", pts)` inserts: `len(pts) - 2`, none when that is negative. */
  function Extra(n: nat): nat {
    if n > 2 then n - 2 else 0
  }

  /** `k` watched handles at the origin. */
  function Fresh(k: nat): (r: seq<Handle>)
    ensures |r| == k && forall j :: 0 <= j < k ==> r[j] == Handle(Pos(0, 0), true)
  {
    seq(k, _ => Handle(Pos(0, 0), true))
  }

  /** The handles after `k` new watched handles were inserted, one at a time, at index 1. */
  function Inserted(hs: seq<Handle>, k: nat): seq<Handle>
    requires |hs| >= 1
  {
    [hs[0]] + Fresh(k) + hs[1..]
  }

  /** The handles after `handles()[i].pos = pts[i]` for each point in order. */
  function Assigned(hs: seq<Handle>, pts: seq<Pos>): (r: seq<Handle>)
    requires |pts| <= |hs|
    ensures |r| == |hs|
  {
    seq(|hs|, k requires 0 <= k < |hs| => if k < |pts| then hs[k].(pos := pts[k]) else hs[k])
  }

  /** The events the position assignments of a load hand to the item, when every handle is watched. */
  function LoadNotices(hs: seq<Handle>, pts: seq<Pos>): (r: seq<HandlePositionEvent>)
    requires |pts| <= |hs|
    ensures |r| == |pts|
  {
    seq(|pts|, k requires 0 <= k < |pts| => HandlePositionEvent(k, hs[k].pos, pts[k]))
  }

  /** Every handle is watched. */
  predicate AllWatched(hs: seq<Handle>) {
    forall k :: 0 <= k < |hs| ==> hs[k].watched
  }

  /** The handles after `load("points", pts)`. */
  function Loaded(hs: seq<Handle>, pts: seq<Pos>): seq<Handle>
    requires |hs| >= 2
  {
    Assigned(Inserted(hs, Extra(|pts|)), pts)
  }

  /**
   * Loading points into a line leaves `len(hs) + len(pts) - 2` handles when
   * there are more than two points, gives handle `i` the position `pts[i]`,
   * and keeps every handle watched; from the two handles of a new line, it
   * leaves exactly `len(pts)` handles, the head at the first point and the
   * tail at the last.
   */
  lemma LoadedHandles(hs: seq<Handle>, pts: seq<Pos>)
    requires |hs| >= 2 && AllWatched(hs)
    ensures |Loaded(hs, pts)| == |hs| + Extra(|pts|)
    ensures forall i :: 0 <= i < |pts| ==> Loaded(hs, pts)[i].pos == pts[i]
    ensures AllWatched(Loaded(hs, pts))
    ensures |hs| == 2 && |pts| >= 2 ==>
      |Loaded(hs, pts)| == |pts| && Loaded(hs, pts)[0].pos == pts[0] &&
      Loaded(hs, pts)[|Loaded(hs, pts)| - 1].pos == pts[|pts| - 1]
  {
    var ins := Inserted(hs, Extra(|pts|));
    assert forall k :: 0 <= k < |ins| ==> ins[k].watched by {
      forall k | 0 <= k < |ins| ensures ins[k].watched {
        if k > Extra(|pts|) {
          assert ins[k] == hs[k - Extra(|pts|)];
        }
      }
    }
  }

  /** A line: its handle list, at least two handles, all watched. */
  class LinePresentation {
    const handleList: HandleList

    ghost predicate Valid()
      reads this, handleList
    {
      |handleList.handles| >= 2 && AllWatched(handleList.handles)
    }

    /** A new line: two handles at the origin, head and tail watched. */
    constructor ()
      ensures Valid() && fresh(handleList)
      ensures handleList.handles == [Handle(Pos(0, 0), true), Handle(Pos(0, 0), true)]
      ensures handleList.emitted == []
    {
      var hl := new HandleList([NewHandle, NewHandle]);
      hl.Watch(0);
      hl.Watch(1);
      handleList := hl;
    }

    /** `line.head`: the first handle. */
    function Head(): (h: Handle)
      requires Valid()
      reads this, handleList
      ensures h == handleList.handles[0] && h.watched
    {
      handleList.handles[0]
    }

    /** `line.tail`: the last handle. */
    function Tail(): (h: Handle)
      requires Valid()
      reads this, handleList
      ensures h == handleList.handles[|handleList.handles| - 1] && h.watched
    {
      handleList.handles[|handleList.handles| - 1]
    }

    /**
     * `load("points", pts)`: insert `len(pts) - 2` new handles at index 1,
     * watching each, then give handle `i` the position `pts[i]`.
     */
    method LoadPoints(pts: seq<Pos>)
      requires Valid()
      modifies handleList
      ensures Valid()
      ensures handleList.handles == Loaded(old(handleList.handles), pts)
      ensures handleList.emitted == old(handleList.emitted) + LoadNotices(Inserted(old(handleList.handles), Extra(|pts|)), pts)
    {
      LoadedHandles(handleList.handles, pts);
      InsertedWatched(handleList.handles, Extra(|pts|));
      handleList.InsertWatched(if |pts| > 2 then |pts| - 2 else 0);
      handleList.AssignAll(pts);
    }
  }

  /** Inserting watched handles keeps every handle watched. */
  lemma InsertedWatched(hs: seq<Handle>, k: nat)
    requires |hs| >= 1 && AllWatched(hs)
    ensures AllWatched(Inserted(hs, k)) && |Inserted(hs, k)| == |hs| + k
  {
    var ins := Inserted(hs, k);
    forall j | 0 <= j < |ins| ensures ins[j].watched {
      if j > k {
        assert ins[j] == hs[j - k];
      }
    }
  }

  // ---------------------------------------------------------------------
  // ElementPresentation
  // ---------------------------------------------------------------------

  /** `ElementPresentation._port_sides`. */
  const PortSides: seq<string> := ["top", "right", "bottom", "left"]

  /**
   * `port_side(port)`: the side at the port's position among the element's
   * ports; a port not among them fails with `ValueError`, a position past
   * the four sides with `IndexError`.
   */
  function PortSide(ports: seq<PortId>, port: PortId): (r: Result<string>)
    ensures r.Ok? <==> port in ports && IndexOf(ports, port).value < 4
    ensures r.Ok? ==> exists k :: 0 <= k < 4 && k < |ports| && ports[k] == port && port !in ports[..k] && r.value == PortSides[k]
    ensures port !in ports ==> r == Fail(ValueError)
  {
    match IndexOf(ports, port)
    case Fail(f) => Fail(f)
    case Ok(k) => if k < |PortSides| then Ok(PortSides[k]) else Fail(IndexError)
  }

  /** For an element's four distinct ports, port `k` lies on side `k`: top, right, bottom, left. */
  lemma PortSidesInOrder(ports: seq<PortId>)
    requires |ports| == 4 && forall i, j :: 0 <= i < j < 4 ==> ports[i] != ports[j]
    ensures PortSide(ports, ports[0]) == Ok("top")
    ensures PortSide(ports, ports[1]) == Ok("right")
    ensures PortSide(ports, ports[2]) == Ok("bottom")
    ensures PortSide(ports, ports[3]) == Ok("left")
  {
    assert ports[0] !in ports[..0];
    assert ports[1] !in ports[..1];
    assert ports[..2] == [ports[0], ports[1]];
    assert ports[2] !in ports[..2];
    assert ports[..3] == [ports[0], ports[1], ports[2]];
    assert ports[3] !in ports[..3];
  }

  /** `p + q`, coordinate by coordinate. */
  function Shift(p: Pos, q: Pos): Pos {
    Pos(p.x + q.x, p.y + q.y)
  }

  /** The handles after `load("top-left", p)`. */
  function LoadedTopLeft(hs: seq<Handle>, p: Pos): seq<Handle>
    requires |hs| >= 3
  {
    Moved(Moved(hs, 0, p), 2, Shift(hs[2].pos, p))
  }

  /**
   * `load("top-left", p)` puts handle 0 at `p` and moves handle 2 by `p`;
   * when handle 0 was at the origin, as it is in the element's own
   * coordinates, the extent from handle 0 to handle 2 (width and height) is
   * what it was.
   */
  lemma TopLeftKeepsExtent(hs: seq<Handle>, p: Pos)
    requires |hs| >= 3
    ensures |LoadedTopLeft(hs, p)| == |hs|
    ensures LoadedTopLeft(hs, p)[0].pos == p
    ensures LoadedTopLeft(hs, p)[2].pos == Shift(hs[2].pos, p)
    ensures forall k :: 0 <= k < |hs| && k != 0 && k != 2 ==> LoadedTopLeft(hs, p)[k] == hs[k]
    ensures hs[0].pos == Pos(0, 0) ==>
      LoadedTopLeft(hs, p)[2].pos.x - LoadedTopLeft(hs, p)[0].pos.x == hs[2].pos.x - hs[0].pos.x &&
      LoadedTopLeft(hs, p)[2].pos.y - LoadedTopLeft(hs, p)[0].pos.y == hs[2].pos.y - hs[0].pos.y
  {
  }

  /** A box-like element: four handles, all watched, and its ports. */
  class ElementPresentation {
    const handleList: HandleList
    const ports: seq<PortId>

    ghost predicate Valid()
      reads this, handleList
    {
      |handleList.handles| == 4 && AllWatched(handleList.handles)
    }

    /** A new element with its corner handles at `corners`, each watched. */
    constructor (corners: seq<Pos>, ports: seq<PortId>)
      requires |corners| == 4
      ensures Valid() && fresh(handleList) && this.ports == ports
      ensures forall k :: 0 <= k < 4 ==> handleList.handles[k] == Handle(corners[k], true)
      ensures handleList.emitted == []
    {
      var hl := new HandleList([Handle(corners[0], false), Handle(corners[1], false), Handle(corners[2], false), Handle(corners[3], false)]);
      var k := 0;
      while k < 4
        invariant 0 <= k <= 4 && |hl.handles| == 4 && hl.emitted == []
        invariant forall j :: 0 <= j < 4 ==> hl.handles[j].pos == corners[j] && (hl.handles[j].watched <==> j < k)
        modifies hl
      {
        hl.Watch(k);
        k := k + 1;
      }
      handleList := hl;
      this.ports := ports;
    }

    /**
     * `load("top-left", p)`: handle 0 is set to `p`, then handle 2's `x` and
     * `y` are each increased by `p`'s; each of the three assignments is a
     * move the watched handle reports.
     */
    method LoadTopLeft(p: Pos)
      requires Valid()
      modifies handleList
      ensures Valid()
      ensures handleList.handles == LoadedTopLeft(old(handleList.handles), p)
      ensures var hs := old(handleList.handles);
        var half := Pos(hs[2].pos.x + p.x, hs[2].pos.y);
        handleList.emitted == old(handleList.emitted) +
          [HandlePositionEvent(0, hs[0].pos, p), HandlePositionEvent(2, hs[2].pos, half), HandlePositionEvent(2, half, Shift(hs[2].pos, p))]
    {
      handleList.SetPos(0, p);
      var h2 := handleList.handles[2].pos;
      handleList.SetPos(2, Pos(h2.x + p.x, h2.y));
      var h2' := handleList.handles[2].pos;
      handleList.SetPos(2, Pos(h2'.x, h2'.y + p.y));
    }
  }

  // ---------------------------------------------------------------------
  // MinimalValueConstraint
  // ---------------------------------------------------------------------

  /** A solver variable. */
  class Variable {
    var value: int

    constructor (v: int)
      ensures value == v
    {
      value := v;
    }
  }

  /** The minimum of a constraint: a number, or a variable whose value is the minimum. */
  datatype Bound = Fixed(n: int) | Tracking(v: Variable)

  /** `max(value, min)`. */
  function Max(a: int, b: int): (r: int)
    ensures r >= a && r >= b && (r == a || r == b)
  {
    if a >= b then a else b
  }

  /** `MinimalValueConstraint(var, min)`: keeps `var` at or above `min`. */
  class MinimalValueConstraint {
    const variable: Variable
    const min: Bound

    constructor (variable: Variable, min: Bound)
      ensures this.variable == variable && this.min == min
    {
      this.variable := variable;
      this.min := min;
    }

    /** The current minimum: the number, or the tracked variable's value. */
    function MinValue(): int
      reads if min.Tracking? then {min.v} else {}
    {
      if min.Fixed? then min.n else min.v.value
    }

    /** The constraint holds for `v`: `v` is the minimum itself, or is at least the minimum. */
    predicate HoldsFor(v: Variable)
      reads v, if min.Tracking? then {min.v} else {}
    {
      min == Tracking(v) || v.value >= MinValue()
    }

    /**
     * `solve_for(var)`: nothing when `var` is the minimum variable itself;
     * otherwise `var` becomes the larger of its value and the minimum, and
     * no other variable changes.  Afterwards the constraint holds, and
     * solving when it already holds changes nothing, so solving twice is
     * solving once.
     */
    method SolveFor(v: Variable)
      modifies v
      ensures min == Tracking(v) ==> v.value == old(v.value)
      ensures min != Tracking(v) ==> v.value == Max(old(v.value), old(MinValue()))
      ensures MinValue() == old(MinValue()) && HoldsFor(v)
      ensures old(HoldsFor(v)) ==> v.value == old(v.value)
    {
      if min == Tracking(v) {
        return;
      }
      var bound := if min.Fixed? then min.n else min.v.value;
      v.value := Max(v.value, bound);
    }
  }

  // ---------------------------------------------------------------------
  // AttachedPresentation
  // ---------------------------------------------------------------------

  /** A port, pin or parameter node: one handle, and the diagram whose connections it keeps. */
  class AttachedPresentation {
    const handle: HandleId
    const diagram: DiagramId

    constructor (handle: HandleId, diagram: DiagramId)
      ensures this.handle == handle && this.diagram == diagram
    {
      this.handle := handle;
      this.diagram := diagram;
    }

    /** `handles()`: exactly the one handle. */
    function Handles(): (r: seq<HandleId>)
      ensures |r| == 1 && r[0] == handle
    {
      [handle]
    }

    /**
     * `connected_side`: `None` when the handle is not connected; otherwise
     * the side of the connected element that the port lies on.  An item
     * without `port_side`, one that is not an element, fails with
     * `AttributeError`.
     */
    function ConnectedSide(env: Env, st: State): (r: Result<Option<string>>)
      requires RegistriesValid(st)
      ensures r == Ok(None) <==> GetConnection(Registry(st, diagram), handle).None?
      ensures r.Ok? && r.value.Some? ==>
        var ci := GetConnection(Registry(st, diagram), handle).value;
        IsInstance(env, st.items[ci.connected].cls, "ElementPresentation") &&
        PortSide(st.items[ci.connected].ports, ci.port) == Ok(r.value.value)
    {
      match GetConnection(Registry(st, diagram), handle)
      case None => Ok(None)
      case Some(ci) =>
        assert ci.connected in st.items by {
          var k := RecordIndex(Registry(st, diagram), handle);
          assert ConnectionsValid(st.items, st.connections[diagram]);
        }
        if !IsInstance(env, st.items[ci.connected].cls, "ElementPresentation") then Fail(AttributeError)
        else match PortSide(st.items[ci.connected].ports, ci.port)
          case Fail(f) => Fail(f)
          case Ok(side) => Ok(Some(side))
    }
  }
}
