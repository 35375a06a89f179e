/**
 * The state the connectors work on: model elements (relationships among them),
 * presentation items on diagrams, and each diagram's connection registry.
 *
 * Object identity is modelled by ids: an element, an item, a handle, a port
 * and a diagram are each a `nat`, and every reference is an id looked up in a
 * map.  The mutable repository is the class `Model` at the end; the pure
 * functions on `State` before it say what each primitive update does.
 */
module Modeling {
  import opened Wrappers

  type ElemId = nat
  type ItemId = nat
  type HandleId = nat
  type PortId = nat
  type DiagramId = nat
  type TypeName = string
  type RoleName = string

  /**
   * An association end (`relation` in the source): its name, whether it holds
   * a collection, the name of the opposite end on the target, and the
   * declared type of the target (`metadata["head"].type`).
   */
  datatype Role = Role(name: RoleName, multi: bool, opposite: Option<RoleName>, target: TypeName)

  /** What `role.get(element)` yields: one element or `None`, or a collection. */
  datatype RoleValue = Single(value: Option<ElemId>) | Many(values: seq<ElemId>)

  /**
   * A model element: its class, the attribute values a copy captures, its
   * association ends, and the presentation items that show it (`presentation`).
   */
  datatype Element = Element(
    cls: TypeName,
    attributes: map<string, string>,
    roles: map<RoleName, RoleValue>,
    presentation: seq<ItemId>)

  /**
   * A presentation item: its class, the diagram it lives on (`None` while it
   * is being unlinked), its subject, its handles in order and its ports.
   */
  datatype Item = Item(
    cls: TypeName,
    diagram: Option<DiagramId>,
    subject: Option<ElemId>,
    handles: seq<HandleId>,
    ports: seq<PortId>)

  /**
   * A connection record: handle `handle` of `item` is attached to `port` of
   * `connected`; `constrained` says whether its constraint is in the solver.
   */
  datatype Connection = Connection(
    item: ItemId,
    handle: HandleId,
    connected: ItemId,
    port: PortId,
    constrained: bool)

  /** What `represents(...)` declares for a line class: relationship class and its two ends. */
  datatype ItemMetadata = ItemMetadata(modelElement: TypeName, head: Role, tail: Role)

  /**
   * Class information, fixed for the life of the process: each class's
   * `__mro__` and the metadata of line classes.
   */
  datatype Env = Env(mro: map<TypeName, seq<TypeName>>, metadata: map<TypeName, ItemMetadata>)

  datatype State = State(
    elements: map<ElemId, Element>,
    items: map<ItemId, Item>,
    connections: map<DiagramId, seq<Connection>>,
    nextId: nat)

  /**
   * `isinstance(x, t)` for an object of class `cls`: `t` is `cls` itself
   * (the head of every `__mro__`) or one of its recorded ancestors.
   */
  predicate IsInstance(env: Env, cls: TypeName, t: TypeName) {
    cls == t || (cls in env.mro && t in env.mro[cls])
  }

  /** `isinstance(subject, t)` for an optional subject; `None` is an instance of no model class. */
  predicate SubjectIsInstance(env: Env, st: State, subject: Option<ElemId>, t: TypeName) {
    subject.Some? && subject.value in st.elements && IsInstance(env, st.elements[subject.value].cls, t)
  }

  /** `role.get(e)`: an unset end reads as `None`, an unset collection as empty. */
  function RoleGet(e: Element, role: Role): RoleValue {
    if role.name in e.roles then e.roles[role.name]
    else if role.multi then Many([])
    else Single(None)
  }

  /** The elements a role value refers to. */
  function RoleTargets(v: RoleValue): set<ElemId> {
    match v
    case Single(o) => if o.Some? then {o.value} else {}
    case Many(s) => set x | x in s
  }

  /** Sequence `s` with every occurrence of `x` taken out. */
  function Without(s: seq<nat>, x: nat): (r: seq<nat>)
    ensures x !in r
    ensures forall y :: y in r <==> y in s && y != x
  {
    if |s| == 0 then []
    else if s[0] == x then Without(s[1..], x)
    else [s[0]] + Without(s[1..], x)
  }

  // ---------------------------------------------------------------------
  // The store invariant
  // ---------------------------------------------------------------------

  /** An item's subject exists and lists the item among its presentations. */
  ghost predicate SubjectsLinked(st: State) {
    forall i :: i in st.items && st.items[i].subject.Some? ==>
      st.items[i].subject.value in st.elements &&
      i in st.elements[st.items[i].subject.value].presentation
  }

  /** Every presentation an element lists exists and has that element as subject. */
  ghost predicate PresentationsLinked(st: State) {
    forall e, j :: e in st.elements && j in st.elements[e].presentation ==>
      j in st.items && st.items[j].subject == Some(e)
  }

  /** Every association end in `els` refers to elements of `keys`. */
  ghost predicate EndsResolve(els: map<ElemId, Element>, keys: set<ElemId>) {
    forall e, n :: e in els && n in els[e].roles ==> RoleTargets(els[e].roles[n]) <= keys
  }

  /** Association ends refer to existing elements. */
  ghost predicate RolesResolve(st: State) {
    EndsResolve(st.elements, st.elements.Keys)
  }

  /** Records refer to existing items, and a handle has at most one record. */
  ghost predicate ConnectionsValid(items: map<ItemId, Item>, conns: seq<Connection>) {
    (forall k :: 0 <= k < |conns| ==> conns[k].item in items && conns[k].connected in items) &&
    (forall k, l :: 0 <= k < l < |conns| ==> conns[k].handle != conns[l].handle)
  }

  ghost predicate RegistriesValid(st: State) {
    forall d :: d in st.connections ==> ConnectionsValid(st.items, st.connections[d])
  }

  /** Every id in use is below `nextId`, so `nextId` is fresh. */
  ghost predicate IdsFresh(st: State) {
    (forall e :: e in st.elements ==> e < st.nextId) &&
    (forall i :: i in st.items ==> i < st.nextId)
  }

  ghost predicate StoreValid(st: State) {
    SubjectsLinked(st) && PresentationsLinked(st) && RolesResolve(st) &&
    RegistriesValid(st) && IdsFresh(st)
  }

  // ---------------------------------------------------------------------
  // The connection registry (gaphas `Connections`, as the connectors use it)
  // ---------------------------------------------------------------------

  /** The registry of diagram `d`; a diagram without one has no connections. */
  function Registry(st: State, d: DiagramId): seq<Connection> {
    if d in st.connections then st.connections[d] else []
  }

  /** `connections.get_connection(handle)`: the record of `h`, if any. */
  function GetConnection(conns: seq<Connection>, h: HandleId): (r: Option<Connection>)
    ensures r.Some? <==> exists k :: 0 <= k < |conns| && conns[k].handle == h
    ensures r.Some? ==> r.value in conns && r.value.handle == h
  {
    if |conns| == 0 then None
    else if conns[0].handle == h then Some(conns[0])
    else
      var r := GetConnection(conns[1..], h);
      assert forall k :: 1 <= k < |conns| ==> conns[k] == conns[1..][k - 1];
      r
  }

  /** `connections.get_connections(connected=x)`: the records attached to `x`, in registry order. */
  function GetConnections(conns: seq<Connection>, x: ItemId): (r: seq<Connection>)
    ensures forall c :: c in r <==> c in conns && c.connected == x
    ensures |r| <= |conns|
  {
    if |conns| == 0 then []
    else if conns[0].connected == x then [conns[0]] + GetConnections(conns[1..], x)
    else GetConnections(conns[1..], x)
  }

  /** `connect_item`: add a constrained record; a handle that already has one is refused. */
  function ConnectItem(st: State, d: DiagramId, item: ItemId, h: HandleId, connected: ItemId, port: PortId): (r: Result<State>)
    ensures r.Fail? <==> GetConnection(Registry(st, d), h).Some?
    ensures r.Ok? ==> GetConnection(Registry(r.value, d), h) == Some(Connection(item, h, connected, port, true))
  {
    if GetConnection(Registry(st, d), h).Some? then Fail(ConnectionError)
    else
      var conns := Registry(st, d) + [Connection(item, h, connected, port, true)];
      assert conns[|conns| - 1].handle == h;
      Ok(st.(connections := st.connections[d := conns]))
  }

  /** The registry without the records of handle `h` of `item`. */
  function DropRecords(conns: seq<Connection>, item: ItemId, h: HandleId): (r: seq<Connection>)
    ensures forall c :: c in r <==> c in conns && !(c.item == item && c.handle == h)
    ensures |r| <= |conns|
  {
    if |conns| == 0 then []
    else if conns[0].item == item && conns[0].handle == h then DropRecords(conns[1..], item, h)
    else [conns[0]] + DropRecords(conns[1..], item, h)
  }

  /** `disconnect_item(item, handle)`: remove the handle's record; nothing happens if there is none. */
  function DisconnectItem(st: State, d: DiagramId, item: ItemId, h: HandleId): State {
    if d in st.connections then st.(connections := st.connections[d := DropRecords(st.connections[d], item, h)])
    else st
  }

  /** Replace the record at position `k`, keeping the rest of the registry as it is. */
  function UpdateRecord(conns: seq<Connection>, k: nat, c: Connection): (r: seq<Connection>)
    requires k < |conns|
    ensures |r| == |conns| && r[k] == c
    ensures forall j :: 0 <= j < |conns| && j != k ==> r[j] == conns[j]
  {
    conns[k := c]
  }

  /** Position of the record of handle `h`, which exists. */
  function RecordIndex(conns: seq<Connection>, h: HandleId): (k: nat)
    requires GetConnection(conns, h).Some?
    ensures k < |conns| && conns[k].handle == h && conns[k] == GetConnection(conns, h).value
  {
    if conns[0].handle == h then 0
    else
      assert GetConnection(conns[1..], h) == GetConnection(conns, h);
      1 + RecordIndex(conns[1..], h)
  }

  /**
   * `reconnect_item(item, handle, port)`: the handle's record keeps its
   * connected item and gets the new port and a fresh constraint; a handle
   * without a record is refused with `ValueError`.
   */
  function ReconnectItem(st: State, d: DiagramId, h: HandleId, port: PortId): (r: Result<State>)
    ensures r.Fail? <==> GetConnection(Registry(st, d), h).None?
  {
    var conns := Registry(st, d);
    match GetConnection(conns, h)
    case None => Fail(ValueError)
    case Some(c) =>
      Ok(st.(connections := st.connections[d := UpdateRecord(conns, RecordIndex(conns, h), c.(port := port, constrained := true))]))
  }

  /** `solver.remove_constraint(cinfo.constraint)`: the record stays, its constraint is gone. */
  function RemoveConstraint(st: State, d: DiagramId, h: HandleId): State {
    var conns := Registry(st, d);
    match GetConnection(conns, h)
    case None => st
    case Some(c) =>
      st.(connections := st.connections[d := UpdateRecord(conns, RecordIndex(conns, h), c.(constrained := false))])
  }

  // ---------------------------------------------------------------------
  // Element and item updates
  // ---------------------------------------------------------------------

  /**
   * `item.subject = s` (and, with `s == None`, `del item.subject`): the item
   * leaves the presentations of its old subject and joins those of the new one.
   * Assigning the current value changes nothing.
   */
  function SetSubject(st: State, i: ItemId, s: Option<ElemId>): State
    requires i in st.items
  {
    var was := st.items[i].subject;
    if was == s then st
    else
      var els1 := if was.Some? && was.value in st.elements
        then st.elements[was.value := st.elements[was.value].(presentation := Without(st.elements[was.value].presentation, i))]
        else st.elements;
      var els2 := if s.Some? && s.value in els1 && i !in els1[s.value].presentation
        then els1[s.value := els1[s.value].(presentation := els1[s.value].presentation + [i])]
        else els1;
      st.(items := st.items[i := st.items[i].(subject := s)], elements := els2)
  }

  /** The collection currently held by a multi-valued end (empty when unset). */
  function Members(v: RoleValue): seq<ElemId> {
    match v
    case Many(s) => s
    case Single(_) => []
  }

  /** Add `x` to a collection unless it is already there. */
  function Append(s: seq<ElemId>, x: ElemId): (r: seq<ElemId>)
    ensures x in r
    ensures forall y :: y in r <==> y in s || y == x
  {
    if x in s then s else s + [x]
  }

  /**
   * `role.set(rel, v)`: a single end is overwritten, a collection gains `v`;
   * when the end has an opposite, `v` gains `rel` in that opposite collection.
   */
  function SetRole(st: State, rel: ElemId, role: Role, v: Option<ElemId>): State
    requires rel in st.elements
  {
    var e := st.elements[rel];
    var nv := if !role.multi then Single(v)
      else if v.Some? then Many(Append(Members(RoleGet(e, role)), v.value))
      else RoleGet(e, role);
    var els1 := st.elements[rel := e.(roles := e.roles[role.name := nv])];
    var els2 := if role.opposite.Some? && v.Some? && v.value in els1
      then
        var t := els1[v.value];
        var back := Role(role.opposite.value, true, None, "");
        els1[v.value := t.(roles := t.roles[role.opposite.value := Many(Append(Members(RoleGet(t, back)), rel))])]
      else els1;
    st.(elements := els2)
  }

  /**
   * `model.create(type)`: a new element of class `cls` with the given
   * attributes, no association ends set and no presentations, under a fresh id.
   */
  function CreateElement(st: State, cls: TypeName, attributes: map<string, string>): (r: (State, ElemId))
    ensures r.1 == st.nextId && r.0.nextId == st.nextId + 1
  {
    (st.(elements := st.elements[st.nextId := Element(cls, attributes, map[], [])], nextId := st.nextId + 1), st.nextId)
  }

  // ---------------------------------------------------------------------
  // The updates keep the store invariant
  // ---------------------------------------------------------------------

  lemma SetSubjectKeepsValid(st: State, i: ItemId, s: Option<ElemId>)
    requires StoreValid(st) && i in st.items
    requires s.Some? ==> s.value in st.elements
    ensures StoreValid(SetSubject(st, i, s))
    ensures SetSubject(st, i, s).items[i].subject == s
    ensures SetSubject(st, i, s).elements.Keys == st.elements.Keys
    ensures SetSubject(st, i, s).connections == st.connections
  {
    SetSubjectFrame(st, i, s);
    SetSubjectLinksSubjects(st, i, s);
    SetSubjectLinksPresentations(st, i, s);
    var r := SetSubject(st, i, s);
    assert RolesResolve(r) by {
      forall e, n | e in r.elements && n in r.elements[e].roles
        ensures RoleTargets(r.elements[e].roles[n]) <= r.elements.Keys
      {
        assert r.elements[e].roles == st.elements[e].roles;
      }
    }
    assert RegistriesValid(r) by {
      forall d | d in r.connections ensures ConnectionsValid(r.items, r.connections[d]) {
        assert ConnectionsValid(st.items, st.connections[d]);
      }
    }
  }

  /** After assigning a subject every item's subject still lists the item. */
  lemma SetSubjectLinksSubjects(st: State, i: ItemId, s: Option<ElemId>)
    requires SubjectsLinked(st) && i in st.items
    requires s.Some? ==> s.value in st.elements
    ensures SubjectsLinked(SetSubject(st, i, s))
  {
    if st.items[i].subject != s {
      var r := SetSubject(st, i, s);
      forall j | j in r.items && r.items[j].subject.Some?
        ensures r.items[j].subject.value in r.elements && j in r.elements[r.items[j].subject.value].presentation
      {
        if j != i {
          var e := st.items[j].subject.value;
          assert j in st.elements[e].presentation;
        }
      }
    }
  }

  /** After assigning a subject every listed presentation still has that subject. */
  lemma SetSubjectLinksPresentations(st: State, i: ItemId, s: Option<ElemId>)
    requires SubjectsLinked(st) && PresentationsLinked(st) && i in st.items
    ensures PresentationsLinked(SetSubject(st, i, s))
  {
    if st.items[i].subject != s {
      var r := SetSubject(st, i, s);
      forall e, j | e in r.elements && j in r.elements[e].presentation
        ensures j in r.items && r.items[j].subject == Some(e)
      {
        if j != i {
          assert j in st.elements[e].presentation;
        } else {
          assert st.items[i].subject != Some(e) ==> i !in st.elements[e].presentation;
        }
      }
    }
  }

  lemma SetSubjectFrame(st: State, i: ItemId, s: Option<ElemId>)
    requires i in st.items
    ensures SetSubject(st, i, s).items == st.items[i := st.items[i].(subject := s)]
    ensures SetSubject(st, i, s).connections == st.connections
    ensures SetSubject(st, i, s).elements.Keys == st.elements.Keys
    ensures forall e :: e in st.elements ==>
      SetSubject(st, i, s).elements[e].roles == st.elements[e].roles &&
      SetSubject(st, i, s).elements[e].cls == st.elements[e].cls
  {
    if st.items[i].subject == s {
      assert st.items[i := st.items[i].(subject := s)] == st.items;
    }
  }

  /** The elements a collection holds after `Append`. */
  lemma AppendTargets(s: seq<ElemId>, x: ElemId)
    ensures RoleTargets(Many(Append(s, x))) == RoleTargets(Many(s)) + {x}
  {
  }

  /** Giving one end of one element a value within `keys` keeps every end within `keys`. */
  lemma UpdateEndResolves(els: map<ElemId, Element>, keys: set<ElemId>, x: ElemId, n: RoleName, val: RoleValue)
    requires EndsResolve(els, keys) && x in els && RoleTargets(val) <= keys
    ensures EndsResolve(els[x := els[x].(roles := els[x].roles[n := val])], keys)
  {
    var els' := els[x := els[x].(roles := els[x].roles[n := val])];
    forall e, m | e in els' && m in els'[e].roles ensures RoleTargets(els'[e].roles[m]) <= keys {
      if e != x || m != n {
        assert els'[e].roles[m] == els[e].roles[m];
      }
    }
  }

  /** The collection read from an end holds only what the end refers to. */
  lemma MembersTargets(els: map<ElemId, Element>, keys: set<ElemId>, x: ElemId, role: Role)
    requires EndsResolve(els, keys) && x in els
    ensures RoleTargets(Many(Members(RoleGet(els[x], role)))) <= keys
  {
    if role.name in els[x].roles {
      assert RoleTargets(els[x].roles[role.name]) <= keys;
    }
  }

  /** `role.set` changes association ends only. */
  lemma SetRoleFrame(st: State, rel: ElemId, role: Role, v: Option<ElemId>)
    requires rel in st.elements
    ensures var r := SetRole(st, rel, role, v);
      r.items == st.items && r.connections == st.connections && r.nextId == st.nextId &&
      r.elements.Keys == st.elements.Keys &&
      forall x :: x in r.elements ==> r.elements[x].presentation == st.elements[x].presentation
  {
  }

  /** `role.set` with an existing value keeps every end within the existing elements. */
  lemma SetRoleResolves(st: State, rel: ElemId, role: Role, v: Option<ElemId>)
    requires RolesResolve(st) && rel in st.elements
    requires v.Some? ==> v.value in st.elements
    ensures EndsResolve(SetRole(st, rel, role, v).elements, st.elements.Keys)
  {
    var keys := st.elements.Keys;
    var e := st.elements[rel];
    var nv := if !role.multi then Single(v)
      else if v.Some? then Many(Append(Members(RoleGet(e, role)), v.value))
      else RoleGet(e, role);
    MembersTargets(st.elements, keys, rel, role);
    if role.multi && v.Some? {
      AppendTargets(Members(RoleGet(e, role)), v.value);
    } else if role.multi && role.name in e.roles {
      assert RoleTargets(e.roles[role.name]) <= keys;
    }
    UpdateEndResolves(st.elements, keys, rel, role.name, nv);
    var els1 := st.elements[rel := e.(roles := e.roles[role.name := nv])];
    if role.opposite.Some? && v.Some? && v.value in els1 {
      var t := els1[v.value];
      var back := Role(role.opposite.value, true, None, "");
      MembersTargets(els1, keys, v.value, back);
      AppendTargets(Members(RoleGet(t, back)), rel);
      UpdateEndResolves(els1, keys, v.value, role.opposite.value, Many(Append(Members(RoleGet(t, back)), rel)));
    }
  }

  /** A change to association ends only, with every end resolving, keeps the store invariant. */
  lemma EndsOnlyKeepsValid(st: State, r: State)
    requires StoreValid(st)
    requires r.items == st.items && r.connections == st.connections && r.nextId == st.nextId
    requires r.elements.Keys == st.elements.Keys
    requires forall x :: x in r.elements ==> r.elements[x].presentation == st.elements[x].presentation
    requires EndsResolve(r.elements, st.elements.Keys)
    ensures StoreValid(r)
  {
    assert SubjectsLinked(r) by {
      forall i | i in r.items && r.items[i].subject.Some?
        ensures r.items[i].subject.value in r.elements && i in r.elements[r.items[i].subject.value].presentation
      {
        assert i in st.elements[st.items[i].subject.value].presentation;
      }
    }
    assert PresentationsLinked(r) by {
      forall e, j | e in r.elements && j in r.elements[e].presentation
        ensures j in r.items && r.items[j].subject == Some(e)
      {
        assert j in st.elements[e].presentation;
      }
    }
  }

  lemma SetRoleKeepsValid(st: State, rel: ElemId, role: Role, v: Option<ElemId>)
    requires StoreValid(st) && rel in st.elements
    requires v.Some? ==> v.value in st.elements
    ensures StoreValid(SetRole(st, rel, role, v))
    ensures SetRole(st, rel, role, v).items == st.items
    ensures SetRole(st, rel, role, v).connections == st.connections
    ensures SetRole(st, rel, role, v).elements.Keys == st.elements.Keys
  {
    SetRoleFrame(st, rel, role, v);
    SetRoleResolves(st, rel, role, v);
    EndsOnlyKeepsValid(st, SetRole(st, rel, role, v));
  }

  lemma CreateElementKeepsValid(st: State, cls: TypeName, attributes: map<string, string>)
    requires StoreValid(st)
    ensures StoreValid(CreateElement(st, cls, attributes).0)
    ensures CreateElement(st, cls, attributes).1 !in st.elements
    ensures CreateElement(st, cls, attributes).0.items == st.items
    ensures CreateElement(st, cls, attributes).0.connections == st.connections
  {
    var (r, id) := CreateElement(st, cls, attributes);
    assert id !in st.elements;
    forall e, j | e in r.elements && j in r.elements[e].presentation
      ensures j in r.items && r.items[j].subject == Some(e)
    {
      assert e != id;
    }
  }

  lemma ConnectItemKeepsValid(st: State, d: DiagramId, item: ItemId, h: HandleId, connected: ItemId, port: PortId)
    requires StoreValid(st) && item in st.items && connected in st.items
    requires ConnectItem(st, d, item, h, connected, port).Ok?
    ensures StoreValid(ConnectItem(st, d, item, h, connected, port).value)
  {
    var conns := Registry(st, d);
    var c := Connection(item, h, connected, port, true);
    var n := conns + [c];
    assert ConnectionsValid(st.items, conns);
    forall k, l | 0 <= k < l < |n| ensures n[k].handle != n[l].handle {
      if l == |conns| {
        assert n[k] == conns[k];
      }
    }
  }

  lemma DisconnectItemKeepsValid(st: State, d: DiagramId, item: ItemId, h: HandleId)
    requires StoreValid(st)
    ensures StoreValid(DisconnectItem(st, d, item, h))
    ensures GetConnection(Registry(DisconnectItem(st, d, item, h), d), h).Some? ==>
              GetConnection(Registry(DisconnectItem(st, d, item, h), d), h).value.item != item
  {
    if d in st.connections {
      var conns := st.connections[d];
      DropRecordsValid(st.items, conns, item, h);
    }
  }

  lemma DropRecordsValid(items: map<ItemId, Item>, conns: seq<Connection>, item: ItemId, h: HandleId)
    requires ConnectionsValid(items, conns)
    ensures ConnectionsValid(items, DropRecords(conns, item, h))
  {
    if |conns| > 0 {
      DropRecordsValid(items, conns[1..], item, h);
      var rest := DropRecords(conns[1..], item, h);
      if !(conns[0].item == item && conns[0].handle == h) {
        var n := [conns[0]] + rest;
        forall k, l | 0 <= k < l < |n| ensures n[k].handle != n[l].handle {
          if k == 0 {
            assert n[l] in conns[1..];
            var j :| 0 <= j < |conns[1..]| && conns[1..][j] == n[l];
            assert conns[j + 1] == n[l];
          }
        }
      }
    }
  }

  lemma UpdateRecordValid(items: map<ItemId, Item>, conns: seq<Connection>, k: nat, c: Connection)
    requires ConnectionsValid(items, conns) && k < |conns|
    requires c.item == conns[k].item && c.handle == conns[k].handle && c.connected == conns[k].connected
    ensures ConnectionsValid(items, UpdateRecord(conns, k, c))
  {
  }

  lemma ReconnectItemKeepsValid(st: State, d: DiagramId, h: HandleId, port: PortId)
    requires StoreValid(st) && ReconnectItem(st, d, h, port).Ok?
    ensures StoreValid(ReconnectItem(st, d, h, port).value)
  {
    var conns := Registry(st, d);
    var k := RecordIndex(conns, h);
    UpdateRecordValid(st.items, conns, k, conns[k].(port := port, constrained := true));
  }

  lemma RemoveConstraintKeepsValid(st: State, d: DiagramId, h: HandleId)
    requires StoreValid(st)
    ensures StoreValid(RemoveConstraint(st, d, h))
  {
    var conns := Registry(st, d);
    if GetConnection(conns, h).Some? {
      var k := RecordIndex(conns, h);
      UpdateRecordValid(st.items, conns, k, conns[k].(constrained := false));
    }
  }

  // ---------------------------------------------------------------------
  // The mutable repository
  // ---------------------------------------------------------------------

  /** The element factory together with the diagrams' connection registries. */
  class Model {
    var elements: map<ElemId, Element>
    var items: map<ItemId, Item>
    var connections: map<DiagramId, seq<Connection>>
    var nextId: nat

    function Snapshot(): State
      reads this
    {
      State(elements, items, connections, nextId)
    }

    ghost predicate Valid()
      reads this
    {
      StoreValid(Snapshot())
    }

    /** A repository holding the given state. */
    constructor (st: State)
      requires StoreValid(st)
      ensures Valid() && Snapshot() == st
    {
      elements, items, connections, nextId := st.elements, st.items, st.connections, st.nextId;
    }

    method Assign(st: State)
      modifies this
      ensures Snapshot() == st
    {
      elements, items, connections, nextId := st.elements, st.items, st.connections, st.nextId;
    }

    /** `item.subject = s`, or `del item.subject` when `s` is `None`. */
    method SetSubjectOf(i: ItemId, s: Option<ElemId>)
      requires Valid() && i in items
      requires s.Some? ==> s.value in elements
      modifies this
      ensures Valid() && Snapshot() == SetSubject(old(Snapshot()), i, s)
      ensures items[i].subject == s
      ensures elements.Keys == old(elements.Keys) && connections == old(connections)
    {
      SetSubjectKeepsValid(Snapshot(), i, s);
      Assign(SetSubject(Snapshot(), i, s));
    }

    /** `role.set(rel, v)`. */
    method SetRoleOf(rel: ElemId, role: Role, v: Option<ElemId>)
      requires Valid() && rel in elements
      requires v.Some? ==> v.value in elements
      modifies this
      ensures Valid() && Snapshot() == SetRole(old(Snapshot()), rel, role, v)
      ensures items == old(items) && connections == old(connections)
      ensures elements.Keys == old(elements.Keys)
    {
      SetRoleKeepsValid(Snapshot(), rel, role, v);
      Assign(SetRole(Snapshot(), rel, role, v));
    }

    /** `model.create(cls)`, with the attribute values given. */
    method Create(cls: TypeName, attributes: map<string, string>) returns (id: ElemId)
      requires Valid()
      modifies this
      ensures Valid() && (Snapshot(), id) == CreateElement(old(Snapshot()), cls, attributes)
      ensures id !in old(elements) && elements.Keys == old(elements.Keys) + {id}
      ensures items == old(items) && connections == old(connections)
    {
      CreateElementKeepsValid(Snapshot(), cls, attributes);
      var r := CreateElement(Snapshot(), cls, attributes);
      Assign(r.0);
      id := r.1;
    }
  }
}
