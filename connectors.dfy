/**
 * Connectors between a line's handle and a diagram item
 * (gaphor/diagram/connectors.py): whether it may attach (`allow`), what
 * attaching and detaching do to the model (`connect`, `disconnect`), and how
 * a relationship element is found again or created for a line whose two ends
 * are attached.
 *
 * The connector class hierarchy BaseConnector > RelationshipConnect >
 * DirectionalRelationshipConnect > MetadataRelationConnect is a tag (`Kind`);
 * each operation dispatches on it and calls the shared parts explicitly.
 * The `NoConnector` instance is `Adapter.Forbidding`.
 */
module Connectors {
  import opened Wrappers
  import opened Modeling

  /** An end handle of the line: `line.head` or `line.tail`. */
  datatype End = HeadEnd | TailEnd

  /** `line.opposite(handle)`. */
  function Opposite(e: End): End {
    if e == HeadEnd then TailEnd else HeadEnd
  }

  datatype Kind = BaseKind | RelationshipKind | DirectionalKind | MetadataKind

  /** One element as `copy()` captures it: its id, class and attribute values. */
  datatype Copied = Copied(id: ElemId, cls: TypeName, attributes: map<string, string>)

  /**
   * A connector instance: the item connected to, the line, the diagram chosen
   * at construction, and (for relationship connectors) the copy of the line's
   * subject taken at construction.
   */
  datatype Connector = Connector(kind: Kind, element: ItemId, line: ItemId, diagram: DiagramId, copyBuffer: seq<Copied>)

  /** What `Connector(element, line)` instantiates: `NoConnector`, or a connector. */
  datatype Adapter = Forbidding | Live(c: Connector)

  /** A call a cascade issues on the connector of another item: `Connector(element, line).connect/disconnect(handle ...)`. */
  datatype PeerCall =
    | PeerConnect(element: ItemId, line: ItemId, handle: HandleId, port: PortId)
    | PeerDisconnect(element: ItemId, line: ItemId, handle: HandleId)

  /** A line has its two end handles (gaphas keeps at least two). */
  predicate IsLine(st: State, line: ItemId) {
    line in st.items && |st.items[line].handles| >= 2
  }

  /** The connector's items exist and its line is a line. */
  predicate Wired(st: State, c: Connector) {
    c.element in st.items && IsLine(st, c.line)
  }

  /** The handle of end `e`: `line.head` is `handles[0]`, `line.tail` is `handles[-1]`. */
  function EndHandle(st: State, line: ItemId, e: End): HandleId
    requires IsLine(st, line)
  {
    var hs := st.items[line].handles;
    if e == HeadEnd then hs[0] else hs[|hs| - 1]
  }

  // ---------------------------------------------------------------------
  // Construction (BaseConnector.__init__, RelationshipConnect.__init__)
  // ---------------------------------------------------------------------

  /**
   * `element.diagram or line.diagram`, after asserting that the two diagrams
   * are the same or one of them is `None`, and asserting that the result is
   * not `None`.
   */
  function ChooseDiagram(ed: Option<DiagramId>, ld: Option<DiagramId>): (r: Result<DiagramId>)
    ensures r.Ok? <==> (ed == ld || ed.None? || ld.None?) && (ed.Some? || ld.Some?)
    ensures r.Ok? ==> Some(r.value) == (if ed.Some? then ed else ld)
    ensures r.Fail? ==> r.fault == AssertionError
  {
    if !(ed == ld || ed.None? || ld.None?) then Fail(AssertionError)
    else if ed.Some? then Ok(ed.value)
    else if ld.Some? then Ok(ld.value)
    else Fail(AssertionError)
  }

  /** `dict(copy(subject))`: the snapshot of the subject element. */
  function CopyOf(st: State, subject: ElemId): seq<Copied>
    requires subject in st.elements
  {
    [Copied(subject, st.elements[subject].cls, st.elements[subject].attributes)]
  }

  /** `Kind(element, line)`: choose the diagram; a relationship connector also copies the line's subject. */
  function NewConnector(st: State, k: Kind, element: ItemId, line: ItemId): (r: Result<Connector>)
    requires StoreValid(st) && element in st.items && IsLine(st, line)
    ensures r.Ok? ==> Wired(st, r.value) && r.value.kind == k
    ensures r.Ok? <==> ChooseDiagram(st.items[element].diagram, st.items[line].diagram).Ok?
    ensures r.Ok? ==> (r.value.copyBuffer == [] <==> k == BaseKind || st.items[line].subject.None?)
  {
    match ChooseDiagram(st.items[element].diagram, st.items[line].diagram)
    case Fail(f) => Fail(f)
    case Ok(d) =>
      var subject := st.items[line].subject;
      var buffer := if k != BaseKind && subject.Some? then CopyOf(st, subject.value) else [];
      Ok(Connector(k, element, line, d, buffer))
  }

  // ---------------------------------------------------------------------
  // Queries
  // ---------------------------------------------------------------------

  /** `get_connected(handle)`: the item the handle is attached to in the connector's diagram. */
  function GetConnected(st: State, c: Connector, h: HandleId): Option<ItemId> {
    match GetConnection(Registry(st, c.diagram), h)
    case Some(ci) => Some(ci.connected)
    case None => None
  }

  /** The item attached to end `e` of the line. */
  function ConnectedAt(st: State, c: Connector, e: End): Option<ItemId>
    requires Wired(st, c)
  {
    GetConnected(st, c, EndHandle(st, c.line, e))
  }

  lemma ConnectedExists(st: State, c: Connector, e: End)
    requires StoreValid(st) && Wired(st, c)
    ensures ConnectedAt(st, c, e).Some? ==> ConnectedAt(st, c, e).value in st.items
  {
    var conns := Registry(st, c.diagram);
    var h := EndHandle(st, c.line, e);
    if GetConnection(conns, h).Some? {
      var k := RecordIndex(conns, h);
      assert ConnectionsValid(st.items, conns);
      assert conns[k].connected in st.items;
    }
  }

  /** The subject of an optional item. */
  function SubjectOf(st: State, i: Option<ItemId>): Option<ElemId> {
    if i.Some? && i.value in st.items then st.items[i.value].subject else None
  }

  // ---------------------------------------------------------------------
  // allow
  // ---------------------------------------------------------------------

  /** `BaseConnector.allow`: the element is on a diagram, and on the line's. */
  predicate BaseAllow(st: State, c: Connector)
    requires Wired(st, c)
  {
    st.items[c.element].diagram.Some? && st.items[c.element].diagram == st.items[c.line].diagram
  }

  /**
   * `DirectionalRelationshipConnect.allow`: not when the opposite end is
   * attached to this very element, nor when the opposite item and the element
   * both lack a subject; otherwise as the base connector.
   */
  predicate DirectionalAllow(st: State, c: Connector, e: End)
    requires Wired(st, c)
  {
    var connectedTo := ConnectedAt(st, c, Opposite(e));
    if connectedTo == Some(c.element) then false
    else if connectedTo.Some? && SubjectOf(st, connectedTo).None? && st.items[c.element].subject.None?
         && SubjectOf(st, connectedTo) == st.items[c.element].subject then false
    else BaseAllow(st, c)
  }

  /**
   * `MetadataRelationConnect.allow`: as the directional connector, and the
   * line class has metadata, and the element's subject has the type the
   * metadata declares for this end, and the opposite item, if any, has a
   * subject of the type declared for the other end.
   */
  predicate MetadataAllow(env: Env, st: State, c: Connector, e: End)
    requires Wired(st, c)
  {
    if !DirectionalAllow(st, c, e) then false
    else
      var oppositeElement := ConnectedAt(st, c, Opposite(e));
      var cls := st.items[c.line].cls;
      if cls in env.metadata then
        var md := env.metadata[cls];
        var mine := if e == HeadEnd then md.head else md.tail;
        var theirs := if e == HeadEnd then md.tail else md.head;
        SubjectIsInstance(env, st, st.items[c.element].subject, mine.target) &&
        (oppositeElement.None? || SubjectIsInstance(env, st, SubjectOf(st, oppositeElement), theirs.target))
      else false
  }

  /** `allow(handle, port)` of whatever `Connector(element, line)` instantiated. */
  predicate Allow(env: Env, st: State, a: Adapter, e: End)
    requires a.Live? ==> Wired(st, a.c)
  {
    match a
    case Forbidding => false
    case Live(c) =>
      match c.kind
      case BaseKind => BaseAllow(st, c)
      case RelationshipKind => BaseAllow(st, c)
      case DirectionalKind => DirectionalAllow(st, c, e)
      case MetadataKind => MetadataAllow(env, st, c, e)
  }

  /** `NoConnector.allow` refuses everything. */
  lemma NoConnectorRefuses(env: Env, st: State, e: End)
    ensures !Allow(env, st, Forbidding, e)
  {
  }

  /**
   * A connector that allows a connection was built on the element's diagram:
   * both items are on it, and it is the one the constructor chose.
   */
  lemma BaseAllowOnChosenDiagram(st: State, k: Kind, element: ItemId, line: ItemId, e: End)
    requires StoreValid(st) && element in st.items && IsLine(st, line)
    requires NewConnector(st, k, element, line).Ok?
    ensures var c := NewConnector(st, k, element, line).value;
      BaseAllow(st, c) <==> st.items[element].diagram == st.items[line].diagram == Some(c.diagram)
  {
  }

  /** Each refusing rule of the directional connector, and that it narrows the base rule. */
  lemma DirectionalAllowRules(st: State, c: Connector, e: End)
    requires Wired(st, c)
    ensures ConnectedAt(st, c, Opposite(e)) == Some(c.element) ==> !DirectionalAllow(st, c, e)
    ensures (ConnectedAt(st, c, Opposite(e)).Some? && SubjectOf(st, ConnectedAt(st, c, Opposite(e))).None? &&
             st.items[c.element].subject.None?) ==> !DirectionalAllow(st, c, e)
    ensures DirectionalAllow(st, c, e) <==>
      BaseAllow(st, c) && ConnectedAt(st, c, Opposite(e)) != Some(c.element) &&
      !(ConnectedAt(st, c, Opposite(e)).Some? && SubjectOf(st, ConnectedAt(st, c, Opposite(e))).None? &&
        st.items[c.element].subject.None?)
  {
  }

  /** Without metadata for the line class nothing is allowed; with it, the subjects have the declared types. */
  lemma MetadataAllowRules(env: Env, st: State, c: Connector, e: End)
    requires Wired(st, c)
    ensures st.items[c.line].cls !in env.metadata ==> !MetadataAllow(env, st, c, e)
    ensures MetadataAllow(env, st, c, e) ==>
      DirectionalAllow(st, c, e) &&
      var md := env.metadata[st.items[c.line].cls];
      SubjectIsInstance(env, st, st.items[c.element].subject, if e == HeadEnd then md.head.target else md.tail.target)
    ensures MetadataAllow(env, st, c, e) && ConnectedAt(st, c, Opposite(e)).Some? ==>
      var md := env.metadata[st.items[c.line].cls];
      SubjectIsInstance(env, st, SubjectOf(st, ConnectedAt(st, c, Opposite(e))), if e == HeadEnd then md.tail.target else md.head.target)
  {
  }

  // ---------------------------------------------------------------------
  // relationship(): finding a relationship element to reuse
  // ---------------------------------------------------------------------

  /** `subject in gen_head` for a collection, `gen_head is subject` otherwise. */
  predicate RoleHolds(v: RoleValue, x: ElemId) {
    match v
    case Many(s) => x in s
    case Single(o) => o == Some(x)
  }

  /** Some presentation other than `line` is on diagram `d`. */
  predicate DrawnElsewhere(st: State, pres: seq<ItemId>, line: ItemId, d: Option<DiagramId>) {
    exists j :: 0 <= j < |pres| && pres[j] in st.items && st.items[pres[j]].diagram == d && pres[j] != line
  }

  /**
   * Candidate `gen` passes the three tests of the search: it is a
   * `required` instance, its head end holds the head subject, and it is not
   * shown on the line's diagram by another item.
   */
  predicate Reusable(env: Env, st: State, gen: ElemId, required: TypeName, head: Role, hs: ElemId, line: ItemId, d: Option<DiagramId>) {
    gen in st.elements &&
    IsInstance(env, st.elements[gen].cls, required) &&
    RoleHolds(RoleGet(st.elements[gen], head), hs) &&
    !DrawnElsewhere(st, st.elements[gen].presentation, line, d)
  }

  /** The first reusable candidate. */
  function FirstReusable(env: Env, st: State, cands: seq<ElemId>, required: TypeName, head: Role, hs: ElemId, line: ItemId, d: Option<DiagramId>): Option<ElemId> {
    if |cands| == 0 then None
    else if Reusable(env, st, cands[0], required, head, hs, line, d) then Some(cands[0])
    else FirstReusable(env, st, cands[1..], required, head, hs, line, d)
  }

  /** `getattr(tail_subject, tail.opposite)`: the collection to search; a single value cannot be iterated. */
  function Reverse(st: State, ts: ElemId, name: RoleName): Result<seq<ElemId>>
    requires ts in st.elements
  {
    match RoleGet(st.elements[ts], Role(name, true, None, ""))
    case Many(s) => Ok(s)
    case Single(_) => Fail(TypeError)
  }

  /** The line already has a subject whose two ends are the two subjects (the fast path). */
  predicate AlreadyRelated(st: State, line: ItemId, head: Role, tail: Role, hs: Option<ElemId>, ts: Option<ElemId>)
    requires line in st.items
  {
    var ls := st.items[line].subject;
    ls.Some? && ls.value in st.elements &&
    RoleGet(st.elements[ls.value], head) == Single(hs) &&
    RoleGet(st.elements[ls.value], tail) == Single(ts)
  }

  /**
   * `relationship(required_type, head, tail)`: both ends must be attached;
   * the line's subject if it already relates the two subjects; otherwise the
   * first reusable relationship among the tail subject's `tail.opposite`
   * collection; `None` when there is no head subject or no opposite end.
   */
  function FindRelationship(env: Env, st: State, c: Connector, required: TypeName, head: Role, tail: Role): Result<Option<ElemId>>
    requires Wired(st, c)
  {
    var lh := ConnectedAt(st, c, HeadEnd);
    var lt := ConnectedAt(st, c, TailEnd);
    if lh.None? || lt.None? then Fail(AssertionError)
    else
      var hs := SubjectOf(st, lh);
      var ts := SubjectOf(st, lt);
      if AlreadyRelated(st, c.line, head, tail, hs, ts) then Ok(st.items[c.line].subject)
      else if hs.None? || tail.opposite.None? then Ok(None)
      else if ts.None? || ts.value !in st.elements then Fail(AttributeError)
      else match Reverse(st, ts.value, tail.opposite.value)
        case Fail(f) => Fail(f)
        case Ok(cands) => Ok(FirstReusable(env, st, cands, required, head, hs.value, c.line, st.items[c.line].diagram))
  }

  lemma {:induction false} FirstReusableIsFirst(env: Env, st: State, cands: seq<ElemId>, required: TypeName, head: Role, hs: ElemId, line: ItemId, d: Option<DiagramId>)
    ensures FirstReusable(env, st, cands, required, head, hs, line, d).Some? ==>
      exists k :: 0 <= k < |cands| && FirstReusable(env, st, cands, required, head, hs, line, d) == Some(cands[k]) &&
        Reusable(env, st, cands[k], required, head, hs, line, d) &&
        forall k' :: 0 <= k' < k ==> !Reusable(env, st, cands[k'], required, head, hs, line, d)
    ensures FirstReusable(env, st, cands, required, head, hs, line, d).None? <==>
      forall k :: 0 <= k < |cands| ==> !Reusable(env, st, cands[k], required, head, hs, line, d)
  {
    if |cands| > 0 && !Reusable(env, st, cands[0], required, head, hs, line, d) {
      FirstReusableIsFirst(env, st, cands[1..], required, head, hs, line, d);
      assert forall k :: 1 <= k < |cands| ==> cands[k] == cands[1..][k - 1];
      if FirstReusable(env, st, cands[1..], required, head, hs, line, d).Some? {
        var k :| 0 <= k < |cands[1..]| && FirstReusable(env, st, cands[1..], required, head, hs, line, d) == Some(cands[1..][k]) &&
          Reusable(env, st, cands[1..][k], required, head, hs, line, d) &&
          forall k' :: 0 <= k' < k ==> !Reusable(env, st, cands[1..][k'], required, head, hs, line, d);
        assert cands[k + 1] == cands[1..][k];
        forall k' | 0 <= k' < k + 1 ensures !Reusable(env, st, cands[k'], required, head, hs, line, d) {
          if k' > 0 { assert cands[k'] == cands[1..][k' - 1]; }
        }
      }
    }
  }

  /**
   * What a relationship found by the search is: a `required` instance from
   * the tail subject's `tail.opposite` collection, whose head end holds the
   * head subject, not shown on the line's diagram by any item but the line,
   * and the first such candidate in the collection.
   */
  lemma FoundIsReusable(env: Env, st: State, c: Connector, required: TypeName, head: Role, tail: Role)
    requires Wired(st, c)
    requires FindRelationship(env, st, c, required, head, tail).Ok?
    requires FindRelationship(env, st, c, required, head, tail).value.Some?
    requires !AlreadyRelated(st, c.line, head, tail, SubjectOf(st, ConnectedAt(st, c, HeadEnd)), SubjectOf(st, ConnectedAt(st, c, TailEnd)))
    ensures var g := FindRelationship(env, st, c, required, head, tail).value.value;
      var hs := SubjectOf(st, ConnectedAt(st, c, HeadEnd));
      var ts := SubjectOf(st, ConnectedAt(st, c, TailEnd));
      hs.Some? && ts.Some? && ts.value in st.elements && tail.opposite.Some? &&
      Reverse(st, ts.value, tail.opposite.value).Ok? &&
      var cands := Reverse(st, ts.value, tail.opposite.value).value;
      g in cands &&
      g in st.elements && IsInstance(env, st.elements[g].cls, required) &&
      RoleHolds(RoleGet(st.elements[g], head), hs.value) &&
      (forall j :: j in st.elements[g].presentation && j in st.items && st.items[j].diagram == st.items[c.line].diagram ==> j == c.line) &&
      (forall k :: 0 <= k < |cands| && cands[k] != g && Reusable(env, st, cands[k], required, head, hs.value, c.line, st.items[c.line].diagram) ==>
         exists k' :: 0 <= k' < k && cands[k'] == g)
  {
    var hs := SubjectOf(st, ConnectedAt(st, c, HeadEnd));
    var ts := SubjectOf(st, ConnectedAt(st, c, TailEnd));
    var cands := Reverse(st, ts.value, tail.opposite.value).value;
    var d := st.items[c.line].diagram;
    FirstReusableIsFirst(env, st, cands, required, head, hs.value, c.line, d);
    var g := FindRelationship(env, st, c, required, head, tail).value.value;
    var pres := st.elements[g].presentation;
    forall j | j in pres && j in st.items && st.items[j].diagram == d ensures j == c.line {
      var k :| 0 <= k < |pres| && pres[k] == j;
      assert !DrawnElsewhere(st, pres, c.line, d);
    }
  }

  /**
   * The fast path: when the line's subject already has the head subject as
   * its head and the tail subject as its tail, that same subject is returned,
   * so calling `relationship` again changes nothing.
   */
  lemma FastPathReturnsSubject(env: Env, st: State, c: Connector, required: TypeName, head: Role, tail: Role)
    requires Wired(st, c)
    requires ConnectedAt(st, c, HeadEnd).Some? && ConnectedAt(st, c, TailEnd).Some?
    requires AlreadyRelated(st, c.line, head, tail, SubjectOf(st, ConnectedAt(st, c, HeadEnd)), SubjectOf(st, ConnectedAt(st, c, TailEnd)))
    ensures FindRelationship(env, st, c, required, head, tail) == Ok(st.items[c.line].subject)
  {
  }

  /** Both ends must be attached; with no head subject or no opposite end the search finds nothing. */
  lemma RelationshipEdgeCases(env: Env, st: State, c: Connector, required: TypeName, head: Role, tail: Role)
    requires Wired(st, c)
    ensures ConnectedAt(st, c, HeadEnd).None? || ConnectedAt(st, c, TailEnd).None? ==>
      FindRelationship(env, st, c, required, head, tail) == Fail(AssertionError)
    ensures (ConnectedAt(st, c, HeadEnd).Some? && ConnectedAt(st, c, TailEnd).Some? &&
             !AlreadyRelated(st, c.line, head, tail, SubjectOf(st, ConnectedAt(st, c, HeadEnd)), SubjectOf(st, ConnectedAt(st, c, TailEnd))) &&
             (SubjectOf(st, ConnectedAt(st, c, HeadEnd)).None? || tail.opposite.None?)) ==>
      FindRelationship(env, st, c, required, head, tail) == Ok(None)
  {
  }

  /** Whether some presentation in `pres` other than `line` is on diagram `d` (the inner loop of the search). */
  method ShownElsewhere(m: Model, pres: seq<ItemId>, line: ItemId, d: Option<DiagramId>) returns (found: bool)
    ensures found == DrawnElsewhere(m.Snapshot(), pres, line, d)
  {
    var j := 0;
    while j < |pres|
      invariant 0 <= j <= |pres|
      invariant !DrawnElsewhere(m.Snapshot(), pres[..j], line, d)
    {
      var item := pres[j];
      if item in m.items && m.items[item].diagram == d && item != line {
        assert pres[..j + 1][j] == item;
        assert DrawnElsewhere(m.Snapshot(), pres, line, d);
        return true;
      }
      assert forall k :: 0 <= k < j ==> pres[..j + 1][k] == pres[..j][k];
      j := j + 1;
    }
    assert pres[..j] == pres;
    return false;
  }

  /** `RelationshipConnect.relationship`: the search, as the nested loops of the source run it. */
  method Relationship(env: Env, m: Model, c: Connector, required: TypeName, head: Role, tail: Role) returns (r: Result<Option<ElemId>>)
    requires Wired(m.Snapshot(), c)
    ensures r == FindRelationship(env, m.Snapshot(), c, required, head, tail)
  {
    var st := m.Snapshot();
    var lh := ConnectedAt(st, c, HeadEnd);
    var lt := ConnectedAt(st, c, TailEnd);
    if lh.None? || lt.None? {
      return Fail(AssertionError);
    }
    var hs := SubjectOf(st, lh);
    var ts := SubjectOf(st, lt);
    if AlreadyRelated(st, c.line, head, tail, hs, ts) {
      return Ok(m.items[c.line].subject);
    }
    if hs.None? || tail.opposite.None? {
      return Ok(None);
    }
    if ts.None? || ts.value !in m.elements {
      return Fail(AttributeError);
    }
    var reverse := Reverse(st, ts.value, tail.opposite.value);
    if reverse.Fail? {
      return Fail(reverse.fault);
    }
    var cands := reverse.value;
    var d := m.items[c.line].diagram;
    var k := 0;
    while k < |cands|
      invariant 0 <= k <= |cands|
      invariant FirstReusable(env, st, cands, required, head, hs.value, c.line, d) ==
                FirstReusable(env, st, cands[k..], required, head, hs.value, c.line, d)
    {
      var gen := cands[k];
      if gen in m.elements && IsInstance(env, m.elements[gen].cls, required) &&
         RoleHolds(RoleGet(m.elements[gen], head), hs.value)
      {
        var elsewhere := ShownElsewhere(m, m.elements[gen].presentation, c.line, d);
        if !elsewhere {
          return Ok(Some(gen));
        }
      }
      assert cands[k..][1..] == cands[k + 1..];
      k := k + 1;
    }
    return Ok(None);
  }

  // ---------------------------------------------------------------------
  // Creating a relationship (new_relation, paste_model, new_relation_from_copy, relationship_or_new)
  // ---------------------------------------------------------------------

  function IdsOf(s: seq<Copied>): set<ElemId> {
    set e | e in s :: e.id
  }

  /** No two entries share an id, as in the keys of a dict. */
  predicate DistinctIds(s: seq<Copied>) {
    forall i, j :: 0 <= i < j < |s| ==> s[i].id != s[j].id
  }

  /**
   * The entries of `copy_data` that get pasted: the first entry of each id,
   * in order.  Each id occurs once among them, and every id of the copy does.
   */
  function FirstOfEachId(s: seq<Copied>): (r: seq<Copied>)
    ensures IdsOf(r) == IdsOf(s) && DistinctIds(r)
    ensures |r| <= |s|
  {
    if |s| == 0 then []
    else
      var p := FirstOfEachId(s[..|s| - 1]);
      assert s == s[..|s| - 1] + [s[|s| - 1]];
      assert IdsOf(s) == IdsOf(s[..|s| - 1]) + {s[|s| - 1].id};
      if s[|s| - 1].id in IdsOf(p) then p
      else
        var q := p + [s[|s| - 1]];
        assert IdsOf(q) == IdsOf(p) + {s[|s| - 1].id};
        assert forall i :: 0 <= i < |p| ==> p[i] in p && q[i] == p[i];
        q
  }

  /**
   * `copy_data` is a dict, so its ids are distinct and the loop pastes every
   * entry, in order: on such a copy `FirstOfEachId` is the identity.
   */
  lemma {:induction false} DistinctIdsPasteAll(s: seq<Copied>)
    requires DistinctIds(s)
    ensures FirstOfEachId(s) == s
  {
    if |s| > 0 {
      var init := s[..|s| - 1];
      assert DistinctIds(init);
      DistinctIdsPasteAll(init);
      assert forall i :: 0 <= i < |init| ==> init[i].id != s[|s| - 1].id;
      assert s[|s| - 1].id !in IdsOf(init);
      assert s == init + [s[|s| - 1]];
    }
  }

  lemma IdsOfSnoc(s: seq<Copied>, x: Copied)
    ensures IdsOf(s + [x]) == IdsOf(s) + {x.id}
  {
  }

  /** One more copied entry is pasted exactly when its id is new. */
  lemma FirstOfEachIdSnoc(s: seq<Copied>, x: Copied)
    ensures FirstOfEachId(s + [x]) ==
      if x.id in IdsOf(FirstOfEachId(s)) then FirstOfEachId(s) else FirstOfEachId(s) + [x]
  {
    assert (s + [x])[..|s + [x]| - 1] == s;
  }

  /** A pasted element: the copied class and attributes, no ends set, no presentations. */
  function Pasted(e: Copied): Element {
    Element(e.cls, e.attributes, map[], [])
  }

  /**
   * `st` is `st0` with the elements of `pasted` added, the `k`-th one pasted
   * from `entries[k]`: nothing else changed.
   */
  ghost predicate PastedInto(st0: State, st: State, entries: seq<Copied>, pasted: seq<ElemId>) {
    st.items == st0.items && st.connections == st0.connections &&
    st0.elements.Keys <= st.elements.Keys &&
    (forall e :: e in st0.elements ==> st.elements[e] == st0.elements[e]) &&
    |pasted| == |entries| &&
    forall j :: 0 <= j < |pasted| ==>
      pasted[j] !in st0.elements && pasted[j] in st.elements && st.elements[pasted[j]] == Pasted(entries[j])
  }

  /** Creating one more element from an entry extends the paste by it. */
  lemma PastedIntoStep(st0: State, st: State, entries: seq<Copied>, pasted: seq<ElemId>, entry: Copied)
    requires PastedInto(st0, st, entries, pasted) && IdsFresh(st)
    ensures var (st', id) := CreateElement(st, entry.cls, entry.attributes);
      PastedInto(st0, st', entries + [entry], pasted + [id])
  {
    var (st', id) := CreateElement(st, entry.cls, entry.attributes);
    assert id !in st.elements;
    forall j | 0 <= j < |pasted| + 1
      ensures (pasted + [id])[j] !in st0.elements && (pasted + [id])[j] in st'.elements &&
              st'.elements[(pasted + [id])[j]] == Pasted((entries + [entry])[j])
    {
      if j < |pasted| {
        assert (pasted + [id])[j] == pasted[j] && (entries + [entry])[j] == entries[j];
      }
    }
  }

  /** `create(ref)` for a copied id not pasted yet: a new element with the entry's class and attributes. */
  method PasteOne(m: Model, entry: Copied, ghost st0: State, ghost entries: seq<Copied>, pasted: seq<ElemId>) returns (id: ElemId)
    requires m.Valid() && PastedInto(st0, m.Snapshot(), entries, pasted)
    modifies m
    ensures m.Valid() && PastedInto(st0, m.Snapshot(), entries + [entry], pasted + [id])
  {
    PastedIntoStep(st0, m.Snapshot(), entries, pasted, entry);
    id := m.Create(entry.cls, entry.attributes);
  }

  /** One turn of `paste_model`'s loop: paste entry `k` unless its id was pasted before. */
  method PasteEntry(m: Model, copyData: seq<Copied>, k: nat, newElements: map<ElemId, ElemId>, pasted: seq<ElemId>, ghost st0: State)
    returns (newElements': map<ElemId, ElemId>, pasted': seq<ElemId>)
    requires k < |copyData| && m.Valid() && newElements.Keys == IdsOf(copyData[..k])
    requires PastedInto(st0, m.Snapshot(), FirstOfEachId(copyData[..k]), pasted)
    modifies m
    ensures m.Valid() && newElements'.Keys == IdsOf(copyData[..k + 1])
    ensures PastedInto(st0, m.Snapshot(), FirstOfEachId(copyData[..k + 1]), pasted')
  {
    var entry := copyData[k];
    PrefixStep(copyData, k);
    if entry.id !in newElements {
      var id := PasteOne(m, entry, st0, FirstOfEachId(copyData[..k]), pasted);
      newElements' := newElements[entry.id := id];
      pasted' := pasted + [id];
    } else {
      newElements', pasted' := newElements, pasted;
    }
  }

  /** Extending the prefix `s[..k]` by `s[k]`: its ids gain `s[k].id`, and it is pasted when that id is new. */
  lemma PrefixStep(s: seq<Copied>, k: nat)
    requires k < |s|
    ensures IdsOf(s[..k + 1]) == IdsOf(s[..k]) + {s[k].id}
    ensures FirstOfEachId(s[..k + 1]) ==
      if s[k].id in IdsOf(s[..k]) then FirstOfEachId(s[..k]) else FirstOfEachId(s[..k]) + [s[k]]
  {
    assert s[..k + 1] == s[..k] + [s[k]];
    FirstOfEachIdSnoc(s[..k], s[k]);
    IdsOfSnoc(s[..k], s[k]);
  }

  /**
   * `paste_model(copy_data, diagram)`: paste each id of the copy once, in
   * the order of the copy, and yield the new elements in that order.
   */
  method PasteModel(m: Model, copyData: seq<Copied>) returns (pasted: seq<ElemId>)
    requires m.Valid()
    modifies m
    ensures m.Valid()
    ensures m.items == old(m.items) && m.connections == old(m.connections)
    ensures old(m.elements.Keys) <= m.elements.Keys
    ensures forall e :: e in old(m.elements) ==> m.elements[e] == old(m.elements[e])
    ensures |pasted| == |FirstOfEachId(copyData)|
    ensures forall k :: 0 <= k < |pasted| ==>
      pasted[k] !in old(m.elements) && pasted[k] in m.elements && m.elements[pasted[k]] == Pasted(FirstOfEachId(copyData)[k])
  {
    ghost var st0 := m.Snapshot();
    var newElements: map<ElemId, ElemId> := map[];
    pasted := [];
    var k := 0;
    while k < |copyData|
      invariant 0 <= k <= |copyData|
      invariant m.Valid()
      invariant newElements.Keys == IdsOf(copyData[..k])
      invariant PastedInto(st0, m.Snapshot(), FirstOfEachId(copyData[..k]), pasted)
    {
      newElements, pasted := PasteEntry(m, copyData, k, newElements, pasted, st0);
      k := k + 1;
    }
    assert copyData[..k] == copyData;
  }

  /**
   * `new_relation_from_copy(type)`: nothing when the copy buffer is empty;
   * otherwise paste the buffer and return the first pasted `type` instance,
   * failing when the paste yields none.
   */
  method NewRelationFromCopy(env: Env, m: Model, c: Connector, t: TypeName) returns (r: Result<Option<ElemId>>)
    requires m.Valid()
    modifies m
    ensures m.Valid()
    ensures m.items == old(m.items) && m.connections == old(m.connections)
    ensures old(m.elements.Keys) <= m.elements.Keys
    ensures forall e :: e in old(m.elements) ==> m.elements[e] == old(m.elements[e])
    ensures c.copyBuffer == [] ==> r == Ok(None) && m.Snapshot() == old(m.Snapshot())
    ensures r.Ok? && c.copyBuffer != [] ==> r.value.Some?
    ensures r.Ok? && r.value.Some? ==>
      r.value.value !in old(m.elements) && r.value.value in m.elements && IsInstance(env, m.elements[r.value.value].cls, t) &&
      m.elements[r.value.value].roles == map[] && m.elements[r.value.value].presentation == []
    ensures r.Fail? ==>
      r.fault == AssertionError && forall e :: e in FirstOfEachId(c.copyBuffer) ==> !IsInstance(env, e.cls, t)
  {
    if c.copyBuffer == [] {
      return Ok(None);
    }
    var pasted := PasteModel(m, c.copyBuffer);
    var k := 0;
    ghost var entries := FirstOfEachId(c.copyBuffer);
    while k < |pasted|
      invariant 0 <= k <= |pasted|
      invariant forall j :: 0 <= j < k ==> !IsInstance(env, entries[j].cls, t)
    {
      if IsInstance(env, m.elements[pasted[k]].cls, t) {
        return Ok(Some(pasted[k]));
      }
      k := k + 1;
    }
    return Fail(AssertionError);
  }

  /** `role` of `e` refers to `s`: a single end is `s`, a collection contains it. */
  predicate RoleRefers(v: RoleValue, s: Option<ElemId>) {
    match v
    case Single(o) => o == s
    case Many(xs) => s.Some? ==> s.value in xs
  }

  /**
   * Setting an end of `rel` (a single end, or a collection not set yet) to
   * `v` makes it refer to `v` and leaves the other ends, the class and the
   * presentations of `rel` alone.
   */
  lemma SetRoleRefers(st: State, rel: ElemId, role: Role, v: Option<ElemId>)
    requires StoreValid(st) && rel in st.elements && (role.name !in st.elements[rel].roles || !role.multi)
    requires v.Some? ==> v.value in st.elements && v.value != rel
    ensures rel in SetRole(st, rel, role, v).elements
    ensures RoleRefers(RoleGet(SetRole(st, rel, role, v).elements[rel], role), v)
    ensures !role.multi ==> RoleGet(SetRole(st, rel, role, v).elements[rel], role) == Single(v)
    ensures SetRole(st, rel, role, v).elements[rel].roles.Keys == st.elements[rel].roles.Keys + {role.name}
    ensures SetRole(st, rel, role, v).elements[rel].cls == st.elements[rel].cls
    ensures SetRole(st, rel, role, v).elements[rel].presentation == st.elements[rel].presentation
    ensures forall other: Role :: other.name != role.name ==>
      RoleGet(SetRole(st, rel, role, v).elements[rel], other) == RoleGet(st.elements[rel], other)
  {
  }

  /** The subject of the item attached to end `e` of the line, if any. */
  function EndSubject(st: State, c: Connector, e: End): Option<ElemId>
    requires Wired(st, c)
  {
    SubjectOf(st, ConnectedAt(st, c, e))
  }

  /** The subjects at the ends exist, and neither is an element that no item presents. */
  lemma EndSubjectShown(st: State, c: Connector, e: End)
    requires StoreValid(st) && Wired(st, c)
    ensures EndSubject(st, c, e).Some? ==>
      EndSubject(st, c, e).value in st.elements && st.elements[EndSubject(st, c, e).value].presentation != []
  {
    ConnectedExists(st, c, e);
    if EndSubject(st, c, e).Some? {
      var i := ConnectedAt(st, c, e).value;
      assert i in st.elements[EndSubject(st, c, e).value].presentation;
    }
  }

  /** `head.set(relation, head subject)` followed by `tail.set(relation, tail subject)`. */
  function WithEnds(st: State, c: Connector, relation: ElemId, head: Role, tail: Role): State
    requires Wired(st, c) && relation in st.elements
  {
    var st1 := SetRole(st, relation, head, EndSubject(st, c, HeadEnd));
    SetRole(st1, relation, tail, EndSubject(st, c, TailEnd))
  }

  /**
   * Setting the ends of a relationship that has none yet and is not shown:
   * the store stays valid, only elements' ends change, and each end refers
   * to the subject at that end of the line (the tail end wins when both
   * ends have the same name).
   */
  lemma WithEndsRefers(st: State, c: Connector, relation: ElemId, head: Role, tail: Role)
    requires StoreValid(st) && Wired(st, c)
    requires relation in st.elements && st.elements[relation].roles == map[] && st.elements[relation].presentation == []
    ensures var r := WithEnds(st, c, relation, head, tail);
      StoreValid(r) && r.items == st.items && r.connections == st.connections &&
      r.elements.Keys == st.elements.Keys && r.elements[relation].cls == st.elements[relation].cls
    ensures var e := WithEnds(st, c, relation, head, tail).elements[relation];
      var hs := EndSubject(st, c, HeadEnd);
      var ts := EndSubject(st, c, TailEnd);
      (head.name != tail.name ==> RoleRefers(RoleGet(e, head), hs)) &&
      (head.name != tail.name && !head.multi ==> RoleGet(e, head) == Single(hs)) &&
      (head.name != tail.name || !tail.multi ==> RoleRefers(RoleGet(e, tail), ts)) &&
      (!tail.multi ==> RoleGet(e, tail) == Single(ts))
  {
    var hs := EndSubject(st, c, HeadEnd);
    var ts := EndSubject(st, c, TailEnd);
    EndSubjectShown(st, c, HeadEnd);
    EndSubjectShown(st, c, TailEnd);
    SetRoleRefers(st, relation, head, hs);
    SetRoleKeepsValid(st, relation, head, hs);
    var st1 := SetRole(st, relation, head, hs);
    if head.name != tail.name || !tail.multi {
      SetRoleRefers(st1, relation, tail, ts);
    }
    SetRoleKeepsValid(st1, relation, tail, ts);
  }

  /** The store does not change where `c` is wired when only elements change. */
  lemma EndSubjectsKept(st: State, st': State, c: Connector, e: End)
    requires Wired(st, c) && st'.items == st.items && st'.connections == st.connections
    ensures Wired(st', c) && ConnectedAt(st', c, e) == ConnectedAt(st, c, e) && EndSubject(st', c, e) == EndSubject(st, c, e)
  {
  }

  /**
   * The second half of `relationship_or_new`: on a relationship that has no
   * ends set and no presentations yet, set the head end to the subject of
   * the item at the line's head and the tail end to that at its tail.
   */
  method SetEnds(m: Model, c: Connector, relation: ElemId, head: Role, tail: Role)
    requires m.Valid() && Wired(m.Snapshot(), c)
    requires relation in m.elements && m.elements[relation].roles == map[] && m.elements[relation].presentation == []
    modifies m
    ensures m.Valid() && m.Snapshot() == WithEnds(old(m.Snapshot()), c, relation, head, tail)
    ensures m.items == old(m.items) && m.connections == old(m.connections)
    ensures m.elements.Keys == old(m.elements.Keys)
  {
    var st := m.Snapshot();
    WithEndsRefers(st, c, relation, head, tail);
    EndSubjectShown(st, c, HeadEnd);
    EndSubjectShown(st, c, TailEnd);
    var hs := EndSubject(st, c, HeadEnd);
    var ts := EndSubject(st, c, TailEnd);
    m.SetRoleOf(relation, head, hs);
    m.SetRoleOf(relation, tail, ts);
  }

  /**
   * `relationship_or_new(type, head, tail)`: the relationship the search
   * returns, if any; otherwise a new one, pasted from the copy buffer or
   * created, that must be a `type` instance, with its head end set to the
   * head item's subject and its tail end to the tail item's subject.
   */
  method RelationshipOrNew(env: Env, m: Model, c: Connector, t: TypeName, head: Role, tail: Role) returns (r: Result<ElemId>)
    requires m.Valid() && Wired(m.Snapshot(), c)
    modifies m
    ensures m.Valid() && Wired(m.Snapshot(), c)
    ensures m.items == old(m.items) && m.connections == old(m.connections)
    ensures old(m.elements.Keys) <= m.elements.Keys
    ensures r.Ok? ==> r.value in m.elements
    ensures var found := old(FindRelationship(env, m.Snapshot(), c, t, head, tail));
      (found.Fail? ==> r == Fail(found.fault) && m.Snapshot() == old(m.Snapshot())) &&
      (found.Ok? && found.value.Some? ==> r == Ok(found.value.value) && m.Snapshot() == old(m.Snapshot()))
    ensures old(FindRelationship(env, m.Snapshot(), c, t, head, tail)) == Ok(None) && r.Ok? ==>
      var hs := EndSubject(m.Snapshot(), c, HeadEnd);
      var ts := EndSubject(m.Snapshot(), c, TailEnd);
      r.value !in old(m.elements) && IsInstance(env, m.elements[r.value].cls, t) &&
      (head.name != tail.name ==> RoleRefers(RoleGet(m.elements[r.value], head), hs)) &&
      (head.name != tail.name && !head.multi ==> RoleGet(m.elements[r.value], head) == Single(hs)) &&
      (head.name != tail.name || !tail.multi ==> RoleRefers(RoleGet(m.elements[r.value], tail), ts)) &&
      (!tail.multi ==> RoleGet(m.elements[r.value], tail) == Single(ts))
    ensures old(FindRelationship(env, m.Snapshot(), c, t, head, tail)) == Ok(None) && r.Fail? ==>
      r == Fail(AssertionError) && c.copyBuffer != [] &&
      forall e :: e in FirstOfEachId(c.copyBuffer) ==> !IsInstance(env, e.cls, t)
  {
    var found := Relationship(env, m, c, t, head, tail);
    if found.Fail? {
      return Fail(found.fault);
    }
    if found.value.Some? {
      FindsExisting(env, m.Snapshot(), c, t, head, tail);
      return Ok(found.value.value);
    }
    var fromCopy := NewRelationFromCopy(env, m, c, t);
    if fromCopy.Fail? {
      return Fail(fromCopy.fault);
    }
    var relation: ElemId;
    if fromCopy.value.Some? {
      relation := fromCopy.value.value;
    } else {
      relation := m.Create(t, map[]);
    }
    assert IsInstance(env, m.elements[relation].cls, t);
    ghost var before := m.Snapshot();
    WithEndsRefers(before, c, relation, head, tail);
    SetEnds(m, c, relation, head, tail);
    EndSubjectsKept(before, m.Snapshot(), c, HeadEnd);
    EndSubjectsKept(before, m.Snapshot(), c, TailEnd);
    return Ok(relation);
  }

  /** What the search returns is an element of the model. */
  lemma FindsExisting(env: Env, st: State, c: Connector, t: TypeName, head: Role, tail: Role)
    requires StoreValid(st) && Wired(st, c)
    requires FindRelationship(env, st, c, t, head, tail).Ok? && FindRelationship(env, st, c, t, head, tail).value.Some?
    ensures FindRelationship(env, st, c, t, head, tail).value.value in st.elements
  {
    var hs := SubjectOf(st, ConnectedAt(st, c, HeadEnd));
    var ts := SubjectOf(st, ConnectedAt(st, c, TailEnd));
    if !AlreadyRelated(st, c.line, head, tail, hs, ts) {
      FoundIsReusable(env, st, c, t, head, tail);
    }
  }

  // ---------------------------------------------------------------------
  // Model-level connect and disconnect
  // ---------------------------------------------------------------------

  /**
   * A relationship whose single-valued ends hold the subjects at the two
   * ends of the line is found again by the search once it is the line's
   * subject: connecting a second time reuses it instead of creating another.
   */
  lemma FoundAgainOnceSubject(env: Env, st: State, c: Connector, rel: ElemId, required: TypeName, head: Role, tail: Role)
    requires StoreValid(st) && Wired(st, c) && rel in st.elements
    requires ConnectedAt(st, c, HeadEnd).Some? && ConnectedAt(st, c, HeadEnd) != Some(c.line)
    requires ConnectedAt(st, c, TailEnd).Some? && ConnectedAt(st, c, TailEnd) != Some(c.line)
    requires RoleGet(st.elements[rel], head) == Single(EndSubject(st, c, HeadEnd))
    requires RoleGet(st.elements[rel], tail) == Single(EndSubject(st, c, TailEnd))
    ensures Wired(SetSubject(st, c.line, Some(rel)), c)
    ensures FindRelationship(env, SetSubject(st, c.line, Some(rel)), c, required, head, tail) == Ok(Some(rel))
  {
    SetSubjectFrame(st, c.line, Some(rel));
    var st' := SetSubject(st, c.line, Some(rel));
    assert Registry(st', c.diagram) == Registry(st, c.diagram);
    assert EndHandle(st', c.line, HeadEnd) == EndHandle(st, c.line, HeadEnd);
    assert EndHandle(st', c.line, TailEnd) == EndHandle(st, c.line, TailEnd);
    assert st'.items[c.line].subject == Some(rel);
    assert AlreadyRelated(st', c.line, head, tail, EndSubject(st', c, HeadEnd), EndSubject(st', c, TailEnd));
  }

  /**
   * `line.subject = rel`: only the line's subject (and the presentation
   * lists) change; a relationship whose single-valued ends hold the end
   * subjects is then what the search finds.
   */
  method SetLineSubject(env: Env, m: Model, c: Connector, rel: ElemId, md: ItemMetadata)
    requires m.Valid() && Wired(m.Snapshot(), c) && rel in m.elements
    modifies m
    ensures m.Valid() && Wired(m.Snapshot(), c)
    ensures m.Snapshot() == SetSubject(old(m.Snapshot()), c.line, Some(rel))
    ensures m.items[c.line].subject == Some(rel)
    ensures m.connections == old(m.connections) && m.elements.Keys == old(m.elements.Keys)
    ensures m.items == old(m.items)[c.line := old(m.items)[c.line].(subject := Some(rel))]
    ensures forall e :: e in old(m.elements) ==> m.elements[e].cls == old(m.elements[e]).cls
    ensures (!md.head.multi && !md.tail.multi && md.head.name != md.tail.name &&
             ConnectedAt(old(m.Snapshot()), c, HeadEnd).Some? && ConnectedAt(old(m.Snapshot()), c, HeadEnd) != Some(c.line) &&
             ConnectedAt(old(m.Snapshot()), c, TailEnd).Some? && ConnectedAt(old(m.Snapshot()), c, TailEnd) != Some(c.line) &&
             RoleGet(old(m.elements[rel]), md.head) == Single(EndSubject(old(m.Snapshot()), c, HeadEnd)) &&
             RoleGet(old(m.elements[rel]), md.tail) == Single(EndSubject(old(m.Snapshot()), c, TailEnd))) ==>
      FindRelationship(env, m.Snapshot(), c, md.modelElement, md.head, md.tail) == Ok(Some(rel))
  {
    ghost var before := m.Snapshot();
    if !md.head.multi && !md.tail.multi && md.head.name != md.tail.name &&
       ConnectedAt(before, c, HeadEnd).Some? && ConnectedAt(before, c, HeadEnd) != Some(c.line) &&
       ConnectedAt(before, c, TailEnd).Some? && ConnectedAt(before, c, TailEnd) != Some(c.line) &&
       RoleGet(before.elements[rel], md.head) == Single(EndSubject(before, c, HeadEnd)) &&
       RoleGet(before.elements[rel], md.tail) == Single(EndSubject(before, c, TailEnd)) {
      FoundAgainOnceSubject(env, before, c, rel, md.modelElement, md.head, md.tail);
    }
    SetSubjectFrame(before, c.line, Some(rel));
    m.SetSubjectOf(c.line, Some(rel));
  }

  /**
   * Only the line item and the elements may have changed from `st` to `st'`:
   * registries, the other items and the existing element ids are kept.
   */
  ghost predicate LineOnlyChanged(st: State, st': State, line: ItemId) {
    st'.connections == st.connections && st.elements.Keys <= st'.elements.Keys &&
    st'.items.Keys == st.items.Keys &&
    forall i :: i in st'.items && i != line ==> st'.items[i] == st.items[i]
  }

  /**
   * What `connect_subject` with metadata `md` promises, from `st` to `st'`:
   * a failing search is passed on with nothing changed; a relationship found
   * becomes the line's subject; otherwise the line's subject is a new `md`
   * relationship, which, when the ends are single-valued with different
   * names and the line is not attached to itself, the search then finds.
   */
  ghost predicate SubjectOutcome(env: Env, st: State, st': State, c: Connector, md: ItemMetadata, r: Result<bool>)
    requires Wired(st, c) && Wired(st', c)
  {
    var found := FindRelationship(env, st, c, md.modelElement, md.head, md.tail);
    var subject := st'.items[c.line].subject;
    (r.Ok? ==> r.value) &&
    (found.Fail? ==> r == Fail(found.fault) && st' == st) &&
    (found.Ok? && found.value.Some? ==> r == Ok(true) && subject == found.value) &&
    (found == Ok(None) && r.Ok? ==>
       subject.Some? && subject.value !in st.elements && subject.value in st'.elements &&
       IsInstance(env, st'.elements[subject.value].cls, md.modelElement)) &&
    (found == Ok(None) && r.Ok? && !md.head.multi && !md.tail.multi && md.head.name != md.tail.name &&
     ConnectedAt(st, c, HeadEnd) != Some(c.line) && ConnectedAt(st, c, TailEnd) != Some(c.line) ==>
       FindRelationship(env, st', c, md.modelElement, md.head, md.tail) == Ok(subject))
  }

  /** The body of `connect_subject` once metadata `md` was found: `line.subject = relationship_or_new(...)`. */
  method ConnectRelationship(env: Env, m: Model, c: Connector, md: ItemMetadata) returns (r: Result<bool>)
    requires m.Valid() && Wired(m.Snapshot(), c)
    modifies m
    ensures m.Valid() && Wired(m.Snapshot(), c)
    ensures LineOnlyChanged(old(m.Snapshot()), m.Snapshot(), c.line)
    ensures SubjectOutcome(env, old(m.Snapshot()), m.Snapshot(), c, md, r)
  {
    ghost var st0 := m.Snapshot();
    ghost var found := FindRelationship(env, st0, c, md.modelElement, md.head, md.tail);
    var relation := RelationshipOrNew(env, m, c, md.modelElement, md.head, md.tail);
    if relation.Fail? {
      return Fail(relation.fault);
    }
    ghost var st1 := m.Snapshot();
    EndSubjectsKept(st0, st1, c, HeadEnd);
    EndSubjectsKept(st0, st1, c, TailEnd);
    SetLineSubject(env, m, c, relation.value, md);
    if found == Ok(None) {
      NewSubjectOutcome(env, st0, st1, m.Snapshot(), c, md, relation.value);
    }
    return Ok(true);
  }

  /** A relationship newly created by `relationship_or_new` and made the line's subject meets `SubjectOutcome`. */
  lemma NewSubjectOutcome(env: Env, st0: State, st1: State, st2: State, c: Connector, md: ItemMetadata, rel: ElemId)
    requires Wired(st0, c) && Wired(st1, c) && Wired(st2, c)
    requires FindRelationship(env, st0, c, md.modelElement, md.head, md.tail) == Ok(None)
    requires st1.items == st0.items && st1.connections == st0.connections && st0.elements.Keys <= st1.elements.Keys
    requires ConnectedAt(st1, c, HeadEnd) == ConnectedAt(st0, c, HeadEnd) && EndSubject(st1, c, HeadEnd) == EndSubject(st0, c, HeadEnd)
    requires ConnectedAt(st1, c, TailEnd) == ConnectedAt(st0, c, TailEnd) && EndSubject(st1, c, TailEnd) == EndSubject(st0, c, TailEnd)
    requires rel !in st0.elements && rel in st1.elements && IsInstance(env, st1.elements[rel].cls, md.modelElement)
    requires md.head.name != md.tail.name && !md.head.multi ==> RoleGet(st1.elements[rel], md.head) == Single(EndSubject(st1, c, HeadEnd))
    requires !md.tail.multi ==> RoleGet(st1.elements[rel], md.tail) == Single(EndSubject(st1, c, TailEnd))
    requires st2.items[c.line].subject == Some(rel) && st2.elements.Keys == st1.elements.Keys
    requires st2.elements[rel].cls == st1.elements[rel].cls
    requires (!md.head.multi && !md.tail.multi && md.head.name != md.tail.name &&
              ConnectedAt(st1, c, HeadEnd).Some? && ConnectedAt(st1, c, HeadEnd) != Some(c.line) &&
              ConnectedAt(st1, c, TailEnd).Some? && ConnectedAt(st1, c, TailEnd) != Some(c.line) &&
              RoleGet(st1.elements[rel], md.head) == Single(EndSubject(st1, c, HeadEnd)) &&
              RoleGet(st1.elements[rel], md.tail) == Single(EndSubject(st1, c, TailEnd))) ==>
      FindRelationship(env, st2, c, md.modelElement, md.head, md.tail) == Ok(Some(rel))
    ensures SubjectOutcome(env, st0, st2, c, md, Ok(true))
  {
  }

  /**
   * `MetadataRelationConnect.connect_subject`: without metadata for the line
   * class, refuse and leave the subject alone; otherwise make the line's
   * subject `relationship_or_new` of the metadata's class and ends.
   */
  method ConnectSubject(env: Env, m: Model, c: Connector) returns (r: Result<bool>)
    requires m.Valid() && Wired(m.Snapshot(), c)
    modifies m
    ensures m.Valid() && Wired(m.Snapshot(), c)
    ensures LineOnlyChanged(old(m.Snapshot()), m.Snapshot(), c.line)
    ensures old(m.items[c.line].cls) !in env.metadata ==> r == Ok(false) && m.Snapshot() == old(m.Snapshot())
    ensures old(m.items[c.line].cls) in env.metadata ==>
      SubjectOutcome(env, old(m.Snapshot()), m.Snapshot(), c, env.metadata[old(m.items[c.line].cls)], r)
  {
    var cls := m.items[c.line].cls;
    if cls !in env.metadata {
      return Ok(false);
    }
    r := ConnectRelationship(env, m, c, env.metadata[cls]);
  }

  /**
   * `disconnect_subject`: `del line.subject`; the relationship element itself
   * stays in the model.
   */
  method DisconnectSubject(m: Model, c: Connector)
    requires m.Valid() && Wired(m.Snapshot(), c)
    modifies m
    ensures m.Valid() && Wired(m.Snapshot(), c)
    ensures m.Snapshot() == SetSubject(old(m.Snapshot()), c.line, None)
    ensures m.items[c.line].subject.None?
    ensures m.elements.Keys == old(m.elements.Keys) && m.connections == old(m.connections)
  {
    m.SetSubjectOf(c.line, None);
  }

  /**
   * The peer connect calls of `connect_connected_items` as the source has
   * it: it walks the records attached to the line and skips every record
   * whose connected item is the line, which is each of them, so it never
   * issues a call.
   */
  method ConnectConnectedItemsAsWritten(m: Model, c: Connector) returns (calls: seq<PeerCall>)
    ensures calls == []
  {
    var conns := GetConnections(Registry(m.Snapshot(), c.diagram), c.line);
    calls := [];
    var k := 0;
    while k < |conns|
      invariant 0 <= k <= |conns|
      invariant calls == []
    {
      var cinfo := conns[k];
      assert cinfo in conns;
      if c.line == cinfo.connected {
        k := k + 1;
        continue;
      }
      calls := calls + [PeerConnect(c.line, cinfo.connected, cinfo.handle, cinfo.port)];
      k := k + 1;
    }
  }

  /** The reconnect requests for the records `conns`: one per record of another item, in order. */
  function ReconnectRequests(conns: seq<Connection>, line: ItemId): (r: seq<PeerCall>)
    ensures |r| <= |conns|
  {
    if |conns| == 0 then []
    else if conns[0].item == line then ReconnectRequests(conns[1..], line)
    else [PeerConnect(line, conns[0].item, conns[0].handle, conns[0].port)] + ReconnectRequests(conns[1..], line)
  }

  /** Every request is addressed to the connector of an item attached to the line, and every such item gets one. */
  lemma {:induction false} ReconnectRequestsCover(conns: seq<Connection>, line: ItemId)
    ensures forall call :: call in ReconnectRequests(conns, line) <==>
      exists ci :: ci in conns && ci.item != line && call == PeerConnect(line, ci.item, ci.handle, ci.port)
  {
    if |conns| > 0 {
      ReconnectRequestsCover(conns[1..], line);
      assert forall ci :: ci in conns <==> ci == conns[0] || ci in conns[1..];
    }
  }

  /**
   * `connect_connected_items` as evidently intended: for each record whose
   * handle is attached to the line, other than the line's own, ask the
   * connector of (line, that item) to connect that handle again, in
   * registry order.
   */
  method ConnectConnectedItems(m: Model, c: Connector) returns (calls: seq<PeerCall>)
    ensures calls == ReconnectRequests(GetConnections(Registry(m.Snapshot(), c.diagram), c.line), c.line)
  {
    var conns := GetConnections(Registry(m.Snapshot(), c.diagram), c.line);
    calls := [];
    var k := 0;
    while k < |conns|
      invariant 0 <= k <= |conns|
      invariant calls == ReconnectRequests(conns[..k], c.line)
    {
      var cinfo := conns[k];
      assert conns[..k + 1] == conns[..k] + [cinfo];
      ReconnectRequestsSnoc(conns[..k], cinfo, c.line);
      if cinfo.item != c.line {
        calls := calls + [PeerConnect(c.line, cinfo.item, cinfo.handle, cinfo.port)];
      }
      k := k + 1;
    }
    assert conns[..k] == conns;
  }

  /** The requests for one more record: those for the others, then its own unless it is the line's. */
  lemma {:induction false} ReconnectRequestsSnoc(conns: seq<Connection>, ci: Connection, line: ItemId)
    ensures ReconnectRequests(conns + [ci], line) ==
      ReconnectRequests(conns, line) + (if ci.item == line then [] else [PeerConnect(line, ci.item, ci.handle, ci.port)])
  {
    if |conns| > 0 {
      assert (conns + [ci])[1..] == conns[1..] + [ci];
      ReconnectRequestsSnoc(conns[1..], ci, line);
    } else {
      assert ([] + [ci])[1..] == [];
    }
  }

  /** The disconnect requests of `disconnect_connected_items`: one per record, in order. */
  function DisconnectRequests(conns: seq<Connection>): (r: seq<PeerCall>)
    ensures |r| == |conns|
    ensures forall k :: 0 <= k < |conns| ==> r[k] == PeerDisconnect(conns[k].item, conns[k].connected, conns[k].handle)
  {
    if |conns| == 0 then []
    else [PeerDisconnect(conns[0].item, conns[0].connected, conns[0].handle)] + DisconnectRequests(conns[1..])
  }

  /**
   * `disconnect_connected_items`: the records attached to the line, and a
   * `Connector(cinfo.item, cinfo.connected).disconnect(cinfo.handle)` call for
   * each of them, in registry order.
   */
  method DisconnectConnectedItems(m: Model, c: Connector) returns (broken: seq<Connection>, calls: seq<PeerCall>)
    ensures broken == GetConnections(Registry(m.Snapshot(), c.diagram), c.line)
    ensures forall ci :: ci in broken <==> ci in Registry(m.Snapshot(), c.diagram) && ci.connected == c.line
    ensures calls == DisconnectRequests(broken)
  {
    broken := GetConnections(Registry(m.Snapshot(), c.diagram), c.line);
    calls := [];
    var k := 0;
    while k < |broken|
      invariant 0 <= k <= |broken|
      invariant calls == DisconnectRequests(broken[..k])
    {
      var cinfo := broken[k];
      calls := calls + [PeerDisconnect(cinfo.item, cinfo.connected, cinfo.handle)];
      k := k + 1;
    }
    assert broken[..k] == broken;
  }

  /**
   * `connect(handle, port)` of whatever `Connector(element, line)`
   * instantiated.  `NoConnector` refuses.  The base connector accepts and
   * does nothing.  A relationship connector accepts, and when the opposite
   * end is attached it runs `connect_subject` (which only
   * `MetadataRelationConnect` supplies) and, once the line has a subject,
   * asks the items attached to the line to connect again.
   */
  method Connect(env: Env, m: Model, a: Adapter, e: End) returns (r: Result<bool>, calls: seq<PeerCall>)
    requires m.Valid() && (a.Live? ==> Wired(m.Snapshot(), a.c))
    modifies m
    ensures m.Valid()
    ensures m.connections == old(m.connections) && old(m.elements.Keys) <= m.elements.Keys
    ensures a.Live? ==>
      Wired(m.Snapshot(), a.c) && m.items.Keys == old(m.items.Keys) &&
      forall i :: i in m.items && i != a.c.line ==> m.items[i] == old(m.items[i])
    ensures a.Forbidding? ==> r == Ok(false) && calls == [] && m.Snapshot() == old(m.Snapshot())
    ensures a.Live? && r.Ok? ==> r.value
    ensures a.Live? && (a.c.kind == BaseKind || ConnectedAt(old(m.Snapshot()), a.c, Opposite(e)).None?) ==>
      r == Ok(true) && calls == [] && m.Snapshot() == old(m.Snapshot())
    ensures a.Live? && a.c.kind in {RelationshipKind, DirectionalKind} && ConnectedAt(old(m.Snapshot()), a.c, Opposite(e)).Some? ==>
      r == Fail(NotImplementedError) && m.Snapshot() == old(m.Snapshot())
    ensures a.Live? && calls != [] ==>
      m.items[a.c.line].subject.Some? && calls == ReconnectRequests(GetConnections(Registry(m.Snapshot(), a.c.diagram), a.c.line), a.c.line)
    ensures a.Live? && a.c.kind == MetadataKind && ConnectedAt(old(m.Snapshot()), a.c, Opposite(e)).Some? ==>
      (r.Ok? && m.items[a.c.line].subject.Some? ==>
         calls == ReconnectRequests(GetConnections(Registry(m.Snapshot(), a.c.diagram), a.c.line), a.c.line)) &&
      (old(m.items[a.c.line].cls) !in env.metadata ==> r == Ok(true) && m.Snapshot() == old(m.Snapshot())) &&
      (old(m.items[a.c.line].cls) in env.metadata ==>
         SubjectOutcome(env, old(m.Snapshot()), m.Snapshot(), a.c, env.metadata[old(m.items[a.c.line].cls)], r) &&
         (r.Fail? ==> calls == []))
  {
    calls := [];
    if a.Forbidding? {
      return Ok(false), [];
    }
    var c := a.c;
    if c.kind == BaseKind {
      return Ok(true), [];
    }
    if ConnectedAt(m.Snapshot(), c, Opposite(e)).Some? {
      if c.kind != MetadataKind {
        return Fail(NotImplementedError), [];
      }
      var subjectConnected := ConnectSubject(env, m, c);
      if subjectConnected.Fail? {
        return Fail(subjectConnected.fault), [];
      }
      if m.items[c.line].subject.Some? {
        calls := ConnectConnectedItems(m, c);
      }
    }
    return Ok(true), calls;
  }

  /**
   * `disconnect(handle)` of whatever `Connector(element, line)` instantiated.
   * For a relationship connector, only when both ends are attached: ask the
   * items attached to the line to disconnect and clear the line's subject.
   * The relationship element stays in the model.
   */
  method Disconnect(m: Model, a: Adapter, e: End) returns (calls: seq<PeerCall>)
    requires m.Valid() && (a.Live? ==> Wired(m.Snapshot(), a.c))
    modifies m
    ensures m.Valid()
    ensures m.elements.Keys == old(m.elements.Keys) && m.connections == old(m.connections)
    ensures a.Forbidding? || a.c.kind == BaseKind ==> calls == [] && m.Snapshot() == old(m.Snapshot())
    ensures a.Live? && a.c.kind != BaseKind ==>
      var both := ConnectedAt(old(m.Snapshot()), a.c, e).Some? && ConnectedAt(old(m.Snapshot()), a.c, Opposite(e)).Some?;
      (both ==> m.Snapshot() == SetSubject(old(m.Snapshot()), a.c.line, None) && m.items[a.c.line].subject.None? &&
                calls == DisconnectRequests(GetConnections(Registry(old(m.Snapshot()), a.c.diagram), a.c.line))) &&
      (!both ==> m.Snapshot() == old(m.Snapshot()) && calls == [])
  {
    calls := [];
    if a.Forbidding? || a.c.kind == BaseKind {
      return;
    }
    var c := a.c;
    var oppositeConnected := ConnectedAt(m.Snapshot(), c, Opposite(e));
    var handleConnected := ConnectedAt(m.Snapshot(), c, e);
    if handleConnected.Some? && oppositeConnected.Some? {
      var broken;
      broken, calls := DisconnectConnectedItems(m, c);
      DisconnectSubject(m, c);
    }
  }
}
