# Gaphor diagram connections, modelled in Dafny

This project models how Gaphor, the UML/SysML modelling tool, connects diagram
items to each other and what those connections do to the model behind the
diagram. It covers four things:

- **Connector lookup and rules.** For an (element, line) pair, which connector
  class applies, and whether its `allow` rule accepts the handle.
- **Connect and disconnect.** When both ends of a line are attached:
  - a relationship element is found again, pasted from a copy or created;
  - its ends are set to the subjects of the attached items;
  - the items attached to the line are asked to connect or disconnect.
- **Revertible events.** The four connection events undo a diagram-level
  connect, disconnect, temporary disconnect or reconnect.
- **Presentation items and the style sheet cache.**
  - On the presentation items: head and tail of a line, loading a line's
    points and an element's top-left corner, handle position events and
    their undo, `MinimalValueConstraint`, port sides, and the side an
    attached presentation sits on.
  - The style sheet element's per-colour-scheme cache of compiled sheets,
    and when it is invalidated.

Modules:

- `Wrappers` (wrappers.dfy): `Option`, `Result` and the faults. A Python
  exception is a `Fail(fault)` value.
- `Modeling` (modeling.dfy): the state.
  - Elements, presentation items and each diagram's connection registry.
    Object identity is a `nat` id.
  - The store invariant, and the primitive updates as functions on `State`.
  - `class Model`, the mutable repository the methods change.
- `Dispatch` (dispatch.dfy): the `Connector` multi-dispatch table and
  `can_connect`.
- `Connectors` (connectors.dfy): `NoConnector`, `BaseConnector` and its three
  subclasses.
  - The class hierarchy is a `Kind` tag.
  - `Adapter.Forbidding` is the `NoConnector` instance.
- `Events` (events.dfy): `ItemConnected`, `ItemDisconnected`,
  `ItemTemporaryDisconnected` and `ItemReconnected`, with their `revert`.
- `Presentation` (presentation.dfy): the handle bookkeeping of
  `ElementPresentation`, `LinePresentation` and `AttachedPresentation`,
  `HandlePositionEvent` and `MinimalValueConstraint`.
- `StyleSheets` (stylesheet.dfy): the `StyleSheet` element's compiled-sheet
  cache.

Source files modelled:

- `gaphor/diagram/connectors.py`
- `gaphor/diagram/presentation.py`
- `gaphor/core/modeling/stylesheet.py`

Code that changes state in place is modelled as such:

- the repository (`Modeling.Model`);
- an item's handle list (`Presentation.HandleList`);
- a solver variable;
- the style sheet element.

The methods on these are proved against pure functions on the old state.
Those functions carry the lemmas.

### Assumptions about code outside these files

Some of the code the core calls is not in these files. It is modelled as
follows, not checked against its source:

- **gaphas `Connections`.**
  - `connect_item` refuses a handle that already has a record. The model
    writes this as `ConnectionError`.
  - `disconnect_item` removes the records of the handle.
  - `reconnect_item` keeps the connected item, takes the new port, and
    refuses a handle with no record (`ValueError`).
  - A record's solver constraint is a `constrained` flag.
- **gaphor association descriptors (`relation.set` / `relation.get`).**
  - A single-valued end is overwritten.
  - A collection end adds the value if it is not there yet.
  - When the end has an opposite, the relation is added to the opposite
    collection of the target.
- **Position notifications.** Each assignment to a handle's position
  (`pos = p`, `pos.x += dx`, `pos.y += dy`) notifies the watchers once.
- **Ancestor lists and line metadata** come in as data (`Env`): each class's
  `__mro__` and `get_diagram_item_metadata`. A class is always an instance
  of itself, as the head of its `__mro__`.
- **Model attributes (`attribute` descriptors).** Assigning `styleSheet` or
  `naturalLanguage` stores the value and hands the element an
  `AttributeUpdated` for that attribute. The model assumes this happens on
  every assignment, also of an equal value. If the descriptor skipped an
  equal value, the cache would stay as it was. It would still be coherent,
  because the sources did not change.
- **Copy data** is a dict, so its ids are distinct. The model takes the
  entries as a sequence and pastes the first entry of each id. On distinct
  ids this is every entry, in order (`Connectors.DistinctIdsPasteAll`).
- **Connector choice.** `Dispatch` computes which connector class the
  `Connector` table yields for an (element, line) pair. `Connectors` takes
  the resulting connector as a parameter: an `Adapter` whose `Kind` names the
  class. The two are not linked by a function.

### The code and its docstrings

Where the docstrings and the code differ, the model follows the code, except
where noted below:

- **`connect_connected_items`** (connectors.py:262-275) iterates the records
  whose connected item is the line, and skips each record whose connected
  item is the line. It therefore issues no call.
  - `ConnectConnectedItemsAsWritten` models the loop as written.
  - `ConnectConnectedItems` is the corrected loop, which follows the
    docstring. `Connect` uses the corrected loop, as noted under Findings and
    "Left out".
- **`disconnect_connected_items`** (connectors.py:291-293) builds its
  connector as `Connector(cinfo.item, cinfo.connected)`: the attached item
  first, then the line. This is the reverse of the documented (element, line)
  order, and the model keeps it as written, in `DisconnectRequests`.
- **`DirectionalRelationshipConnect.allow`** (connectors.py:352-358) refuses
  when the opposite item and the element *both lack* a subject. The comment
  says "same goes for subjects", but the code does not compare two present
  subjects. The model keeps the code's condition.

## Model

| member | source | states |
|---|---|---|
| Wrappers.IndexOf | gaphor/diagram/connectors.py:434 | `list.index`: the first position holding the value, or `ValueError` exactly when the value is absent |
| Modeling.GetConnection | gaphor/diagram/connectors.py:73 | `get_connection(handle)` finds a record exactly when some record has that handle, and the record found is that handle's |
| Modeling.GetConnections | gaphor/diagram/connectors.py:290 | `get_connections(connected=x)` holds exactly the records attached to `x` |
| Modeling.ConnectItem | gaphor/diagram/connectors.py:465 | connecting fails exactly when the handle already has a record; on success the handle's record is the new, constrained one |
| Modeling.DropRecords | gaphor/diagram/connectors.py:445 | disconnecting keeps exactly the records that are not of this (item, handle) |
| Modeling.ReconnectItem | gaphor/diagram/connectors.py:483 | reconnecting fails exactly when the handle has no record |
| Modeling.CreateElement | gaphor/diagram/connectors.py:222-223 | `model.create` hands out a fresh id and advances the id counter |
| Modeling.SetSubjectKeepsValid | gaphor/diagram/connectors.py:302 | setting or deleting an item's subject keeps the store invariant; the item gets that subject; elements and registries are kept |
| Modeling.SetSubjectFrame | gaphor/diagram/connectors.py:400-402 | assigning a subject changes that item's subject and presentation lists only; no association end or class changes |
| Modeling.SetSubjectLinksSubjects | gaphor/diagram/connectors.py:400-402 | after a subject assignment every item's subject still exists and lists that item among its presentations |
| Modeling.SetSubjectLinksPresentations | gaphor/diagram/connectors.py:400-402 | after a subject assignment every presentation an element lists still has that element as its subject |
| Modeling.SetRoleKeepsValid | gaphor/diagram/connectors.py:252-253 | setting an association end keeps the store invariant, the items and the registries |
| Modeling.SetRoleFrame | gaphor/diagram/connectors.py:252-253 | setting an association end changes association ends only: items, registries, element ids and presentation lists are kept |
| Modeling.SetRoleResolves | gaphor/diagram/connectors.py:252-253 | after setting an end to an existing element, every association end still refers to existing elements |
| Modeling.EndsOnlyKeepsValid | gaphor/diagram/connectors.py:252-253 | a change to association ends alone, with every end resolving, keeps the store invariant |
| Modeling.CreateElementKeepsValid | gaphor/diagram/connectors.py:222-223 | creating an element keeps the invariant; its id is new; items and registries are kept |
| Modeling.ConnectItemKeepsValid | gaphor/diagram/connectors.py:465 | a successful connect keeps every registry free of duplicate handles and dangling items |
| Modeling.DisconnectItemKeepsValid | gaphor/diagram/connectors.py:445 | a disconnect keeps the invariant, and afterwards the item's handle has no record |
| Modeling.ReconnectItemKeepsValid | gaphor/diagram/connectors.py:483 | a successful reconnect keeps the invariant |
| Modeling.RemoveConstraintKeepsValid | gaphor/diagram/connectors.py:498 | removing a constraint keeps the invariant |
| Modeling.Model.SetSubjectOf | gaphor/diagram/connectors.py:400-402 | the repository's new state is the subject assignment applied to the old state; the invariant holds |
| Modeling.Model.SetRoleOf | gaphor/diagram/connectors.py:252-253 | the new state is the end assignment applied to the old state; items and registries are unchanged |
| Modeling.Model.Create | gaphor/diagram/connectors.py:222-223 | the new state is `CreateElement` of the old one; the id is new; items and registries are unchanged |
| Dispatch.DefaultTable | gaphor/diagram/connectors.py:128-130 | the dispatch table registers `NoConnector` for `(object, object)` |
| Dispatch.FirstInIsFirst | gaphor/diagram/connectors.py:137-139 | for one parent class, the search returns the registration of the first registered line ancestor; it finds none exactly when no pair is registered |
| Dispatch.FirstRegistrationIsFirst | gaphor/diagram/connectors.py:137-139 | the search over `itertools.product` of the two `__mro__`s returns the first registered pair in product order; it finds none exactly when no pair is registered |
| Dispatch.ExactPairWins | gaphor/diagram/connectors.py:137-139 | a registration for the two classes themselves wins over every ancestor pair |
| Dispatch.ObjectPairAlwaysFound | gaphor/diagram/connectors.py:128-140 | with `(object, object)` registered, the search always finds a registration, so the final `return False` is unreachable |
| Dispatch.CanConnect | gaphor/diagram/connectors.py:133-140 | `can_connect` is true exactly when the first registered pair in product order is registered with something other than `NoConnector` |
| Connectors.ChooseDiagram | gaphor/diagram/connectors.py:62-69 | the chosen diagram is the element's, else the line's; `AssertionError` when the two differ or both are `None` |
| Connectors.NewConnector | gaphor/diagram/connectors.py:157-159 | a connector is built exactly when a diagram can be chosen; the copy buffer is empty exactly for a base connector or a line without a subject |
| Connectors.ConnectedExists | gaphor/diagram/connectors.py:71-75 | `get_connected` returns an existing item |
| Connectors.NoConnectorRefuses | gaphor/diagram/connectors.py:116-117 | `NoConnector` allows nothing |
| Connectors.BaseAllowOnChosenDiagram | gaphor/diagram/connectors.py:77-84 | the base rule accepts exactly when the element and the line are both on the connector's diagram |
| Connectors.DirectionalAllowRules | gaphor/diagram/connectors.py:337-360 | the directional rule refuses when the opposite end is on this element, and when both the opposite item and the element lack a subject; otherwise it is the base rule |
| Connectors.MetadataAllowRules | gaphor/diagram/connectors.py:367-392 | without metadata nothing is allowed; when allowed, the element's subject has the type declared for its end, and the opposite item's subject has the type declared for the other end |
| Connectors.FirstReusableIsFirst | gaphor/diagram/connectors.py:198-219 | the candidate found is reusable and no earlier candidate is; none is found exactly when no candidate is reusable |
| Connectors.FoundIsReusable | gaphor/diagram/connectors.py:192-220 | a relationship found by the search comes from the tail subject's opposite collection, is a `required_type` instance, and holds the head subject; no item but the line shows it on the line's diagram, and it is the first such candidate |
| Connectors.FastPathReturnsSubject | gaphor/diagram/connectors.py:184-190 | when the line's subject already relates the two end subjects, the search returns that subject |
| Connectors.RelationshipEdgeCases | gaphor/diagram/connectors.py:172-196 | an unattached end fails with `AssertionError`; with no head subject or no opposite end name, the search finds nothing |
| Connectors.ShownElsewhere | gaphor/diagram/connectors.py:211-219 | the inner loop finds an item on the line's diagram other than the line exactly when one of the presentations is such an item |
| Connectors.Relationship | gaphor/diagram/connectors.py:161-220 | the nested loops of `relationship` compute exactly the search `FindRelationship` |
| Connectors.FirstOfEachId | gaphor/diagram/connectors.py:406-422 | pasting visits each copied id once: the pasted entries cover the same ids as the copy, and no two of them share an id |
| Connectors.DistinctIdsPasteAll | gaphor/diagram/connectors.py:418-422 | on a copy with distinct ids, as the keys of a dict, every entry is pasted, in order |
| Connectors.FirstOfEachIdSnoc | gaphor/diagram/connectors.py:418-421 | one more copied entry is pasted exactly when its id was not pasted before |
| Connectors.PastedIntoStep | gaphor/diagram/connectors.py:409-416 | creating an element from one more entry extends the paste by that entry, with a new id, and leaves the existing elements alone |
| Connectors.PasteOne | gaphor/diagram/connectors.py:409-416 | `create(ref)` for an id not pasted yet adds one new element with the entry's class and attributes |
| Connectors.PasteEntry | gaphor/diagram/connectors.py:418-421 | one turn of the loop over `copy_data`: the id is pasted once, and `new_elements` then holds the ids seen so far |
| Connectors.PasteModel | gaphor/diagram/connectors.py:406-428 | `paste_model` creates one new element per copied id, in copy order, with the copied class and attributes; existing elements, items and registries are untouched |
| Connectors.NewRelationFromCopy | gaphor/diagram/connectors.py:225-235 | an empty buffer gives `None` and changes nothing; otherwise the result is a new `type` instance from the paste, or `AssertionError` when the paste holds none |
| Connectors.SetRoleRefers | gaphor/diagram/connectors.py:252-253 | setting an end makes it refer to the value (a single end holds exactly that value); other ends, the class and the presentations are unchanged |
| Connectors.EndSubjectShown | gaphor/diagram/connectors.py:247-253 | the subject at an end of the line is an element, and some item presents it |
| Connectors.WithEndsRefers | gaphor/diagram/connectors.py:247-253 | on a relationship with no ends set, setting head then tail keeps the invariant; each end refers to the subject at that end of the line, and the tail wins when both ends share a name |
| Connectors.SetEnds | gaphor/diagram/connectors.py:247-253 | the repository's new state is `WithEnds` of the old one |
| Connectors.RelationshipOrNew | gaphor/diagram/connectors.py:237-260 | a search failure is passed on and a found relationship is returned, each with nothing changed; otherwise the result is a new `type` instance whose head and tail ends are the end subjects. The `isinstance` assertions hold, so a new relationship fails only when a non-empty copy holds no `type` instance |
| Connectors.FindsExisting | gaphor/diagram/connectors.py:239-241 | what the search returns is an element of the model |
| Connectors.FoundAgainOnceSubject | gaphor/diagram/connectors.py:184-190 | once a relationship with the end subjects in its single-valued ends is the line's subject, the search returns it, so connecting again reuses it |
| Connectors.SetLineSubject | gaphor/diagram/connectors.py:400-402 | `line.subject = relationship`: only the line's subject changes; with single-valued, distinct ends holding the end subjects, the search then finds that relationship |
| Connectors.ConnectRelationship | gaphor/diagram/connectors.py:400-403 | with metadata: a failing search changes nothing and is passed on; a found relationship becomes the line's subject; otherwise a new instance of the metadata class does, and is found again when its ends are single-valued |
| Connectors.ConnectSubject | gaphor/diagram/connectors.py:394-403 | with no metadata: `False` and no change. Otherwise the line's subject is the found relationship, or a new instance of the metadata class; a failure changes nothing; a relationship created here is found again next time |
| Connectors.DisconnectSubject | gaphor/diagram/connectors.py:300-302 | `del line.subject`: the line has no subject, and the relationship element stays in the model |
| Connectors.ConnectConnectedItemsAsWritten | gaphor/diagram/connectors.py:262-275 | as written, the loop issues no connect call at all |
| Connectors.ReconnectRequestsCover | gaphor/diagram/connectors.py:262-264 | each attached item other than the line gets exactly one reconnect request per record, and no other request is made |
| Connectors.ConnectConnectedItems | gaphor/diagram/connectors.py:262-264 | the corrected loop issues one reconnect request per attached record of another item, in registry order |
| Connectors.ReconnectRequestsSnoc | gaphor/diagram/connectors.py:270-275 | one more record adds a reconnect request at the end exactly when its item is not the line |
| Connectors.DisconnectRequests | gaphor/diagram/connectors.py:291-293 | one `Connector(cinfo.item, cinfo.connected).disconnect(cinfo.handle)` per record, in order |
| Connectors.DisconnectConnectedItems | gaphor/diagram/connectors.py:277-294 | returns exactly the records attached to the line, and one disconnect call per record |
| Connectors.Connect | gaphor/diagram/connectors.py:304-317 | `NoConnector` says `False`. Otherwise the result is `True`, with no change when the opposite end is unattached or for a base connector. Relationship and directional connectors raise `NotImplementedError` from `connect_subject`. A metadata connector's outcome is that of `connect_subject` (a failure makes no call and changes nothing; a new relationship is found again next time), and once the line has a subject the corrected `connect_connected_items` asks the attached items to reconnect. As written, that loop asks none (see Findings) |
| Connectors.Disconnect | gaphor/diagram/connectors.py:319-331 | only when both ends are attached: the attached items are asked to disconnect and the line loses its subject. Otherwise nothing changes |
| Events.Capture | gaphor/diagram/connectors.py:431-436 | an event records the handle's and the port's positions, so they index back to the same handle and port; `ValueError` exactly when either is missing |
| Events.Lookup | gaphor/diagram/connectors.py:460 | `diagram.lookup(id)` finds the item exactly when it exists on that diagram |
| Events.Sink | gaphor/diagram/connectors.py:460-463 | the sink of a revert is the recorded item, which exists |
| Events.RevertKeepsValid | gaphor/diagram/connectors.py:438-501 | each successful revert keeps the store invariant, the elements and the items; only a reconnect revert hands on an event |
| Events.RevertConnectedUndoes | gaphor/diagram/connectors.py:438-445 | after a connect, reverting its `ItemConnected` gives back every registry as it was |
| Events.RevertDisconnectedRestores | gaphor/diagram/connectors.py:455-465 | after a disconnect, reverting its `ItemDisconnected` attaches the handle to the same port of the same item again, constrained; the other records are kept |
| Events.RevertTemporaryDisconnectedRestores | gaphor/diagram/connectors.py:475-483 | after a constraint was dropped, reverting the `ItemTemporaryDisconnected` gives back exactly the state from before |
| Events.RevertReconnectedRedoes | gaphor/diagram/connectors.py:493-501 | reverting `ItemReconnected` drops the constraint and hands on an `ItemTemporaryDisconnected`; reverting that one restores the reconnected state |
| Events.RevertOn | gaphor/diagram/connectors.py:438-501 | on the repository, a revert either moves to the reverted state and returns the event it hands on, or fails and leaves `RaisedState`: no change, except that a failing `ItemReconnected.revert` has already dropped the constraint |
| Events.RaisedStateCases | gaphor/diagram/connectors.py:493-501 | `ItemReconnected.revert` with the handle's record found fails exactly when the record's port is not a port of the connected item. It then fails with `ValueError`, after the constraint was removed. Without a record it fails with `AttributeError` and nothing changed |
| Presentation.RevertPosition | gaphor/diagram/presentation.py:83-85 | reverting a position event puts the indexed handle back; `IndexError` exactly when the index is out of range |
| Presentation.RevertUndoesMove | gaphor/diagram/presentation.py:76-98 | moving a watched handle hands on one event, and reverting it gives back the handles as they were |
| Presentation.HandleList.SetPos | gaphor/diagram/presentation.py:95-99 | `handle.pos = p` moves that handle only; a watched handle hands on a `HandlePositionEvent` with the old and new positions |
| Presentation.HandleList.Watch | gaphor/diagram/presentation.py:89-90 | `watch_handle` marks that handle watched and changes nothing else |
| Presentation.HandleList.Insert | gaphor/diagram/presentation.py:358 | `_handles.insert(i, h)` |
| Presentation.HandleList.InsertWatched | gaphor/diagram/presentation.py:356-359 | the insertion loop leaves `k` new watched handles after the head |
| Presentation.HandleList.AssignAll | gaphor/diagram/presentation.py:360-361 | the assignment loop gives handle `i` the point `pts[i]` and hands on one event per point |
| Presentation.HandleList.Revert | gaphor/diagram/presentation.py:83-85 | `revert` on the target's handles is `RevertPosition`; an out-of-range index changes nothing |
| Presentation.LoadedHandles | gaphor/diagram/presentation.py:353-362 | after loading points, handle `i` is at `pts[i]` and every handle is watched; a new line ends with exactly one handle per point, head at the first and tail at the last |
| Presentation.InsertedWatched | gaphor/diagram/presentation.py:356-359 | inserting watched handles keeps all handles watched |
| Presentation.LinePresentation.constructor | gaphor/diagram/presentation.py:240-241 | a new line has two handles, head and tail, both watched |
| Presentation.LinePresentation.Head | gaphor/diagram/presentation.py:246-248 | `head` is the first handle, and it is watched |
| Presentation.LinePresentation.Tail | gaphor/diagram/presentation.py:250-252 | `tail` is the last handle, and it is watched |
| Presentation.LinePresentation.LoadPoints | gaphor/diagram/presentation.py:353-362 | `load("points")` leaves the handles `Loaded` from the old ones and hands on one event per point; the line stays valid |
| Presentation.PortSide | gaphor/diagram/presentation.py:143-144 | `port_side` is the side at the port's first position; `ValueError` for a foreign port, `IndexError` past four |
| Presentation.PortSidesInOrder | gaphor/diagram/presentation.py:113 | four distinct ports lie on top, right, bottom and left, in that order |
| Presentation.TopLeftKeepsExtent | gaphor/diagram/presentation.py:187-193 | `load("top-left")` puts handle 0 at the point and shifts handle 2 by it; width and height are kept when handle 0 was at the origin |
| Presentation.ElementPresentation.constructor | gaphor/diagram/presentation.py:131-132 | a new element watches each of its four handles |
| Presentation.ElementPresentation.LoadTopLeft | gaphor/diagram/presentation.py:187-193 | the handles become `LoadedTopLeft` of the old ones, with one position event per assignment |
| Presentation.MinimalValueConstraint.SolveFor | gaphor/diagram/presentation.py:211-215 | nothing when the variable is the minimum itself; otherwise it becomes the larger of its value and the minimum. The minimum is unchanged and the constraint holds afterwards. Solving when it already holds changes nothing, so solving twice is solving once |
| Presentation.AttachedPresentation.Handles | gaphor/diagram/presentation.py:535-536 | an attached presentation has exactly its one handle |
| Presentation.AttachedPresentation.ConnectedSide | gaphor/diagram/presentation.py:553-556 | `None` exactly when the handle is unconnected; otherwise the side of the connected element the port lies on (`AttributeError` for an item that is not an element) |
| StyleSheets.StyleSheet.constructor | gaphor/core/modeling/stylesheet.py:25-34 | a new style sheet has no cached sheets, no instant declarations, the "sans" font and the default user sheet |
| StyleSheets.StyleSheet.CompileStyleSheet | gaphor/core/modeling/stylesheet.py:59-77 | a cached sheet is returned without compiling; otherwise a new sheet is compiled from the current sources and filed under the scheme. Either way the result reflects the current sources, and the cache stays coherent |
| StyleSheets.StyleSheet.StyleSheetChanged | gaphor/core/modeling/stylesheet.py:83-85 | drops every cached sheet and hands on `StyleSheetUpdated` |
| StyleSheets.StyleSheet.SetInstantStyleDeclarations | gaphor/core/modeling/stylesheet.py:40-43 | stores the declarations, empties the cache and hands on `StyleSheetUpdated` |
| StyleSheets.StyleSheet.SetSystemFontFamily | gaphor/core/modeling/stylesheet.py:49-52 | stores the font family, empties the cache and hands on `StyleSheetUpdated` |
| StyleSheets.StyleSheet.Handle | gaphor/core/modeling/stylesheet.py:87-94 | passes the event on; only an update of `styleSheet` or `naturalLanguage` empties the cache and adds `StyleSheetUpdated` |
| StyleSheets.StyleSheet.SetStyleSheet | gaphor/core/modeling/stylesheet.py:33 | assigning `styleSheet` stores it, and its update event leaves the cache empty and coherent |
| StyleSheets.StyleSheet.SetNaturalLanguage | gaphor/core/modeling/stylesheet.py:34 | assigning `naturalLanguage` likewise empties the cache |

## Left out

- Geometry, drawing, shapes, CSS styling and the constraint solver: the
  `solver.solve()` calls of the cascades are left out. A solver constraint
  is a flag on its connection record.
- gaphas itself is not part of this model: `Connections`, `Line.opposite`,
  `ConnectorAspect`, `ConnectionSink` and `Position`. Their behaviour is
  assumed as described above.
- Paste internals: each copied element is pasted with its class and
  attributes only. References between the copied elements, and the
  `postload` of the pasted elements, are not restored.
  Because references are not followed, no id is created before the loop
  reaches it. The `continue` of connectors.py:419-421 therefore fires only
  for a repeated id, which a dict cannot hold.
- `connect_connected_items(connections)` with an explicit list of records:
  only the default, which reads the registry, is modelled.
- The lru cache of `can_connect`: it does not change the answer.
- `new_relation` is folded into `Model.Create`.
- The TODO on `owningPackage` is commented-out code and is not modelled.
- `LinePresentation.load` of the head and tail connections, `postload`,
  `_update_ports`, `insert_handle`/`remove_handle` beyond watching, and
  `update_orthogonal_constraints`.
- `ElementPresentation.load` of width and height, `save`, and the two
  `MinimalValueConstraint`s registered by its constructor.
- `AttachedPresentation` width, height, corner constraints and `update`.
  `request_update` after a handle revert is a redraw request and is left
  out.
- `StyleSheet.clear_caches` and `compute_style`: they clear or consult the
  style cache inside a compiled sheet, which is opaque here.
- `SYSTEM_STYLE_SHEET` is read from a file: it is the constructor's
  parameter.
- Connectors.RelationshipOrNew: the end claims are stated only where setting
  one end cannot overwrite the other. When both ends have the same name and
  the tail end is a collection, only membership is claimed.
- Connectors.ConnectSubject: the claim that a new relationship is found
  again is made only for single-valued ends with different names; for
  collection ends, the fast path of the search does not apply.
- Connectors.Connect: the reconnect requests after `connect_subject` come from
  the corrected `connect_connected_items` (see Findings). As written, the
  source makes no call there.
- Connectors.Connect, Connectors.Disconnect: the calls to the connectors of
  the attached items are returned as `PeerCall` requests; they are not run.
  What they would change in the model, and whether they would raise, is
  part of neither contract. `disconnect_connected_items` runs those calls
  before `disconnect_subject`, so their effects come before the subject is
  cleared.
- Connectors.Connect: for a new relationship, the contract states its class
  and when it is found again, but not its ends; `RelationshipOrNew` states
  the ends.
- Modeling.ReconnectItem: the contract states only when reconnecting
  fails. The `Events` lemmas state the record it leaves behind.

## Findings

| source | as written | input that shows it | evidently intended | confidence | as-written member | corrected member |
|---|---|---|---|---|---|---|
| gaphor/diagram/connectors.py:270-275 | iterates the records with `connected=line`, then skips each one where `line is cinfo.connected`, so no item is ever asked to reconnect | a line L with the handle of another line M attached to it: the single record (item M, connected L) is skipped, and M is never reconnected | for each record of another item attached to the line, connect that item's handle again, as the docstring at lines 263-264 says | medium; not executed | Connectors.ConnectConnectedItemsAsWritten | Connectors.ConnectConnectedItems |
