/**
 * The MVC controller hierarchy. A controller without a parent is a root: it
 * holds the command, query and event-handler registries, the queue of
 * emitted events and the tick code. A controller with a parent hands every
 * registration, command, query, event and shutdown request up to it. Each
 * tick of a root dispatches the queued events in order and returns the tick
 * code once, resetting it to Continue.
 *
 * Controllers refer to each other through shared pointers; the model keeps
 * every controller in one map keyed by an ID, and a parent, child, model or
 * view is referred to by its ID. Callbacks are identified by an ID as well:
 * calling one is recorded, not run. ASSERT, which throws, is the outcome
 * AssertionFailed, with the state left as it was.
 */
module Mvc {
  import opened Wrappers

  type ControllerId = nat
  type TypeId = nat
  type CallbackId = nat
  type ModelId = nat
  type ViewId = nat
  type TickResponse = int

  const CONTINUE: TickResponse := -1

  /** An emitted event: its type and an opaque payload. */
  datatype Event = Event(typeId: TypeId, payload: nat)

  datatype AssertionError = AssertionFailed

  /** One controller's own state. */
  datatype Node = Node(
    parent: Option<ControllerId>,
    commands: map<TypeId, CallbackId>,
    queries: map<TypeId, CallbackId>,
    events: map<TypeId, seq<CallbackId>>,
    incomingEvents: seq<Event>,
    childControllers: map<string, ControllerId>,
    models: map<string, ModelId>,
    views: seq<ViewId>,
    tickCode: TickResponse)

  const NEW_NODE := Node(None, map[], map[], map[], [], map[], map[], [], CONTINUE)

  /** No registrations and no queued events. */
  predicate Unregistered(n: Node)
  {
    n.commands == map[] && n.queries == map[] && n.events == map[] && n.incomingEvents == []
  }

  /** What setParentController asserts: nothing registered, queued or attached but children. */
  predicate CanBecomeChild(n: Node)
  {
    Unregistered(n) && n.models == map[] && n.views == []
  }

  /**
   * The root that requests from id go to, following at most fuel parents;
   * None when the chain does not end within fuel steps.
   */
  function RootFrom(nodes: map<ControllerId, Node>, id: ControllerId, fuel: nat): (r: Option<ControllerId>)
    ensures r.Some? ==> r.value in nodes && nodes[r.value].parent.None?
    decreases fuel
  {
    if id !in nodes then None
    else match nodes[id].parent
      case None => Some(id)
      case Some(p) => if fuel == 0 then None else RootFrom(nodes, p, fuel - 1)
  }

  /** More fuel does not change a root that was found. */
  lemma {:induction false} RootFromMoreFuel(nodes: map<ControllerId, Node>, id: ControllerId, fuel: nat, more: nat)
    requires RootFrom(nodes, id, fuel).Some? && fuel <= more
    ensures RootFrom(nodes, id, more) == RootFrom(nodes, id, fuel)
    decreases fuel
  {
    if nodes[id].parent.Some? {
      RootFromMoreFuel(nodes, nodes[id].parent.value, fuel - 1, more - 1);
    }
  }

  /** A child's requests go to the same root as its parent's. */
  lemma RootFromParent(nodes: map<ControllerId, Node>, id: ControllerId, fuel: nat)
    requires id in nodes && nodes[id].parent.Some? && RootFrom(nodes, id, fuel + 1).Some?
    ensures RootFrom(nodes, nodes[id].parent.value, fuel) == RootFrom(nodes, id, fuel + 1)
  {
  }

  /** The events their handlers receive when a root ticks: in queue order, each to its handlers in order. */
  function Dispatched(queue: seq<Event>, events: map<TypeId, seq<CallbackId>>): seq<(CallbackId, Event)>
  {
    if |queue| == 0 then []
    else HandlerCalls(queue[0], events) + Dispatched(queue[1..], events)
  }

  function HandlerCalls(e: Event, events: map<TypeId, seq<CallbackId>>): (calls: seq<(CallbackId, Event)>)
    ensures e.typeId !in events ==> calls == []
    ensures e.typeId in events ==>
              (|calls| == |events[e.typeId]| &&
               forall k :: 0 <= k < |calls| ==> calls[k] == (events[e.typeId][k], e))
  {
    if e.typeId in events then seq(|events[e.typeId]|, k requires 0 <= k < |events[e.typeId]| => (events[e.typeId][k], e))
    else []
  }

  /** Dispatch is first in, first out: a longer queue dispatches its prefix first. */
  lemma {:induction false} DispatchedAppend(q1: seq<Event>, q2: seq<Event>, events: map<TypeId, seq<CallbackId>>)
    ensures Dispatched(q1 + q2, events) == Dispatched(q1, events) + Dispatched(q2, events)
  {
    if |q1| == 0 {
      assert q1 + q2 == q2;
    } else {
      assert (q1 + q2)[1..] == q1[1..] + q2;
      DispatchedAppend(q1[1..], q2, events);
    }
  }

  /** An event whose type has no handlers reaches nobody. */
  lemma DispatchedUnhandled(e: Event, events: map<TypeId, seq<CallbackId>>)
    requires e.typeId !in events
    ensures Dispatched([e], events) == []
  {
    assert [e][1..] == [];
  }

  /** Registering one more handler adds it after those already there. */
  lemma HandlerCallsAppend(e: Event, events: map<TypeId, seq<CallbackId>>, cb: CallbackId)
    ensures var hs := if e.typeId in events then events[e.typeId] else [];
            HandlerCalls(e, events[e.typeId := hs + [cb]]) == HandlerCalls(e, events) + [(cb, e)]
  {
  }

  /** The dispatch loop of a root's tick. */
  method DispatchEvents(incoming: seq<Event>, events: map<TypeId, seq<CallbackId>>)
    returns (calls: seq<(CallbackId, Event)>)
    ensures calls == Dispatched(incoming, events)
  {
    calls := [];
    var queue := incoming;
    while |queue| > 0
      invariant calls + Dispatched(queue, events) == Dispatched(incoming, events)
    {
      var e := queue[0];
      var handled := CallHandlers(e, events);
      calls := calls + handled;
      queue := queue[1..];
    }
  }

  /** The calls of every handler of e's type, in registration order. */
  method CallHandlers(e: Event, events: map<TypeId, seq<CallbackId>>) returns (calls: seq<(CallbackId, Event)>)
    ensures calls == HandlerCalls(e, events)
  {
    calls := [];
    if e.typeId in events {
      var handlers := events[e.typeId];
      var k := 0;
      while k < |handlers|
        invariant 0 <= k <= |handlers|
        invariant calls == HandlerCalls(e, events)[..k]
      {
        assert HandlerCalls(e, events)[..k + 1] == HandlerCalls(e, events)[..k] + [(handlers[k], e)];
        calls := calls + [(handlers[k], e)];
        k := k + 1;
      }
      assert HandlerCalls(e, events)[..k] == HandlerCalls(e, events);
    }
  }

  class Controllers {
    var nodes: map<ControllerId, Node>
    /** The next ID to hand out. */
    var nextId: ControllerId

    /** Every parent exists, and a controller with a parent holds no registrations and no events. */
    predicate Valid()
      reads this
    {
      (forall id :: id in nodes && nodes[id].parent.Some? ==>
         nodes[id].parent.value in nodes && Unregistered(nodes[id])) &&
      (forall id, name :: id in nodes && name in nodes[id].childControllers ==>
         nodes[id].childControllers[name] in nodes) &&
      (forall id :: id in nodes ==> id < nextId)
    }

    function RootOf(id: ControllerId): Option<ControllerId>
      reads this
    {
      RootFrom(nodes, id, |nodes|)
    }

    constructor ()
      ensures nodes == map[] && Valid()
    {
      nodes := map[];
      nextId := 0;
    }

    /** make_shared<Controller>(): a new controller, with no parent. */
    method NewController() returns (id: ControllerId)
      requires Valid()
      modifies this
      ensures Valid() && old(id !in nodes) && nodes == old(nodes)[id := NEW_NODE]
    {
      id := nextId;
      nodes := nodes[id := NEW_NODE];
      nextId := nextId + 1;
    }

    /** The controller where id's requests end up: id itself when it has no parent. */
    method FindRoot(id: ControllerId) returns (root: ControllerId)
      requires id in nodes && RootOf(id).Some?
      ensures Some(root) == RootOf(id)
    {
      root := id;
      var fuel: nat := |nodes|;
      while nodes[root].parent.Some?
        invariant root in nodes && RootFrom(nodes, root, fuel) == RootOf(id)
        decreases fuel
      {
        root := nodes[root].parent.value;
        fuel := fuel - 1;
      }
    }

    /** registerCommand: empty callbacks and repeated registrations are refused at the root. */
    method RegisterCommand(id: ControllerId, c: TypeId, cb: Option<CallbackId>) returns (r: Result<(), AssertionError>)
      requires Valid() && id in nodes && RootOf(id).Some?
      modifies this
      ensures Valid()
      ensures var root := old(RootOf(id)).value;
              if cb.None? || c in old(nodes)[root].commands then r.Failure? && nodes == old(nodes)
              else r.Success? &&
                   nodes == old(nodes)[root := old(nodes)[root].(commands := old(nodes)[root].commands[c := cb.value])]
    {
      if cb.None? {
        return Failure(AssertionFailed);
      }
      var root := FindRoot(id);
      var n := nodes[root];
      if c in n.commands {
        return Failure(AssertionFailed);
      }
      SetRootNode(root, n.(commands := n.commands[c := cb.value]));
      r := Success(());
    }

    /** registerQuery: as registerCommand, for queries. */
    method RegisterQuery(id: ControllerId, q: TypeId, cb: Option<CallbackId>) returns (r: Result<(), AssertionError>)
      requires Valid() && id in nodes && RootOf(id).Some?
      modifies this
      ensures Valid()
      ensures var root := old(RootOf(id)).value;
              if cb.None? || q in old(nodes)[root].queries then r.Failure? && nodes == old(nodes)
              else r.Success? &&
                   nodes == old(nodes)[root := old(nodes)[root].(queries := old(nodes)[root].queries[q := cb.value])]
    {
      if cb.None? {
        return Failure(AssertionFailed);
      }
      var root := FindRoot(id);
      var n := nodes[root];
      if q in n.queries {
        return Failure(AssertionFailed);
      }
      SetRootNode(root, n.(queries := n.queries[q := cb.value]));
      r := Success(());
    }

    /** registerEventHandler: appends, so one event type may have several handlers. */
    method RegisterEventHandler(id: ControllerId, e: TypeId, cb: Option<CallbackId>) returns (r: Result<(), AssertionError>)
      requires Valid() && id in nodes && RootOf(id).Some?
      modifies this
      ensures Valid()
      ensures var root := old(RootOf(id)).value;
              var hs := if e in old(nodes)[root].events then old(nodes)[root].events[e] else [];
              if cb.None? then r.Failure? && nodes == old(nodes)
              else r.Success? &&
                   nodes == old(nodes)[root := old(nodes)[root].(events := old(nodes)[root].events[e := hs + [cb.value]])]
    {
      if cb.None? {
        return Failure(AssertionFailed);
      }
      var root := FindRoot(id);
      var n := nodes[root];
      var hs := if e in n.events then n.events[e] else [];
      SetRootNode(root, n.(events := n.events[e := hs + [cb.value]]));
      r := Success(());
    }

    /** command: the callback registered for c at the root, which is then called. */
    method Command(id: ControllerId, c: TypeId) returns (r: Result<CallbackId, AssertionError>)
      requires id in nodes && RootOf(id).Some?
      ensures var root := RootOf(id).value;
              if c in nodes[root].commands then r == Success(nodes[root].commands[c]) else r.Failure?
    {
      var root := FindRoot(id);
      if c !in nodes[root].commands {
        return Failure(AssertionFailed);
      }
      r := Success(nodes[root].commands[c]);
    }

    /** query: the callback registered for q at the root, whose answer is returned. */
    method Query(id: ControllerId, q: TypeId) returns (r: Result<CallbackId, AssertionError>)
      requires id in nodes && RootOf(id).Some?
      ensures var root := RootOf(id).value;
              if q in nodes[root].queries then r == Success(nodes[root].queries[q]) else r.Failure?
    {
      var root := FindRoot(id);
      if q !in nodes[root].queries {
        return Failure(AssertionFailed);
      }
      r := Success(nodes[root].queries[q]);
    }

    /** event: queues a non-null event at the root. */
    method EmitEvent(id: ControllerId, e: Option<Event>) returns (r: Result<(), AssertionError>)
      requires Valid() && id in nodes && RootOf(id).Some?
      modifies this
      ensures Valid()
      ensures var root := old(RootOf(id)).value;
              if e.None? then r.Failure? && nodes == old(nodes)
              else r.Success? &&
                   nodes == old(nodes)[root := old(nodes)[root].(incomingEvents := old(nodes)[root].incomingEvents + [e.value])]
    {
      if e.None? {
        return Failure(AssertionFailed);
      }
      var root := FindRoot(id);
      var n := nodes[root];
      SetRootNode(root, n.(incomingEvents := n.incomingEvents + [e.value]));
      r := Success(());
    }

    /** shutdown: stores the exit code at the root, for its next tick to return. */
    method Shutdown(id: ControllerId, exitCode: TickResponse)
      requires Valid() && id in nodes && RootOf(id).Some?
      modifies this
      ensures Valid()
      ensures var root := old(RootOf(id)).value;
              nodes == old(nodes)[root := old(nodes)[root].(tickCode := exitCode)]
    {
      var root := FindRoot(id);
      var n := nodes[root];
      SetRootNode(root, n.(tickCode := exitCode));
    }

    /**
     * tick: a root dispatches its queued events (first in, first out; each to
     * every handler of its type, in registration order), empties the queue and
     * returns its tick code, which it resets to Continue. Views rendering and
     * child controllers ticking change nothing in the model. Any other
     * controller returns Continue.
     */
    method Tick(id: ControllerId) returns (code: TickResponse, calls: seq<(CallbackId, Event)>)
      requires Valid() && id in nodes
      modifies this
      ensures Valid()
      ensures old(nodes)[id].parent.Some? ==> code == CONTINUE && calls == [] && nodes == old(nodes)
      ensures old(nodes)[id].parent.None? ==>
                code == old(nodes)[id].tickCode &&
                calls == Dispatched(old(nodes)[id].incomingEvents, old(nodes)[id].events) &&
                nodes == old(nodes)[id := old(nodes)[id].(incomingEvents := [], tickCode := CONTINUE)]
    {
      var n := nodes[id];
      if n.parent.Some? {
        return CONTINUE, [];
      }
      calls := DispatchEvents(n.incomingEvents, n.events);
      code := n.tickCode;
      SetRootNode(id, n.(incomingEvents := [], tickCode := CONTINUE));
    }

    /** attachChildController: refuses null and any name a child or model already has. */
    method AttachChildController(id: ControllerId, name: string, cc: Option<ControllerId>)
      returns (r: Result<(), AssertionError>)
      requires Valid() && id in nodes && (cc.Some? ==> cc.value in nodes)
      modifies this
      ensures Valid()
      ensures (old(cc.None? || name in nodes[id].childControllers || name in nodes[id].models ||
                   !CanBecomeChild(nodes[cc.value]))) ==> r.Failure? && nodes == old(nodes)
      ensures (old(cc.Some? && name !in nodes[id].childControllers && name !in nodes[id].models &&
                   CanBecomeChild(nodes[cc.value]))) ==>
                r.Success? &&
                var withParent := old(nodes)[cc.value := old(nodes)[cc.value].(parent := Some(id))];
                nodes == withParent[id := withParent[id].(childControllers :=
                                      withParent[id].childControllers[name := cc.value])]
    {
      if cc.None? {
        return Failure(AssertionFailed);
      }
      if name in nodes[id].childControllers || name in nodes[id].models {
        return Failure(AssertionFailed);
      }
      r := SetParentController(cc.value, id);
      if r.Failure? {
        return;
      }
      var n := nodes[id];
      nodes := nodes[id := n.(childControllers := n.childControllers[name := cc.value])];
    }

    /** setParentController: only a controller with nothing registered, queued or attached can become a child. */
    method SetParentController(child: ControllerId, parent: ControllerId) returns (r: Result<(), AssertionError>)
      requires Valid() && child in nodes && parent in nodes
      modifies this
      ensures Valid()
      ensures !CanBecomeChild(old(nodes)[child]) ==> r.Failure? && nodes == old(nodes)
      ensures CanBecomeChild(old(nodes)[child]) ==>
                r.Success? && nodes == old(nodes)[child := old(nodes)[child].(parent := Some(parent))]
    {
      if !CanBecomeChild(nodes[child]) {
        return Failure(AssertionFailed);
      }
      nodes := nodes[child := nodes[child].(parent := Some(parent))];
      r := Success(());
    }

    /** attachModel: refuses null and any name a child or model already has. */
    method AttachModel(id: ControllerId, name: string, m: Option<ModelId>) returns (r: Result<(), AssertionError>)
      requires Valid() && id in nodes
      modifies this
      ensures Valid()
      ensures old(m.None? || name in nodes[id].childControllers || name in nodes[id].models) ==>
                r.Failure? && nodes == old(nodes)
      ensures old(m.Some? && name !in nodes[id].childControllers && name !in nodes[id].models) ==>
                r.Success? && nodes == old(nodes)[id := old(nodes)[id].(models := old(nodes)[id].models[name := m.value])]
    {
      if m.None? {
        return Failure(AssertionFailed);
      }
      if name in nodes[id].childControllers || name in nodes[id].models {
        return Failure(AssertionFailed);
      }
      var n := nodes[id];
      nodes := nodes[id := n.(models := n.models[name := m.value])];
      r := Success(());
    }

    /** attachView: refuses null and a view already attached; views render in attachment order. */
    method AttachView(id: ControllerId, v: Option<ViewId>) returns (r: Result<(), AssertionError>)
      requires Valid() && id in nodes
      modifies this
      ensures Valid()
      ensures old(v.None? || v.value in nodes[id].views) ==> r.Failure? && nodes == old(nodes)
      ensures old(v.Some? && v.value !in nodes[id].views) ==>
                r.Success? && nodes == old(nodes)[id := old(nodes)[id].(views := old(nodes)[id].views + [v.value])]
    {
      if v.None? {
        return Failure(AssertionFailed);
      }
      if v.value in nodes[id].views {
        return Failure(AssertionFailed);
      }
      var n := nodes[id];
      nodes := nodes[id := n.(views := n.views + [v.value])];
      r := Success(());
    }

    /** Replaces the state of a root controller, keeping it a root. */
    method SetRootNode(root: ControllerId, n: Node)
      requires Valid() && root in nodes && nodes[root].parent.None? && n.parent.None?
      requires n.childControllers == nodes[root].childControllers
      modifies this
      ensures Valid() && nodes == old(nodes)[root := n]
      ensures forall id :: RootOf(id) == old(RootOf(id))
    {
      RootsUnchanged(nodes, root, n);
      nodes := nodes[root := n];
    }
  }

  /** Replacing a root by another root moves no chain. */
  lemma RootsUnchanged(nodes: map<ControllerId, Node>, root: ControllerId, n: Node)
    requires n.parent.None? && root in nodes && nodes[root].parent.None?
    ensures forall id :: RootFrom(nodes[root := n], id, |nodes[root := n]|) == RootFrom(nodes, id, |nodes|)
  {
    assert |nodes[root := n]| == |nodes| by {
      assert nodes[root := n].Keys == nodes.Keys;
    }
    forall id
      ensures RootFrom(nodes[root := n], id, |nodes|) == RootFrom(nodes, id, |nodes|)
    {
      RootFromReplaceRoot(nodes, root, n, id, |nodes|);
    }
  }

  lemma {:induction false} RootFromReplaceRoot(nodes: map<ControllerId, Node>, root: ControllerId, n: Node,
                                              id: ControllerId, fuel: nat)
    requires n.parent.None? && root in nodes && nodes[root].parent.None?
    ensures RootFrom(nodes[root := n], id, fuel) == RootFrom(nodes, id, fuel)
    decreases fuel
  {
    if id in nodes && id != root && nodes[id].parent.Some? && fuel > 0 {
      RootFromReplaceRoot(nodes, root, n, nodes[id].parent.value, fuel - 1);
    }
  }
}
