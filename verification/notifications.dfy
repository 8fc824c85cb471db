/** The notification registry (src/notifications/notification_manager.py): a map from
    an event-type label to the ordered list of its listeners. A listener is an opaque
    value; what it does is left out except whether it raises, which `raises` tells. The
    dispatcher isolates nothing: the first listener that raises ends the dispatch. */
module Notifications {

  datatype Registry<L> = Registry(listeners: map<string, seq<L>>)

  /** The registry as the process starts: no label has listeners. */
  function NewRegistry<L>(): (r: Registry<L>)
    ensures forall eventType :: ListenersOf(r, eventType) == []
  {
    Registry(map[])
  }

  /** The listeners of `eventType`, in subscription order; none when the label is unknown. */
  function ListenersOf<L>(reg: Registry<L>, eventType: string): seq<L> {
    if eventType in reg.listeners then reg.listeners[eventType] else []
  }

  /** `subscribe`: appends the listener to its label's list, creating the list when the
      label is new; every other label keeps its list. */
  function Subscribe<L>(reg: Registry<L>, eventType: string, listener: L): (r: Registry<L>)
    ensures r.listeners.Keys == reg.listeners.Keys + {eventType}
    ensures ListenersOf(r, eventType) == ListenersOf(reg, eventType) + [listener]
    ensures forall t :: t != eventType ==> ListenersOf(r, t) == ListenersOf(reg, t)
  {
    var current := if eventType in reg.listeners then reg.listeners[eventType] else [];
    Registry(reg.listeners[eventType := current + [listener]])
  }

  /** One invocation of a listener with the notification's data. */
  datatype Call<L, D> = Call(listener: L, data: D)

  /** What a dispatch did: the invocations in order, and whether one of them raised. */
  datatype Dispatch<L, D> = Dispatch(calls: seq<Call<L, D>>, raised: bool)

  /** How many listeners at the front of `ls` return normally: the index of the first
      one that raises, or `|ls|` when none does. */
  function FirstRaising<L>(ls: seq<L>, raises: L -> bool): (k: nat)
    ensures k <= |ls|
    ensures forall i :: 0 <= i < k ==> !raises(ls[i])
    ensures k < |ls| ==> raises(ls[k])
  {
    if |ls| == 0 || raises(ls[0]) then 0
    else
      var k := FirstRaising(ls[1..], raises);
      assert forall i :: 1 <= i < k + 1 ==> ls[i] == ls[1..][i - 1];
      k + 1
  }

  /** Invokes `ls` in order with `data`, stopping after the first listener that raises:
      the calls are a prefix of `ls`, all of it when nobody raises, and otherwise up to
      and including the first listener that raises. */
  function Run<L(==), D(==)>(ls: seq<L>, data: D, raises: L -> bool): (r: Dispatch<L, D>)
    ensures |r.calls| <= |ls|
    ensures forall i :: 0 <= i < |r.calls| ==> r.calls[i] == Call(ls[i], data)
    ensures r.raised <==> exists i :: 0 <= i < |ls| && raises(ls[i])
    ensures !r.raised ==> |r.calls| == |ls|
    ensures r.raised ==> |r.calls| > 0 && raises(ls[|r.calls| - 1])
    ensures forall i :: 0 <= i < |r.calls| - 1 ==> !raises(ls[i])
  {
    var k := FirstRaising(ls, raises);
    var n := if k < |ls| then k + 1 else |ls|;
    Dispatch(seq(n, i requires 0 <= i < n => Call(ls[i], data)), k < |ls|)
  }

  /** `notify`: runs the listeners of `eventType`. It hands back no registry, because it
      never changes one; a label without listeners does nothing. */
  function Notify<L(==), D(==)>(reg: Registry<L>, eventType: string, data: D, raises: L -> bool): (r: Dispatch<L, D>)
    ensures eventType !in reg.listeners ==> r == Dispatch([], false)
    ensures forall i :: 0 <= i < |r.calls| ==> r.calls[i].listener in ListenersOf(reg, eventType)
    ensures |r.calls| <= |ListenersOf(reg, eventType)|
    ensures forall i :: 0 <= i < |r.calls| ==> r.calls[i] == Call(ListenersOf(reg, eventType)[i], data)
    ensures r.raised <==> exists i :: 0 <= i < |ListenersOf(reg, eventType)| && raises(ListenersOf(reg, eventType)[i])
    ensures !r.raised ==> |r.calls| == |ListenersOf(reg, eventType)|
  {
    Run(ListenersOf(reg, eventType), data, raises)
  }

  /** With no listener raising, a new subscriber is invoked after all earlier ones, and
      the earlier invocations are unchanged. */
  lemma SubscribeThenNotify<L, D>(reg: Registry<L>, eventType: string, listener: L, data: D, raises: L -> bool)
    requires forall l :: l in ListenersOf(reg, eventType) ==> !raises(l)
    requires !raises(listener)
    ensures Notify(Subscribe(reg, eventType, listener), eventType, data, raises).calls
            == Notify(reg, eventType, data, raises).calls + [Call(listener, data)]
  {
    var before := ListenersOf(reg, eventType);
    var after := ListenersOf(Subscribe(reg, eventType, listener), eventType);
    assert after == before + [listener];
    assert forall l :: l in after ==> !raises(l);
    var a := Notify(Subscribe(reg, eventType, listener), eventType, data, raises);
    var b := Notify(reg, eventType, data, raises);
    assert !a.raised && !b.raised;
    assert a.calls == b.calls + [Call(listener, data)];
  }

  /** Subscribing under one label does not change what another label dispatches. */
  lemma OtherLabelsUnaffected<L, D>(reg: Registry<L>, t: string, other: string, listener: L, data: D, raises: L -> bool)
    requires other != t
    ensures Notify(Subscribe(reg, other, listener), t, data, raises) == Notify(reg, t, data, raises)
  {
  }

  /** There is no de-duplication: a listener subscribed twice runs twice, at the end. */
  lemma SubscribedTwiceRunsTwice<L, D>(reg: Registry<L>, eventType: string, listener: L, data: D, raises: L -> bool)
    requires forall l :: l in ListenersOf(reg, eventType) ==> !raises(l)
    requires !raises(listener)
    ensures var twice := Subscribe(Subscribe(reg, eventType, listener), eventType, listener);
            Notify(twice, eventType, data, raises).calls
            == Notify(reg, eventType, data, raises).calls + [Call(listener, data), Call(listener, data)]
  {
    var once := Subscribe(reg, eventType, listener);
    SubscribeThenNotify(reg, eventType, listener, data, raises);
    assert forall l :: l in ListenersOf(once, eventType) ==> !raises(l);
    SubscribeThenNotify(once, eventType, listener, data, raises);
  }

  /** A listener that raises hides every listener after it. */
  lemma RaisingListenerStopsDispatch<L, D>(reg: Registry<L>, eventType: string, data: D, raises: L -> bool, k: int)
    requires 0 <= k < |ListenersOf(reg, eventType)|
    requires raises(ListenersOf(reg, eventType)[k])
    ensures Notify(reg, eventType, data, raises).raised
    ensures |Notify(reg, eventType, data, raises).calls| <= k + 1
  {
  }
}
