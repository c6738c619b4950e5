/** The subject of the order-event observer pattern: a registry of observers
    kept free of duplicate names, and the singleton accessor. The observers'
    own notification work is not part of this model. */
module OrderNotifier {
  import opened Wrappers

  /** An observer object: its `getName()` and, standing for the object's
      identity, which implementation it is. */
  datatype Observer = Observer(name: string, impl: nat)

  /** The argument of `attach`: an `Observer` instance or any other value. */
  datatype Candidate = AnObserver(observer: Observer) | NotAnObserver

  datatype AttachOutcome = Attached | AlreadyAttached | NotAnObserverError

  /** `observers.map(obs => obs.getName())`. */
  function Names(observers: seq<Observer>): (names: seq<string>)
    ensures |names| == |observers|
    ensures forall i :: 0 <= i < |observers| ==> names[i] == observers[i].name
  {
    seq(|observers|, i requires 0 <= i < |observers| => observers[i].name)
  }

  /** No two observers share a name. */
  predicate UniqueNames(observers: seq<Observer>) {
    forall i, j :: 0 <= i < j < |observers| ==> observers[i].name != observers[j].name
  }

  /** `findIndex(obs => obs.getName() === name)`: the first position with that
      name, or -1. */
  function IndexOfName(observers: seq<Observer>, name: string): (i: int)
    ensures i == -1 <==> name !in Names(observers)
    ensures i != -1 ==> 0 <= i < |observers| && observers[i].name == name
    ensures i != -1 ==> forall j :: 0 <= j < i ==> observers[j].name != name
  {
    if observers == [] then -1
    else if observers[0].name == name then 0
    else
      var k := IndexOfName(observers[1..], name);
      assert Names(observers) == [observers[0].name] + Names(observers[1..]);
      if k == -1 then -1 else k + 1
  }

  /** The list after `attach`: appended only when its name is new. */
  function AttachTo(observers: seq<Observer>, o: Observer): seq<Observer> {
    if o.name in Names(observers) then observers else observers + [o]
  }

  /** The list after `detach`: the first observer with that name spliced out. */
  function DetachFrom(observers: seq<Observer>, name: string): seq<Observer> {
    var i := IndexOfName(observers, name);
    if i == -1 then observers else observers[..i] + observers[i + 1..]
  }

  /** Attaching keeps names unique, and afterwards the name is registered;
      the names list grows by that name exactly when it was new. */
  lemma AttachKeepsUnique(observers: seq<Observer>, o: Observer)
    requires UniqueNames(observers)
    ensures UniqueNames(AttachTo(observers, o))
    ensures o.name in Names(AttachTo(observers, o))
    ensures Names(AttachTo(observers, o)) ==
      if o.name in Names(observers) then Names(observers) else Names(observers) + [o.name]
  {
    var r := AttachTo(observers, o);
    if o.name !in Names(observers) {
      assert r[|observers|] == o;
      assert forall i :: 0 <= i < |observers| ==> observers[i].name != o.name;
      assert Names(r) == Names(observers) + [o.name];
    }
  }

  /** Where each element of a spliced list comes from. */
  lemma SpliceAt(observers: seq<Observer>, i: nat)
    requires i < |observers|
    ensures var r := observers[..i] + observers[i + 1..];
            |r| == |observers| - 1
            && forall k :: 0 <= k < |r| ==> r[k] == if k < i then observers[k] else observers[k + 1]
  {
  }

  /** Splicing out position `i` of a list with unique names keeps the names
      unique and leaves no observer named like the one removed. */
  lemma SpliceKeepsUnique(observers: seq<Observer>, i: nat)
    requires UniqueNames(observers) && i < |observers|
    ensures var r := observers[..i] + observers[i + 1..];
            UniqueNames(r) && forall k :: 0 <= k < |r| ==> r[k].name != observers[i].name
  {
    var r := observers[..i] + observers[i + 1..];
    SpliceAt(observers, i);
    forall a, b | 0 <= a < b < |r|
      ensures r[a].name != r[b].name
    {
      var a' := if a < i then a else a + 1;
      var b' := if b < i then b else b + 1;
      assert r[a] == observers[a'] && r[b] == observers[b'] && a' < b';
    }
    forall k | 0 <= k < |r|
      ensures r[k].name != observers[i].name
    {
      var k' := if k < i then k else k + 1;
      assert r[k] == observers[k'] && k' != i;
    }
  }

  /** With unique names, detaching removes that name, and only it. */
  lemma DetachRemovesName(observers: seq<Observer>, name: string)
    requires UniqueNames(observers)
    ensures UniqueNames(DetachFrom(observers, name))
    ensures name !in Names(DetachFrom(observers, name))
    ensures |DetachFrom(observers, name)| == if name in Names(observers) then |observers| - 1 else |observers|
  {
    var i := IndexOfName(observers, name);
    if i != -1 {
      SpliceKeepsUnique(observers, i);
      var r := observers[..i] + observers[i + 1..];
      var names := Names(r);
      assert forall k :: 0 <= k < |names| ==> names[k] != name;
    }
  }

  /** Detaching keeps every observer with another name, in the same order. */
  lemma DetachKeepsOthers(observers: seq<Observer>, name: string)
    ensures forall o :: o in observers && o.name != name ==> o in DetachFrom(observers, name)
  {
    var i := IndexOfName(observers, name);
    if i != -1 {
      var r := observers[..i] + observers[i + 1..];
      SpliceAt(observers, i);
      forall o | o in observers && o.name != name
        ensures o in r
      {
        var k :| 0 <= k < |observers| && observers[k] == o;
        if k < i {
          assert r[k] == o;
        } else {
          assert r[k - 1] == o;
        }
      }
    }
  }

  /** Detaching a just-attached observer gives back the list it was attached to. */
  lemma AttachThenDetach(observers: seq<Observer>, o: Observer)
    requires o.name !in Names(observers)
    ensures DetachFrom(AttachTo(observers, o), o.name) == observers
  {
    var r := observers + [o];
    assert r[|observers|] == o;
    assert forall j :: 0 <= j < |observers| ==> r[j].name != o.name;
    assert IndexOfName(r, o.name) == |observers|;
    assert r[..|observers|] == observers;
  }

  /** The event fields `notifyObservers` insists on. */
  datatype EventData = EventData(order: Option<nat>, userEmail: Option<string>, eventType: string)

  /** `!eventData.order || !eventData.userEmail` turns the event away. */
  predicate Deliverable(e: EventData) {
    e.order.Some? && e.userEmail.Some? && e.userEmail.value != ""
  }

  class Notifier {
    var observers: seq<Observer>

    ghost predicate Valid()
      reads this
    {
      UniqueNames(observers)
    }

    constructor ()
      ensures Valid() && observers == []
    {
      observers := [];
    }

    /** `attach(observer)`: anything but an observer is refused with an error;
        an observer whose name is already registered is left out. */
    method Attach(c: Candidate) returns (outcome: AttachOutcome)
      requires Valid()
      modifies this
      ensures Valid()
      ensures c.NotAnObserver? ==> outcome == NotAnObserverError && observers == old(observers)
      ensures c.AnObserver? ==> observers == AttachTo(old(observers), c.observer)
      ensures c.AnObserver? ==> (outcome == Attached <==> c.observer.name !in Names(old(observers)))
      ensures c.AnObserver? ==> outcome != NotAnObserverError
    {
      if c.NotAnObserver? {
        return NotAnObserverError;
      }
      AttachKeepsUnique(observers, c.observer);
      var known := c.observer.name in Names(observers);
      if !known {
        observers := observers + [c.observer];
        outcome := Attached;
      } else {
        outcome := AlreadyAttached;
      }
    }

    /** `detach(observer)`: removes the observer registered under that name, if any. */
    method Detach(o: Observer)
      requires Valid()
      modifies this
      ensures Valid()
      ensures observers == DetachFrom(old(observers), o.name)
    {
      DetachRemovesName(observers, o.name);
      var index := IndexOfName(observers, o.name);
      if index != -1 {
        observers := observers[..index] + observers[index + 1..];
      }
    }

    /** `getObservers()`: the registered names, in attach order. */
    method GetObservers() returns (names: seq<string>)
      ensures names == Names(observers)
    {
      names := Names(observers);
    }

    /** `clear()`. */
    method Clear()
      modifies this
      ensures Valid() && observers == []
    {
      observers := [];
    }

    /** The observers `notifyObservers` would call: none when the order or the
        e-mail address is missing, otherwise every registered one, in order. */
    method NotifyTargets(e: EventData) returns (targets: seq<string>)
      ensures !Deliverable(e) ==> targets == []
      ensures Deliverable(e) ==> targets == Names(observers)
    {
      if e.order.None? || e.userEmail.None? || e.userEmail.value == "" {
        return [];
      }
      targets := Names(observers);
    }
  }

  /** The module-level `instance` behind `getOrderNotifier`. */
  class NotifierSlot {
    var instance: Notifier?

    constructor ()
      ensures instance == null
    {
      instance := null;
    }

    /** `getOrderNotifier()`: the first call creates the notifier, every later
        call returns that same object. */
    method GetOrderNotifier() returns (n: Notifier)
      modifies this
      ensures instance == n
      ensures old(instance) != null ==> n == old(instance)
      ensures old(instance) == null ==> fresh(n) && n.observers == []
    {
      if instance == null {
        instance := new Notifier();
      }
      n := instance;
    }
  }
}
