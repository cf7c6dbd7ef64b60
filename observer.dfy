/** The observer pattern: a subject holds weak references to observers,
    and setting its value notifies every observer that is still alive and
    forgets the ones that have been dropped. An observer is represented by
    an identifier; whether it is still alive (whether its weak reference
    would upgrade) is given as the set of live identifiers. Each call of an
    observer's `on_change` is recorded in a log of notifications. */
module ObserverPattern {

  newtype i32 = x: int | -0x8000_0000 <= x < 0x8000_0000

  type ObserverId = nat

  /** One call of `on_change(value)` on an observer. */
  datatype Notification = Notification(observer: ObserverId, value: i32)

  /** The entries of `obs` whose observer is alive, in their order. */
  function Survivors(obs: seq<ObserverId>, alive: set<ObserverId>): (r: seq<ObserverId>)
    ensures |r| <= |obs|
    ensures forall k :: 0 <= k < |r| ==> r[k] in alive
  {
    if obs == [] then []
    else
      var last := obs[|obs| - 1];
      Survivors(obs[..|obs| - 1], alive) + (if last in alive then [last] else [])
  }

  /** The notifications sending `v` to each entry of `obs` whose observer
      is alive, in list order. */
  function Notifications(obs: seq<ObserverId>, alive: set<ObserverId>, v: i32): (r: seq<Notification>)
    ensures forall n :: n in r ==> n.value == v && n.observer in alive
  {
    if obs == [] then []
    else
      var last := obs[|obs| - 1];
      Notifications(obs[..|obs| - 1], alive, v) + (if last in alive then [Notification(last, v)] else [])
  }

  class Subject {
    var value: i32
    /** The subscribed observers, as weak references. */
    var observers: seq<ObserverId>
    /** Every notification delivered so far, in order. */
    var delivered: seq<Notification>

    /** A subject holding `value`, with no observer. */
    constructor (value: i32)
      ensures this.value == value && observers == [] && delivered == []
    {
      this.value := value;
      observers := [];
      delivered := [];
    }

    /** One more entry, at the end; the earlier ones are untouched. */
    method Subscribe(id: ObserverId)
      modifies this
      ensures observers == old(observers) + [id]
      ensures value == old(value) && delivered == old(delivered)
    {
      observers := observers + [id];
    }

    /** Stores `v`, then walks the entries in order: a live observer is
        notified and kept, a dead one is removed. */
    method SetValue(v: i32, alive: set<ObserverId>)
      modifies this
      ensures value == v
      ensures observers == Survivors(old(observers), alive)
      ensures delivered == old(delivered) + Notifications(old(observers), alive, v)
    {
      value := v;
      var obs := observers;
      var sent: seq<Notification> := [];
      var kept: seq<ObserverId> := [];
      var i := 0;
      while i < |obs|
        invariant 0 <= i <= |obs|
        invariant value == v && observers == obs && delivered == old(delivered)
        invariant kept == Survivors(obs[..i], alive)
        invariant sent == Notifications(obs[..i], alive, v)
      {
        var id := obs[i];
        FilterStep(obs, i, alive, v);
        if id in alive {
          sent := sent + [Notification(id, v)];
          kept := kept + [id];
        }
        i := i + 1;
      }
      assert obs[..i] == obs;
      observers := kept;
      delivered := delivered + sent;
    }
  }

  /** One more entry looked at: it is kept and notified when its observer
      is alive, and dropped silently otherwise. */
  lemma FilterStep(obs: seq<ObserverId>, i: nat, alive: set<ObserverId>, v: i32)
    requires i < |obs|
    ensures Survivors(obs[..i + 1], alive)
         == Survivors(obs[..i], alive) + (if obs[i] in alive then [obs[i]] else [])
    ensures Notifications(obs[..i + 1], alive, v)
         == Notifications(obs[..i], alive, v) + (if obs[i] in alive then [Notification(obs[i], v)] else [])
  {
    assert obs[..i + 1][..i] == obs[..i];
  }

  // ---------------------------------------------------------------------
  // Properties of the clean-up and of the notifications
  // ---------------------------------------------------------------------

  /** Filtering a list is filtering its two halves: surviving entries keep
      their relative order. */
  lemma {:induction false} SurvivorsAppend(a: seq<ObserverId>, b: seq<ObserverId>, alive: set<ObserverId>)
    ensures Survivors(a + b, alive) == Survivors(a, alive) + Survivors(b, alive)
    decreases |b|
  {
    if b == [] {
      assert a + b == a;
    } else {
      var b' := b[..|b| - 1];
      assert (a + b)[..|a + b| - 1] == a + b';
      SurvivorsAppend(a, b', alive);
    }
  }

  /** An identifier stays in the list exactly when it was subscribed and
      its observer is alive. */
  lemma {:induction false} SurvivorsMembers(obs: seq<ObserverId>, alive: set<ObserverId>, id: ObserverId)
    ensures id in Survivors(obs, alive) <==> id in obs && id in alive
  {
    if obs != [] {
      var init, last := obs[..|obs| - 1], obs[|obs| - 1];
      SurvivorsMembers(init, alive, id);
      assert obs == init + [last];
    }
  }

  /** Every entry of a live observer stays, as often as it was there, and
      every entry of a dead one goes. */
  lemma {:induction false} SurvivorsMultiplicity(obs: seq<ObserverId>, alive: set<ObserverId>, id: ObserverId)
    ensures multiset(Survivors(obs, alive))[id] == if id in alive then multiset(obs)[id] else 0
  {
    if obs != [] {
      var init := obs[..|obs| - 1];
      assert obs == init + [obs[|obs| - 1]];
      SurvivorsMultiplicity(init, alive, id);
    }
  }

  /** When every subscribed observer is alive, nothing is removed. */
  lemma {:induction false} AllAliveKeepsList(obs: seq<ObserverId>, alive: set<ObserverId>)
    requires forall k :: 0 <= k < |obs| ==> obs[k] in alive
    ensures Survivors(obs, alive) == obs
  {
    if obs != [] {
      var init, last := obs[..|obs| - 1], obs[|obs| - 1];
      assert forall k :: 0 <= k < |init| ==> init[k] == obs[k];
      AllAliveKeepsList(init, alive);
      assert last in alive;
      assert obs == init + [last];
    }
  }

  /** A second clean-up with the same live observers removes nothing. */
  lemma SurvivorsIdempotent(obs: seq<ObserverId>, alive: set<ObserverId>)
    ensures Survivors(Survivors(obs, alive), alive) == Survivors(obs, alive)
  {
    AllAliveKeepsList(Survivors(obs, alive), alive);
  }

  /** The notifications are the surviving entries, in order, each sent the
      new value. */
  lemma {:induction false} NotificationsMatchSurvivors(obs: seq<ObserverId>, alive: set<ObserverId>, v: i32)
    ensures |Notifications(obs, alive, v)| == |Survivors(obs, alive)|
    ensures forall k :: 0 <= k < |Survivors(obs, alive)| ==>
              Notifications(obs, alive, v)[k] == Notification(Survivors(obs, alive)[k], v)
  {
    if obs != [] {
      NotificationsMatchSurvivors(obs[..|obs| - 1], alive, v);
    }
  }

  /** Each live observer is notified once per entry it has in the list, and
      a dead one never. */
  lemma {:induction false} NotifiedOncePerEntry(obs: seq<ObserverId>, alive: set<ObserverId>, v: i32, id: ObserverId)
    ensures multiset(Notifications(obs, alive, v))[Notification(id, v)]
         == if id in alive then multiset(obs)[id] else 0
  {
    if obs != [] {
      var init := obs[..|obs| - 1];
      assert obs == init + [obs[|obs| - 1]];
      NotifiedOncePerEntry(init, alive, v, id);
    }
  }

  /** The demonstration: observers 1 and 2 subscribe, the value is set to
      10, observer 1 is dropped, and the value is set to 20. Both observers
      see 10, only observer 2 sees 20, and only its entry remains. */
  method Example() returns (log: seq<Notification>, remaining: seq<ObserverId>)
    ensures log == [Notification(1, 10), Notification(2, 10), Notification(2, 20)]
    ensures remaining == [2]
  {
    var subject := new Subject(0);
    subject.Subscribe(1);
    subject.Subscribe(2);
    var alive: set<ObserverId> := {1, 2};
    assert subject.observers == [1, 2] && subject.delivered == [];
    assert [1, 2][..1] == [1];
    subject.SetValue(10, alive);
    assert subject.delivered == [Notification(1, 10), Notification(2, 10)];
    assert subject.observers == [1, 2];
    alive := alive - {1};
    assert 1 !in alive && 2 in alive;
    assert [1][..0] == [];
    assert Notifications([1], alive, 20) == [];
    assert Notifications([1, 2], alive, 20) == [Notification(2, 20)];
    subject.SetValue(20, alive);
    log := subject.delivered;
    remaining := subject.observers;
  }
}
