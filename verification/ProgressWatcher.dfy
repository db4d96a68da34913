/** The hook the engine calls with the statuses a plan waits on, and the callbacks it subscribes. */
module ProgressWatcher {
  import opened Models
  import opened Progress
  import opened Sequences

  /** A status as the hook sees it: whether it can be watched at all, is done already, fails when
      it is watched, and takes a completion callback. */
  datatype Status = Status(id: nat, watchable: bool, done: bool, refuses: bool, takesCompletion: bool)

  /** A callback made for a status, under the number the status got. */
  datatype Subscription = Subscription(id: nat, number: nat)

  datatype Registered = Registered(
    watched: set<nat>, counter: nat, updates: seq<Subscription>, completions: seq<Subscription>)

  /** What the hook does with one status. */
  function Register(r: Registered, x: Status): Registered {
    if x.id in r.watched then r
    else
      var seen := r.(watched := r.watched + {x.id}, counter := r.counter + 1);
      var callback := Subscription(x.id, seen.counter);
      if !x.watchable || x.done || x.refuses then seen
      else seen.(updates := seen.updates + [callback],
                 completions := if x.takesCompletion then seen.completions + [callback] else seen.completions)
  }

  function RegisterAll(r: Registered, statuses: seq<Status>): Registered {
    if statuses == [] then r
    else Register(RegisterAll(r, statuses[..|statuses| - 1]), statuses[|statuses| - 1])
  }

  const NOTHING := Registered({}, 0, [], [])

  /** Every status seen has its own number, and at most one subscription of each kind. */
  ghost predicate OncePerStatus(r: Registered) {
    && r.counter == |r.watched|
    && Numbered(r, r.updates) && Numbered(r, r.completions)
  }

  ghost predicate Numbered(r: Registered, subs: seq<Subscription>) {
    && (forall i :: 0 <= i < |subs| ==> subs[i].id in r.watched && 0 < subs[i].number <= r.counter)
    && (forall i, j :: 0 <= i < j < |subs| ==> subs[i].number < subs[j].number && subs[i].id != subs[j].id)
  }

  /** However often the hook is called within a wait, and with whatever overlapping sets, no status
      is subscribed twice and no two statuses share a number; one seen for the first time is
      subscribed exactly if it can be watched and is not done. */
  lemma EachStatusOnce(statuses: seq<Status>)
    ensures var r := RegisterAll(NOTHING, statuses);
      && OncePerStatus(r)
      && (forall i :: 0 <= i < |statuses| && First(statuses, i) ==>
            (Subscribed(r, statuses[i].id) <==> Subscribable(statuses[i])))
  {
    AllOnce(statuses);
    forall i | 0 <= i < |statuses| && First(statuses, i)
      ensures Subscribed(RegisterAll(NOTHING, statuses), statuses[i].id) <==> Subscribable(statuses[i])
    {
      SubscribedByFirst(statuses, i);
    }
  }

  predicate Subscribable(x: Status) {
    x.watchable && !x.done && !x.refuses
  }

  lemma {:induction false} AllOnce(statuses: seq<Status>)
    ensures OncePerStatus(RegisterAll(NOTHING, statuses))
  {
    if statuses != [] {
      var n := |statuses| - 1;
      AllOnce(statuses[..n]);
      RegisterOnce(RegisterAll(NOTHING, statuses[..n]), statuses[n]);
    }
  }

  /** A status is subscribed by what it was when it was first seen. */
  lemma {:induction false} SubscribedByFirst(statuses: seq<Status>, i: nat)
    requires i < |statuses| && First(statuses, i)
    ensures Subscribed(RegisterAll(NOTHING, statuses), statuses[i].id) <==> Subscribable(statuses[i])
    decreases |statuses|
  {
    var n := |statuses| - 1;
    if i < n {
      EarlierStays(statuses, i);
      SubscribedByFirst(statuses[..n], i);
    } else {
      FirstAtEnd(statuses);
    }
  }

  lemma EarlierStays(statuses: seq<Status>, i: nat)
    requires i < |statuses| - 1
    ensures var front := statuses[..|statuses| - 1];
      && (First(statuses, i) ==> First(front, i))
      && (Subscribed(RegisterAll(NOTHING, statuses), statuses[i].id)
          <==> Subscribed(RegisterAll(NOTHING, front), front[i].id))
  {
    var n := |statuses| - 1;
    var front := statuses[..n];
    WatchedAreSeen(front);
    assert front[i] == statuses[i];
    assert Seen(front, statuses[i].id);
    OthersStay(RegisterAll(NOTHING, front), statuses[n], statuses[i].id);
  }

  lemma FirstAtEnd(statuses: seq<Status>)
    requires statuses != [] && First(statuses, |statuses| - 1)
    ensures var x := statuses[|statuses| - 1];
      Subscribed(RegisterAll(NOTHING, statuses), x.id) <==> Subscribable(x)
  {
    var n := |statuses| - 1;
    var front := statuses[..n];
    WatchedAreSeen(front);
    AllOnce(front);
    assert !Seen(front, statuses[n].id);
    NewIsSubscribed(RegisterAll(NOTHING, front), statuses[n]);
  }

  ghost predicate Subscribed(r: Registered, id: nat) {
    exists s <- r.updates :: s.id == id
  }

  ghost predicate Seen(statuses: seq<Status>, id: nat) {
    exists i :: 0 <= i < |statuses| && statuses[i].id == id
  }

  lemma {:induction false} WatchedAreSeen(statuses: seq<Status>)
    ensures forall id :: id in RegisterAll(NOTHING, statuses).watched <==> Seen(statuses, id)
  {
    if statuses != [] {
      var n := |statuses| - 1;
      WatchedAreSeen(statuses[..n]);
      forall id
        ensures Seen(statuses, id) <==> Seen(statuses[..n], id) || id == statuses[n].id
      {
        SeenGrows(statuses, id);
      }
    }
  }

  lemma SeenGrows(statuses: seq<Status>, id: nat)
    requires statuses != []
    ensures var n := |statuses| - 1;
      Seen(statuses, id) <==> Seen(statuses[..n], id) || id == statuses[n].id
  {
    var n := |statuses| - 1;
    if Seen(statuses[..n], id) {
      var i :| 0 <= i < n && statuses[..n][i].id == id;
      assert statuses[i].id == id;
    }
    if Seen(statuses, id) && id != statuses[n].id {
      var i :| 0 <= i < |statuses| && statuses[i].id == id;
      assert statuses[..n][i].id == id;
    }
  }

  /** The statuses in the order first seen, each once. */
  ghost function Firsts(statuses: seq<Status>): seq<Status> {
    if statuses == [] then []
    else
      var n := |statuses| - 1;
      Firsts(statuses[..n]) + if Seen(statuses[..n], statuses[n].id) then [] else [statuses[n]]
  }

  /** A subscription for each that can be subscribed (and, for completions, takes them), under its
      number in this order, from 1. */
  ghost function Made(firsts: seq<Status>, completions: bool): seq<Subscription> {
    if firsts == [] then []
    else
      var n := |firsts| - 1;
      var x := firsts[n];
      Made(firsts[..n], completions)
      + if Subscribable(x) && (completions ==> x.takesCompletion) then [Subscription(x.id, n + 1)] else []
  }

  /** Over all calls of a wait: which statuses are subscribed to what, and under which numbers. */
  lemma {:induction false} NumberedAsFirstSeen(statuses: seq<Status>)
    ensures var r := RegisterAll(NOTHING, statuses);
      && r.counter == |Firsts(statuses)|
      && r.updates == Made(Firsts(statuses), false)
      && r.completions == Made(Firsts(statuses), true)
  {
    if statuses != [] {
      var n := |statuses| - 1;
      NumberedAsFirstSeen(statuses[..n]);
      WatchedAreSeen(statuses[..n]);
      var firsts, r := Firsts(statuses[..n]), RegisterAll(NOTHING, statuses[..n]);
      if Seen(statuses[..n], statuses[n].id) {
        assert Firsts(statuses) == firsts;
      } else {
        OneMoreNumbered(firsts, r, statuses[n]);
      }
    }
  }

  /** Calls add up: one that goes on from what was watched and counted before subscribes, behind what was
      subscribed then, what one call with both sets would. */
  lemma {:induction false} CallsAddUp(before: seq<Status>, statuses: seq<Status>)
    ensures var r := RegisterAll(NOTHING, before);
      var t := RegisterAll(Registered(r.watched, r.counter, [], []), statuses);
      RegisterAll(NOTHING, before + statuses)
      == Registered(t.watched, t.counter, r.updates + t.updates, r.completions + t.completions)
    decreases |statuses|
  {
    if statuses == [] {
      assert before + statuses == before;
    } else {
      var n, all := |statuses| - 1, before + statuses;
      CallsAddUp(before, statuses[..n]);
      assert all[..|all| - 1] == before + statuses[..n];
      var r := RegisterAll(NOTHING, before);
      RegisterBehind(r, RegisterAll(Registered(r.watched, r.counter, [], []), statuses[..n]), statuses[n]);
    }
  }

  lemma RegisterBehind(r: Registered, t: Registered, x: Status)
    ensures var u := Register(t, x);
      Register(Registered(t.watched, t.counter, r.updates + t.updates, r.completions + t.completions), x)
      == Registered(u.watched, u.counter, r.updates + u.updates, r.completions + u.completions)
  {
    Regroup(r.updates, t.updates, [Subscription(x.id, t.counter + 1)]);
    Regroup(r.completions, t.completions, [Subscription(x.id, t.counter + 1)]);
  }

  lemma OneMoreNumbered(firsts: seq<Status>, r: Registered, x: Status)
    requires r.counter == |firsts| && r.updates == Made(firsts, false) && r.completions == Made(firsts, true)
    requires x.id !in r.watched
    ensures var t := Register(r, x);
      && t.counter == |firsts + [x]|
      && t.updates == Made(firsts + [x], false)
      && t.completions == Made(firsts + [x], true)
  {
    OneMoreMade(firsts, x, false);
    OneMoreMade(firsts, x, true);
    RegisterOne(r, x);
  }

  lemma RegisterOne(r: Registered, x: Status)
    ensures var t, sub := Register(r, x), [Subscription(x.id, r.counter + 1)];
      if x.id in r.watched then t == r
      else && t.counter == r.counter + 1
           && t.updates == r.updates + (if Subscribable(x) then sub else [])
           && t.completions == r.completions + (if Subscribable(x) && x.takesCompletion then sub else [])
  {
  }

  lemma OneMoreMade(firsts: seq<Status>, x: Status, completions: bool)
    ensures var sub := [Subscription(x.id, |firsts| + 1)];
      Made(firsts + [x], completions)
      == Made(firsts, completions) + if Subscribable(x) && (completions ==> x.takesCompletion) then sub else []
  {
    assert (firsts + [x])[..|firsts|] == firsts;
  }

  ghost predicate First(statuses: seq<Status>, i: nat)
    requires i < |statuses|
  {
    forall k :: 0 <= k < i ==> statuses[k].id != statuses[i].id
  }

  lemma RegisterOnce(r: Registered, x: Status)
    requires OncePerStatus(r)
    ensures OncePerStatus(Register(r, x))
  {
  }

  lemma OthersStay(r: Registered, x: Status, id: nat)
    requires id in r.watched
    ensures Subscribed(Register(r, x), id) <==> Subscribed(r, id)
  {
    var t := Register(r, x);
    if Subscribed(r, id) {
      var s :| s in r.updates && s.id == id;
      assert s in t.updates;
    }
  }

  lemma NewIsSubscribed(r: Registered, x: Status)
    requires OncePerStatus(r) && x.id !in r.watched
    ensures Subscribed(Register(r, x), x.id) <==> Subscribable(x)
  {
    var t := Register(r, x);
    if Subscribable(x) {
      assert t.updates[|r.updates|].id == x.id;
      assert t.updates[|r.updates|] in t.updates;
    }
  }

  class ProgressWatcher {
    const minUpdatePeriod: real
    var watched: set<nat>
    var lastSent: map<nat, real>
    var lastPayload: map<nat, Payload>
    var order: seq<nat>            // the keys of lastPayload, as first inserted
    var counter: nat
    var published: seq<Event>

    ghost predicate Valid()
      reads this
    {
      Listed(Current()) && counter == |watched|
    }

    ghost function Current(): State
      reads this
    {
      State(lastPayload, order, lastSent)
    }

    constructor (minUpdatePeriod: real)
      ensures Valid() && Current() == INITIAL && watched == {} && published == []
      ensures this.minUpdatePeriod == minUpdatePeriod
    {
      this.minUpdatePeriod := minUpdatePeriod;
      watched, lastSent, lastPayload, order, counter, published := {}, map[], map[], [], 0, [];
    }

    /** `__call__` with statuses: subscribes to those not seen in this wait. */
    method WaitFor(statuses: seq<Status>) returns (updates: seq<Subscription>, completions: seq<Subscription>)
      requires Valid()
      modifies `watched, `counter
      ensures Valid() && Current() == old(Current())
      ensures Registered(watched, counter, updates, completions)
           == RegisterAll(Registered(old(watched), old(counter), [], []), statuses)
    {
      updates, completions := [], [];
      for i := 0 to |statuses|
        invariant counter == |watched|
        invariant Registered(watched, counter, updates, completions)
               == RegisterAll(Registered(old(watched), old(counter), [], []), statuses[..i])
      {
        var status := statuses[i];
        assert statuses[..i + 1][..i] == statuses[..i];
        if status.id in watched {
          continue;
        }
        watched := watched + {status.id};
        counter := counter + 1;
        if !status.watchable || status.done {
          continue;
        }
        if status.refuses {
          continue;
        }
        updates := updates + [Subscription(status.id, counter)];
        if status.takesCompletion {
          completions := completions + [Subscription(status.id, counter)];
        }
      }
      assert statuses[..|statuses|] == statuses;
    }

    /** `__call__` with None: the wait is over, and the next one starts from nothing. */
    method WaitOver()
      requires Valid()
      modifies `watched, `counter, `lastSent, `lastPayload, `order, `published
      ensures Valid() && Current() == INITIAL && watched == {} && counter == 0
      ensures published == old(published) + [WaitCompleted]
    {
      published := published + [WaitCompleted];
      watched, lastSent, lastPayload, order, counter := {}, map[], map[], [], 0;
    }

    method Store(id: nat, p: Payload)
      modifies `lastPayload, `order
      ensures Current() == Stored(old(Current()), id, p)
    {
      if id !in lastPayload {
        order := order + [id];
      }
      lastPayload := lastPayload[id := p];
    }

    method Publish()
      requires Valid()
      modifies `published
      ensures Valid() && Current() == old(Current())
      ensures published == old(published) + [Statuses(Snapshot(lastPayload, order))]
    {
      published := published + [Statuses(Snapshot(lastPayload, order))];
    }

    /** What an update callback does under the lock; the answer is whether it publishes. */
    method Merge(id: nat, number: nat, given: map<Field, Json>, marked: bool, now: real) returns (due: bool)
      modifies `lastPayload, `order, `lastSent
      ensures var l := Update(id, number, given, marked, now);
        && Current() == Next(old(Current()), l, minUpdatePeriod)
        && due == Emits(old(Current()), l, minUpdatePeriod)
    {
      var done := marked || FractionAtOne(given);
      if id in lastPayload && lastPayload[id].done {
        return false;
      }
      var values := if id in lastPayload then lastPayload[id].values else map[];
      Store(id, Payload(values + Named(given, number), done));
      if !done && id in lastSent && now - lastSent[id] < minUpdatePeriod {
        return false;
      }
      lastSent := lastSent[id := now];
      due := true;
    }

    method MergeValidly(id: nat, number: nat, given: map<Field, Json>, marked: bool, now: real) returns (due: bool)
      requires Valid()
      modifies `lastPayload, `order, `lastSent
      ensures Valid()
      ensures Current() == Next(old(Current()), Update(id, number, given, marked, now), minUpdatePeriod)
      ensures due == Emits(old(Current()), Update(id, number, given, marked, now), minUpdatePeriod)
    {
      NextStaysListed(Current(), Update(id, number, given, marked, now), minUpdatePeriod);
      due := Merge(id, number, given, marked, now);
    }

    /** The update callback of a status. */
    method Callback(id: nat, number: nat, given: map<Field, Json>, marked: bool, now: real)
      requires Valid()
      modifies `lastPayload, `order, `lastSent, `published
      ensures Valid()
      ensures Current() == Next(old(Current()), Update(id, number, given, marked, now), minUpdatePeriod)
      ensures published ==
        if Emits(old(Current()), Update(id, number, given, marked, now), minUpdatePeriod)
        then old(published) + [Statuses(Snapshot(lastPayload, order))] else old(published)
    {
      var due := MergeValidly(id, number, given, marked, now);
      if due {
        Publish();
      }
    }

    /** The completion callback of a status. */
    method OnDone(id: nat, number: nat)
      requires Valid()
      modifies `lastPayload, `order, `published
      ensures var l := Completion(id, number);
        && Valid() && Current() == Next(old(Current()), l, minUpdatePeriod)
        && published == if Emits(old(Current()), l, minUpdatePeriod)
                        then old(published) + [Statuses(Snapshot(lastPayload, order))] else old(published)
    {
      NextStaysListed(Current(), Completion(id, number), minUpdatePeriod);
      var values := map[];
      if id in lastPayload {
        if lastPayload[id].done {
          return;
        }
        values := lastPayload[id].values;
      }
      Store(id, Payload(Named(values, number)[Fraction := Number(1.0)], true));
      published := published + [Statuses(Snapshot(lastPayload, order))];
    }
  }
}
