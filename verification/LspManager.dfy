/** The pool's lock-held sections as they change `slots` in place. */
module LspManager {
  import opened Options
  import opened Sequences
  import opened LspPool

  // ---- Oldest first ----

  function Age(age: map<Key, nat>, key: Key): nat {
    if key in age then age[key] else 0
  }

  predicate Sorted(keys: seq<Key>, age: map<Key, nat>) {
    forall i, j :: 0 <= i < j < |keys| ==> Age(age, keys[i]) <= Age(age, keys[j])
  }

  /** `sort_by_key`, stable. */
  function SortByAge(keys: seq<Key>, age: map<Key, nat>): seq<Key>
    decreases |keys|
  {
    if keys == [] then [] else Place(keys[|keys| - 1], SortByAge(keys[..|keys| - 1], age), age)
  }

  function Place(key: Key, sorted: seq<Key>, age: map<Key, nat>): seq<Key>
    decreases |sorted|
  {
    if sorted == [] || Age(age, sorted[|sorted| - 1]) <= Age(age, key) then sorted + [key]
    else Place(key, sorted[..|sorted| - 1], age) + [sorted[|sorted| - 1]]
  }

  lemma ElemsAppend(keys: seq<Key>, key: Key)
    ensures Elems(keys + [key]) == Elems(keys) + {key}
  {
  }

  lemma {:induction false} PlaceKeeps(key: Key, sorted: seq<Key>, age: map<Key, nat>)
    requires Distinct(sorted) && key !in Elems(sorted)
    ensures Distinct(Place(key, sorted, age))
    ensures Elems(Place(key, sorted, age)) == Elems(sorted) + {key}
    decreases |sorted|
  {
    if sorted == [] || Age(age, sorted[|sorted| - 1]) <= Age(age, key) {
      ElemsAppend(sorted, key);
      assert forall i :: 0 <= i < |sorted| ==> sorted[i] in Elems(sorted);
    } else {
      var init, last := sorted[..|sorted| - 1], sorted[|sorted| - 1];
      assert sorted == init + [last];
      ElemsAppend(init, last);
      PlaceKeeps(key, init, age);
      var placed := Place(key, init, age);
      ElemsAppend(placed, last);
      assert last !in Elems(init);
      assert forall i :: 0 <= i < |placed| ==> placed[i] in Elems(placed);
    }
  }

  lemma {:induction false} PlaceSorts(key: Key, sorted: seq<Key>, age: map<Key, nat>)
    requires Sorted(sorted, age)
    ensures Sorted(Place(key, sorted, age), age)
    ensures forall k :: k in Place(key, sorted, age) ==> k == key || k in sorted
    decreases |sorted|
  {
    if sorted != [] && Age(age, sorted[|sorted| - 1]) > Age(age, key) {
      var init, last := sorted[..|sorted| - 1], sorted[|sorted| - 1];
      PlaceSorts(key, init, age);
      var placed := Place(key, init, age);
      forall i | 0 <= i < |placed| ensures Age(age, placed[i]) <= Age(age, last) {
        assert placed[i] in placed;
        assert placed[i] == key || placed[i] in init;
      }
    }
  }

  lemma {:induction false} SortSorts(keys: seq<Key>, age: map<Key, nat>)
    requires Distinct(keys)
    ensures Sorted(SortByAge(keys, age), age) && Distinct(SortByAge(keys, age))
    ensures Elems(SortByAge(keys, age)) == Elems(keys)
    decreases |keys|
  {
    if keys != [] {
      var init, last := keys[..|keys| - 1], keys[|keys| - 1];
      assert keys == init + [last];
      ElemsAppend(init, last);
      SortSorts(init, age);
      PlaceKeeps(last, SortByAge(init, age), age);
      PlaceSorts(last, SortByAge(init, age), age);
    }
  }

  /** The oldest `n` of distinct keys are no younger than the rest. */
  lemma OldestFirst(keys: seq<Key>, age: map<Key, nat>, n: nat)
    requires Distinct(keys) && n <= |keys|
    ensures |SortByAge(keys, age)| == |keys| && Distinct(SortByAge(keys, age))
    ensures var taken := Elems(SortByAge(keys, age)[..n]);
            && taken <= Elems(keys) && |taken| == n
            && forall v, k :: v in taken && k in Elems(keys) - taken ==> Age(age, v) <= Age(age, k)
  {
    var sorted := SortByAge(keys, age);
    SortSorts(keys, age);
    DistinctCount(sorted);
    DistinctCount(keys);
    DistinctCount(sorted[..n]);
    assert Elems(sorted[..n]) <= Elems(sorted);
    forall v, k | v in Elems(sorted[..n]) && k in Elems(keys) - Elems(sorted[..n]) ensures Age(age, v) <= Age(age, k) {
      var i :| 0 <= i < n && sorted[i] == v;
      assert k in Elems(sorted);
      var j :| 0 <= j < |sorted| && sorted[j] == k;
      assert forall m :: 0 <= m < n ==> sorted[m] in sorted[..n];
    }
  }

  /** Taking one more key out of the map. */
  lemma TakeOne(all: Slots, order: seq<Key>, i: nat)
    requires i < |order| && Distinct(order) && IsRunning(all, order[i])
    ensures order[i] in all - Elems(order[..i])
    ensures all - Elems(order[..i]) - {order[i]} == all - Elems(order[..i + 1])
    ensures ServersAt(all, Elems(order[..i + 1])) == ServersAt(all, Elems(order[..i])) + {all[order[i]].server}
  {
    assert order[..i + 1] == order[..i] + [order[i]];
    ElemsAppend(order[..i], order[i]);
    assert order[i] !in Elems(order[..i]);
  }

  function Ages(slots: Slots, used: map<Server, nat>): map<Key, nat> {
    map key | key in slots && slots[key].Running? :: LastUsed(used, slots[key].server)
  }

  /** The keys to evict, oldest first. */
  function Victims(slots: Slots, others: seq<Key>, used: map<Server, nat>, budget: nat): seq<Key> {
    var order := SortByAge(others, Ages(slots, used));
    if |others| <= budget || |order| < |others| - budget then [] else order[..|others| - budget]
  }

  lemma VictimsAreEviction(slots: Slots, keep: Key, others: seq<Key>, used: map<Server, nat>, maxServers: nat)
    requires Distinct(others) && Elems(others) == RunningKeys(slots) - {keep}
    ensures var victims := Victims(slots, others, used, Capacity(maxServers) - 1);
            && Distinct(victims) && Elems(victims) <= RunningKeys(slots)
            && IsEviction(slots, keep, used, maxServers, Elems(victims))
  {
    var budget := Capacity(maxServers) - 1;
    DistinctCount(others);
    if |others| > budget {
      OldestFirst(others, Ages(slots, used), |others| - budget);
      OldestAreEvicted(slots, keep, used, maxServers, Elems(Victims(slots, others, used, budget)));
    } else {
      assert Elems<Key>([]) == {};
    }
  }

  lemma OldestAreEvicted(slots: Slots, keep: Key, used: map<Server, nat>, maxServers: nat, victims: set<Key>)
    requires var others, budget := RunningKeys(slots) - {keep}, Capacity(maxServers) - 1;
             && |others| > budget && victims <= others && |victims| == |others| - budget
             && forall v, k :: v in victims && k in others - victims ==> Age(Ages(slots, used), v) <= Age(Ages(slots, used), k)
    ensures IsEviction(slots, keep, used, maxServers, victims)
  {
    forall key | key in RunningKeys(slots) ensures Age(Ages(slots, used), key) == LastUsed(used, slots[key].server) {
      assert IsRunning(slots, key);
    }
  }

  // ---- The manager ----

  class Manager {
    const maxServers: nat
    var slots: Slots
    var closed: bool

    constructor (maxServers: nat)
      ensures this.maxServers == maxServers && slots == map[] && !closed
    {
      this.maxServers := maxServers;
      slots := map[];
      closed := false;
    }

    /** The first hold of `ensure`. */
    method Begin(exited: set<Server>, key: Key, now: nat, retryAt: Option<nat>) returns (verdict: Verdict)
      modifies this
      ensures verdict == BeginVerdict(old(slots), old(closed), exited, key, now)
      ensures slots == BeginSlots(old(slots), old(closed), exited, key, now, retryAt) && closed == old(closed)
    {
      if closed { return Refuse; }
      if key in slots {
        var slot := slots[key];
        match slot {
          case Starting => return Refuse;
          case Running(server) =>
            if server !in exited { return Use(server); }
            slots := slots[key := Crashed(retryAt)];
            return Refuse;
          case Crashed(at) =>
            if !(at.Some? && at.value <= now) { return Refuse; }
        }
      }
      slots := slots[key := Starting];
      verdict := Launch;
    }

    /** The second hold of `ensure`: adopt or drop, then evict. Returns what is
        to be shut down. */
    method Finish(key: Key, result: Option<Server>, used: map<Server, nat>) returns (stop: set<Server>, ghost victims: set<Key>)
      modifies this
      ensures closed == old(closed)
      ensures closed ==> slots == old(slots) - {key} && stop == if result.Some? then {result.value} else {}
      ensures !closed ==>
                && IsEviction(Landed(old(slots), key, result), key, used, maxServers, victims)
                && slots == Landed(old(slots), key, result) - victims
                && stop == ServersAt(Landed(old(slots), key, result), victims)
    {
      victims := {};
      if closed {
        slots := slots - {key};
        stop := if result.Some? then {result.value} else {};
        return;
      }
      match result {
        case Some(server) => slots := slots[key := Running(server)];
        case None => slots := slots - {key};
      }
      stop, victims := EvictOverBudget(key, used);
    }

    method EvictOverBudget(keep: Key, used: map<Server, nat>) returns (stop: set<Server>, ghost victims: set<Key>)
      modifies this
      ensures IsEviction(old(slots), keep, used, maxServers, victims)
      ensures slots == old(slots) - victims && closed == old(closed)
      ensures stop == ServersAt(old(slots), victims)
    {
      var others := RunningBut(keep);
      var order := Victims(slots, others, used, Capacity(maxServers) - 1);
      VictimsAreEviction(slots, keep, others, used, maxServers);
      victims := Elems(order);
      stop := TakeEach(order);
    }

    /** Takes running servers out one by one. */
    method TakeEach(order: seq<Key>) returns (stop: set<Server>)
      requires Distinct(order) && Elems(order) <= RunningKeys(slots)
      modifies this
      ensures slots == old(slots) - Elems(order) && closed == old(closed)
      ensures stop == ServersAt(old(slots), Elems(order))
    {
      ghost var all := slots;
      stop := {};
      assert Elems(order[..0]) == {} && order[..|order|] == order;
      for i := 0 to |order|
        invariant slots == all - Elems(order[..i]) && closed == old(closed)
        invariant stop == ServersAt(all, Elems(order[..i]))
      {
        assert order[i] in Elems(order);
        TakeOne(all, order, i);
        stop := stop + {slots[order[i]].server};
        slots := slots - {order[i]};
      }
    }

    /** The running keys other than `keep`, in the map's own order. */
    method RunningBut(keep: Key) returns (others: seq<Key>)
      ensures Distinct(others) && Elems(others) == RunningKeys(slots) - {keep}
    {
      others := [];
      var left := slots.Keys;
      while left != {}
        invariant left <= slots.Keys
        invariant Distinct(others) && Elems(others) == RunningKeys(slots) - {keep} - left
        decreases left
      {
        var key :| key in left;
        left := left - {key};
        if slots[key].Running? && key != keep {
          ElemsAppend(others, key);
          assert forall i :: 0 <= i < |others| ==> others[i] in Elems(others);
          others := others + [key];
        }
      }
    }

    /** Returns the servers to shut down. */
    method Sweep(idle: set<Server>) returns (stop: set<Server>)
      modifies this
      ensures slots == old(slots) - Swept(old(slots), idle) && closed == old(closed)
      ensures stop == ServersAt(old(slots), Swept(old(slots), idle))
    {
      var expired := Swept(slots, idle);
      stop := ServersAt(slots, expired);
      slots := slots - expired;
    }

    method ShutdownAll() returns (stop: set<Server>)
      modifies this
      ensures closed && slots == map[]
      ensures stop == ServersAt(old(slots), RunningKeys(old(slots)))
    {
      closed := true;
      stop := ServersAt(slots, RunningKeys(slots));
      slots := map[];
    }
  }
}
