/** The event timers of ngx_event_timer.c and .h, kept in a red-black tree under the wrapping key order. */
module TimerQueue {
  import opened RbShape
  import opened RbOrder
  import opened RbTree

  const LAZY_DELAY := 300

  /** NGX_TIMER_INFINITE: `(ngx_msec_t) -1` */
  const INFINITE: int := WORD - 1

  /** The part of ngx_event_t that concerns timers. */
  class Event {
    const timer: Node
    var timerSet: bool
    var timedout: bool

    constructor (n: Node)
      ensures timer == n && !timerSet && !timedout
    {
      timer, timerSet, timedout := n, false, false;
    }
  }

  /** A timer is due when `(ngx_msec_int_t) (key - now) <= 0`. */
  predicate Due(key: int, now: int) { Signed(key - now) <= 0 }

  lemma SignedIsRank(base: int, a: int, b: int)
    requires InWindow(true, base, a) && InWindow(true, base, b)
    ensures Signed(a - b) == Rank(true, base, a) - Rank(true, base, b)
  {
    var ra, rb := (a - base) % WORD, (b - base) % WORD;
    var qa, qb := (a - base) / WORD, (b - base) / WORD;
    assert a - b == (qa - qb) * WORD + (ra - rb);
    if ra < rb { ModIs(a - b, qa - qb - 1, ra - rb + WORD); } else { ModIs(a - b, qa - qb, ra - rb); }
  }

  /** Whether keys are in order does not depend on where the window is taken to start. */
  lemma Rebase(ks: KeyMap, base: int, base': int, s: seq<Node>)
    requires Sorted(ks, true, base, s) && forall i :: 0 <= i < |s| ==> InWindow(true, base', ks[s[i]])
    ensures Sorted(ks, true, base', s)
  {
    forall i, j | 0 <= i < j < |s| ensures Rank(true, base', ks[s[i]]) <= Rank(true, base', ks[s[j]]) {
      SignedIsRank(base, ks[s[i]], ks[s[j]]);
      SignedIsRank(base', ks[s[i]], ks[s[j]]);
    }
  }

  lemma RemovedSorted(ks: KeyMap, ks': KeyMap, base: int, s: seq<Node>, k: nat, x: Node, s': seq<Node>)
    requires Sorted(ks, true, base, s) && Removed(s, k, x, s')
    requires forall i :: 0 <= i < |s'| ==> s'[i] in ks' && s'[i] in ks && ks'[s'[i]] == ks[s'[i]]
    ensures Sorted(ks', true, base, s')
  {
    forall i | 0 <= i < |s'| ensures s'[i] == s[if i < k then i else i + 1] {}
  }

  // Sets of timers as maps from node to key

  ghost predicate Soonest(ts: KeyMap, now: int, x: Node) {
    x in ts && forall n :: n in ts ==> Signed(ts[x] - now) <= Signed(ts[n] - now)
  }

  ghost function DueNodes(ts: KeyMap, now: int): set<Node> { set n | n in ts && Due(ts[n], now) }

  /** Every timer that is due was there before with the same key. */
  ghost predicate NoNewDue(ts: KeyMap, ts': KeyMap, now: int) {
    forall n :: n in ts' && Due(ts'[n], now) ==> n in ts && ts[n] == ts'[n]
  }

  /** Timers that fired, with their keys: all due, in key order, and none later than one still set. */
  ghost predicate Fits(fired: seq<(Node, int)>, ts: KeyMap, now: int) {
    forall k :: Spelled(k) ==>
      && (forall i :: 0 <= i < |fired| ==> Due(fired[i].1, now))
      && (forall i, j :: 0 <= i < j < |fired| ==> Signed(fired[i].1 - now) <= Signed(fired[j].1 - now))
      && (forall i, n :: 0 <= i < |fired| && n in ts ==> Signed(fired[i].1 - now) <= Signed(ts[n] - now))
  }

  /** Lists of timers are looked into only where a proof says so. */
  ghost predicate Spelled(k: int) { true }

  ghost function Nodes(fired: seq<(Node, int)>): (s: seq<Node>)
    ensures |s| == |fired|
  {
    seq(|fired|, i requires 0 <= i < |fired| => fired[i].0)
  }

  lemma FireFits(fired: seq<(Node, int)>, ts: KeyMap, ts': KeyMap, now: int, x: Node)
    requires Fits(fired, ts, now) && Soonest(ts, now, x) && Due(ts[x], now) && NoNewDue(ts - {x}, ts', now)
    ensures Fits(fired + [(x, ts[x])], ts', now) && DueNodes(ts', now) <= DueNodes(ts, now) - {x}
  {
    assert Spelled(0);
    forall n | n in ts' ensures Signed(ts[x] - now) <= Signed(ts'[n] - now) {}
  }

  /** Each of these timers was set with that key at the start, has fired once, and is not due any more. */
  ghost predicate Record(fired: seq<(Node, int)>, ts0: KeyMap, ts: KeyMap, now: int) {
    forall k :: Spelled(k) ==>
      && NoNewDue(ts0, ts, now)
      && (forall i :: 0 <= i < |fired| ==>
        fired[i].0 in ts0 && ts0[fired[i].0] == fired[i].1 && fired[i].0 !in DueNodes(ts, now))
      && (forall i, j :: 0 <= i < j < |fired| ==> fired[i].0 != fired[j].0)
  }

  lemma RecordStep(fired: seq<(Node, int)>, ts0: KeyMap, ts: KeyMap, ts': KeyMap, now: int, x: Node)
    requires Record(fired, ts0, ts, now) && x in ts && Due(ts[x], now) && NoNewDue(ts - {x}, ts', now)
    ensures Record(fired + [(x, ts[x])], ts0, ts', now)
  {
    assert Spelled(0) && x in DueNodes(ts, now);
  }

  lemma NoneFired(ts: KeyMap, now: int)
    ensures Fits([], ts, now) && Record([], ts, ts, now)
  {}

  lemma FirstWasDue(fired: seq<(Node, int)>, ts0: KeyMap, ts: KeyMap, now: int)
    requires Fits(fired, ts, now) && Record(fired, ts0, ts, now) && fired != []
    ensures DueNodes(ts0, now) != {}
  {
    assert Spelled(0) && fired[0].0 in DueNodes(ts0, now);
  }

  lemma NoneDue(ts: KeyMap, now: int, x: Node)
    requires Soonest(ts, now, x)
    ensures DueNodes(ts, now) == {} <==> !Due(ts[x], now)
  {
    if Due(ts[x], now) { assert x in DueNodes(ts, now); }
  }

  /** Time passes: every timer comes that much closer, across the wrap-around too. */
  lemma Closer(key: int, now: int, d: int)
    requires -WORD / 2 <= Signed(key - now) - d < WORD / 2
    ensures Signed(key - (now + d) % WORD) == Signed(key - now) - d
  {
    var r := Signed(key - now) - d;
    var q := (key - now) / WORD + (now + d) / WORD;
    assert key - (now + d) % WORD == (key - now) - d + (now + d) / WORD * WORD;
    if (key - now) % WORD < WORD / 2 {
      assert key - (now + d) % WORD == q * WORD + r;
      if r >= 0 { ModIs(key - (now + d) % WORD, q, r); } else { ModIs(key - (now + d) % WORD, q - 1, r + WORD); }
    } else {
      assert key - (now + d) % WORD == (q + 1) * WORD + r;
      if r >= 0 { ModIs(key - (now + d) % WORD, q + 1, r); } else { ModIs(key - (now + d) % WORD, q, r + WORD); }
    }
  }

  /** After a wait of d the timers fit the new window, and none is overdue by half the range. */
  ghost predicate Tame(ts: KeyMap, now: int, d: int, base: int) {
    forall k, n :: Spelled(k) && n in ts ==> InWindow(true, base, ts[n]) && -WORD / 2 <= Signed(ts[n] - now) - d
  }

  /** A timer is due after a wait of d exactly if the earliest one is: if the wait was long enough. */
  lemma Waited(ts: KeyMap, now: int, d: int, base: int, t: int, x: Node?)
    requires 0 <= d < WORD / 2 && Tame(ts, now, d, base)
    requires if x == null then ts == map[]
      else Soonest(ts, now, x) && t == if Due(ts[x], now) then 0 else Signed(ts[x] - now)
    ensures DueNodes(ts, (now + d) % WORD) != {} <==> x != null && t <= d
  {
    assert Spelled(0);
    forall n | n in ts ensures Signed(ts[n] - (now + d) % WORD) == Signed(ts[n] - now) - d { Closer(ts[n], now, d); }
    if x != null && t <= d { assert x in DueNodes(ts, (now + d) % WORD); }
    var due := DueNodes(ts, (now + d) % WORD);
    if due != {} {
      var n :| n in due;
      assert Signed(ts[x] - now) <= Signed(ts[n] - now) <= d;
    }
  }

  /** What an event handler may do to timers. */
  datatype Action = Set(ev: Event, delay: int) | Clear(ev: Event)

  function Abs(d: int): int { if d >= 0 then d else -d }

  class TimerQueue {
    const tree: RbTree
    /** The event around each timer node: the pointer arithmetic with `offsetof(ngx_event_t, timer)`. */
    const events: map<Node, Event>
    /** ngx_current_msec */
    var now: int

    /** ngx_event_timer_init */
    constructor (s: Node, evs: map<Node, Event>, time: int)
      requires s !in evs && 0 <= time < WORD && forall n :: n in evs ==> evs[n].timer == n && !evs[n].timerSet
      modifies s`red
      ensures Valid() && fresh(tree) && events == evs && now == time && tree.repr == {s} && Order() == []
    {
      tree := new RbTree(s, true);
      events, now := evs, time;
    }

    ghost function Order(): seq<Node>
      reads tree
    {
      InOrder(tree.shape)
    }

    ghost function Key(): KeyMap
      reads tree, tree.repr
    {
      Keys(tree.repr)
    }

    /** A node is in the tree exactly when its event says its timer is set. */
    ghost predicate Valid()
      reads this, tree, tree.repr, events.Values`timerSet
    {
      tree.Valid() && tree.timer && 0 <= now < WORD && tree.sentinel !in events && forall k :: Spelled(k) ==> Linked()
    }

    ghost predicate Linked()
      reads tree`repr, events.Values`timerSet
    {
      && (forall n :: n in tree.repr && n != tree.sentinel ==> n in events)
      && (forall n :: n in events ==> events[n].timer == n && (events[n].timerSet <==> n in tree.repr))
    }

    lemma Within()
      requires Valid()
      ensures tree.repr - {tree.sentinel} <= events.Keys && tree.sentinel in tree.repr
    {
      Links();
      tree.Members();
    }

    lemma Links()
      requires Valid()
      ensures Linked()
    {
      assert Spelled(0);
    }

    /** All keys and the current time lie within half the range above `base`, and the tree is in key order. */
    ghost predicate Ordered(base: int)
      reads this, tree, tree.repr
    {
      Sorted(Key(), true, base, Order()) && InWindow(true, base, now)
    }

    /** The keys of the timers that are set. */
    ghost function Timers(): KeyMap
      reads tree, tree.repr
    {
      Key() - {tree.sentinel}
    }

    lemma FirstIsSoonest(base: int)
      requires Valid() && Ordered(base) && |Order()| > 0
      ensures Soonest(Timers(), now, Order()[0])
    {
      tree.Members();
      var x, ks := Order()[0], Key();
      assert x in Elems(Order());
      forall n | n in tree.repr && n != tree.sentinel ensures Signed(ks[x] - now) <= Signed(ks[n] - now) {
        assert n in Elems(Order());
        var i :| 0 <= i < |Order()| && Order()[i] == n;
        SignedIsRank(base, ks[x], now);
        SignedIsRank(base, ks[n], now);
      }
    }

    /** ngx_event_find_timer: how long until the earliest timer is due. */
    method FindTimer(ghost base: int) returns (t: int, ghost x: Node?)
      requires Valid() && Ordered(base)
      ensures x == null <==> Order() == []
      ensures x == null ==> t == INFINITE
      ensures x != null ==>
        x == Order()[0] && Soonest(Timers(), now, x) && t == (if Due(x.key, now) then 0 else Signed(x.key - now))
        && 0 <= t < WORD / 2
    {
      if tree.root == tree.sentinel {
        tree.Empty(tree.shape);
        return INFINITE, null;
      }
      var node := tree.First();
      FirstIsSoonest(base);
      var timer := Signed(node.key - now);
      t := if timer > 0 then timer else 0;
      x := node;
    }

    /** ngx_time_update (ngx_times.c:92): the clock moves, and with it the window that keys and clock have to share. */
    method UpdateTime(t: int, ghost base: int, ghost base': int)
      requires Valid() && Ordered(base) && 0 <= t < WORD && InWindow(true, base', t)
      requires forall n :: n in Timers() ==> InWindow(true, base', Timers()[n])
      modifies this`now
      ensures Valid() && Ordered(base') && now == t && Order() == old(Order()) && Timers() == old(Timers())
    {
      tree.Members();
      forall i | 0 <= i < |Order()| ensures InWindow(true, base', Key()[Order()[i]]) {
        assert Order()[i] in Elems(Order());
        assert Order()[i] in Timers();
      }
      Rebase(Key(), base, base', Order());
      now := t;
    }

    ghost predicate Known(ev: Event) { ev.timer in events && events[ev.timer] == ev }

    lemma Lists(n: Node)
      requires Valid() && n in tree.repr && n != tree.sentinel
      ensures n in Ids(tree.shape)
    {}

    /** Take a node out of the tree. */
    method Remove(x: Node, ghost base: int) returns (ghost k: nat)
      requires tree.Valid() && Ordered(base) && x in Ids(tree.shape)
      modifies tree, tree.repr
      ensures tree.Valid() && Ordered(base) && tree.repr == old(tree.repr) - {x}
      ensures Removed(old(Order()), k, x, Order()) && forall n :: n in tree.repr ==> n.key == old(n.key)
    {
      ghost var ks, order := Key(), Order();
      k := tree.Delete(x);
      Survivors(ks, order, k, x, base);
    }

    lemma Survivors(ks: KeyMap, order: seq<Node>, k: nat, x: Node, base: int)
      requires tree.Valid() && Sorted(ks, true, base, order) && Removed(order, k, x, Order()) && ks.Keys >= tree.repr
      requires forall n :: n in tree.repr ==> Key()[n] == ks[n]
      ensures Sorted(Key(), true, base, Order())
    {
      tree.Members();
      forall i | 0 <= i < |Order()|
        ensures Order()[i] in Key() && Order()[i] in ks && Key()[Order()[i]] == ks[Order()[i]]
      {
        assert Order()[i] in Elems(Order());
      }
      RemovedSorted(ks, Key(), base, order, k, x, Order());
    }

    /** ngx_event_del_timer */
    method DelTimer(ev: Event, ghost base: int) returns (ghost k: nat)
      requires Valid() && Ordered(base) && Known(ev) && ev.timerSet
      modifies tree, tree.repr, ev`timerSet
      ensures Valid() && Ordered(base) && !ev.timerSet && tree.repr == old(tree.repr) - {ev.timer}
      ensures Removed(old(Order()), k, ev.timer, Order())
      ensures forall n :: n in tree.repr ==> n.key == old(n.key)
    {
      Links();
      Lists(ev.timer);
      k := Remove(ev.timer, base);
      ev.timerSet := false;
    }

    /** Put a node with key `key` into the tree. */
    method Add(x: Node, key: int, ghost base: int) returns (ghost k: nat)
      requires tree.Valid() && tree.timer && Ordered(base) && x !in tree.repr && InWindow(true, base, key)
      modifies tree, tree.repr, x
      ensures tree.Valid() && Ordered(base) && x.key == key && tree.repr == old(tree.repr) + {x}
      ensures Removed(Order(), k, x, old(Order())) && forall n :: n in old(tree.repr) ==> n.key == old(n.key)
    {
      ghost var ks, order := Key(), Order();
      x.key := key;
      k := tree.Insert(x, base);
      assert Key() == ks[x := key];
      NewPlace(ks, order, k, x, key, base);
    }

    lemma NewPlace(ks: KeyMap, order: seq<Node>, k: nat, x: Node, key: int, base: int)
      requires Sorted(ks, true, base, order) && x !in ks && Placed(ks, true, base, order, x, key, k, Order())
        && InWindow(true, base, key)
      ensures Sorted(ks[x := key], true, base, Order()) && Removed(Order(), k, x, order)
    {
      PlacedSorted(ks, true, base, order, x, key, k, Order());
    }

    /** The insertion of ngx_event_add_timer (ngx_event_timer.h:86-98). */
    method Arm(ev: Event, key: int, ghost base: int)
      requires Valid() && Ordered(base) && Known(ev) && !ev.timerSet && InWindow(true, base, key)
      modifies tree, tree.repr, ev.timer, ev`timerSet
      ensures Valid() && Ordered(base) && ev.timerSet && ev.timer.key == key && tree.repr == old(tree.repr) + {ev.timer}
      ensures exists k: nat :: Removed(Order(), k, ev.timer, old(Order()))
      ensures forall n :: n in old(tree.repr) ==> n.key == old(n.key)
    {
      Links();
      ghost var k := Add(ev.timer, key, base);
      ev.timerSet := true;
    }

    /** ngx_event_add_timer: a timer already set within 300 ms of the new time is left as it is. */
    method AddTimer(ev: Event, delay: int, ghost base: int)
      requires Valid() && Ordered(base) && Known(ev) && InWindow(true, base, (now + delay) % WORD)
      modifies tree, tree.repr, ev.timer, ev`timerSet
      ensures Valid() && Ordered(base) && ev.timerSet && tree.repr == old(tree.repr) + {ev.timer}
      ensures forall n :: n in old(tree.repr) && n != ev.timer ==> n.key == old(n.key)
      ensures if old(ev.timerSet) && -300 < Signed((now + delay) % WORD - old(ev.timer.key)) < 300
              then Order() == old(Order()) && ev.timer.key == old(ev.timer.key)
                else ev.timer.key == (now + delay) % WORD
      ensures -300 < Signed((now + delay) % WORD - ev.timer.key) < 300
    {
      var key := (now + delay) % WORD;
      assert Signed(key - key) == 0;
      if ev.timerSet {
        var diff := Signed(key - ev.timer.key);
        if Abs(diff) < LAZY_DELAY {
          Links();
          return;
        }
        ghost var k := DelTimer(ev, base);
      }
      Arm(ev, key, base);
    }

    /** Every action concerns a known event and sets timers that are not due yet at that time. */
    ghost predicate AllowedAt(actions: seq<Action>, base: int, time: int) {
      forall i :: 0 <= i < |actions| ==>
        && Known(actions[i].ev)
        && (actions[i].Set? ==>
          0 < actions[i].delay < WORD / 2 && InWindow(true, base, (time + actions[i].delay) % WORD))
    }

    ghost predicate AllAllowed(handlers: map<Node, seq<Action>>, base: int, time: int) {
      forall k, n :: Spelled(k) && n in handlers ==> AllowedAt(handlers[n], base, time)
    }

    ghost predicate Allowed(actions: seq<Action>, base: int)
      reads this
    {
      AllowedAt(actions, base, now)
    }

    method Act(a: Action, ghost base: int)
      requires Valid() && Ordered(base) && Known(a.ev)
      requires a.Set? ==> 0 < a.delay < WORD / 2 && InWindow(true, base, (now + a.delay) % WORD)
      modifies tree, tree.repr, events.Keys, events.Values`timerSet
      ensures Valid() && Ordered(base) && tree.repr - {tree.sentinel} <= events.Keys
      ensures NoNewDue(old(Timers()), Timers(), now)
    {
      Within();
      Links();
      match a {
        case Set(ev, delay) =>
          AddTimer(ev, delay, base);
          Later(delay);
        case Clear(ev) =>
          if ev.timerSet {
            ghost var k := DelTimer(ev, base);
          }
      }
      Within();
    }

    lemma Later(delay: int)
      requires 0 < delay < WORD / 2
      ensures !Due((now + delay) % WORD, now)
    {
      var q := (now + delay) / WORD;
      ModIs((now + delay) % WORD - now, -q, delay);
    }

    /** `ev->handler(ev)` */
    method RunHandler(actions: seq<Action>, ghost base: int)
      requires Valid() && Ordered(base) && Allowed(actions, base)
      modifies tree, tree.repr, events.Keys, events.Values`timerSet
      ensures Valid() && Ordered(base) && NoNewDue(old(Timers()), Timers(), now)
      ensures actions == [] ==> Order() == old(Order()) && Timers() == old(Timers())
    {
      var i := 0;
      while i < |actions|
        invariant 0 <= i <= |actions| && Valid() && Ordered(base) && NoNewDue(old(Timers()), Timers(), now)
        invariant i == 0 ==> Order() == old(Order()) && Timers() == old(Timers())
      {
        Within();
        Act(actions[i], base);
        i := i + 1;
      }
    }

    lemma FrontGone(order: seq<Node>, x: Node, k: nat)
      requires tree.Valid() && |order| > 0 && order[0] == x && x !in tree.repr && Removed(order, k, x, Order())
      ensures order == [x] + Order()
    {
      assert k > 0 ==> Order()[0] == order[0];
      tree.Members();
      forall i | 0 <= i < |Order()| ensures Order()[i] != x {
        assert Order()[i] in Elems(Order());
      }
      assert k == 0;
    }

    lemma FrontKnown()
      requires Valid() && |Order()| > 0
      ensures var n := Order()[0];
        n in tree.repr && n in events && n != tree.sentinel && events[n].timer == n && events[n].timerSet
    {
      Links();
      tree.Members();
      assert Order()[0] in Elems(Order());
    }

    /** Delete the earliest timer. */
    method DelFirst(ev: Event, ghost base: int)
      requires Valid() && Ordered(base) && |Order()| > 0 && ev.timer == Order()[0] && Known(ev) && ev.timerSet
      modifies tree, tree.repr, ev`timerSet
      ensures Valid() && Ordered(base) && old(Order()) == [ev.timer] + Order() && Timers() == old(Timers()) - {ev.timer}
    {
      ghost var order := Order();
      ghost var k := DelTimer(ev, base);
      FrontGone(order, ev.timer, k);
    }

    /** Delete the earliest timer and mark its event (ngx_event_timer.c:123-147). */
    method Expire(node: Node, ghost base: int)
      requires Valid() && Ordered(base) && |Order()| > 0 && node == Order()[0] && node in events
      modifies tree, tree.repr, events[node]
      ensures Valid() && Ordered(base) && old(Order()) == [node] + Order() && Timers() == old(Timers()) - {node}
        && events[node].timedout
    {
      var ev := events[node];
      FrontKnown();
      DelFirst(ev, base);
      ev.timedout := true;
    }

    /** The earliest timer is due: delete it and run its handler (ngx_event_timer.c:98-152). */
    method Fire(node: Node, actions: seq<Action>, ghost base: int, ghost fired: seq<(Node, int)>)
        returns (ghost fired': seq<(Node, int)>)
      requires Valid() && Ordered(base) && Soonest(Timers(), now, node) && Due(node.key, now) && Allowed(actions, base)
        && Fits(fired, Timers(), now)
      requires |Order()| > 0 && node == Order()[0] && node in events
      modifies tree, tree.repr, events.Keys, events.Values
      ensures Valid() && Ordered(base) && fired' == fired + [(node, old(node.key))] && Fits(fired', Timers(), now)
      ensures DueNodes(Timers(), now) <= old(DueNodes(Timers(), now)) - {node} && events[node].timedout
      ensures forall ev :: ev in events.Values && old(ev.timedout) ==> ev.timedout
      ensures actions == [] ==> old(Order()) == [node] + Order() && Timers() == old(Timers()) - {node}
      ensures NoNewDue(old(Timers()) - {node}, Timers(), now)
    {
      ghost var ts := Timers();
      fired' := fired + [(node, node.key)];
      Expire(node, base);
      Within();
      RunHandler(actions, base);
      FireFits(fired, ts, Timers(), now, node);
    }

    ghost predicate Marked(fired: seq<(Node, int)>)
      reads events.Values
    {
      forall i :: 0 <= i < |fired| ==> fired[i].0 in events && events[fired[i].0].timedout
    }

    /** As long as no handler does anything, the timers fired are the front of the original order. */
    ghost predicate Drained(handlers: map<Node, seq<Action>>, order: seq<Node>, fired: seq<(Node, int)>)
      reads tree
    {
      (forall n :: n in handlers ==> handlers[n] == []) ==> order == Nodes(fired) + Order()
    }

    /** The earliest timer fires first. */
    ghost predicate Leads(fired: seq<(Node, int)>, order: seq<Node>) {
      fired != [] ==> order != [] && fired[0].0 == order[0]
    }

    lemma Appended(fired: seq<(Node, int)>, x: (Node, int), order: seq<Node>, rest: seq<Node>)
      requires order == Nodes(fired) + ([x.0] + rest)
      ensures order == Nodes(fired + [x]) + rest
    {
      assert Nodes(fired + [x]) == Nodes(fired) + [x.0];
    }

    method Turn(node: Node, handlers: map<Node, seq<Action>>, ghost base: int, ghost order: seq<Node>,
        ghost ts0: KeyMap, ghost fired: seq<(Node, int)>)
      returns (ghost fired': seq<(Node, int)>)
      requires Valid() && Ordered(base) && Soonest(Timers(), now, node) && Due(node.key, now) && node in handlers
        && Allowed(handlers[node], base)
      requires |Order()| > 0 && node == Order()[0] && node in events
      requires Fits(fired, Timers(), now) && Marked(fired) && Drained(handlers, order, fired)
        && Record(fired, ts0, Timers(), now)
      modifies tree, tree.repr, events.Keys, events.Values
      ensures Valid() && Ordered(base) && Fits(fired', Timers(), now) && Marked(fired')
        && Drained(handlers, order, fired')
      ensures Record(fired', ts0, Timers(), now) && fired' == fired + [(node, old(node.key))]
      ensures DueNodes(Timers(), now) <= old(DueNodes(Timers(), now)) - {node}
    {
      ghost var x, ts := (node, node.key), Timers();
      fired' := Fire(node, handlers[node], base, fired);
      RecordStep(fired, ts0, ts, Timers(), now, node);
      if forall n :: n in handlers ==> handlers[n] == [] {
        Appended(fired, x, order, Order());
      }
    }

    /** One turn of the loop (ngx_event_timer.c:84-155). */
    method Next(handlers: map<Node, seq<Action>>, ghost base: int, ghost order: seq<Node>, ghost ts0: KeyMap,
        ghost fired: seq<(Node, int)>)
      returns (done: bool, ghost fired': seq<(Node, int)>)
      requires Valid() && Ordered(base) && Fits(fired, Timers(), now) && Marked(fired)
        && Drained(handlers, order, fired)
      requires events.Keys <= handlers.Keys && AllAllowed(handlers, base, now) && Record(fired, ts0, Timers(), now)
      modifies tree, tree.repr, events.Keys, events.Values
      ensures Valid() && Ordered(base) && Fits(fired', Timers(), now) && Marked(fired')
        && Drained(handlers, order, fired')
      ensures Record(fired', ts0, Timers(), now)
      ensures if done then fired' == fired && Timers() == old(Timers()) && Order() == old(Order())
        else
          old(Order()) != [] && |fired'| == |fired| + 1 && fired <= fired'
          && fired'[|fired|].0 == old(Order())[0]
      ensures if done then DueNodes(Timers(), now) == {} else DueNodes(Timers(), now) < old(DueNodes(Timers(), now))
    {
      if tree.root == tree.sentinel {
        tree.Empty(tree.shape);
        tree.Members();
        return true, fired;
      }
      var node := tree.First();
      FirstIsSoonest(base);
      FrontKnown();
      NoneDue(Timers(), now, node);
      if Signed(node.key - now) > 0 {
        return true, fired;
      }
      assert Allowed(handlers[node], base) by { assert Spelled(0); }
      fired' := Turn(node, handlers, base, order, ts0, fired);
      done := false;
    }

    /**
     * ngx_event_expire_timers (ngx_event_timer.c:76-158). `handlers` gives what the handler of each event does. Timers
     * fire in key order, each when due, and none is due at the end.
     */
    method ExpireTimers(handlers: map<Node, seq<Action>>, ghost base: int) returns (ghost fired: seq<(Node, int)>)
      requires Valid() && Ordered(base) && events.Keys <= handlers.Keys && AllAllowed(handlers, base, now)
      modifies tree, tree.repr, events.Keys, events.Values
      ensures Valid() && Ordered(base) && DueNodes(Timers(), now) == {} && Fits(fired, Timers(), now) && Marked(fired)
      ensures Drained(handlers, old(Order()), fired) && Record(fired, old(Timers()), Timers(), now)
      ensures Leads(fired, old(Order())) && (fired == [] <==> old(DueNodes(Timers(), now)) == {})
    {
      fired := [];
      NoneFired(Timers(), now);
      ghost var order, ts0 := Order(), Timers();
      var done := false;
      while !done
        invariant Valid() && Ordered(base) && Fits(fired, Timers(), now) && Marked(fired)
          && Drained(handlers, order, fired)
        invariant Record(fired, ts0, Timers(), now) && Leads(fired, order)
          && (fired == [] ==> Timers() == ts0 && Order() == order)
        invariant done ==> DueNodes(Timers(), now) == {}
        decreases !done, DueNodes(Timers(), now)
      {
        Within();
        done, fired := Next(handlers, base, order, ts0, fired);
      }
      if fired != [] { FirstWasDue(fired, ts0, Timers(), now); }
    }

    /**
     * One turn of the event loop (ngx_event.c:202-266): find out how long to wait, let `d` milliseconds pass, and
     * expire timers if the clock has moved. Something fires exactly if the wait was long enough, and the earliest timer
     * is first.
     */
    method Cycle(d: int, handlers: map<Node, seq<Action>>, ghost base: int, ghost base': int)
        returns (t: int, ghost fired: seq<(Node, int)>)
      requires Valid() && Ordered(base) && 0 <= d < WORD / 2 && InWindow(true, base', (now + d) % WORD)
      requires Tame(Timers(), now, d, base')
      requires events.Keys <= handlers.Keys && AllAllowed(handlers, base', (now + d) % WORD)
      modifies this`now, tree, tree.repr, events.Keys, events.Values
      ensures Valid() && Ordered(base') && now == (old(now) + d) % WORD
      ensures t == INFINITE <==> old(Order()) == []
      ensures d > 0 ==> (fired != [] <==> old(Order()) != [] && t <= d)
      ensures Leads(fired, old(Order())) && Record(fired, old(Timers()), Timers(), now) && Fits(fired, Timers(), now)
      ensures d > 0 ==> DueNodes(Timers(), now) == {}
      ensures d == 0 ==> fired == [] && Order() == old(Order())
    {
      var before := now;
      t := Sleep(d, base, base');
      NoChange(before, d);
      fired := Poll(now != before, handlers, base');
    }

    /** `if (delta) ngx_event_expire_timers()` (ngx_event.c:264-266) */
    method Poll(moved: bool, handlers: map<Node, seq<Action>>, ghost base: int) returns (ghost fired: seq<(Node, int)>)
      requires Valid() && Ordered(base) && events.Keys <= handlers.Keys && AllAllowed(handlers, base, now)
      modifies tree, tree.repr, events.Keys, events.Values
      ensures Valid() && Ordered(base) && Leads(fired, old(Order())) && Record(fired, old(Timers()), Timers(), now)
        && Fits(fired, Timers(), now)
      ensures if moved then DueNodes(Timers(), now) == {} && (fired == [] <==> old(DueNodes(Timers(), now)) == {})
              else fired == [] && Order() == old(Order())
    {
      fired := [];
      NoneFired(Timers(), now);
      if moved {
        fired := ExpireTimers(handlers, base);
      }
    }

    /** Find out how long to wait, and let d milliseconds pass: a timer is due then exactly if d is long enough. */
    method Sleep(d: int, ghost base: int, ghost base': int) returns (t: int)
      requires Valid() && Ordered(base) && 0 <= d < WORD / 2 && InWindow(true, base', (now + d) % WORD)
      requires Tame(Timers(), now, d, base')
      modifies this`now
      ensures Valid() && Ordered(base') && now == (old(now) + d) % WORD && Order() == old(Order())
        && Timers() == old(Timers())
      ensures t == INFINITE <==> Order() == []
      ensures DueNodes(Timers(), now) != {} <==> Order() != [] && t <= d
    {
      ghost var x;
      t, x := FindTimer(base);
      NoTimers();
      Waited(Timers(), now, d, base', t, x);
      assert forall n :: n in Timers() ==> InWindow(true, base', Timers()[n]) by { assert Spelled(0); }
      UpdateTime((now + d) % WORD, base, base');
    }

    lemma NoTimers()
      requires Valid()
      ensures Order() == [] ==> Timers() == map[]
    {
      tree.Members();
    }

    lemma NoChange(time: int, d: int)
      requires 0 <= time < WORD && 0 <= d < WORD / 2
      ensures (time + d) % WORD == time <==> d == 0
    {
      if time + d >= WORD { ModIs(time + d, 1, time + d - WORD); }
    }
  }
}
