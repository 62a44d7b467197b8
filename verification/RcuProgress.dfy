/** What runs can do: grace periods end, removed nodes are reclaimed, updates and walks complete. */
module RcuProgress {
  import opened Counting
  import opened Rcu

  /** Some run in which only the CPUs `who` take steps leads from s to t. */
  ghost predicate Reaches(s: State, t: State, who: iset<nat>) {
    exists states, events :: Leads(states, events, s, t, who)
  }

  ghost predicate Leads(states: seq<State>, events: seq<Event>, s: State, t: State, who: iset<nat>) {
    && Steps(states, events) && states[0] == s && states[|events|] == t
    && forall k :: 0 <= k < |events| ==> events[k].cpu in who
  }

  /** Every CPU may take steps. */
  ghost function Anyone(): (r: iset<nat>)
    ensures forall c: nat :: c in r
  {
    iset c: nat | IsCpu(c)
  }

  predicate IsCpu(c: nat) { true }

  lemma Stay(s: State, who: iset<nat>)
    ensures Reaches(s, s, who)
  {
    assert Leads([s], [], s, s, who);
  }

  /** A run and one step more. */
  lemma Then(s: State, t: State, who: iset<nat>, c: nat, a: Action)
    requires Reaches(s, t, who) && Enabled(t, c, a) && c in who
    ensures Reaches(s, Step(t, c, a), who)
  {
    hide Enabled, Step;
    var states, events :| Leads(states, events, s, t, who);
    var u := Step(t, c, a);
    var states', events' := states + [u], events + [Event(c, a)];
    forall k | 0 <= k < |events'|
      ensures Enabled(states'[k], events'[k].cpu, events'[k].action) && states'[k + 1] == Step(states'[k], events'[k].cpu, events'[k].action)
    {
      assert k < |events| ==> Enabled(states[k], events[k].cpu, events[k].action);
    }
    assert Leads(states', events', s, u, who);
  }

  lemma {:induction false} ThenRun(s: State, t: State, u: State, who: iset<nat>, states: seq<State>, events: seq<Event>)
    requires Reaches(s, t, who) && Leads(states, events, t, u, who)
    ensures Reaches(s, u, who)
    decreases |events|
  {
    hide Reaches, Enabled, Step;
    if |events| > 0 {
      var n := |events| - 1;
      assert Leads(states[..n + 1], events[..n], t, states[n], who);
      ThenRun(s, t, states[n], who, states[..n + 1], events[..n]);
      Then(s, states[n], who, events[n].cpu, events[n].action);
    }
  }

  lemma Chained(s: State, t: State, u: State, who: iset<nat>)
    requires Reaches(s, t, who) && Reaches(t, u, who)
    ensures Reaches(s, u, who)
  {
    var states, events :| Leads(states, events, t, u, who);
    hide Reaches, Leads;
    ThenRun(s, t, u, who, states, events);
  }

  lemma Widen(s: State, t: State, who: iset<nat>)
    requires Reaches(s, t, who)
    ensures Reaches(s, t, Anyone())
  {
    hide Steps;
    var states, events :| Leads(states, events, s, t, who);
    assert Leads(states, events, s, t, Anyone());
  }

  lemma ReachInv(s: State, t: State, who: iset<nat>)
    requires Reaches(s, t, who) && Inv(s)
    ensures Inv(t)
  {
    var states, events :| Leads(states, events, s, t, who);
    hide Inv, Enabled, Step;
    StepsInv(states, events, |events|);
  }

  // ------------------------------------------------------------ a grace period ends

  /** CPU c waits for the readers of the node `was`. */
  ghost predicate Waits(s: State, c: nat, was: Id) { c in s.cpu && s.cpu[c].pc.Syncing? && s.cpu[c].pc.was == was }

  /** CPU i idles, or has switched context since c sampled it, or was found so before. */
  ghost predicate Quiet(s: State, c: nat, i: nat)
    requires c in s.cpu && s.cpu[c].pc.Syncing? && i in s.cpu
  {
    var seen := s.cpu[c].pc.seen;
    s.cpu[i].idle || (i in seen && (seen[i].Passed? || s.cpu[i].ctx != seen[i].ctx))
  }

  ghost predicate AllQuiet(s: State, c: nat)
    requires c in s.cpu && s.cpu[c].pc.Syncing?
  {
    forall i :: i in s.cpu && i != c ==> Quiet(s, c, i)
  }

  /** CPUs not yet recorded as passed. */
  ghost function Left(s: State, c: nat): (r: set<nat>)
    requires c in s.cpu && s.cpu[c].pc.Syncing?
  {
    set i | i in s.cpu && i != c && !(i in s.cpu[c].pc.seen && s.cpu[c].pc.seen[i].Passed?)
  }

  /** One sample or poll of a quiet CPU records it as passed. */
  lemma RecordOne(s: State, c: nat, i: nat) returns (u: State)
    requires c in s.cpu && s.cpu[c].pc.Syncing? && AllQuiet(s, c) && i in Left(s, c)
    ensures Reaches(s, u, iset{c}) && Waits(u, c, s.cpu[c].pc.was) && u == s.Moved(c, u.cpu[c].pc)
    ensures AllQuiet(u, c) && Left(u, c) == Left(s, c) - {i}
  {
    Stay(s, iset{c});
    hide Reaches;
    assert Quiet(s, c, i);
    var a := if i in s.cpu[c].pc.seen then Poll(i) else TakeSample(i);
    Then(s, s, iset{c}, c, a);
    u := Step(s, c, a);
    assert u == s.Moved(c, u.cpu[c].pc) && u.cpu[c].pc.seen == s.cpu[c].pc.seen[i := Passed];
    forall j | j in u.cpu && j != c ensures Quiet(u, c, j) { assert Quiet(s, c, j); }
  }

  lemma {:induction false} RecordAll(s: State, c: nat) returns (t: State)
    requires c in s.cpu && s.cpu[c].pc.Syncing? && AllQuiet(s, c)
    ensures Reaches(s, t, iset{c}) && Waits(t, c, s.cpu[c].pc.was) && t == s.Moved(c, t.cpu[c].pc) && Left(t, c) == {}
    decreases Left(s, c)
  {
    hide Reaches, AllQuiet;
    if Left(s, c) == {} {
      Stay(s, iset{c});
      t := s;
      assert s == s.Moved(c, s.cpu[c].pc);
    } else {
      var i :| i in Left(s, c);
      var u := RecordOne(s, c, i);
      t := RecordAll(u, c);
      Chained(s, u, t, iset{c});
      assert t == s.Moved(c, t.cpu[c].pc);
    }
  }

  /** With every other CPU quiet, the waiter alone ends the grace period and reclaims the node; nothing else changes. */
  lemma GraceEnds(s: State, c: nat) returns (t: State)
    requires c in s.cpu && s.cpu[c].pc.Syncing? && AllQuiet(s, c)
    ensures Reaches(s, t, iset{c}) && t == s.(heap := s.heap - {s.cpu[c].pc.was}, lock := {}).Moved(c, Outside)
  {
    hide Reaches, AllQuiet;
    var u := RecordAll(s, c);
    assert forall i :: i in u.cpu && i != c ==> i !in Left(u, c);
    Then(s, u, iset{c}, c, EndSync);
    var v := Step(u, c, EndSync);
    Then(s, v, iset{c}, c, Free);
    t := Step(v, c, Free);
    assert t.cpu == s.Moved(c, Outside).cpu;
  }

  /** A CPU that has not moved keeps the waiter waiting, whatever the waiter does. */
  lemma {:induction false} GraceWaits(states: seq<State>, events: seq<Event>, s: State, t: State, c: nat, i: nat)
    requires Leads(states, events, s, t, iset{c}) && c in s.cpu && s.cpu[c].pc.Syncing? && i in s.cpu && i != c && !Quiet(s, c, i)
    ensures Waits(t, c, s.cpu[c].pc.was) && i in t.cpu && !Quiet(t, c, i) && t.heap == s.heap
    decreases |events|
  {
    if |events| > 0 {
      var n := |events| - 1;
      var u := states[n];
      assert Leads(states[..n + 1], events[..n], s, u, iset{c});
      GraceWaits(states[..n + 1], events[..n], s, u, c, i);
      WaitsOn(u, c, events[n].action, i);
    }
  }

  lemma WaitsOn(s: State, c: nat, a: Action, i: nat)
    requires c in s.cpu && s.cpu[c].pc.Syncing? && i in s.cpu && i != c && !Quiet(s, c, i) && Enabled(s, c, a)
    ensures var t := Step(s, c, a); Waits(t, c, s.cpu[c].pc.was) && i in t.cpu && !Quiet(t, c, i) && t.heap == s.heap
  {
    assert !a.EndSync?;
  }

  /** So the waiter can reclaim the node on its own exactly when every other CPU is quiet. */
  lemma GraceIff(s: State, c: nat)
    requires Inv(s) && c in s.cpu && s.cpu[c].pc.Syncing?
    ensures AllQuiet(s, c) <==> exists t :: Reaches(s, t, iset{c}) && s.cpu[c].pc.was !in t.heap
  {
    var was := s.cpu[c].pc.was;
    assert was in s.heap;
    hide Inv, Leads;
    if AllQuiet(s, c) {
      var t := GraceEnds(s, c);
    }
    if t :| Reaches(s, t, iset{c}) && was !in t.heap {
      var states, events :| Leads(states, events, s, t, iset{c});
      forall i | i in s.cpu && i != c ensures Quiet(s, c, i) {
        if !Quiet(s, c, i) { GraceWaits(states, events, s, t, c, i); }
      }
    }
  }

  // ------------------------------------------- every removed node can be reclaimed

  ghost function Readers(s: State): (r: set<nat>) { set i | i in s.cpu && s.cpu[i].pc.Reading? }

  /** The same, but for CPUs that were reading and now are outside, and contexts. */
  ghost predicate Settled(s: State, t: State) {
    && t.heap == s.heap && t.head == s.head && t.list == s.list && t.lock == s.lock && t.cpu.Keys == s.cpu.Keys
    && forall i :: i in s.cpu ==> t.cpu[i].pc == (if s.cpu[i].pc.Reading? then Outside else s.cpu[i].pc)
  }

  /** All read sections end. */
  lemma {:induction false} ExitAll(s: State) returns (t: State)
    ensures Reaches(s, t, Anyone()) && Settled(s, t) && Readers(t) == {}
    decreases Readers(s)
  {
    hide Reaches;
    Stay(s, Anyone());
    if Readers(s) == {} {
      t := s;
      assert forall i :: i in s.cpu ==> i !in Readers(s);
    } else {
      var i :| i in Readers(s);
      Then(s, s, Anyone(), i, Exit);
      var u := Step(s, i, Exit);
      assert Readers(u) == Readers(s) - {i};
      t := ExitAll(u);
      Chained(s, u, t, Anyone());
    }
  }

  ghost function Restless(s: State, c: nat): (r: set<nat>)
    requires c in s.cpu && s.cpu[c].pc.Syncing?
  {
    set i | i in s.cpu && i != c && !Quiet(s, c, i)
  }

  /** Outside read sections every CPU comes to switch context, once it has been sampled. */
  lemma {:induction false} SwitchAll(s: State, c: nat) returns (t: State)
    requires c in s.cpu && s.cpu[c].pc.Syncing? && Readers(s) == {}
    ensures Reaches(s, t, Anyone()) && Waits(t, c, s.cpu[c].pc.was) && AllQuiet(t, c)
    ensures t.heap == s.heap && t.list == s.list && t.head == s.head && t.lock == s.lock && t.cpu.Keys == s.cpu.Keys
    ensures forall i :: i in s.cpu && i != c ==> t.cpu[i].pc == s.cpu[i].pc
    decreases Restless(s, c)
  {
    hide Reaches;
    Stay(s, Anyone());
    if Restless(s, c) == {} {
      t := s;
      forall i | i in s.cpu && i != c ensures Quiet(s, c, i) { assert i !in Restless(s, c); }
    } else {
      var i :| i in Restless(s, c);
      var u := QuietOne(s, c, i);
      t := SwitchAll(u, c);
      Chained(s, u, t, Anyone());
    }
  }

  lemma QuietOne(s: State, c: nat, i: nat) returns (u: State)
    requires c in s.cpu && s.cpu[c].pc.Syncing? && Readers(s) == {} && i in Restless(s, c)
    ensures Reaches(s, u, Anyone()) && Waits(u, c, s.cpu[c].pc.was) && Readers(u) == {} && Restless(u, c) == Restless(s, c) - {i}
    ensures u.heap == s.heap && u.list == s.list && u.head == s.head && u.lock == s.lock && u.cpu.Keys == s.cpu.Keys
    ensures forall j :: j in s.cpu && j != c ==> u.cpu[j].pc == s.cpu[j].pc
  {
    hide Reaches;
    Stay(s, Anyone());
    assert i !in Readers(s);
    var v := s;
    if i !in s.cpu[c].pc.seen {
      Then(s, s, Anyone(), c, TakeSample(i));
      v := Step(s, c, TakeSample(i));
    }
    var k := s.cpu[i].ctx + 1;
    Then(s, v, Anyone(), i, Switch(k));
    u := Step(v, i, Switch(k));
    assert u.cpu[i].ctx == k && u.cpu[c].pc == v.cpu[c].pc && v.cpu[i] == s.cpu[i];
    assert !Quiet(s, c, i);
    forall j | j in s.cpu && j != c ensures j != i ==> (Quiet(u, c, j) <==> Quiet(s, c, j)) { }
    assert Quiet(u, c, i);
    assert forall j :: j in u.cpu ==> j !in Readers(s);
  }

  /** A grace period under way can come to its end. */
  lemma SyncRun(s: State, c: nat) returns (t: State)
    requires c in s.cpu && s.cpu[c].pc.Syncing?
    ensures Reaches(s, t, Anyone()) && t.heap == s.heap - {s.cpu[c].pc.was} && t.list == s.list && t.head == s.head && t.lock == {}
    ensures t.cpu.Keys == s.cpu.Keys && t.cpu[c].pc == Outside
    ensures forall i :: i in s.cpu && i != c ==> t.cpu[i].pc == (if s.cpu[i].pc.Reading? then Outside else s.cpu[i].pc)
  {
    hide Reaches, Readers, AllQuiet;
    var u := ExitAll(s);
    var v := SwitchAll(u, c);
    t := GraceEnds(v, c);
    Widen(v, t, iset{c});
    Chained(s, u, v, Anyone());
    Chained(s, v, t, Anyone());
  }

  /** A lock that is taken is held by a CPU that will release it. */
  ghost predicate Held(s: State) { s.lock == {} || exists d :: d in s.cpu && s.lock == {d} && HoldsLock(s.cpu[d].pc) }

  lemma HeldStep(s: State, c: nat, a: Action)
    requires Inv(s) && Held(s) && Enabled(s, c, a)
    ensures Held(Step(s, c, a))
  {
    hide Inv, Without, Step, Enabled, HoldsLock;
    var t := Step(s, c, a);
    LockMove(s, c, a);
    if t.lock != {} && t.lock == s.lock {
      var d :| d in s.cpu && s.lock == {d} && HoldsLock(s.cpu[d].pc);
      OtherHolder(s, c, a, d);
      assert d in t.cpu && t.lock == {d} && HoldsLock(t.cpu[d].pc);
    }
  }

  /** The lock stays, is taken by c, or is given up; who holds it and keeps it still holds it. */
  lemma LockMove(s: State, c: nat, a: Action)
    requires Inv(s) && Enabled(s, c, a)
    ensures var t := Step(s, c, a);
            && c in t.cpu && (t.lock == s.lock || t.lock == {} || (t.lock == {c} && HoldsLock(t.cpu[c].pc)))
            && (HoldsLock(s.cpu[c].pc) && t.lock != {} ==> HoldsLock(t.cpu[c].pc))
  {
    assert Locking(s);
    hide Inv, Without, Locking, Store;
  }

  lemma OtherHolder(s: State, c: nat, a: Action, d: nat)
    requires Enabled(s, c, a) && d in s.cpu && HoldsLock(s.cpu[d].pc)
    ensures d in Step(s, c, a).cpu && (d != c ==> HoldsLock(Step(s, c, a).cpu[d].pc))
  {
    hide Without;
  }

  lemma {:induction false} RunHeld(states: seq<State>, events: seq<Event>, k: nat)
    requires Run(states, events) && k < |states|
    ensures Held(states[k])
  {
    hide Inv, Enabled, Step, Held;
    if k > 0 {
      RunHeld(states, events, k - 1);
      RunInv(states, events, k - 1);
      HeldStep(states[k - 1], events[k - 1].cpu, events[k - 1].action);
    } else {
      StartHeld(states[0]);
    }
  }

  lemma StartHeld(s: State)
    requires Start(s)
    ensures Held(s)
  {
  }

  /** The holder of the lock finishes what it is doing. */
  lemma ReleaseRun(s: State, d: nat) returns (t: State)
    requires Inv(s) && d in s.cpu && HoldsLock(s.cpu[d].pc)
    ensures Reaches(s, t, Anyone()) && t.lock == {} && t.cpu.Keys == s.cpu.Keys
    ensures forall i :: i in s.cpu && i != d && !s.cpu[i].pc.Reading? ==> t.cpu[i].pc == s.cpu[i].pc
  {
    hide Reaches;
    Stay(s, Anyone());
    var pc := s.cpu[d].pc;
    if pc.Syncing? {
      t := SyncRun(s, d);
    } else if pc.Locked? {
      Then(s, s, Anyone(), d, NotFound);
      t := Step(s, d, NotFound);
    } else {
      var u := s;
      if pc.AddLinked? {
        Then(s, s, Anyone(), d, PublishAdd);
        u := Step(s, d, PublishAdd);
      } else if pc.UpdLinked? {
        var k := PlaceOf(s, d);
        Then(s, s, Anyone(), d, PublishUpdate(k));
        u := Step(s, d, PublishUpdate(k));
      }
      Then(s, u, Anyone(), d, Release);
      t := Step(u, d, Release);
    }
  }

  lemma PlaceOf(s: State, d: nat) returns (k: nat)
    requires Inv(s) && d in s.cpu && s.cpu[d].pc.UpdLinked?
    ensures Enabled(s, d, PublishUpdate(k))
  {
    k :| 0 <= k < |s.list| && s.list[k] == s.cpu[d].pc.was;
    assert forall j :: 0 <= j < |s.list| ==> s.list[j] in s.heap;
  }

  /** A node that CPU c has removed from the list and not reclaimed yet. */
  ghost predicate Removed(s: State, c: nat, x: Id) {
    && c in s.cpu && x != 0
    && var pc := s.cpu[c].pc; (pc.Releasing? || pc.Pending? || pc.Syncing? || pc.Reclaim?) && pc.was == x
  }

  /** From StartSync() on, with the lock free. */
  lemma WaitRun(s: State, c: nat) returns (t: State)
    requires c in s.cpu && s.cpu[c].pc.Pending? && s.lock == {}
    ensures Reaches(s, t, Anyone()) && t.heap == s.heap - {s.cpu[c].pc.was} && t.list == s.list && t.head == s.head && t.lock == {}
    ensures t.cpu.Keys == s.cpu.Keys && t.cpu[c].pc == Outside
  {
    hide Reaches;
    Stay(s, Anyone());
    Then(s, s, Anyone(), c, StartSync);
    var u := Step(s, c, StartSync);
    t := SyncRun(u, c);
    Chained(s, u, t, Anyone());
  }

  /** No removed node is stuck: from every state of every run some continuation reclaims it. */
  lemma Reclaimable(states: seq<State>, events: seq<Event>, k: nat, c: nat, x: Id) returns (t: State)
    requires Run(states, events) && k < |states| && Removed(states[k], c, x)
    ensures Reaches(states[k], t, Anyone()) && x !in t.heap
  {
    var s := states[k];
    RunInv(states, events, k);
    RunHeld(states, events, k);
    hide Reaches, Run, Inv, Step, Enabled;
    Stay(s, Anyone());
    var pc := s.cpu[c].pc;
    if pc.Reclaim? {
      FreeFacts(s, c);
      Then(s, s, Anyone(), c, Free);
      t := Step(s, c, Free);
    } else if pc.Syncing? {
      t := SyncRun(s, c);
    } else {
      var u := s;
      if pc.Releasing? {
        ReleaseFacts(s, c, x);
        Then(s, s, Anyone(), c, Release);
        u := Step(s, c, Release);
      } else if s.lock != {} {
        var d :| d in s.cpu && s.lock == {d} && HoldsLock(s.cpu[d].pc);
        u := ReleaseRun(s, d);
      }
      t := WaitRun(u, c);
      Chained(s, u, t, Anyone());
    }
  }

  lemma FreeFacts(s: State, c: nat)
    requires c in s.cpu && s.cpu[c].pc.Reclaim?
    ensures Enabled(s, c, Free) && s.cpu[c].pc.was !in Step(s, c, Free).heap
  {
  }

  // ------------------------------------------------------ updates and walks complete

  ghost predicate Listed(s: State) {
    && s.head == At(s.list, 0)
    && (forall j :: 0 <= j < |s.list| ==> s.list[j] in s.heap && s.list[j] != 0 && s.heap[s.list[j]].next == At(s.list, j + 1))
    && (forall j, k :: 0 <= j < k < |s.list| ==> s.list[j] != s.list[k])
  }

  lemma InvListed(s: State)
    requires Inv(s)
    ensures Listed(s)
  {
  }

  /** A new node and the lock. */
  lemma PrepareRun(s: State, c: nat, x: Id, pid: int) returns (t: State)
    requires s.lock == {} && c in s.cpu && s.cpu[c].pc.Outside? && x != 0 && x !in s.heap
    ensures Reaches(s, t, iset{c}) && t == s.(heap := s.heap[x := Node(pid, 0)], lock := {c}).Moved(c, Locked(x))
  {
    hide Reaches;
    Stay(s, iset{c});
    Then(s, s, iset{c}, c, Alloc(x, pid));
    var a := Step(s, c, Alloc(x, pid));
    Then(s, a, iset{c}, c, Acquire);
    t := Step(a, c, Acquire);
    assert t.cpu == s.Moved(c, Locked(x)).cpu;
  }

  lemma LinkFacts(s: State, c: nat, x: Id, k: nat)
    requires Listed(s) && c in s.cpu && s.cpu[c].pc == Locked(x) && x in s.heap && x !in s.list && k < |s.list|
    ensures Enabled(s, c, LinkUpdate(k))
    ensures var d := Step(s, c, LinkUpdate(k));
            && d.list == s.list && d.cpu.Keys == s.cpu.Keys && d.cpu[c].pc == UpdLinked(x, s.list[k]) && d.heap.Keys == s.heap.Keys
            && (forall y :: y in s.heap ==> d.heap[y].pid == s.heap[y].pid) && forall j :: 0 <= j < |d.list| ==> d.list[j] in d.heap
  {
  }

  lemma PublishFacts(s: State, c: nat, x: Id, k: nat)
    requires c in s.cpu && k < |s.list| && s.cpu[c].pc == UpdLinked(x, s.list[k]) && forall j :: 0 <= j < |s.list| ==> s.list[j] in s.heap
    ensures Enabled(s, c, PublishUpdate(k))
    ensures var e := Step(s, c, PublishUpdate(k));
            && e.list == s.list[k := x] && e.cpu.Keys == s.cpu.Keys && e.cpu[c].pc == Releasing(s.list[k]) && e.heap.Keys == s.heap.Keys
            && forall y :: y in s.heap ==> e.heap[y].pid == s.heap[y].pid
  {
  }

  /** From LinkUpdate() to the release of the lock. */
  lemma ReplaceRun(s: State, c: nat, x: Id, k: nat) returns (t: State)
    requires Listed(s) && c in s.cpu && s.cpu[c].pc == Locked(x) && x in s.heap && x !in s.list && k < |s.list|
    ensures Reaches(s, t, iset{c}) && t.list == s.list[k := x] && t.lock == {} && t.cpu.Keys == s.cpu.Keys && t.cpu[c].pc == Pending(s.list[k])
    ensures t.heap.Keys == s.heap.Keys && forall y :: y in t.heap ==> t.heap[y].pid == s.heap[y].pid
  {
    var was := s.list[k];
    assert was != 0;
    hide Reaches, Step, Enabled, Listed;
    Stay(s, iset{c});
    LinkFacts(s, c, x, k);
    Then(s, s, iset{c}, c, LinkUpdate(k));
    var d := Step(s, c, LinkUpdate(k));
    PublishFacts(d, c, x, k);
    Then(s, d, iset{c}, c, PublishUpdate(k));
    var e := Step(d, c, PublishUpdate(k));
    ReleaseFacts(e, c, was);
    Then(s, e, iset{c}, c, Release);
    t := Step(e, c, Release);
  }

  lemma ReleaseFacts(s: State, c: nat, was: Id)
    requires c in s.cpu && s.cpu[c].pc == Releasing(was) && was != 0
    ensures Enabled(s, c, Release) && Step(s, c, Release) == s.(lock := {}).Moved(c, Pending(was))
  {
  }

  /** list_update_rcu(), synchronize_rcu() and the free that follows, from a free lock on. */
  lemma UpdateRun(s: State, c: nat, x: Id, pid: int, k: nat) returns (t: State)
    requires Inv(s) && s.lock == {} && c in s.cpu && s.cpu[c].pc.Outside? && x != 0 && x !in s.heap && k < |s.list|
    ensures Reaches(s, t, Anyone()) && t.list == s.list[k := x] && t.lock == {} && t.cpu.Keys == s.cpu.Keys && t.cpu[c].pc == Outside
    ensures t.heap.Keys == s.heap.Keys - {s.list[k]} + {x} && t.heap[x].pid == pid
    ensures forall y :: y in t.heap && y != x ==> t.heap[y].pid == s.heap[y].pid
  {
    hide Reaches, Inv;
    InvListed(s);
    var a := PrepareRun(s, c, x, pid);
    var b := ReplaceRun(a, c, x, k);
    t := WaitRun(b, c);
    Chained(s, a, b, iset{c});
    Widen(s, b, iset{c});
    Chained(s, b, t, Anyone());
  }

  lemma CutRun(s: State, c: nat, k: nat) returns (t: State)
    requires Listed(s) && s.lock == {} && c in s.cpu && s.cpu[c].pc.Outside? && k < |s.list|
    ensures Reaches(s, t, iset{c}) && t.list == Without(s.list, k) && t.lock == {} && t.cpu.Keys == s.cpu.Keys && t.cpu[c].pc == Pending(s.list[k])
    ensures t.heap.Keys == s.heap.Keys && forall y :: y in t.heap ==> t.heap[y].pid == s.heap[y].pid
  {
    var was := s.list[k];
    assert was != 0;
    Stay(s, iset{c});
    hide Reaches, Without, Listed, Step, Enabled;
    UnlinkFacts(s, c, k);
    Then(s, s, iset{c}, c, Acquire);
    var a := Step(s, c, Acquire);
    Then(s, a, iset{c}, c, Unlink(k));
    var b := Step(a, c, Unlink(k));
    ReleaseFacts(b, c, was);
    Then(s, b, iset{c}, c, Release);
    t := Step(b, c, Release);
  }

  lemma UnlinkFacts(s: State, c: nat, k: nat)
    requires Listed(s) && s.lock == {} && c in s.cpu && s.cpu[c].pc.Outside? && k < |s.list|
    ensures Enabled(s, c, Acquire) && Enabled(Step(s, c, Acquire), c, Unlink(k))
    ensures var b := Step(Step(s, c, Acquire), c, Unlink(k));
            && b.list == Without(s.list, k) && b.cpu.Keys == s.cpu.Keys && b.cpu[c].pc == Releasing(s.list[k]) && b.heap.Keys == s.heap.Keys
            && forall y :: y in s.heap ==> b.heap[y].pid == s.heap[y].pid
  {
    hide Without;
  }

  /** list_del_from_proc_rcu() likewise. */
  lemma DeleteRun(s: State, c: nat, k: nat) returns (t: State)
    requires Inv(s) && s.lock == {} && c in s.cpu && s.cpu[c].pc.Outside? && k < |s.list|
    ensures Reaches(s, t, Anyone()) && t.list == Without(s.list, k) && t.lock == {} && t.cpu.Keys == s.cpu.Keys && t.cpu[c].pc == Outside
    ensures t.heap.Keys == s.heap.Keys - {s.list[k]} && forall y :: y in t.heap ==> t.heap[y].pid == s.heap[y].pid
  {
    hide Reaches, Inv, Without;
    InvListed(s);
    var b := CutRun(s, c, k);
    t := WaitRun(b, c);
    Widen(s, b, iset{c});
    Chained(s, b, t, Anyone());
  }

  /** list_add_rcu(), which removes nothing. */
  lemma AddRun(s: State, c: nat, x: Id, pid: int) returns (t: State)
    requires s.lock == {} && c in s.cpu && s.cpu[c].pc.Outside? && x != 0 && x !in s.heap
    ensures Reaches(s, t, iset{c}) && t.list == [x] + s.list && t.head == x && t.lock == {} && t.cpu.Keys == s.cpu.Keys && t.cpu[c].pc == Outside
    ensures t.heap == s.heap[x := Node(pid, s.head)]
  {
    hide Reaches;
    var b := PrepareRun(s, c, x, pid);
    Then(s, b, iset{c}, c, LinkAdd);
    var d := Step(b, c, LinkAdd);
    Then(s, d, iset{c}, c, PublishAdd);
    var e := Step(d, c, PublishAdd);
    Then(s, e, iset{c}, c, Release);
    t := Step(e, c, Release);
  }

  /** The list from position k on. */
  ghost function From(list: seq<Id>, k: nat): (r: set<Id>) { set x | x in list[Min(k, |list|)..] }

  lemma FromNext(list: seq<Id>, k: nat)
    requires k < |list|
    ensures From(list, k) == {list[k]} + From(list, k + 1)
  {
    assert list[k..] == [list[k]] + list[k + 1..];
  }

  /** The nodes of the list from position k on are loaded one after the other. */
  lemma {:induction false} WalkRun(s: State, c: nat, k: nat) returns (t: State)
    requires Listed(s) && c in s.cpu && s.cpu[c].pc.Reading? && k < |s.list| && s.list[k] in s.cpu[c].pc.held
    ensures Reaches(s, t, iset{c}) && c in t.cpu && t == s.Moved(c, t.cpu[c].pc) && t.cpu[c].pc.Reading?
    ensures t.cpu[c].pc.held == s.cpu[c].pc.held + From(s.list, k)
    decreases |s.list| - k
  {
    hide Reaches, From, Step, Enabled, Listed;
    FromNext(s.list, k);
    Stay(s, iset{c});
    if k + 1 == |s.list| {
      t := s;
      assert s == s.Moved(c, s.cpu[c].pc);
      FromEnd(s.list);
    } else {
      FollowFacts(s, c, k);
      Then(s, s, iset{c}, c, Follow(s.list[k]));
      var u := Step(s, c, Follow(s.list[k]));
      t := WalkRun(u, c, k + 1);
      Chained(s, u, t, iset{c});
      FromNext(s.list, k + 1);
      assert t.cpu == s.Moved(c, t.cpu[c].pc).cpu;
    }
  }

  lemma FollowFacts(s: State, c: nat, k: nat)
    requires Listed(s) && c in s.cpu && s.cpu[c].pc.Reading? && k + 1 < |s.list| && s.list[k] in s.cpu[c].pc.held
    ensures Enabled(s, c, Follow(s.list[k])) && Listed(Step(s, c, Follow(s.list[k])))
    ensures Step(s, c, Follow(s.list[k])) == s.Moved(c, Reading(s.cpu[c].pc.held + {s.list[k + 1]}, s.cpu[c].pc.since))
  {
  }

  lemma FromEnd(list: seq<Id>)
    ensures From(list, |list|) == {} && From(list, 0) == set x | x in list
  {
    assert list[0..] == list;
  }

  /** A read section that loads the head and follows it to the end holds every node listed; nothing else has changed. */
  lemma ReadRun(s: State, c: nat) returns (t: State)
    requires Inv(s) && c in s.cpu && s.cpu[c].pc.Outside? && !s.cpu[c].idle
    ensures Reaches(s, t, iset{c}) && c in t.cpu && t == s.Moved(c, t.cpu[c].pc) && t.cpu[c].pc.Reading?
    ensures t.cpu[c].pc.held == set x | x in s.list
  {
    hide Reaches, Inv, From;
    InvListed(s);
    FromEnd(s.list);
    Stay(s, iset{c});
    Then(s, s, iset{c}, c, Enter);
    var u := Step(s, c, Enter);
    Then(s, u, iset{c}, c, LoadHead);
    var v := Step(u, c, LoadHead);
    t := v;
    if s.list != [] {
      FromNext(s.list, 0);
      t := WalkRun(v, c, 0);
      Chained(s, v, t, iset{c});
    }
    assert t.cpu == s.Moved(c, t.cpu[c].pc).cpu;
  }
}
