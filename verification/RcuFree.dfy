/** When a removed node may be freed without waiting for the readers. */
module RcuFree {
  import opened Rcu
  import opened RcuTraversal

  /** A walk inside an open read section may still come to node x. */
  ghost predicate Reachable(s: State, x: Id) {
    exists i, y, n :: i in s.cpu && s.cpu[i].pc.Reading? && y in s.cpu[i].pc.held && Reach(s.heap, y, x, n)
  }

  /** Whatever happens from t on, no reader is on, or one load from, a reclaimed node. */
  ghost predicate SafeFrom(t: State) {
    forall states, events, k :: Steps(states, events) && 0 <= k < |states| && states[0] == t ==> Safe(states[k])
  }

  // ------------------------------------------------ the history variable `since`

  /** The two states differ at most in `since`. */
  ghost predicate Alike(s: State, t: State) {
    && s.heap == t.heap && s.head == t.head && s.list == t.list && s.lock == t.lock && s.cpu.Keys == t.cpu.Keys
    && forall c :: c in s.cpu ==> AlikeCpu(s.cpu[c], t.cpu[c])
  }

  ghost predicate AlikeCpu(a: Cpu, b: Cpu) {
    && a.ctx == b.ctx && a.idle == b.idle
    && if a.pc.Reading? then b.pc.Reading? && a.pc.held == b.pc.held else a.pc == b.pc
  }

  /** No guard and no step reads `since`. */
  lemma AlikeEnabled(s: State, t: State, c: nat, a: Action)
    requires Alike(s, t) && Enabled(s, c, a)
    ensures Enabled(t, c, a)
  {
    assert AlikeCpu(s.cpu[c], t.cpu[c]);
  }

  /** A CPU alike to another may be put in its place. */
  lemma AlikeMoved(s: State, t: State, c: nat, x: Cpu, y: Cpu)
    requires Alike(s, t) && AlikeCpu(x, y)
    ensures Alike(s.(cpu := s.cpu[c := x]), t.(cpu := t.cpu[c := y]))
  {
    hide AlikeCpu;
  }

  lemma AlikePublish(s: State, t: State, add: set<Id>)
    requires Alike(s, t)
    ensures Alike(s.(cpu := s.Publish(add)), t.(cpu := t.Publish(add)))
  {
    forall c | c in s.cpu ensures AlikeCpu(s.Publish(add)[c], t.Publish(add)[c]) { assert AlikeCpu(s.cpu[c], t.cpu[c]); }
  }

  lemma AlikePublished(s: State, t: State, c: nat, a: Action)
    requires Alike(s, t) && Enabled(s, c, a) && Enabled(t, c, a) && (a.PublishAdd? || a.PublishUpdate?)
    ensures Alike(Step(s, c, a), Step(t, c, a))
  {
    assert AlikeCpu(s.cpu[c], t.cpu[c]);
    var new_ := s.cpu[c].pc.new_;
    AlikePublish(s, t, {new_});
    var x := Step(s, c, a).cpu[c];
    AlikeMoved(s.(cpu := s.Publish({new_})), t.(cpu := t.Publish({new_})), c, x, x);
  }

  predicate SyncStep(a: Action) {
    a.Release? || a.StartSync? || a.TakeSample? || a.Poll? || a.EndSync? || a.Free?
  }

  lemma AlikeSync(s: State, t: State, c: nat, a: Action)
    requires Alike(s, t) && Enabled(s, c, a) && Enabled(t, c, a) && SyncStep(a)
    ensures Alike(Step(s, c, a), Step(t, c, a))
  {
    assert AlikeCpu(s.cpu[c], t.cpu[c]);
    if a.TakeSample? || a.Poll? { assert AlikeCpu(s.cpu[a.i], t.cpu[a.i]); }
    AlikeMoved(s, t, c, Step(s, c, a).cpu[c], Step(t, c, a).cpu[c]);
  }

  lemma AlikeOther(s: State, t: State, c: nat, a: Action)
    requires Alike(s, t) && Enabled(s, c, a) && Enabled(t, c, a) && !SyncStep(a) && !a.PublishAdd? && !a.PublishUpdate?
    ensures Alike(Step(s, c, a), Step(t, c, a))
  {
    assert AlikeCpu(s.cpu[c], t.cpu[c]);
    AlikeMoved(s, t, c, Step(s, c, a).cpu[c], Step(t, c, a).cpu[c]);
  }

  lemma AlikeStep(s: State, t: State, c: nat, a: Action)
    requires Alike(s, t) && Enabled(s, c, a) && Enabled(t, c, a)
    ensures Alike(Step(s, c, a), Step(t, c, a))
  {
    hide Alike, Enabled, Step;
    if a.PublishAdd? || a.PublishUpdate? {
      AlikePublished(s, t, c, a);
    } else if SyncStep(a) {
      AlikeSync(s, t, c, a);
    } else {
      AlikeOther(s, t, c, a);
    }
  }

  lemma AlikeSafe(s: State, t: State)
    requires Alike(s, t) && Safe(t)
    ensures Safe(s)
  {
    forall c, x | c in s.cpu && s.cpu[c].pc.Reading? && x in s.cpu[c].pc.held
      ensures x in s.heap && (s.Next(x) == 0 || s.Next(x) in s.heap)
    {
      assert AlikeCpu(s.cpu[c], t.cpu[c]) && t.Next(x) == s.Next(x);
    }
  }

  /** A run from s is a run from any state alike. */
  lemma {:induction false} Replay(states: seq<State>, events: seq<Event>, t: State) returns (states': seq<State>)
    requires Steps(states, events) && Alike(states[0], t)
    ensures Steps(states', events) && states'[0] == t && forall k :: 0 <= k < |states| ==> Alike(states[k], states'[k])
    decreases |events|
  {
    hide Step, Enabled, Alike;
    if events == [] {
      states' := [t];
    } else {
      var n := |events| - 1;
      var head := Replay(states[..n + 1], events[..n], t);
      var c, a := events[n].cpu, events[n].action;
      assert Alike(states[n], head[n]) by { assert states[..n + 1][n] == states[n]; }
      AlikeEnabled(states[n], head[n], c, a);
      AlikeStep(states[n], head[n], c, a);
      states' := head + [Step(head[n], c, a)];
      forall k | 0 <= k < |events|
        ensures Enabled(states'[k], events[k].cpu, events[k].action) && states'[k + 1] == Step(states'[k], events[k].cpu, events[k].action)
      {
        assert k < n ==> events[..n][k] == events[k] && head[k + 1] == Step(head[k], events[k].cpu, events[k].action);
      }
      forall k | 0 <= k < |states| ensures Alike(states[k], states'[k]) {
        assert k <= n ==> states[..n + 1][k] == states[k];
      }
    }
  }

  // ----------------------------------------------- unreachable: every run is safe

  /** What a section can still come to, out of all it might have met. */
  ghost function Near(heap: Heap, list: seq<Id>, held: set<Id>, since: set<Id>): (r: set<Id>) {
    set y | y in since && (y in list || exists x, n :: x in held && Reach(heap, x, y, n))
  }

  lemma {:induction false} ReachMore(heap: Heap, x: Id, y: Id, n: nat)
    requires Reach(heap, x, y, n) && y in heap
    ensures Reach(heap, x, heap[y].next, n + 1)
    decreases n
  {
    if n > 0 { ReachMore(heap, heap[x].next, y, n - 1); }
  }

  lemma NearSection(heap: Heap, head: Id, list: seq<Id>, held: set<Id>, since: set<Id>)
    requires Chain(heap, head, list) && Section(heap, list, held, since)
    ensures Section(heap, list, held, Near(heap, list, held, since))
  {
    var near := Near(heap, list, held, since);
    forall x | x in held ensures x in near { assert Reach(heap, x, x, 0); }
    forall y | y in near && heap[y].next != 0 ensures heap[y].next in near {
      if y in list {
        var k :| 0 <= k < |list| && list[k] == y;
        assert heap[list[k]].next == At(list, k + 1);
      } else {
        var x, n :| x in held && Reach(heap, x, y, n);
        ReachMore(heap, x, y, n);
      }
    }
  }

  ghost function NarrowCpu(s: State, x: Cpu): (y: Cpu)
    ensures AlikeCpu(x, y)
  {
    if x.pc.Reading? then x.(pc := Reading(x.pc.held, Near(s.heap, s.list, x.pc.held, x.pc.since))) else x
  }

  ghost function Narrow(s: State): (t: State)
    ensures Alike(s, t)
  {
    s.(cpu := map c | c in s.cpu :: NarrowCpu(s, s.cpu[c]))
  }

  /** Nothing but histories differs, and those only shrink. */
  ghost predicate Shrunk(cpu: map<nat, Cpu>, cpu': map<nat, Cpu>) {
    && cpu.Keys == cpu'.Keys
    && forall c :: c in cpu ==> cpu'[c].ctx == cpu[c].ctx && cpu'[c].idle == cpu[c].idle && ShrunkPc(cpu[c].pc, cpu'[c].pc)
  }

  ghost predicate ShrunkPc(pc: Pc, pc': Pc) {
    if pc.Reading? then pc'.Reading? && pc'.held == pc.held && pc'.since <= pc.since else pc' == pc
  }

  lemma ShrunkOwners(s: State, t: State)
    requires Ownership(s) && Apart(s.cpu) && Locking(s) && Shrunk(s.cpu, t.cpu) && t == s.(cpu := t.cpu)
    ensures Ownership(t) && Apart(t.cpu) && Locking(t)
  {
    forall c | c in s.cpu ensures Owns(t.cpu[c].pc) == Owns(s.cpu[c].pc) && (!s.cpu[c].pc.Reading? ==> t.cpu[c] == s.cpu[c]) { }
    hide ShrunkPc, Shrunk;
  }

  lemma ShrunkClear(cpu: map<nat, Cpu>, cpu': map<nat, Cpu>, i: nat, x: Id)
    requires Shrunk(cpu, cpu') && i in cpu && Clear(cpu, i, x)
    ensures Clear(cpu', i, x)
  {
  }

  lemma ShrunkReaders(cpu: map<nat, Cpu>, cpu': map<nat, Cpu>)
    requires Shrunk(cpu, cpu') && PrivateUnseen(cpu) && Grace(cpu)
    ensures PrivateUnseen(cpu') && Grace(cpu')
  {
    forall i, x | i in cpu && Clear(cpu, i, x) ensures Clear(cpu', i, x) { ShrunkClear(cpu, cpu', i, x); }
    forall c | c in cpu ensures cpu'[c].ctx == cpu[c].ctx && (!cpu[c].pc.Reading? ==> cpu'[c] == cpu[c]) { }
    assert PrivateUnseen(cpu');
    hide Shrunk, Clear, PrivateUnseen;
  }

  lemma NarrowSections(s: State)
    requires Chain(s.heap, s.head, s.list) && Sections(s)
    ensures Sections(Narrow(s)) && Shrunk(s.cpu, Narrow(s).cpu)
  {
    hide Chain, Section, Near;
    forall c | c in s.cpu && s.cpu[c].pc.Reading?
      ensures Section(s.heap, s.list, s.cpu[c].pc.held, Near(s.heap, s.list, s.cpu[c].pc.held, s.cpu[c].pc.since))
      ensures Near(s.heap, s.list, s.cpu[c].pc.held, s.cpu[c].pc.since) <= s.cpu[c].pc.since
    {
      NearSection(s.heap, s.head, s.list, s.cpu[c].pc.held, s.cpu[c].pc.since);
      NearWithin(s.heap, s.list, s.cpu[c].pc.held, s.cpu[c].pc.since);
    }
  }

  lemma NearWithin(heap: Heap, list: seq<Id>, held: set<Id>, since: set<Id>)
    ensures Near(heap, list, held, since) <= since
  {
  }

  /** The invariant holds with each section's history cut down to what it can still reach. */
  lemma NarrowInv(s: State)
    requires Inv(s)
    ensures Inv(Narrow(s))
  {
    hide Chain, Ownership, Apart, Locking, Sections, PrivateUnseen, Grace, Shrunk, NarrowCpu;
    NarrowSections(s);
    ShrunkOwners(s, Narrow(s));
    ShrunkReaders(s.cpu, Narrow(s).cpu);
  }

  lemma NarrowClear(s: State, was: Id)
    requires was !in s.list && !Reachable(s, was)
    ensures forall i :: i in s.cpu ==> Clear(Narrow(s).cpu, i, was)
  {
  }

  lemma PendingFacts(s: State, c: nat)
    requires Inv(s) && c in s.cpu && s.cpu[c].pc.Pending?
    ensures s.cpu[c].pc.was != 0 && s.cpu[c].pc.was !in s.list && 0 !in s.heap
  {
    assert MustOwn(s.cpu[c].pc);
  }

  lemma AlikeFreed(s: State, t: State, c: nat)
    requires Alike(s, t) && c in s.cpu && s.cpu[c].pc.Pending?
    ensures t.cpu[c] == s.cpu[c] && Alike(FreedNow(s, c), FreedNow(t, c))
  {
    assert AlikeCpu(s.cpu[c], t.cpu[c]);
  }

  lemma UnreachableSafe(s: State, c: nat)
    requires Inv(s) && c in s.cpu && s.cpu[c].pc.Pending? && !Reachable(s, s.cpu[c].pc.was)
    ensures SafeFrom(FreedNow(s, c))
  {
    hide Inv, Clear, Reachable, Steps, Alike, Safe, FreedNow, Narrow;
    var u := Narrow(s);
    PendingFacts(s, c);
    NarrowInv(s);
    NarrowClear(s, s.cpu[c].pc.was);
    AlikeFreed(s, u, c);
    AlikeKeys(s, u);
    DropKeeps(u, c);
    var t, t' := FreedNow(s, c), FreedNow(u, c);
    forall states, events, k | Steps(states, events) && 0 <= k < |states| && states[0] == t ensures Safe(states[k]) {
      var states' := Replay(states, events, t');
      StepsSize(states, events);
      StepsSize(states', events);
      SafeAt(states, states', events, k);
    }
  }

  lemma AlikeKeys(s: State, t: State)
    requires Alike(s, t)
    ensures s.cpu.Keys == t.cpu.Keys
  {
  }

  lemma StepsSize(states: seq<State>, events: seq<Event>)
    requires Steps(states, events)
    ensures |states| == |events| + 1
  {
  }

  lemma SafeAt(states: seq<State>, states': seq<State>, events: seq<Event>, k: nat)
    requires Steps(states', events) && Inv(states'[0]) && k < |states| == |states'| && Alike(states[k], states'[k])
    ensures Safe(states[k])
  {
    hide Inv, Step, Enabled, Alike, Safe;
    StepsInv(states', events, k);
    InvSafe(states'[k]);
    AlikeSafe(states[k], states'[k]);
  }

  // -------------------------------------------- reachable: some run strands a reader

  /** A walk to x meets x for the first time along nodes that are not x. */
  lemma {:induction false} FirstReach(heap: Heap, y: Id, x: Id, n: nat) returns (m: nat)
    requires Reach(heap, y, x, n)
    ensures Reach(heap - {x}, y, x, m)
    decreases n
  {
    if y == x {
      m := 0;
    } else {
      m := FirstReach(heap, heap[y].next, x, n - 1);
      m := m + 1;
    }
  }

  /** The reader walks up to the reclaimed node. */
  lemma {:induction false} Strand(t: State, i: nat, y: Id, x: Id, m: nat) returns (states: seq<State>, events: seq<Event>)
    requires 0 !in t.heap && x !in t.heap && x != 0 && i in t.cpu && t.cpu[i].pc.Reading? && y in t.cpu[i].pc.held
    requires Reach(t.heap, y, x, m)
    ensures Steps(states, events) && states[0] == t && !Safe(states[|events|])
    decreases m
  {
    if m <= 1 {
      states, events := [t], [];
      assert y in t.cpu[i].pc.held && (y !in t.heap || t.Next(y) == x);
    } else {
      NullReach(t.heap, x, m - 1);
      var u := Step(t, i, Follow(y));
      var rest, more := Strand(u, i, t.heap[y].next, x, m - 1);
      states, events := [t] + rest, [Event(i, Follow(y))] + more;
      hide Step, Enabled;
      forall k | 0 <= k < |events|
        ensures Enabled(states[k], events[k].cpu, events[k].action) && states[k + 1] == Step(states[k], events[k].cpu, events[k].action)
      {
        assert k > 0 ==> states[k] == rest[k - 1] && events[k] == more[k - 1];
      }
    }
  }

  lemma ReachableUnsafe(s: State, c: nat)
    requires Inv(s) && c in s.cpu && s.cpu[c].pc.Pending? && Reachable(s, s.cpu[c].pc.was)
    ensures !SafeFrom(FreedNow(s, c))
  {
    var was := s.cpu[c].pc.was;
    var i, y, n :| i in s.cpu && s.cpu[i].pc.Reading? && y in s.cpu[i].pc.held && Reach(s.heap, y, was, n);
    PendingFacts(s, c);
    hide Inv;
    var m := FirstReach(s.heap, y, was, n);
    var t := FreedNow(s, c);
    assert t.cpu[i] == s.cpu[i];
    var states, events := Strand(t, i, y, was, m);
    hide Steps, Safe, FreedNow;
    assert Steps(states, events) && states[0] == t;
  }

  /**
   Freeing a removed node without waiting is safe, in every run from there on, exactly
   when no pointer that an open read section holds leads to it.
   */
  lemma FreeSafeIff(s: State, c: nat)
    requires Inv(s) && c in s.cpu && s.cpu[c].pc.Pending?
    ensures SafeFrom(FreedNow(s, c)) <==> !Reachable(s, s.cpu[c].pc.was)
  {
    hide Inv, SafeFrom, Reachable, FreedNow;
    if Reachable(s, s.cpu[c].pc.was) { ReachableUnsafe(s, c); } else { UnreachableSafe(s, c); }
  }
}
