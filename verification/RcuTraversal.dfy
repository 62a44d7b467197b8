/** What a reader's walk of the list is guaranteed to visit, whatever the writers do meanwhile. */
module RcuTraversal {
  import opened Counting
  import opened Rcu

  /** Following `next` n times from x arrives at p. */
  ghost predicate Reach(heap: Heap, x: Id, p: Id, n: nat)
    decreases n
  {
    if n == 0 then x == p else x in heap && Reach(heap, heap[x].next, p, n - 1)
  }

  lemma ChainNext(heap: Heap, head: Id, list: seq<Id>, i: nat)
    requires Chain(heap, head, list) && i < |list|
    ensures 0 !in heap && list[i] in heap && heap[list[i]].next == At(list, i + 1)
  {
  }

  lemma {:induction false} ChainReach(heap: Heap, head: Id, list: seq<Id>, i: nat, j: nat)
    requires Chain(heap, head, list) && i <= j < |list|
    ensures Reach(heap, list[i], list[j], j - i)
    decreases j - i
  {
    hide Chain;
    if i < j {
      ChainNext(heap, head, list, i);
      ChainReach(heap, head, list, i + 1, j);
    }
  }

  lemma NullReach(heap: Heap, p: Id, n: nat)
    requires 0 !in heap && p != 0
    ensures !Reach(heap, 0, p, n)
  {
  }

  lemma {:induction false} ReachChain(heap: Heap, head: Id, list: seq<Id>, i: nat, p: Id, n: nat)
    requires Chain(heap, head, list) && i < |list| && p != 0 && Reach(heap, list[i], p, n)
    ensures i + n < |list| && list[i + n] == p
    decreases n
  {
    hide Chain;
    if n > 0 {
      ChainNext(heap, head, list, i);
      NullReach(heap, p, n - 1);
      ReachChain(heap, head, list, i + 1, p, n - 1);
    }
  }

  /** The nodes two lists share come in the same order. */
  ghost predicate SameOrder(list: seq<Id>, list': seq<Id>) {
    forall i, j, i', j' ::
      (0 <= i <= j < |list| && 0 <= i' < |list'| && 0 <= j' < |list'| && list[i] == list'[i'] && list[j] == list'[j'])
      ==> i' <= j'
  }

  lemma OrderAt(list: seq<Id>, list': seq<Id>, i: nat, j: nat, i': nat, j': nat)
    requires SameOrder(list, list') && i <= j < |list| && i' < |list'| && j' < |list'|
    requires list[i] == list'[i'] && list[j] == list'[j']
    ensures i' <= j'
  {
  }

  lemma SplitOrder(list: seq<Id>, k: nat, x: Id)
    requires k < |list| && x !in list
    requires forall i, j :: 0 <= i < j < |list| ==> list[i] != list[j]
    ensures SameOrder(list, list) && SameOrder(list, list[k := x]) && SameOrder(list, Without(list, k))
  {
  }

  lemma FrontOrder(list: seq<Id>, x: Id)
    requires x !in list
    requires forall i, j :: 0 <= i < j < |list| ==> list[i] != list[j]
    ensures SameOrder(list, list) && SameOrder(list, [x] + list)
  {
  }

  /** From s to t a reader's nodes keep their links, save those still listed, and the list keeps its order. */
  ghost predicate Calm(s: State, t: State, since: set<Id>) {
    && (forall y :: y in since ==> y in t.heap && y in s.heap)
    && (forall y :: y in since && y !in t.list ==> t.heap[y].next == s.heap[y].next)
    && (forall y :: y in since && y in t.list ==> y in s.list)
    && SameOrder(s.list, t.list)
  }

  /** What a reader could still reach, it can still reach, if it is still listed. */
  lemma {:induction false} ReachKept(s: State, t: State, since: set<Id>, x: Id, p: Id, n: nat) returns (m: nat)
    requires Chain(s.heap, s.head, s.list) && Chain(t.heap, t.head, t.list) && p in s.list && p in t.list && p != 0
    requires Section(s.heap, s.list, {}, since) && x in since && Calm(s, t, since) && Reach(s.heap, x, p, n)
    ensures Reach(t.heap, x, p, m)
    decreases n
  {
    hide Chain, SameOrder, Section;
    if x == p {
      m := 0;
    } else if x in t.list {
      m := ReachListed(s, t, x, p, n);
    } else {
      SectionNext(s, since, x, p, n);
      m := ReachKept(s, t, since, s.heap[x].next, p, n - 1);
      m := m + 1;
    }
  }

  lemma SectionNext(s: State, since: set<Id>, x: Id, p: Id, n: nat)
    requires Chain(s.heap, s.head, s.list) && Section(s.heap, s.list, {}, since) && x in since && x != p && p != 0 && Reach(s.heap, x, p, n)
    ensures n > 0 && x in s.heap && s.heap[x].next in since && Reach(s.heap, s.heap[x].next, p, n - 1)
  {
    assert 0 !in s.heap;
    hide Chain;
    NullReach(s.heap, p, n - 1);
  }

  lemma ReachListed(s: State, t: State, x: Id, p: Id, n: nat) returns (m: nat)
    requires Chain(s.heap, s.head, s.list) && Chain(t.heap, t.head, t.list) && p in s.list && p in t.list
    requires p != 0 && x in s.list && x in t.list && SameOrder(s.list, t.list) && Reach(s.heap, x, p, n)
    ensures Reach(t.heap, x, p, m)
  {
    hide Chain, SameOrder, Reach;
    var i :| 0 <= i < |s.list| && s.list[i] == x;
    ReachChain(s.heap, s.head, s.list, i, p, n);
    var i' :| 0 <= i' < |t.list| && t.list[i'] == x;
    var j' :| 0 <= j' < |t.list| && t.list[j'] == p;
    OrderAt(s.list, t.list, i, i + n, i', j');
    m := j' - i';
    ChainReach(t.heap, t.head, t.list, i', j');
  }

  // ------------------------------------------------------------ over a run

  lemma StepCalm(s: State, c: nat, a: Action, d: nat)
    requires Inv(s) && Enabled(s, c, a) && d in s.cpu && s.cpu[d].pc.Reading?
    ensures Calm(s, Step(s, c, a), s.cpu[d].pc.since)
  {
    if ListStep(a) {
      ListStepCalm(s, c, a, d);
    } else {
      FrontOrder(s.list, 0);
      hide SameOrder;
    }
  }

  lemma ListStepOrder(s: State, c: nat, a: Action)
    requires Chain(s.heap, s.head, s.list) && Ownership(s) && Enabled(s, c, a) && ListStep(a)
    ensures SameOrder(s.list, Step(s, c, a).list)
  {
    hide SameOrder;
    match a
    case PublishAdd => FrontOrder(s.list, s.cpu[c].pc.new_);
    case PublishUpdate(k) => SplitOrder(s.list, k, s.cpu[c].pc.new_);
    case Unlink(k) => SplitOrder(s.list, k, 0);
  }

  lemma ListStepCalm(s: State, c: nat, a: Action, d: nat)
    requires Inv(s) && Enabled(s, c, a) && ListStep(a) && d in s.cpu && s.cpu[d].pc.Reading?
    ensures Calm(s, Step(s, c, a), s.cpu[d].pc.since)
  {
    hide SameOrder, Chain, Step, Ownership, Locking, Apart, PrivateUnseen, Grace;
    ListStepOrder(s, c, a);
    ListStepStore(s, c, a);
    AddedUnseen(s, c, a);
    assert forall x :: x in Added(s, c, a) ==> Clear(HandedOver(s, c).cpu, d, x);
  }

  /** CPU c stays inside one read section from state lo to state hi. */
  ghost predicate Inside(states: seq<State>, c: nat, lo: nat, hi: nat) {
    && lo <= hi < |states|
    && forall k :: lo <= k <= hi ==> c in states[k].cpu && states[k].cpu[c].pc.Reading?
  }

  lemma StepSince(s: State, d: nat, a: Action, c: nat)
    requires Enabled(s, d, a) && c in s.cpu && s.cpu[c].pc.Reading?
    requires c in Step(s, d, a).cpu && Step(s, d, a).cpu[c].pc.Reading?
    ensures s.cpu[c].pc.since <= Step(s, d, a).cpu[c].pc.since
  {
  }

  /** One step on: the reader's node is still its own, and what was reachable and stays listed still is. */
  lemma Advance(s: State, d: nat, a: Action, c: nat, x: Id, p: Id, n: nat) returns (m: nat)
    requires Inv(s) && Enabled(s, d, a) && c in s.cpu && s.cpu[c].pc.Reading? && x in s.cpu[c].pc.since
    requires c in Step(s, d, a).cpu && Step(s, d, a).cpu[c].pc.Reading?
    requires p in s.list && p in Step(s, d, a).list && Reach(s.heap, x, p, n)
    ensures x in Step(s, d, a).cpu[c].pc.since && Reach(Step(s, d, a).heap, x, p, m)
  {
    assert Section(s.heap, s.list, {}, s.cpu[c].pc.since) && p != 0;
    StepCalm(s, d, a, c);
    StepInv(s, d, a);
    StepSince(s, d, a, c);
    hide Step, Calm, Reach, Section;
    m := ReachKept(s, Step(s, d, a), s.cpu[c].pc.since, x, p, n);
  }

  lemma {:induction false} Wait(states: seq<State>, events: seq<Event>, c: nat, lo: nat, hi: nat, x: Id, p: Id, n: nat)
    returns (m: nat)
    requires Run(states, events) && Inside(states, c, lo, hi)
    requires x in states[lo].cpu[c].pc.since && Reach(states[lo].heap, x, p, n)
    requires forall k :: lo <= k <= hi ==> p in states[k].list
    ensures x in states[hi].cpu[c].pc.since && Reach(states[hi].heap, x, p, m)
    decreases hi - lo
  {
    hide Reach, Step, Inv, Enabled;
    m := n;
    if lo < hi {
      RunInv(states, events, lo);
      assert states[lo + 1] == Step(states[lo], events[lo].cpu, events[lo].action);
      m := Advance(states[lo], events[lo].cpu, events[lo].action, c, x, p, n);
      m := Wait(states, events, c, lo + 1, hi, x, p, m);
    }
  }

  /** A whole walk by CPU c inside one section: the k-th pointer is loaded in state `when[k]`; the last is null. */
  ghost predicate Walk(states: seq<State>, c: nat, when: seq<nat>, path: seq<Id>) {
    && |when| == |path| > 0 && Inside(states, c, when[0], when[|when| - 1])
    && (forall j, k :: 0 <= j <= k < |when| ==> when[j] <= when[k] < |states|)
    && path[0] == states[when[0]].head
    && (forall k :: 0 <= k < |path| - 1 ==> Loaded(states, when, path, k))
    && path[|path| - 1] == 0
  }

  ghost predicate Loaded(states: seq<State>, when: seq<nat>, path: seq<Id>, k: nat) {
    && k + 1 < |path| == |when| && when[k + 1] < |states|
    && path[k] in states[when[k + 1]].heap && path[k + 1] == states[when[k + 1]].Next(path[k])
  }

  lemma {:induction false} WalkReach(states: seq<State>, events: seq<Event>, c: nat, when: seq<nat>, path: seq<Id>, p: Id, k: nat)
    returns (m: nat)
    requires Run(states, events) && Walk(states, c, when, path) && k < |path|
    requires forall i :: when[0] <= i <= when[|when| - 1] ==> p in states[i].list
    requires p !in path[..k]
    ensures path[k] in states[when[k]].cpu[c].pc.since && Reach(states[when[k]].heap, path[k], p, m)
  {
    hide Reach, Step;
    var s := states[when[k]];
    RunInv(states, events, when[k]);
    if k == 0 {
      m := HeadReach(s, c, p);
    } else {
      m := WalkReach(states, events, c, when, path, p, k - 1);
      m := Wait(states, events, c, when[k - 1], when[k], path[k - 1], p, m);
      assert Loaded(states, when, path, k - 1);
      m := NextReach(s, c, path[k - 1], p, m);
    }
  }

  lemma HeadReach(s: State, c: nat, p: Id) returns (m: nat)
    requires Inv(s) && c in s.cpu && s.cpu[c].pc.Reading? && p in s.list
    ensures s.head in s.cpu[c].pc.since && Reach(s.heap, s.head, p, m)
  {
    m :| 0 <= m < |s.list| && s.list[m] == p;
    ChainReach(s.heap, s.head, s.list, 0, m);
  }

  lemma NextReach(s: State, c: nat, x: Id, p: Id, n: nat) returns (m: nat)
    requires Inv(s) && c in s.cpu && s.cpu[c].pc.Reading? && x in s.cpu[c].pc.since && p in s.list && x != p
    requires Reach(s.heap, x, p, n)
    ensures s.Next(x) in s.cpu[c].pc.since && Reach(s.heap, s.Next(x), p, m)
  {
    m := n - 1;
    assert Reach(s.heap, s.Next(x), p, m);
    assert 0 !in s.heap && p != 0;
  }

  /** A walk visits every node that stays in the list from its first load to its last. */
  lemma WalkComplete(states: seq<State>, events: seq<Event>, c: nat, when: seq<nat>, path: seq<Id>, p: Id)
    requires Run(states, events) && Walk(states, c, when, path)
    requires forall i :: when[0] <= i <= when[|when| - 1] ==> p in states[i].list
    ensures p in path
  {
    hide Run, Reach;
    var last := |path| - 1;
    if p !in path {
      var m := WalkReach(states, events, c, when, path, p, last);
      RunInv(states, events, when[last]);
      assert false;
    }
  }

  lemma StepMeets(s: State, d: nat, a: Action, c: nat, x: Id)
    requires Enabled(s, d, a) && c in Step(s, d, a).cpu && Step(s, d, a).cpu[c].pc.Reading?
    requires x in Step(s, d, a).cpu[c].pc.since && x !in Step(s, d, a).list
    ensures c in s.cpu && s.cpu[c].pc.Reading? && x in s.cpu[c].pc.since
  {
    if a.PublishUpdate? {
      assert s.list[a.k := s.cpu[d].pc.new_][a.k] == s.cpu[d].pc.new_;
    }
  }

  lemma {:induction false} SinceListed(states: seq<State>, events: seq<Event>, c: nat, k: nat, x: Id) returns (j: nat)
    requires Run(states, events) && k < |states| && c in states[k].cpu && states[k].cpu[c].pc.Reading?
    requires x in states[k].cpu[c].pc.since
    ensures Inside(states, c, j, k) && x in states[j].list
  {
    hide Step, Enabled;
    if x in states[k].list {
      j := k;
    } else {
      assert k > 0;
      assert states[k] == Step(states[k - 1], events[k - 1].cpu, events[k - 1].action);
      StepMeets(states[k - 1], events[k - 1].cpu, events[k - 1].action, c, x);
      j := SinceListed(states, events, c, k - 1, x);
    }
  }

  /** A reader only ever holds nodes that were in the list at some moment of its own section. */
  lemma HeldListed(states: seq<State>, events: seq<Event>, c: nat, k: nat, x: Id) returns (j: nat)
    requires Run(states, events) && k < |states| && c in states[k].cpu && states[k].cpu[c].pc.Reading?
    requires x in states[k].cpu[c].pc.held
    ensures Inside(states, c, j, k) && x in states[j].list
  {
    RunInv(states, events, k);
    hide Run;
    j := SinceListed(states, events, c, k, x);
  }
}
