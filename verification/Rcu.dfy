/**
 The RCU process list as a step relation: any number of CPUs, each reading,
 updating, waiting for a grace period or reclaiming, interleaved one shared
 store or load at a time.

 The premises of the grace period are guards: a CPU neither idles nor switches
 context inside a read section, and takes no lock there.
 */
module Rcu {
  import opened Counting

  type Id = nat // 0 is the null pointer

  datatype Node = Node(pid: int, next: Id)
  type Heap = map<Id, Node> // nodes not in the map are reclaimed

  /** synchronize_rcu()'s record of another CPU: its context, or target_value_achieved. */
  datatype Sample = Snap(ctx: nat) | Passed

  datatype Pc =
    | Outside
      /** Between rcu_read_lock() and rcu_read_unlock(), with the pointers loaded so
          far; `since` is a history variable: all nodes listed at some time since. */
    | Reading(held: set<Id>, since: set<Id>)
    | Prepared(new_: Id)              // a private node, no lock
    | Locked(new_: Id)                // writers' lock held; 0 when deleting
    | AddLinked(new_: Id)             // new->next stored, not published
    | UpdLinked(new_: Id, was: Id)    // new->next stored, not published
    | Releasing(was: Id)              // list changed, lock still held
    | Pending(was: Id)                // ptr_to_free, before synchronize_rcu()
    | Syncing(was: Id, seen: map<nat, Sample>)
    | Reclaim(was: Id)                // grace period over

  datatype Cpu = Cpu(pc: Pc, ctx: nat, idle: bool)

  datatype State = State(heap: Heap, head: Id, list: seq<Id>, lock: set<nat>, cpu: map<nat, Cpu>) {
    function Next(x: Id): (y: Id)
      requires x in heap
    {
      heap[x].next
    }

    function Moved(c: nat, pc: Pc): (s: State)
      requires c in cpu
    {
      this.(cpu := cpu[c := cpu[c].(pc := pc)])
    }

    /** Nodes enter the list: every open read section may now meet them. */
    function Publish(add: set<Id>): (r: map<nat, Cpu>)
      ensures r.Keys == cpu.Keys
    {
      map c | c in cpu :: if cpu[c].pc.Reading? then cpu[c].(pc := Reading(cpu[c].pc.held, cpu[c].pc.since + add)) else cpu[c]
    }
  }

  predicate HoldsLock(pc: Pc) {
    pc.Locked? || pc.AddLinked? || pc.UpdLinked? || pc.Releasing? || pc.Syncing?
  }

  /** The node a CPU owns: private before publication, retired after removal. */
  function Owns(pc: Pc): (x: Id) {
    match pc
    case Outside => 0
    case Reading(_, _) => 0
    case Prepared(n) => n
    case Locked(n) => n
    case AddLinked(n) => n
    case UpdLinked(n, _) => n
    case Releasing(w) => w
    case Pending(w) => w
    case Syncing(w, _) => w
    case Reclaim(w) => w
  }

  predicate Private(pc: Pc) { pc.Prepared? || pc.Locked? || pc.AddLinked? || pc.UpdLinked? }

  predicate MustOwn(pc: Pc) { pc.Prepared? || pc.AddLinked? || pc.UpdLinked? || pc.Pending? || pc.Syncing? || pc.Reclaim? }

  // ------------------------------------------------------------------ steps

  datatype Action =
    | Enter | LoadHead | Follow(x: Id) | Exit                      // readers
    | SetIdle(b: bool) | Switch(k: nat)                            // premises
    | Alloc(x: Id, pid: int) | Acquire | NotFound                  // writers
    | LinkAdd | PublishAdd
    | LinkUpdate(k: nat) | PublishUpdate(k: nat)
    | Unlink(k: nat) | Release
    | StartSync | TakeSample(i: nat) | Poll(i: nat) | EndSync | Free

  /** May CPU c do this now? */
  ghost predicate Enabled(s: State, c: nat, a: Action) {
    && c in s.cpu
    && var pc := s.cpu[c].pc;
       match a
       case Enter => pc.Outside? && !s.cpu[c].idle
       case LoadHead => pc.Reading?
       case Follow(x) => pc.Reading? && x in pc.held && x in s.heap
       case Exit => pc.Reading?
       case SetIdle(_) => !pc.Reading?
       case Switch(_) => !pc.Reading?
       case Alloc(x, _) => pc.Outside? && x != 0 && x !in s.heap
       case Acquire => (pc.Outside? || pc.Prepared?) && s.lock == {}
       case NotFound => pc.Locked?
       case LinkAdd => pc.Locked? && pc.new_ in s.heap
       case PublishAdd => pc.AddLinked?
       case LinkUpdate(k) => pc.Locked? && pc.new_ in s.heap && k < |s.list| && s.list[k] in s.heap
       case PublishUpdate(k) => pc.UpdLinked? && k < |s.list| && s.list[k] == pc.was && (k > 0 ==> s.list[k - 1] in s.heap)
       case Unlink(k) => pc == Locked(0) && k < |s.list| && s.list[k] in s.heap && (k > 0 ==> s.list[k - 1] in s.heap)
       case Release => pc.Releasing?
       case StartSync => pc.Pending? && s.lock == {}
       case TakeSample(i) => pc.Syncing? && i in s.cpu && i != c && i !in pc.seen
       case Poll(i) => pc.Syncing? && i in s.cpu && i in pc.seen
       case EndSync => pc.Syncing? && forall i :: i in s.cpu && i != c ==> i in pc.seen && pc.seen[i].Passed?
       case Free => pc.Reclaim?
  }

  /** prev->next = x, or *list_ptr = x at the front. */
  ghost function Store(s: State, k: nat, x: Id): (r: State)
    requires k < |s.list| && (k > 0 ==> s.list[k - 1] in s.heap)
  {
    if k == 0 then s.(head := x)
    else s.(heap := s.heap[s.list[k - 1] := s.heap[s.list[k - 1]].(next := x)])
  }

  ghost function Step(s: State, c: nat, a: Action): (t: State)
    requires Enabled(s, c, a)
  {
    var pc := s.cpu[c].pc;
    match a
    case Enter => s.Moved(c, Reading({}, set x | x in s.list))
    case LoadHead => s.Moved(c, Reading(pc.held + (if s.head == 0 then {} else {s.head}), pc.since))
    case Follow(x) => s.Moved(c, Reading(pc.held + (if s.Next(x) == 0 then {} else {s.Next(x)}), pc.since))
    case Exit => s.Moved(c, Outside)
    case SetIdle(b) => s.(cpu := s.cpu[c := s.cpu[c].(idle := b)])
    case Switch(k) => s.(cpu := s.cpu[c := s.cpu[c].(ctx := k)])
    case Alloc(x, pid) => s.(heap := s.heap[x := Node(pid, 0)]).Moved(c, Prepared(x))
    case Acquire => s.(lock := {c}).Moved(c, Locked(if pc.Prepared? then pc.new_ else 0))
    case NotFound => s.(lock := {}).Moved(c, if pc.new_ == 0 then Outside else Prepared(pc.new_))
    case LinkAdd => s.(heap := s.heap[pc.new_ := s.heap[pc.new_].(next := s.head)]).Moved(c, AddLinked(pc.new_))
    case PublishAdd => s.(head := pc.new_, list := [pc.new_] + s.list, cpu := s.Publish({pc.new_})).Moved(c, Releasing(0))
    case LinkUpdate(k) =>
      s.(heap := s.heap[pc.new_ := s.heap[pc.new_].(next := s.Next(s.list[k]))]).Moved(c, UpdLinked(pc.new_, s.list[k]))
    case PublishUpdate(k) =>
      Store(s, k, pc.new_).(list := s.list[k := pc.new_], cpu := s.Publish({pc.new_})).Moved(c, Releasing(pc.was))
    case Unlink(k) =>
      Store(s, k, s.Next(s.list[k])).(list := Without(s.list, k)).Moved(c, Releasing(s.list[k]))
    case Release => s.(lock := {}).Moved(c, if pc.was == 0 then Outside else Pending(pc.was))
    case StartSync => s.(lock := {c}).Moved(c, Syncing(pc.was, map[]))
    case TakeSample(i) => s.Moved(c, pc.(seen := pc.seen[i := if s.cpu[i].idle then Passed else Snap(s.cpu[i].ctx)]))
    case Poll(i) =>
      if pc.seen[i].Snap? && (s.cpu[i].idle || s.cpu[i].ctx != pc.seen[i].ctx)
      then s.Moved(c, pc.(seen := pc.seen[i := Passed])) else s
    case EndSync => s.(lock := {}).Moved(c, Reclaim(pc.was))
    case Free => s.(heap := s.heap - {pc.was}).Moved(c, Outside)
  }

  // -------------------------------------------------------------- invariant

  function At(list: seq<Id>, k: nat): (x: Id) {
    if k < |list| then list[k] else 0
  }

  /** The list from the head is exactly `list`. */
  ghost predicate Chain(heap: Heap, head: Id, list: seq<Id>) {
    && 0 !in heap
    && (forall k :: 0 <= k < |list| ==> list[k] in heap)
    && (forall j, k :: 0 <= j < k < |list| ==> list[j] != list[k])
    && head == At(list, 0)
    && (forall k :: 0 <= k < |list| ==> heap[list[k]].next == At(list, k + 1))
  }

  /** What a CPU owns is allocated and outside the list, and no two CPUs own the same node. */
  ghost predicate Ownership(s: State) {
    forall c :: c in s.cpu && Owns(s.cpu[c].pc) != 0 ==> Owns(s.cpu[c].pc) in s.heap && Owns(s.cpu[c].pc) !in s.list
  }

  ghost predicate Apart(cpu: map<nat, Cpu>) {
    && (forall c, d :: c in cpu && d in cpu && c != d && Owns(cpu[c].pc) != 0 ==> Owns(cpu[c].pc) != Owns(cpu[d].pc))
    && (forall c :: c in cpu && MustOwn(cpu[c].pc) ==> Owns(cpu[c].pc) != 0)
  }

  ghost predicate Locking(s: State) {
    && (forall c :: c in s.cpu && HoldsLock(s.cpu[c].pc) ==> s.lock == {c})
    && (forall c :: c in s.cpu && s.cpu[c].pc.AddLinked? ==>
          s.cpu[c].pc.new_ in s.heap && s.Next(s.cpu[c].pc.new_) == s.head)
    && (forall c :: c in s.cpu && s.cpu[c].pc.UpdLinked? ==>
          && s.cpu[c].pc.new_ in s.heap && s.cpu[c].pc.was in s.list && s.cpu[c].pc.was in s.heap
          && s.Next(s.cpu[c].pc.new_) == s.Next(s.cpu[c].pc.was))
  }

  /** What an open read section may reach: closed under next, containing the list, nothing private. */
  ghost predicate Section(heap: Heap, list: seq<Id>, held: set<Id>, since: set<Id>) {
    && held <= since && 0 !in since
    && (forall x :: x in since ==> x in heap && (heap[x].next == 0 || heap[x].next in since))
    && (forall x :: x in list ==> x in since)
  }

  ghost predicate Sections(s: State) {
    forall c :: c in s.cpu && s.cpu[c].pc.Reading? ==>
      Section(s.heap, s.list, s.cpu[c].pc.held, s.cpu[c].pc.since) && !s.cpu[c].idle
  }

  ghost predicate PrivateUnseen(cpu: map<nat, Cpu>) {
    forall c, d :: c in cpu && d in cpu && cpu[c].pc.Reading? && Private(cpu[d].pc)
      ==> cpu[d].pc.new_ !in cpu[c].pc.since
  }

  /** CPU i is past every read section that could still reach node x. */
  ghost predicate Clear(cpu: map<nat, Cpu>, i: nat, x: Id)
    requires i in cpu
  {
    cpu[i].pc.Reading? ==> x !in cpu[i].pc.since
  }

  ghost predicate Grace(cpu: map<nat, Cpu>) {
    && (forall w, i :: w in cpu && i in cpu && cpu[w].pc.Syncing? && i in cpu[w].pc.seen ==>
          match cpu[w].pc.seen[i]
          case Passed => Clear(cpu, i, cpu[w].pc.was)
          case Snap(k) => cpu[i].ctx != k ==> Clear(cpu, i, cpu[w].pc.was))
    && (forall w, i :: w in cpu && i in cpu && cpu[w].pc.Reclaim? ==> Clear(cpu, i, cpu[w].pc.was))
  }

  ghost predicate Inv(s: State) {
    && Chain(s.heap, s.head, s.list) && Ownership(s) && Apart(s.cpu) && Locking(s) && Sections(s) && PrivateUnseen(s.cpu) && Grace(s.cpu)
  }

  /** No reader ever holds a reclaimed node, nor would it step onto one. */
  ghost predicate Safe(s: State) {
    forall c, x :: c in s.cpu && s.cpu[c].pc.Reading? && x in s.cpu[c].pc.held ==>
      x in s.heap && (s.Next(x) == 0 || s.Next(x) in s.heap)
  }

  lemma InvSafe(s: State)
    requires Inv(s)
    ensures Safe(s)
  {
  }

  // ------------------------------------------------- stores and the list

  /** A store to a node outside the list, or its reclamation, leaves the list alone. */
  lemma ChainFrame(heap: Heap, heap': Heap, head: Id, list: seq<Id>)
    requires Chain(heap, head, list) && 0 !in heap'
    requires forall x :: x in list ==> x in heap' && heap'[x] == heap[x]
    ensures Chain(heap', head, list)
  {
  }

  /** Publishing `x` in place of the k-th node, whose successor it already has. */
  lemma ChainReplace(s: State, k: nat, x: Id)
    requires Chain(s.heap, s.head, s.list)
    requires k < |s.list| && x in s.heap && x !in s.list && s.Next(x) == s.Next(s.list[k])
    ensures var t := Store(s, k, x); Chain(t.heap, t.head, s.list[k := x])
  {
    var t, list := Store(s, k, x), s.list[k := x];
    assert k > 0 ==> s.list[k - 1] in s.heap && s.list[k - 1] in s.list;
    forall i | 0 <= i < |list| ensures list[i] in t.heap && t.heap[list[i]].next == At(list, i + 1) {
      assert s.heap[s.list[i]].next == At(s.list, i + 1);
      assert i + 1 != k ==> k > 0 ==> s.list[i] != s.list[k - 1];
    }
  }

  /** Storing the k-th node's successor into its predecessor removes it. */
  lemma ChainCut(s: State, k: nat)
    requires Chain(s.heap, s.head, s.list) && k < |s.list|
    ensures var t := Store(s, k, s.Next(s.list[k])); Chain(t.heap, t.head, Without(s.list, k))
  {
    var t, list := Store(s, k, s.Next(s.list[k])), Without(s.list, k);
    hide Without;
    assert k > 0 ==> s.list[k - 1] in s.heap;
    forall i | 0 <= i < |list| ensures list[i] in t.heap && t.heap[list[i]].next == At(list, i + 1) {
      var j := if i < k then i else i + 1;
      assert list[i] == s.list[j] && s.Next(s.list[j]) == At(s.list, j + 1) && s.Next(s.list[k]) == At(s.list, k + 1);
      assert i + 1 != k ==> k > 0 ==> s.list[j] != s.list[k - 1];
    }
  }

  lemma ChainClosed(heap: Heap, head: Id, list: seq<Id>)
    requires Chain(heap, head, list)
    ensures forall x :: x in list ==> x in heap && (heap[x].next == 0 || heap[x].next in list)
    ensures head == 0 || head in list
  {
    forall x | x in list ensures x in heap && (heap[x].next == 0 || heap[x].next in list) {
      var k :| 0 <= k < |list| && list[k] == x;
      assert heap[list[k]].next == At(list, k + 1);
    }
  }

  lemma NotTwice(list: seq<Id>, k: nat, x: Id)
    requires k < |list| && list[k] != x
    requires forall j, k :: 0 <= j < k < |list| ==> list[j] != list[k]
    ensures list[k] !in list[k := x] && list[k] !in Without(list, k)
    ensures forall y :: y in list[k := x] ==> y == x || y in list
    ensures forall y :: y in Without(list, k) ==> y in list
  {
  }

  // ----------------------------- the elementary changes a step is made of

  /** CPU c moves to x and the lock to l; the list and the heap stay. */
  ghost function Local(s: State, c: nat, x: Cpu, l: set<nat>): (t: State) {
    s.(cpu := s.cpu[c := x], lock := l)
  }

  ghost predicate LocalOwner(s: State, c: nat, x: Cpu) {
    && (Owns(x.pc) != 0 ==> Owns(x.pc) in s.heap && Owns(x.pc) !in s.list)
    && (forall d :: d in s.cpu && d != c && Owns(x.pc) != 0 ==> Owns(s.cpu[d].pc) != Owns(x.pc))
    && (MustOwn(x.pc) ==> Owns(x.pc) != 0)
    && (forall d :: d in s.cpu && d != c && s.cpu[d].pc.Reading? && Private(x.pc) ==> x.pc.new_ !in s.cpu[d].pc.since)
  }

  ghost predicate LocalLock(s: State, c: nat, x: Cpu, l: set<nat>)
    requires c in s.cpu
  {
    && (HoldsLock(x.pc) ==> l == {c})
    && (s.lock == {} || s.lock == l || HoldsLock(s.cpu[c].pc))
    && (x.pc.AddLinked? ==> x.pc.new_ in s.heap && s.Next(x.pc.new_) == s.head)
    && (x.pc.UpdLinked? ==>
          && x.pc.new_ in s.heap && x.pc.was in s.list && x.pc.was in s.heap
          && s.Next(x.pc.new_) == s.Next(x.pc.was))
  }

  ghost predicate LocalReader(s: State, c: nat, x: Cpu)
    requires c in s.cpu
  {
    && (x.pc.Reading? ==>
          && !x.idle && x.ctx == s.cpu[c].ctx && Section(s.heap, s.list, x.pc.held, x.pc.since)
          && ((s.cpu[c].pc.Reading? && x.pc.since == s.cpu[c].pc.since) || forall y :: y in x.pc.since ==> y in s.list))
  }

  ghost predicate LocalGrace(s: State, c: nat, x: Cpu) {
    && (x.pc.Syncing? ==> forall i :: i in s.cpu && i != c && i in x.pc.seen ==>
          match x.pc.seen[i]
          case Passed => Clear(s.cpu, i, x.pc.was)
          case Snap(k) => s.cpu[i].ctx != k ==> Clear(s.cpu, i, x.pc.was))
    && (x.pc.Reclaim? ==> forall i :: i in s.cpu && i != c ==> Clear(s.cpu, i, x.pc.was))
  }

  lemma LocalOwnerKept(s: State, c: nat, x: Cpu, l: set<nat>)
    requires c in s.cpu && Ownership(s) && Apart(s.cpu) && LocalOwner(s, c, x)
    ensures Ownership(Local(s, c, x, l)) && Apart(Local(s, c, x, l).cpu)
  {
  }

  lemma LocalLockKept(s: State, c: nat, x: Cpu, l: set<nat>)
    requires c in s.cpu && Locking(s) && LocalLock(s, c, x, l)
    ensures Locking(Local(s, c, x, l))
  {
  }

  lemma LocalReaderKept(s: State, c: nat, x: Cpu, l: set<nat>)
    requires c in s.cpu && Sections(s) && LocalReader(s, c, x)
    ensures Sections(Local(s, c, x, l))
  {
    hide Section;
  }

  lemma LocalPrivateKept(s: State, c: nat, x: Cpu, l: set<nat>)
    requires c in s.cpu && Ownership(s) && PrivateUnseen(s.cpu) && LocalOwner(s, c, x) && LocalReader(s, c, x)
    ensures PrivateUnseen(Local(s, c, x, l).cpu)
  {
  }

  lemma LocalGraceKept(s: State, c: nat, x: Cpu, l: set<nat>)
    requires c in s.cpu && Ownership(s) && Grace(s.cpu) && LocalReader(s, c, x) && LocalGrace(s, c, x)
    ensures Grace(Local(s, c, x, l).cpu)
  {
  }

  lemma LocalKeeps(s: State, c: nat, x: Cpu, l: set<nat>)
    requires Inv(s) && c in s.cpu
    requires LocalOwner(s, c, x) && LocalLock(s, c, x, l) && LocalReader(s, c, x) && LocalGrace(s, c, x)
    ensures Inv(Local(s, c, x, l))
  {
    LocalOwnerKept(s, c, x, l);
    LocalLockKept(s, c, x, l);
    LocalReaderKept(s, c, x, l);
    LocalPrivateKept(s, c, x, l);
    LocalGraceKept(s, c, x, l);
    hide Chain, Ownership, Apart, Locking, Sections, PrivateUnseen, Grace;
  }

  /** The heap changes only at nodes that no list, read section or unpublished store depends on. */
  ghost predicate Reheapable(s: State, heap: Heap) {
    && 0 !in heap
    && (forall y :: y in s.list ==> y in heap && y in s.heap && heap[y] == s.heap[y])
    && (forall c, y :: c in s.cpu && s.cpu[c].pc.Reading? && y in s.cpu[c].pc.since ==>
          y in heap && y in s.heap && heap[y] == s.heap[y])
    && (forall c :: c in s.cpu && Owns(s.cpu[c].pc) != 0 ==> Owns(s.cpu[c].pc) in heap)
    && (forall c :: c in s.cpu && (s.cpu[c].pc.AddLinked? || s.cpu[c].pc.UpdLinked?) ==>
          s.cpu[c].pc.new_ in heap && s.cpu[c].pc.new_ in s.heap && heap[s.cpu[c].pc.new_] == s.heap[s.cpu[c].pc.new_])
  }

  lemma ReheapSections(s: State, heap: Heap)
    requires Sections(s) && Reheapable(s, heap)
    ensures Sections(s.(heap := heap))
  {
  }

  lemma ReheapLocking(s: State, heap: Heap)
    requires Locking(s) && Reheapable(s, heap)
    ensures Locking(s.(heap := heap))
  {
  }

  lemma ReheapKeeps(s: State, heap: Heap)
    requires Inv(s) && Reheapable(s, heap)
    ensures Inv(s.(heap := heap))
  {
    ChainFrame(s.heap, heap, s.head, s.list);
    ReheapSections(s, heap);
    ReheapLocking(s, heap);
    assert Ownership(s.(heap := heap));
    hide Chain, Sections, Locking, Ownership, Reheapable;
  }

  /** No store is waiting to be published. */
  ghost predicate Unlinked(s: State) {
    forall c :: c in s.cpu ==> !s.cpu[c].pc.AddLinked? && !s.cpu[c].pc.UpdLinked?
  }

  /** The list changes to `list`, by stores to existing nodes, taking in the nodes `add`. */
  ghost function Relist(s: State, heap: Heap, head: Id, list: seq<Id>, add: set<Id>): (t: State) {
    State(heap, head, list, s.lock, s.Publish(add))
  }

  ghost predicate Relistable(s: State, heap: Heap, list: seq<Id>, add: set<Id>) {
    && heap.Keys == s.heap.Keys && add <= heap.Keys
    && (forall y :: y in list ==> y in s.list || y in add)
    && (forall c, x :: c in s.cpu && x in add ==> Clear(s.cpu, c, x) && Owns(s.cpu[c].pc) != x)
    && (forall y :: y in heap ==> heap[y].next == 0 || heap[y].next in list || (y !in add && heap[y].next == s.heap[y].next))
  }

  lemma RelistOwner(s: State, heap: Heap, head: Id, list: seq<Id>, add: set<Id>)
    requires Ownership(s) && Apart(s.cpu) && Relistable(s, heap, list, add)
    ensures Ownership(Relist(s, heap, head, list, add)) && Apart(Relist(s, heap, head, list, add).cpu)
  {
  }

  lemma RelistSections(s: State, heap: Heap, head: Id, list: seq<Id>, add: set<Id>)
    requires Chain(s.heap, s.head, s.list) && Sections(s) && Relistable(s, heap, list, add)
    ensures Sections(Relist(s, heap, head, list, add))
  {
    assert 0 !in add;
    hide Chain;
  }

  lemma RelistGrace(s: State, heap: Heap, head: Id, list: seq<Id>, add: set<Id>)
    requires Grace(s.cpu) && Relistable(s, heap, list, add)
    ensures Grace(Relist(s, heap, head, list, add).cpu)
  {
    var t := Relist(s, heap, head, list, add);
    forall w, i | w in t.cpu && i in t.cpu && (t.cpu[w].pc.Syncing? || t.cpu[w].pc.Reclaim?)
      ensures Clear(s.cpu, i, t.cpu[w].pc.was) ==> Clear(t.cpu, i, t.cpu[w].pc.was)
    {
      assert Owns(s.cpu[w].pc) == t.cpu[w].pc.was;
    }
    hide Relistable, Clear;
  }

  lemma RelistPrivate(s: State, heap: Heap, head: Id, list: seq<Id>, add: set<Id>)
    requires PrivateUnseen(s.cpu) && Relistable(s, heap, list, add)
    ensures PrivateUnseen(Relist(s, heap, head, list, add).cpu)
  {
  }

  lemma RelistKeeps(s: State, heap: Heap, head: Id, list: seq<Id>, add: set<Id>)
    requires Inv(s) && Unlinked(s) && Relistable(s, heap, list, add) && Chain(heap, head, list)
    ensures Inv(Relist(s, heap, head, list, add))
  {
    var t := Relist(s, heap, head, list, add);
    RelistOwner(s, heap, head, list, add);
    RelistSections(s, heap, head, list, add);
    RelistPrivate(s, heap, head, list, add);
    RelistGrace(s, heap, head, list, add);
    hide Chain, Ownership, Apart, Sections, PrivateUnseen, Grace, Relistable;
    assert Locking(t);
  }

  // ------------------------------------------------------ every step, every run

  lemma ReaderStep(s: State, c: nat, a: Action)
    requires Inv(s) && Enabled(s, c, a)
    requires a.Enter? || a.LoadHead? || a.Follow? || a.Exit?
    ensures Inv(Step(s, c, a))
  {
    hide Ownership, Apart, Locking, PrivateUnseen, Grace;
    var t := Step(s, c, a);
    ChainClosed(s.heap, s.head, s.list);
    hide Chain;
    assert t == Local(s, c, t.cpu[c], t.lock);
    assert LocalOwner(s, c, t.cpu[c]) && LocalLock(s, c, t.cpu[c], t.lock) && LocalReader(s, c, t.cpu[c]) && LocalGrace(s, c, t.cpu[c]);
    hide Inv, Step, LocalOwner, LocalLock, LocalReader, LocalGrace;
    LocalKeeps(s, c, t.cpu[c], t.lock);
  }

  lemma PremiseStep(s: State, c: nat, a: Action)
    requires Inv(s) && Enabled(s, c, a)
    requires a.SetIdle? || a.Switch?
    ensures Inv(Step(s, c, a))
  {
    var t := Step(s, c, a);
    assert t == Local(s, c, t.cpu[c], t.lock);
    hide Chain;
    assert LocalOwner(s, c, t.cpu[c]) && LocalLock(s, c, t.cpu[c], t.lock) && LocalReader(s, c, t.cpu[c]) && LocalGrace(s, c, t.cpu[c]);
    hide Inv, Step, LocalOwner, LocalLock, LocalReader, LocalGrace;
    LocalKeeps(s, c, t.cpu[c], t.lock);
  }

  lemma LockStep(s: State, c: nat, a: Action)
    requires Inv(s) && Enabled(s, c, a)
    requires a.Acquire? || a.NotFound? || a.Release? || a.StartSync?
    ensures Inv(Step(s, c, a))
  {
    hide Chain, Grace;
    var t := Step(s, c, a);
    assert t == Local(s, c, t.cpu[c], t.lock);
    assert LocalOwner(s, c, t.cpu[c]) && LocalLock(s, c, t.cpu[c], t.lock) && LocalReader(s, c, t.cpu[c]) && LocalGrace(s, c, t.cpu[c]);
    hide Inv, Step, LocalOwner, LocalLock, LocalReader, LocalGrace;
    LocalKeeps(s, c, t.cpu[c], t.lock);
  }

  lemma TakeSampleStep(s: State, c: nat, i: nat)
    requires Inv(s) && Enabled(s, c, TakeSample(i))
    ensures Inv(Step(s, c, TakeSample(i)))
  {
    hide Chain, PrivateUnseen;
    var t := Step(s, c, TakeSample(i));
    assert t == Local(s, c, t.cpu[c], t.lock);
    assert LocalOwner(s, c, t.cpu[c]) && LocalLock(s, c, t.cpu[c], t.lock) && LocalReader(s, c, t.cpu[c]) && LocalGrace(s, c, t.cpu[c]);
    hide Inv, Step, LocalOwner, LocalLock, LocalReader, LocalGrace;
    LocalKeeps(s, c, t.cpu[c], t.lock);
  }

  lemma PollStep(s: State, c: nat, i: nat)
    requires Inv(s) && Enabled(s, c, Poll(i))
    ensures Inv(Step(s, c, Poll(i)))
  {
    hide Chain, PrivateUnseen;
    var t := Step(s, c, Poll(i));
    assert s.lock == {c};
    hide Locking;
    assert t == Local(s, c, t.cpu[c], t.lock);
    assert LocalOwner(s, c, t.cpu[c]) && LocalLock(s, c, t.cpu[c], t.lock) && LocalReader(s, c, t.cpu[c]) && LocalGrace(s, c, t.cpu[c]);
    hide Inv, Step, LocalOwner, LocalLock, LocalReader, LocalGrace;
    LocalKeeps(s, c, t.cpu[c], t.lock);
  }

  lemma EndSyncStep(s: State, c: nat)
    requires Inv(s) && Enabled(s, c, EndSync)
    ensures Inv(Step(s, c, EndSync))
  {
    hide Chain, PrivateUnseen;
    var t := Step(s, c, EndSync);
    assert t == Local(s, c, t.cpu[c], t.lock);
    assert LocalOwner(s, c, t.cpu[c]) && LocalLock(s, c, t.cpu[c], t.lock) && LocalReader(s, c, t.cpu[c]) && LocalGrace(s, c, t.cpu[c]);
    hide Inv, Step, LocalOwner, LocalLock, LocalReader, LocalGrace;
    LocalKeeps(s, c, t.cpu[c], t.lock);
  }

  lemma AllocStep(s: State, c: nat, a: Action)
    requires Inv(s) && Enabled(s, c, a) && a.Alloc?
    ensures Inv(Step(s, c, a))
  {
    hide Grace;
    var t := Step(s, c, a);
    var u := s.(heap := t.heap);
    assert Reheapable(s, t.heap);
    assert LocalOwner(u, c, t.cpu[c]) && LocalLock(u, c, t.cpu[c], s.lock) && LocalReader(u, c, t.cpu[c]) && LocalGrace(u, c, t.cpu[c]);
    assert t == Local(u, c, t.cpu[c], s.lock);
    hide Inv, Reheapable, Step, LocalOwner, LocalLock, LocalReader, LocalGrace;
    ReheapKeeps(s, t.heap);
    LocalKeeps(u, c, t.cpu[c], s.lock);
  }

  /** A private node can be written: nobody else depends on it. */
  lemma PrivateStore(s: State, c: nat, node: Node)
    requires Inv(s) && c in s.cpu && s.cpu[c].pc.Locked? && s.cpu[c].pc.new_ in s.heap
    ensures Reheapable(s, s.heap[s.cpu[c].pc.new_ := node])
  {
    hide Grace;
  }

  /** The links stored into a private node, then its owner's step. */
  lemma LinkKeeps(s: State, c: nat, node: Node, pc: Pc)
    requires Inv(s) && c in s.cpu && s.cpu[c].pc.Locked? && s.cpu[c].pc.new_ in s.heap
    requires
      || (pc == AddLinked(s.cpu[c].pc.new_) && node.next == s.head)
      || (pc.UpdLinked? && pc.new_ == s.cpu[c].pc.new_ && pc.was in s.list && pc.was in s.heap && node.next == s.Next(pc.was))
    ensures Inv(s.(heap := s.heap[s.cpu[c].pc.new_ := node]).Moved(c, pc))
  {
    var u := s.(heap := s.heap[s.cpu[c].pc.new_ := node]);
    var x := s.cpu[c].(pc := pc);
    assert LocalOwner(u, c, x) && LocalLock(u, c, x, s.lock) by { hide Sections, Grace; }
    hide Inv, LocalOwner, LocalLock;
    PrivateStore(s, c, node);
    ReheapKeeps(s, u.heap);
    LocalKeeps(u, c, x, s.lock);
  }

  /** The state after CPU c frees what it removed, whether or not it waited. */
  ghost function FreedNow(s: State, c: nat): (t: State)
    requires c in s.cpu && (s.cpu[c].pc.Pending? || s.cpu[c].pc.Reclaim?)
  {
    Local(s, c, s.cpu[c].(pc := Outside), s.lock).(heap := s.heap - {s.cpu[c].pc.was})
  }

  lemma DropReheapable(s: State, x: Id)
    requires Chain(s.heap, s.head, s.list) && Ownership(s) && Apart(s.cpu) && Sections(s) && x !in s.list
    requires forall d :: d in s.cpu ==> Clear(s.cpu, d, x) && Owns(s.cpu[d].pc) != x
    ensures Reheapable(s, s.heap - {x})
  {
    assert forall y :: y in s.list ==> y in s.heap;
    assert 0 !in s.heap;
    hide Chain;
  }

  /** Freeing a removed node that no open section may still reach is safe. */
  lemma DropKeeps(s: State, c: nat)
    requires Inv(s) && c in s.cpu && (s.cpu[c].pc.Pending? || s.cpu[c].pc.Reclaim?) && s.cpu[c].pc.was != 0
    requires forall i :: i in s.cpu ==> Clear(s.cpu, i, s.cpu[c].pc.was)
    ensures Inv(FreedNow(s, c))
  {
    var x, was := s.cpu[c].(pc := Outside), s.cpu[c].pc.was;
    var u := Local(s, c, x, s.lock);
    assert was !in u.list;
    assert forall d :: d in u.cpu ==> Clear(u.cpu, d, was) && Owns(u.cpu[d].pc) != was;
    hide Clear, Ownership, Apart, Locking, Sections, PrivateUnseen, Grace, Chain;
    LocalKeeps(s, c, x, s.lock);
    DropReheapable(u, was);
    ReheapKeeps(u, u.heap - {was});
  }

  lemma FreeStep(s: State, c: nat)
    requires Inv(s) && Enabled(s, c, Free)
    ensures Inv(Step(s, c, Free))
  {
    assert forall i :: i in s.cpu ==> Clear(s.cpu, i, s.cpu[c].pc.was);
    assert s.cpu[c].pc.was != 0;
    hide Inv, Clear;
    DropKeeps(s, c);
  }

  ghost predicate ListStep(a: Action) { a.PublishAdd? || a.PublishUpdate? || a.Unlink? }

  /** The state just before the store, the writer no longer counting the new node as its own. */
  ghost function HandedOver(s: State, c: nat): (u: State)
    requires c in s.cpu
  {
    Local(s, c, s.cpu[c].(pc := Releasing(0)), s.lock)
  }

  ghost function Added(s: State, c: nat, a: Action): (add: set<Id>)
    requires Enabled(s, c, a) && ListStep(a)
  {
    if a.Unlink? then {} else {s.cpu[c].pc.new_}
  }

  lemma ListStepChain(s: State, c: nat, a: Action)
    requires Inv(s) && Enabled(s, c, a) && ListStep(a)
    ensures var t := Step(s, c, a); Chain(t.heap, t.head, t.list)
  {
    match a
    case PublishAdd =>
    case PublishUpdate(k) => ChainReplace(s, k, s.cpu[c].pc.new_);
    case Unlink(k) => ChainCut(s, k);
  }

  /** The store goes to a node of the new list, which is the old one but for the nodes added and cut. */
  lemma ListStepStore(s: State, c: nat, a: Action)
    requires Chain(s.heap, s.head, s.list) && Ownership(s) && Enabled(s, c, a) && ListStep(a)
    ensures var t := Step(s, c, a); t.heap.Keys == s.heap.Keys
    ensures var t := Step(s, c, a); forall y :: y in s.heap && y !in t.list ==> t.heap[y] == s.heap[y]
    ensures var t := Step(s, c, a); forall y :: y in t.list ==> y in s.list || y in Added(s, c, a)
    ensures var t := Step(s, c, a); forall y :: y in Added(s, c, a) ==> y in t.list
  {
    match a
    case PublishAdd =>
    case PublishUpdate(k) =>
      assert k > 0 ==> s.list[k := s.cpu[c].pc.new_][k - 1] == s.list[k - 1];
      assert s.list[k := s.cpu[c].pc.new_][k] == s.cpu[c].pc.new_;
    case Unlink(k) => assert k > 0 ==> Without(s.list, k)[k - 1] == s.list[k - 1];
  }

  lemma AddedUnseen(s: State, c: nat, a: Action)
    requires Inv(s) && Enabled(s, c, a) && ListStep(a)
    ensures Unlinked(HandedOver(s, c)) && Added(s, c, a) <= s.heap.Keys
    ensures var u := HandedOver(s, c); forall d, x :: d in u.cpu && x in Added(s, c, a) ==> Clear(u.cpu, d, x) && Owns(u.cpu[d].pc) != x
  {
    hide Chain, Section, Grace;
  }

  lemma ListStepRelistable(s: State, c: nat, a: Action)
    requires Inv(s) && Enabled(s, c, a) && ListStep(a)
    ensures var t := Step(s, c, a); Relistable(HandedOver(s, c), t.heap, t.list, Added(s, c, a))
  {
    var t := Step(s, c, a);
    ListStepStore(s, c, a);
    ListStepChain(s, c, a);
    ChainClosed(t.heap, t.head, t.list);
    AddedUnseen(s, c, a);
    hide Chain, Ownership, Apart, Locking, Sections, PrivateUnseen, Grace, Clear;
  }

  /** What the writer takes away is what the store removed. */
  lemma ListStepRemoved(s: State, c: nat, a: Action)
    requires Chain(s.heap, s.head, s.list) && Ownership(s) && Enabled(s, c, a) && ListStep(a)
    ensures Step(s, c, a).cpu[c].pc.Releasing?
    ensures var t := Step(s, c, a); var was := t.cpu[c].pc.was; was != 0 ==> was in t.heap && was in s.list && was !in t.list
  {
    match a
    case PublishAdd =>
    case PublishUpdate(k) => NotTwice(s.list, k, s.cpu[c].pc.new_);
    case Unlink(k) => NotTwice(s.list, k, 0);
  }

  lemma TakeOwner(s: State, v: State, c: nat, x: Cpu)
    requires Ownership(s) && x.pc.Releasing? && (x.pc.was != 0 ==> x.pc.was in s.list && x.pc.was in v.heap && x.pc.was !in v.list)
    requires v.cpu.Keys == s.cpu.Keys && forall d :: d in s.cpu && d != c ==> Owns(v.cpu[d].pc) == Owns(s.cpu[d].pc)
    ensures LocalOwner(v, c, x)
  {
  }

  /** The step is those three changes: hand over, store, take the removed node. */
  lemma SameStep(s: State, c: nat, a: Action)
    requires Enabled(s, c, a) && ListStep(a)
    ensures var t := Step(s, c, a); t == Local(Relist(HandedOver(s, c), t.heap, t.head, t.list, Added(s, c, a)), c, t.cpu[c], t.lock)
  {
    var t := Step(s, c, a);
    var u := Local(Relist(HandedOver(s, c), t.heap, t.head, t.list, Added(s, c, a)), c, t.cpu[c], t.lock);
    forall d | d in t.cpu ensures d in u.cpu && t.cpu[d] == u.cpu[d] {
      assert s.cpu[d].pc.Reading? ==> s.cpu[d].pc.since + {} == s.cpu[d].pc.since;
    }
    assert t.cpu.Keys == u.cpu.Keys;
    assert t.cpu == u.cpu;
  }

  lemma HandOverKeeps(s: State, c: nat)
    requires Inv(s) && c in s.cpu && s.lock == {c}
    ensures Inv(HandedOver(s, c))
  {
    hide Chain, Ownership, Apart, Locking, Sections, PrivateUnseen, Grace;
    LocalKeeps(s, c, s.cpu[c].(pc := Releasing(0)), s.lock);
  }

  lemma TakeKeeps(v: State, c: nat, x: Cpu)
    requires Inv(v) && c in v.cpu && v.lock == {c} && x.pc.Releasing? && LocalOwner(v, c, x)
    ensures Inv(Local(v, c, x, v.lock))
  {
    hide Chain, Ownership, Apart, Locking, Sections, PrivateUnseen, Grace, LocalOwner;
    LocalKeeps(v, c, x, v.lock);
  }

  lemma PublishFacts(s: State, c: nat, a: Action)
    requires Inv(s) && Enabled(s, c, a) && ListStep(a)
    ensures s.lock == Step(s, c, a).lock == {c} && Step(s, c, a).cpu[c].pc.Releasing?
    ensures var t := Step(s, c, a);
            LocalOwner(Relist(HandedOver(s, c), t.heap, t.head, t.list, Added(s, c, a)), c, t.cpu[c])
  {
    hide Sections, PrivateUnseen, Grace, Apart;
    var t := Step(s, c, a);
    ListStepRemoved(s, c, a);
    TakeOwner(s, Relist(HandedOver(s, c), t.heap, t.head, t.list, Added(s, c, a)), c, t.cpu[c]);
  }

  lemma PublishStep(s: State, c: nat, a: Action)
    requires Inv(s) && Enabled(s, c, a) && ListStep(a)
    ensures Inv(Step(s, c, a))
  {
    hide Inv, Chain, Step, Added, Relistable, Unlinked, LocalOwner;
    var t, u, add := Step(s, c, a), HandedOver(s, c), Added(s, c, a);
    var v := Relist(u, t.heap, t.head, t.list, add);
    ListStepChain(s, c, a);
    ListStepRelistable(s, c, a);
    AddedUnseen(s, c, a);
    SameStep(s, c, a);
    PublishFacts(s, c, a);
    HandOverKeeps(s, c);
    RelistKeeps(u, t.heap, t.head, t.list, add);
    TakeKeeps(v, c, t.cpu[c]);
  }

  lemma StepInv(s: State, c: nat, a: Action)
    requires Inv(s) && Enabled(s, c, a)
    ensures Inv(Step(s, c, a))
  {
    hide Inv;
    if a.Enter? || a.LoadHead? || a.Follow? || a.Exit? {
      ReaderStep(s, c, a);
    } else if a.SetIdle? || a.Switch? {
      PremiseStep(s, c, a);
    } else if a.Acquire? || a.NotFound? || a.Release? || a.StartSync? {
      LockStep(s, c, a);
    } else if a.TakeSample? {
      TakeSampleStep(s, c, a.i);
    } else if a.Poll? {
      PollStep(s, c, a.i);
    } else if a.EndSync? {
      EndSyncStep(s, c);
    } else if a.Alloc? {
      AllocStep(s, c, a);
    } else if a.LinkAdd? {
      LinkKeeps(s, c, s.heap[s.cpu[c].pc.new_].(next := s.head), AddLinked(s.cpu[c].pc.new_));
    } else if a.LinkUpdate? {
      var was := s.list[a.k];
      LinkKeeps(s, c, s.heap[s.cpu[c].pc.new_].(next := s.Next(was)), UpdLinked(s.cpu[c].pc.new_, was));
    } else if a.Free? {
      FreeStep(s, c);
    } else {
      PublishStep(s, c, a);
    }
  }

  /** Any number of CPUs, none of them reading or writing, over any well-formed list. */
  ghost predicate Start(s: State) {
    && Chain(s.heap, s.head, s.list) && s.lock == {}
    && forall c :: c in s.cpu ==> s.cpu[c].pc.Outside?
  }

  datatype Event = Event(cpu: nat, action: Action)

  /** Each state follows from the one before by one CPU's step. */
  ghost predicate Steps(states: seq<State>, events: seq<Event>) {
    && |states| == |events| + 1
    && forall k :: 0 <= k < |events| ==>
         Enabled(states[k], events[k].cpu, events[k].action)
         && states[k + 1] == Step(states[k], events[k].cpu, events[k].action)
  }

  /** `states` is a run from the start. */
  ghost predicate Run(states: seq<State>, events: seq<Event>) { Steps(states, events) && Start(states[0]) }

  lemma {:induction false} StepsInv(states: seq<State>, events: seq<Event>, k: nat)
    requires Steps(states, events) && Inv(states[0]) && k < |states|
    ensures Inv(states[k])
  {
    hide Step, Enabled, Inv;
    if k > 0 {
      StepsInv(states, events, k - 1);
      assert states[k] == Step(states[k - 1], events[k - 1].cpu, events[k - 1].action);
      StepInv(states[k - 1], events[k - 1].cpu, events[k - 1].action);
    }
  }

  lemma RunInv(states: seq<State>, events: seq<Event>, k: nat)
    requires Run(states, events) && k < |states|
    ensures Inv(states[k])
  {
    StartInv(states[0]);
    hide Step, Enabled, Inv;
    StepsInv(states, events, k);
  }

  lemma StartInv(s: State)
    requires Start(s)
    ensures Inv(s)
  {
  }

  /** No interleaving takes a reader to a reclaimed node. */
  lemma ReclamationSafe(states: seq<State>, events: seq<Event>)
    requires Run(states, events)
    ensures forall k :: 0 <= k < |states| ==> Safe(states[k])
  {
    hide Run, Safe, Inv;
    forall k | 0 <= k < |states| ensures Safe(states[k]) {
      RunInv(states, events, k);
      InvSafe(states[k]);
    }
  }

  // --------------------------------------------- what the grace period is for

  /** Five steps: CPU 0 enters and loads the head; CPU 1 takes the lock, unlinks that node, releases. */
  ghost function Early(k: nat): (s: State) {
    var reader := if k == 0 then Outside else if k == 1 then Reading({}, {1}) else Reading({1}, {1});
    var writer := if k <= 2 then Outside else if k == 3 then Locked(0) else if k == 4 then Releasing(1) else Pending(1);
    State(map[1 := Node(7, 0)], if k <= 3 then 1 else 0, if k <= 3 then [1] else [],
          if k == 3 || k == 4 then {1} else {}, map[0 := Cpu(reader, 0, false), 1 := Cpu(writer, 0, false)])
  }

  ghost function EarlyEvent(k: nat): (e: Event) {
    if k == 0 then Event(0, Enter) else if k == 1 then Event(0, LoadHead) else if k == 2 then Event(1, Acquire)
    else if k == 3 then Event(1, Unlink(0)) else Event(1, Release)
  }

  lemma EarlyStep(k: nat)
    requires k < 5
    ensures Enabled(Early(k), EarlyEvent(k).cpu, EarlyEvent(k).action)
    ensures Early(k + 1) == Step(Early(k), EarlyEvent(k).cpu, EarlyEvent(k).action)
  {
    var t := Step(Early(k), EarlyEvent(k).cpu, EarlyEvent(k).action);
    if k == 0 {
      assert t.cpu[0].pc.since == {1};
    }
    if k == 1 {
      assert t.cpu[0].pc.held == {1};
    }
    assert t.cpu[0] == Early(k + 1).cpu[0] && t.cpu[1] == Early(k + 1).cpu[1];
    assert t.cpu == Early(k + 1).cpu;
  }

  /** Without the wait it is not: a run after which freeing the removed node strands a reader on it. */
  lemma EarlyFreeUnsafe() returns (states: seq<State>, events: seq<Event>)
    ensures Run(states, events) && 1 in states[|events|].cpu && states[|events|].cpu[1].pc.Pending?
    ensures !Safe(FreedNow(states[|events|], 1))
  {
    states, events := seq(6, k requires 0 <= k => Early(k)), seq(5, k requires 0 <= k => EarlyEvent(k));
    forall k | 0 <= k < 5
      ensures Enabled(states[k], events[k].cpu, events[k].action) && states[k + 1] == Step(states[k], events[k].cpu, events[k].action)
    {
      hide Step, Enabled, Early;
      EarlyStep(k);
    }
    assert 1 in FreedNow(Early(5), 1).cpu[0].pc.held && 1 !in FreedNow(Early(5), 1).heap;
  }
}
