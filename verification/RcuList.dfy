/**
 The process list's writers, store by store. Each holds the writers' lock
 throughout, so only readers run beside them; `views` records what a traversal
 from the head would give after every store a reader can notice.
 */
module RcuList {
  import opened Counting

  class Node {
    const pid: int // process->pid
    var next: Node?

    constructor (pid: int)
      ensures this.pid == pid && next == null
    {
      this.pid := pid;
      next := null;
    }
  }

  /** Following `next` from x to the end passes exactly through s. */
  ghost predicate IsChain(x: Node?, s: seq<Node>)
    reads s
  {
    && x == At(s, 0)
    && forall k :: 0 <= k < |s| ==> s[k].next == At(s, k + 1)
  }

  ghost function At(s: seq<Node>, k: nat): (x: Node?) {
    if k < |s| then s[k] else null
  }

  /** Two traversals from the same pointer agree. */
  lemma {:induction false} ChainUnique(x: Node?, s: seq<Node>, t: seq<Node>)
    requires IsChain(x, s) && IsChain(x, t)
    ensures s == t
  {
    if |s| > 0 && |t| > 0 {
      assert s[0] == t[0];
      assert IsChain(s[0].next, s[1..]) by {
        forall k | 0 <= k < |s[1..]| ensures s[1..][k].next == At(s[1..], k + 1) { assert s[1..][k] == s[k + 1]; }
      }
      assert IsChain(t[0].next, t[1..]) by {
        forall k | 0 <= k < |t[1..]| ensures t[1..][k].next == At(t[1..], k + 1) { assert t[1..][k] == t[k + 1]; }
      }
      ChainUnique(s[0].next, s[1..], t[1..]);
      assert s == [s[0]] + s[1..] && t == [t[0]] + t[1..];
    }
  }

  /** A chain passes through no node twice. */
  lemma ChainDistinct(x: Node?, s: seq<Node>)
    requires IsChain(x, s)
    ensures forall i, j :: 0 <= i < j < |s| ==> s[i] != s[j]
  {
    forall i, j | 0 <= i < j < |s| ensures s[i] != s[j] {
      if s[i] == s[j] {
        Tail(x, s, i);
        Tail(x, s, j);
        assert |s[i..]| != |s[j..]|;
        ChainUnique(s[i], s[i..], s[j..]);
      }
    }
  }

  lemma Tail(x: Node?, s: seq<Node>, i: nat)
    requires IsChain(x, s) && i < |s|
    ensures IsChain(s[i], s[i..])
  {
    forall k | 0 <= k < |s[i..]| ensures s[i..][k].next == At(s[i..], k + 1) {
      assert s[i..][k] == s[i + k];
    }
  }

  /** With node k - 1, or the head, leading past node k, the chain is the one without it. */
  lemma CutChain(head: Node?, s: seq<Node>, k: nat)
    requires k < |s| && head == (if k == 0 then At(s, 1) else s[0])
    requires forall i :: 0 <= i < |s| && i + 1 != k ==> s[i].next == At(s, i + 1)
    requires k > 0 ==> s[k - 1].next == At(s, k + 1)
    ensures IsChain(head, Without(s, k)) && IsChain(s[k], s[k..])
  {
    var r := Without(s, k);
    hide Without;
    forall i | 0 <= i < |r| ensures r[i].next == At(r, i + 1) {
      assert r[i] == s[if i < k then i else i + 1];
    }
    forall i | 0 <= i < |s[k..]| ensures s[k..][i].next == At(s[k..], i + 1) {
      assert s[k..][i] == s[k + i];
    }
  }

  /** k is the first node of process pid, or the length when there is none. */
  ghost predicate First(s: seq<Node>, pid: int, k: nat) {
    && k <= |s| && (k < |s| ==> s[k].pid == pid)
    && forall j :: 0 <= j < k ==> s[j].pid != pid
  }

  class List {
    var head: Node?
    ghost var nodes: seq<Node>
    ghost var views: seq<seq<Node>>

    /** init_list() */
    constructor ()
      ensures Valid() && nodes == [] && views == []
    {
      head := null;
      nodes := [];
      views := [];
    }

    ghost predicate Valid()
      reads this, nodes
    {
      IsChain(head, nodes)
    }

    /** Every view recorded since `before` is the old list or the new one. */
    ghost predicate OldOrNew(before: nat, was: seq<Node>)
      reads this
    {
      before <= |views| && forall v :: before <= v < |views| ==> views[v] == was || views[v] == nodes
    }

    /** The list as a reader entering now would walk it. */
    ghost method Observe()
      requires Valid()
      modifies this`views
      ensures views == old(views) + [nodes]
    {
      views := views + [nodes];
    }

    method Add(node: Node)
      requires Valid() && node !in nodes
      modifies this, node`next
      ensures Valid() && nodes == [node] + old(nodes)
      ensures old(views) <= views && |views| == |old(views)| + 2 && OldOrNew(|old(views)|, old(nodes))
    {
      node.next := head;
      Observe();
      head := node;
      nodes := [node] + nodes;
      Observe();
    }

    /** The publishing store of an update: prev->next = node, or *list_ptr = node at the front. */
    method Replace(prev: Node?, node: Node, ghost k: nat)
      requires Valid() && k < |nodes| && node !in nodes && node.next == nodes[k].next
      requires prev == if k == 0 then null else nodes[k - 1]
      modifies `head, `nodes, `views, (if prev == null then {} else {prev})`next
      ensures Valid() && nodes == old(nodes)[k := node] && views == old(views) + [nodes]
      ensures IsChain(old(nodes)[k], old(nodes)[k..])
    {
      ChainDistinct(head, nodes);
      Tail(head, nodes, k);
      ghost var was := nodes;
      if prev == null {
        head := node;
      } else {
        prev.next := node;
      }
      nodes := nodes[k := node];
      assert forall i :: 0 <= i < |was| && i + 1 != k ==> was[i].next == old(was[i].next);
      assert Valid() by {
        forall i | 0 <= i < |nodes| ensures nodes[i].next == At(nodes, i + 1) {
          assert was[i].next == old(was[i].next) || i + 1 == k;
        }
      }
      Observe();
    }

    /** The two stores of an update, in order: the new node's link, then its publication. */
    method Substitute(prev: Node?, current: Node, node: Node, ghost k: nat)
      requires Valid() && k < |nodes| && current == nodes[k] && node !in nodes
      requires prev == if k == 0 then null else nodes[k - 1]
      modifies `head, `nodes, `views, node`next, (if prev == null then {} else {prev})`next
      ensures Valid() && nodes == old(nodes)[k := node] && views == old(views) + [old(nodes)] + [nodes]
      ensures IsChain(current, old(nodes)[k..])
    {
      node.next := current.next;
      Observe();
      Replace(prev, node, k);
    }

    /** The store that unlinks: prev->next = current->next, or *list_ptr = current->next at the front. */
    method Cut(prev: Node?, current: Node, ghost k: nat)
      requires Valid() && k < |nodes| && current == nodes[k]
      requires prev == if k == 0 then null else nodes[k - 1]
      modifies `head, `nodes, `views, (if prev == null then {} else {prev})`next
      ensures Valid() && nodes == Without(old(nodes), k) && views == old(views) + [nodes]
      ensures IsChain(current, old(nodes)[k..])
    {
      hide Without;
      ChainDistinct(head, nodes);
      ghost var was := nodes;
      if prev == null {
        head := current.next;
      } else {
        prev.next := current.next;
      }
      assert forall i :: 0 <= i < |was| && i + 1 != k ==> was[i].next == At(was, i + 1);
      CutChain(head, was, k);
      nodes := Without(was, k);
      Observe();
    }

    /** Nothing has been stored since the list was `was`, and the walk stands at node k. */
    ghost predicate Walking(was: seq<Node>, pid: int, prev: Node?, current: Node?, k: nat)
      reads this, nodes
    {
      && Valid() && nodes == was && 0 < k <= |nodes| && prev == nodes[k - 1] && current == At(nodes, k)
      && forall j :: 0 <= j < k ==> nodes[j].pid != pid
    }

    /** Node k gave way to `node`; it still leads to the end of the list. */
    ghost predicate Updated(was: seq<Node>, pid: int, node: Node, free: Node?, k: nat, views0: seq<seq<Node>>)
      reads this, nodes, was
    {
      && Valid() && First(was, pid, k) && k < |was| && nodes == was[k := node]
      && free == was[k] && IsChain(free, was[k..]) && views == views0 + [was] + [nodes]
    }

    /**
     list_update_rcu(): the node of process pid gives way to `node`, and is
     returned in `free`; found is false when no node is of that process.
     The empty list, whose null head the code would follow, is excluded.
     */
    method Update(node: Node, pid: int) returns (found: bool, free: Node?, ghost k: nat)
      requires Valid() && nodes != [] && node !in nodes
      modifies this, nodes, node`next
      ensures found ==> Updated(old(nodes), pid, node, free, k, old(views))
      ensures !found ==> Valid() && nodes == old(nodes) && views == old(views) && free == null && First(nodes, pid, |nodes|)
    {
      found, free, k := false, null, 0;
      var current: Node? := head;
      if current.pid == pid {
        free := current;
        Substitute(null, current, node, k);
        return true, free, k;
      }
      var prev := current;
      current, k := current.next, 1;
      while current != null && !found
        invariant !found ==> Walking(old(nodes), pid, prev, current, k) && views == old(views) && free == null
        invariant found ==> Updated(old(nodes), pid, node, free, k, old(views))
        decreases |old(nodes)| - k, !found
      {
        if current.pid == pid {
          Substitute(prev, current, node, k);
          free, found := current, true;
        } else {
          current, prev, k := current.next, prev.next, k + 1;
        }
      }
    }

    /** Node k left the list; it still leads to the end. */
    ghost predicate Deleted(was: seq<Node>, free: Node?, k: nat, views0: seq<seq<Node>>)
      reads this, nodes, was
    {
      && Valid() && k < |was| && nodes == Without(was, k)
      && free == was[k] && IsChain(free, was[k..]) && views == views0 + [nodes]
    }

    /** list_del_from_proc_rcu(): as Update, but the node leaves the list. */
    method DelFromProc(pid: int) returns (found: bool, free: Node?, ghost k: nat)
      requires Valid() && nodes != []
      modifies this, nodes
      ensures found ==> First(old(nodes), pid, k) && Deleted(old(nodes), free, k, old(views))
      ensures !found ==> Valid() && nodes == old(nodes) && views == old(views) && free == null && First(nodes, pid, |nodes|)
    {
      found, free, k := false, null, 0;
      var current: Node? := head;
      if current.pid == pid {
        free := current;
        Cut(null, current, k);
        return true, free, k;
      }
      var prev := current;
      current, k := current.next, 1;
      while current != null && !found
        invariant !found ==> Walking(old(nodes), pid, prev, current, k) && views == old(views) && free == null
        invariant found ==> First(old(nodes), pid, k) && Deleted(old(nodes), free, k, old(views))
        decreases |old(nodes)| - k, !found
      {
        if current.pid == pid {
          Cut(prev, current, k);
          free, found := current, true;
        } else {
          current, prev, k := current.next, prev.next, k + 1;
        }
      }
    }

    /** list_del_rcu(): removes that very node, if listed; panics (ok false) on the empty list. */
    method Del(node: Node) returns (ok: bool, ghost k: nat)
      requires Valid()
      modifies this, nodes
      ensures ok <==> old(nodes) != []
      ensures node in old(nodes) ==> Deleted(old(nodes), node, k, old(views))
      ensures node !in old(nodes) ==> Valid() && nodes == old(nodes) && views == old(views)
    {
      k := 0;
      if head == null { return false, k; }
      ok := true;
      var current: Node? := head;
      if current == node {
        Cut(null, current, k);
        return;
      }
      var prev := current;
      current, k := current.next, 1;
      var found := false;
      while current != null && !found
        invariant !found ==> Valid() && nodes == old(nodes) && views == old(views)
        invariant !found ==> 0 < k <= |nodes| && prev == nodes[k - 1] && current == At(nodes, k) && node !in nodes[..k]
        invariant found ==> Deleted(old(nodes), node, k, old(views))
        decreases |old(nodes)| - k, !found
      {
        if current == node {
          Cut(prev, current, k);
          found := true;
        } else {
          current, prev, k := current.next, prev.next, k + 1;
        }
      }
    }
  }
}
