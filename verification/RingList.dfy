/** libs/lists.h: a circular doubly linked list behind a holder that points to its first element. */
module RingList {
  import opened Arithmetic

  class Node {
    var next: Node?
    var prev: Node?

    constructor ()
      ensures next == null && prev == null
    {
      next, prev := null, null;
    }
  }

  /** The neighbours of position i on a ring of n elements. */
  function After(n: nat, i: nat): nat { if i + 1 == n then 0 else i + 1 }
  function Before(n: nat, i: nat): nat
    requires i < n
  {
    if i == 0 then n - 1 else i - 1
  }

  ghost predicate Distinct(s: seq<Node>) {
    forall i, j | 0 <= i < j < |s| :: s[i] != s[j]
  }

  ghost predicate Forward(s: seq<Node>)
    reads s
  {
    forall i {:trigger s[i].next} | 0 <= i < |s| :: s[i].next == s[After(|s|, i)]
  }

  ghost predicate Backward(s: seq<Node>)
    reads s
  {
    forall i {:trigger s[i].prev} | 0 <= i < |s| :: s[i].prev == s[Before(|s|, i)]
  }

  /** The nodes of s, each once, linked to a ring in both directions. */
  ghost predicate Ring(s: seq<Node>)
    reads s
  {
    Distinct(s) && Forward(s) && Backward(s)
  }

  /** s with x at position k, or without its element k. */
  function Inserted(s: seq<Node>, k: nat, x: Node): (r: seq<Node>)
    requires k <= |s|
    ensures |r| == |s| + 1
    ensures forall i | 0 <= i < |r| :: r[i] == if i < k then s[i] else if i == k then x else s[i - 1]
  {
    s[..k] + [x] + s[k..]
  }

  function Removed(s: seq<Node>, k: nat): (r: seq<Node>)
    requires k < |s|
    ensures |r| == |s| - 1
    ensures forall i | 0 <= i < |r| :: r[i] == if i < k then s[i] else s[i + 1]
  {
    s[..k] + s[k + 1..]
  }

  /** Where a new element at position k is linked in: behind the element at `Left`, before the one at `Right`. */
  function Left(n: nat, k: nat): nat
    requires 0 < n && k <= n
  {
    if k == 0 then n - 1 else k - 1
  }

  function Right(n: nat, k: nat): nat
    requires 0 < n && k <= n
  {
    if k == n then 0 else k
  }

  lemma OnlyAt(s: seq<Node>, a: nat)
    requires Distinct(s) && a < |s|
    ensures forall i | 0 <= i < |s| && i != a :: s[i] != s[a]
  {
  }

  lemma InsertedDistinct(s: seq<Node>, k: nat, x: Node)
    requires Distinct(s) && x !in s && k <= |s|
    ensures Distinct(Inserted(s, k, x))
  {
  }

  lemma RemovedDistinct(s: seq<Node>, k: nat)
    requires Distinct(s) && k < |s|
    ensures Distinct(Removed(s, k))
  {
  }

  /** A ring in which x has been linked in at position k, and nothing else has been touched. */
  ghost predicate LinkedIn(s: seq<Node>, k: nat, x: Node)
    requires 0 < |s| && k <= |s|
    reads s, x
  {
    && x.next == s[Right(|s|, k)] && x.prev == s[Left(|s|, k)]
    && (forall i {:trigger s[i].next} | 0 <= i < |s| :: s[i].next == if i == Left(|s|, k) then x else s[After(|s|, i)])
    && (forall i {:trigger s[i].prev} | 0 <= i < |s| :: s[i].prev == if i == Right(|s|, k) then x
        else s[Before(|s|, i)])
  }

  lemma RingIn(s: seq<Node>, k: nat, x: Node)
    requires 0 < |s| && k <= |s| && Distinct(s) && x !in s && LinkedIn(s, k, x)
    ensures Ring(Inserted(s, k, x))
  {
    InsertedDistinct(s, k, x);
    hide Distinct;
    ForwardIn(s, k, x);
    BackwardIn(s, k, x);
  }

  lemma ForwardIn(s: seq<Node>, k: nat, x: Node)
    requires 0 < |s| && k <= |s| && LinkedIn(s, k, x)
    ensures Forward(Inserted(s, k, x))
  {
    var t := Inserted(s, k, x);
    forall i | 0 <= i < |t|
      ensures t[i].next == t[After(|t|, i)]
    {
      if i < k { assert t[i] == s[i]; } else if i > k { assert t[i] == s[i - 1]; }
    }
  }

  lemma BackwardIn(s: seq<Node>, k: nat, x: Node)
    requires 0 < |s| && k <= |s| && LinkedIn(s, k, x)
    ensures Backward(Inserted(s, k, x))
  {
    var t := Inserted(s, k, x);
    forall i | 0 <= i < |t|
      ensures t[i].prev == t[Before(|t|, i)]
    {
      if i < k { assert t[i] == s[i]; } else if i > k { assert t[i] == s[i - 1]; }
    }
  }

  /** A ring from which element k has been linked out, and nothing else has been touched. */
  ghost predicate LinkedOut(s: seq<Node>, k: nat)
    requires k < |s|
    reads s
  {
    && (forall i {:trigger s[i].next} | 0 <= i < |s| && i != k ::
        s[i].next == s[if i == Before(|s|, k) then After(|s|, k) else After(|s|, i)])
    && (forall i {:trigger s[i].prev} | 0 <= i < |s| && i != k ::
        s[i].prev == s[if i == After(|s|, k) then Before(|s|, k) else Before(|s|, i)])
  }

  lemma RingOut(s: seq<Node>, k: nat)
    requires 1 < |s| && k < |s| && Distinct(s) && LinkedOut(s, k)
    ensures Ring(Removed(s, k))
  {
    var t := Removed(s, k);
    RemovedDistinct(s, k);
    hide Distinct;
    forall i | 0 <= i < |t|
      ensures t[i].next == t[After(|t|, i)]
    {
      assert t[i] == s[if i < k then i else i + 1];
    }
    forall i | 0 <= i < |t|
      ensures t[i].prev == t[Before(|t|, i)]
    {
      assert t[i] == s[if i < k then i else i + 1];
    }
  }

  class Holder {
    var head: Node?
    ghost var nodes: seq<Node>

    ghost predicate Valid()
      reads this, nodes
    {
      Ring(nodes) && head == (if nodes == [] then null else nodes[0])
    }

    constructor ()
      ensures Valid() && nodes == []
    {
      head := null;
      nodes := [];
    }

    /** prepend_list: cons. */
    method Prepend(x: Node)
      requires Valid() && x !in nodes
      modifies this, nodes, x
      ensures Valid() && nodes == [x] + old(nodes)
    {
      if head == null {
        head := x;
        x.next := x;
        x.prev := x;
      } else {
        var first := head;
        var last := head.prev;
        first.prev := x;
        x.next := first;
        x.prev := last;
        last.next := x;
        head := x;
        RingIn(nodes, 0, x);
        assert Inserted(nodes, 0, x) == [x] + nodes;
      }
      nodes := [x] + nodes;
    }

    /** append_list: snoc. */
    method Append(x: Node)
      requires Valid() && x !in nodes
      modifies this, nodes, x
      ensures Valid() && nodes == old(nodes) + [x]
    {
      if head == null {
        head := x;
        x.next := x;
        x.prev := x;
      } else {
        var last := head.prev;
        x.next := last.next;
        x.prev := last;
        last.next.prev := x;
        last.next := x;
        RingIn(nodes, |nodes|, x);
        assert Inserted(nodes, |nodes|, x) == nodes + [x];
      }
      nodes := nodes + [x];
    }

    /** The four pointer updates of insert_before. */
    method LinkBefore(x: Node, p: Node, ghost k: nat)
      requires Valid() && x !in nodes && k < |nodes| && p == nodes[k]
      modifies nodes, x
      ensures LinkedIn(nodes, k, x)
    {
      OnlyAt(nodes, Left(|nodes|, k));
      OnlyAt(nodes, k);
      hide Distinct;
      x.next := p;
      x.prev := p.prev;
      p.prev.next := x;
      p.prev := x;
    }

    /** insert_before: x takes the place of element k, which follows it; before the first element it becomes the
        head. */
    method InsertBefore(x: Node, p: Node, ghost k: nat)
      requires Valid() && x !in nodes && k < |nodes| && p == nodes[k]
      modifies this, nodes, x
      ensures Valid() && nodes == Inserted(old(nodes), k, x)
    {
      var first := head;
      assert p == first <==> k == 0;
      LinkBefore(x, p, k);
      hide LinkedIn;
      if p == first {
        head := x;
      }
      RingIn(nodes, k, x);
      nodes := Inserted(nodes, k, x);
    }

    /** The four pointer updates of insert_after. */
    method LinkAfter(x: Node, p: Node, ghost k: nat)
      requires Valid() && x !in nodes && k < |nodes| && p == nodes[k]
      modifies nodes, x
      ensures LinkedIn(nodes, k + 1, x)
    {
      OnlyAt(nodes, Right(|nodes|, k + 1));
      OnlyAt(nodes, k);
      hide Distinct;
      x.next := p.next;
      x.prev := p;
      p.next.prev := x;
      p.next := x;
    }

    /** insert_after: x follows element k; the head stays. */
    method InsertAfter(x: Node, p: Node, ghost k: nat)
      requires Valid() && x !in nodes && k < |nodes| && p == nodes[k]
      modifies this, nodes, x
      ensures Valid() && nodes == Inserted(old(nodes), k + 1, x) && head == old(head)
    {
      LinkAfter(x, p, k);
      hide LinkedIn;
      RingIn(nodes, k + 1, x);
      nodes := Inserted(nodes, k + 1, x);
    }

    /** delete_elem: element k leaves; with the last one the holder is empty. */
    method Delete(p: Node, ghost k: nat)
      requires Valid() && k < |nodes| && p == nodes[k]
      modifies this, nodes
      ensures Valid() && nodes == Removed(old(nodes), k) && (head == null <==> old(|nodes|) == 1)
    {
      ghost var n := |nodes|;
      OnlyAt(nodes, k);
      OnlyAt(nodes, Before(n, k));
      OnlyAt(nodes, After(n, k));
      assert (p == head <==> k == 0) && head.prev == nodes[n - 1] && (head == head.prev <==> n == 1);
      hide Distinct;
      var first := head;
      var last := head.prev;
      if p == first {
        if first == last {
          head := null;
        } else {
          last.next := first.next;
          first.next.prev := last;
          head := first.next;
        }
      } else {
        p.prev.next := p.next;
        p.next.prev := p.prev;
      }
      if |nodes| > 1 {
        assert LinkedOut(nodes, k);
        hide Forward, Backward;
        RingOut(nodes, k);
      }
      nodes := Removed(nodes, k);
    }
  }

  /** A list is walked through its `next` pointers: k steps from the head lead to element k, and |nodes| steps back to
      the head. */
  ghost function Steps(h: Holder, k: nat): Node
    requires h.Valid() && h.nodes != []
    reads h, h.nodes
    ensures Steps(h, k) == h.nodes[k % |h.nodes|]
  {
    if k == 0 then h.nodes[0]
    else
      ModStep(k - 1, |h.nodes|);
      Steps(h, k - 1).next
  }

  lemma ModStep(k: nat, n: nat)
    requires n > 0
    ensures (k + 1) % n == After(n, k % n)
  {
    var q, r := k / n, k % n;
    if r + 1 == n {
      DivUnique(k + 1, n, q + 1, 0);
    } else {
      DivUnique(k + 1, n, q, r + 1);
    }
  }
}
