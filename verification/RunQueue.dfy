/** The run queue as the doubly linked list it is, changed one store at a time (include/list.h). */
module RunQueue {
  /** A task's list entry, or the list head. */
  type Node = int

  const HEAD: Node := 0
  // What the links of an entry hold that is on no list.
  const POISON: Node := -1

  datatype Links = Links(next: map<Node, Node>, prev: map<Node, Node>)

  const EMPTY := Links(map[HEAD := HEAD], map[HEAD := HEAD])

  function Get(m: map<Node, Node>, x: Node): Node {
    if x in m then m[x] else POISON
  }

  function SetNext(l: Links, x: Node, y: Node): Links {
    l.(next := l.next[x := y])
  }

  function SetPrev(l: Links, x: Node, y: Node): Links {
    l.(prev := l.prev[x := y])
  }

  function First(l: Links): Node { Get(l.next, HEAD) }

  function Last(l: Links): Node { Get(l.prev, HEAD) }

  /** Store number `k` of the four that put `t` behind `tail`, which was read before. */
  function Store(l: Links, t: Node, tail: Node, k: nat): Links {
    if k == 0 then SetPrev(l, HEAD, t)
    else if k == 1 then SetNext(l, t, HEAD)
    else if k == 2 then SetPrev(l, t, tail)
    else SetNext(l, tail, t)
  }

  /** list_add_tail() without interruption. */
  function AddTail(l: Links, t: Node): Links {
    var tail := Last(l);
    Store(Store(Store(Store(l, t, tail, 0), t, tail, 1), t, tail, 2), t, tail, 3)
  }

  /** list_del() without interruption. */
  function Delete(l: Links, t: Node): Links {
    var p, x := Get(l.prev, t), Get(l.next, t);
    SetPrev(SetNext(SetNext(SetPrev(l, x, p), p, x), t, POISON), t, POISON)
  }

  // ---- What a list holds ----

  function NodeAt(q: seq<Node>, i: int): Node {
    if 0 <= i < |q| then q[i] else HEAD
  }

  predicate NextAt(l: Links, q: seq<Node>, i: int) {
    Get(l.next, NodeAt(q, i)) == NodeAt(q, i + 1)
  }

  predicate PrevAt(l: Links, q: seq<Node>, i: int) {
    Get(l.prev, NodeAt(q, i)) == NodeAt(q, i - 1)
  }

  predicate Unique<T(==)>(q: seq<T>) {
    forall i, j :: 0 <= i < j < |q| ==> q[i] != q[j]
  }

  predicate Nodes(q: seq<Node>) {
    Unique(q) && forall i :: 0 <= i < |q| ==> q[i] > HEAD
  }

  /** Going forward from the head leads through `q` and back to the head. */
  ghost predicate Forward(l: Links, q: seq<Node>) {
    forall i {:trigger NextAt(l, q, i)} :: -1 <= i < |q| ==> NextAt(l, q, i)
  }

  ghost predicate Backward(l: Links, q: seq<Node>) {
    forall i {:trigger PrevAt(l, q, i)} :: 0 <= i < |q| ==> PrevAt(l, q, i)
  }

  /** The list holds `q`. */
  ghost predicate Ring(l: Links, q: seq<Node>) {
    Nodes(q) && Forward(l, q) && Backward(l, q) && Last(l) == NodeAt(q, |q| - 1)
  }

  /** The list holds `q`, and `k` of the stores that put `t` behind it are done. */
  ghost predicate Half(l: Links, q: seq<Node>, t: Node, tail: Node, k: nat) {
    && Nodes(q) && Forward(l, q) && Backward(l, q) && t !in q && t > HEAD
    && tail == NodeAt(q, |q| - 1) && Last(l) == t && 1 <= k <= 3
    && (k >= 2 ==> Get(l.next, t) == HEAD) && (k >= 3 ==> Get(l.prev, t) == tail)
  }

  /** Stores elsewhere than in the entries of `q` and forward from the head. */
  lemma ForwardFrame(l: Links, m: Links, q: seq<Node>)
    requires Forward(l, q) && forall i :: -1 <= i < |q| ==> Get(m.next, NodeAt(q, i)) == Get(l.next, NodeAt(q, i))
    ensures Forward(m, q)
  {
    forall i | -1 <= i < |q| ensures NextAt(m, q, i) { assert NextAt(l, q, i); }
  }

  lemma BackwardFrame(l: Links, m: Links, q: seq<Node>)
    requires Backward(l, q) && forall i :: 0 <= i < |q| ==> Get(m.prev, NodeAt(q, i)) == Get(l.prev, NodeAt(q, i))
    ensures Backward(m, q)
  {
    forall i | 0 <= i < |q| ensures PrevAt(m, q, i) { assert PrevAt(l, q, i); }
  }

  lemma FirstStore(l: Links, q: seq<Node>, t: Node)
    requires Ring(l, q) && t !in q && t > HEAD
    ensures Half(Store(l, t, Last(l), 0), q, t, Last(l), 1)
  {
    ForwardFrame(l, Store(l, t, Last(l), 0), q);
    BackwardFrame(l, Store(l, t, Last(l), 0), q);
  }

  lemma NextStore(l: Links, q: seq<Node>, t: Node, tail: Node, k: nat)
    requires Half(l, q, t, tail, k) && k < 3
    ensures Half(Store(l, t, tail, k), q, t, tail, k + 1)
  {
    ForwardFrame(l, Store(l, t, tail, k), q);
    BackwardFrame(l, Store(l, t, tail, k), q);
  }

  lemma LastStore(l: Links, q: seq<Node>, t: Node, tail: Node)
    requires Half(l, q, t, tail, 3)
    ensures Ring(Store(l, t, tail, 3), q + [t])
  {
    var m, r := Store(l, t, tail, 3), q + [t];
    forall i | -1 <= i < |r| ensures NextAt(m, r, i) {
      if i < |q| { assert NextAt(l, q, i); }
    }
    forall i | 0 <= i < |r| ensures PrevAt(m, r, i) {
      if i < |q| { assert PrevAt(l, q, i); }
    }
  }

  /** Without interruption the four stores put an entry at the end. */
  lemma AddTailRing(l: Links, q: seq<Node>, t: Node)
    requires Ring(l, q) && t !in q && t > HEAD
    ensures Ring(AddTail(l, t), q + [t])
  {
    var tail := Last(l);
    FirstStore(l, q, t);
    NextStore(Store(l, t, tail, 0), q, t, tail, 1);
    NextStore(Store(Store(l, t, tail, 0), t, tail, 1), q, t, tail, 2);
    LastStore(Store(Store(Store(l, t, tail, 0), t, tail, 1), t, tail, 2), q, t, tail);
  }

  /** Taking the first entry off, also while another one is being linked in. */
  lemma DeleteForward(l: Links, q: seq<Node>)
    requires Nodes(q) && Forward(l, q) && Backward(l, q) && |q| > 0
    ensures First(l) == q[0] && Nodes(q[1..]) && Forward(Delete(l, q[0]), q[1..])
  {
    var m, r := Delete(l, q[0]), q[1..];
    assert NextAt(l, q, -1) && NextAt(l, q, 0) && PrevAt(l, q, 0);
    forall i | -1 <= i < |r| ensures NextAt(m, r, i) {
      assert NextAt(l, q, i + 1);
    }
  }

  lemma DeleteRing(l: Links, q: seq<Node>)
    requires Ring(l, q) && |q| > 0
    ensures First(l) == q[0] && Ring(Delete(l, q[0]), q[1..])
  {
    var m, r := Delete(l, q[0]), q[1..];
    DeleteForward(l, q);
    assert NextAt(l, q, 0) && PrevAt(l, q, 0);
    forall i | 0 <= i < |r| ensures PrevAt(m, r, i) {
      assert PrevAt(l, q, i + 1);
    }
  }

  lemma RingEmpty(l: Links, q: seq<Node>)
    requires Nodes(q) && Forward(l, q)
    ensures First(l) == HEAD <==> q == []
    ensures q != [] ==> First(l) == q[0]
  {
    assert NextAt(l, q, -1);
  }

  /** An entry added behind one that is not yet linked forward cannot be reached from the head. */
  lemma AddBehindHalf(l: Links, q: seq<Node>, t: Node, tail: Node, k: nat, x: Node)
    requires Half(l, q, t, tail, k) && x !in q && x > HEAD
    ensures Forward(AddTail(l, x), q) && Backward(AddTail(l, x), q)
  {
    ForwardFrame(l, AddTail(l, x), q);
    BackwardFrame(l, AddTail(l, x), q);
  }

  // ---- Reaching an entry ----

  /** `q` is passed going forward from the head, before coming back to it. */
  ghost predicate Path(l: Links, q: seq<Node>) {
    forall i :: 0 <= i < |q| ==> q[i] != HEAD && q[i] == Get(l.next, NodeAt(q, i - 1))
  }

  ghost predicate OnList(l: Links, t: Node) {
    exists q :: Path(l, q) && t in q
  }

  /** The last entry that can be reached, or the head of an empty list. */
  ghost predicate AtEnd(l: Links, x: Node) {
    Get(l.next, x) == HEAD && (x == HEAD || OnList(l, x))
  }

  lemma {:induction false} PathPrefix(l: Links, q: seq<Node>, r: seq<Node>)
    requires Nodes(q) && Forward(l, q) && Path(l, r)
    ensures r <= q
  {
    if |r| > 0 {
      var i := |r| - 1;
      assert Path(l, r[..i]) by {
        forall j | 0 <= j < i ensures r[..i][j] == Get(l.next, NodeAt(r[..i], j - 1)) {
          assert NodeAt(r[..i], j - 1) == NodeAt(r, j - 1);
        }
      }
      PathPrefix(l, q, r[..i]);
      assert NodeAt(r, i - 1) == NodeAt(q, i - 1);
      assert NextAt(l, q, i - 1);
      assert r == r[..i] + [r[i]];
    }
  }

  /** Exactly the entries of `q` can be reached. */
  lemma OnListIs(l: Links, q: seq<Node>, t: Node)
    requires Nodes(q) && Forward(l, q)
    ensures OnList(l, t) <==> t in q
  {
    if OnList(l, t) {
      var r :| Path(l, r) && t in r;
      PathPrefix(l, q, r);
    }
    if t in q {
      forall i | 0 <= i < |q| ensures q[i] == Get(l.next, NodeAt(q, i - 1)) { assert NextAt(l, q, i - 1); }
      assert Path(l, q);
    }
  }

  /** Exactly the last entry is at the end. */
  lemma AtEndIs(l: Links, q: seq<Node>, x: Node)
    requires Nodes(q) && Forward(l, q)
    ensures AtEnd(l, x) <==> x == NodeAt(q, |q| - 1)
  {
    OnListIs(l, q, x);
    assert NextAt(l, q, |q| - 1);
    if x in q {
      var i :| 0 <= i < |q| && q[i] == x;
      assert NextAt(l, q, i);
    }
    assert NextAt(l, q, -1);
  }
}
