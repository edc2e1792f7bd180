/** The doubly linked recency list of the LRU cache: a ring of elements closed by a sentinel,
    in the manner of Go's `container/list`. The ghost sequence `nodes` is the list's content. */
module RecencyList {
  import opened CacheTypes

  /** The payload of a list element: one cached record. */
  class Entry {
    var key: Key
    var value: Value
    var lastUpdated: int

    constructor () {
    }
  }

  class Element {
    var prev: Element?
    var next: Element?
    var value: Entry?

    constructor (value: Entry?)
      ensures this.value == value
    {
      this.value := value;
      prev, next := null, null;
    }
  }

  /** `s` without the element at position `i`. */
  function RemoveAt<T>(s: seq<T>, i: nat): (r: seq<T>)
    requires i < |s|
    ensures |r| == |s| - 1
  {
    s[..i] + s[i + 1..]
  }

  /** `c` returns to where it starts and meets no other element twice. */
  ghost predicate IsCycle<T>(c: seq<T>) {
    && |c| >= 2
    && c[0] == c[|c| - 1]
    && forall i, j :: 0 < i < j < |c| ==> c[i] != c[j]
  }

  lemma CycleWithout<T>(c: seq<T>, p: nat)
    requires IsCycle(c) && 0 < p < |c| - 1
    ensures IsCycle(RemoveAt(c, p)) && c[p] !in RemoveAt(c, p)
  {
    var d := RemoveAt(c, p);
    forall j | 0 <= j < |d|
      ensures d[j] != c[p]
    {
      assert d[j] == if j < p then c[j] else c[j + 1];
    }
  }

  lemma CycleWith<T>(c: seq<T>, e: T)
    requires IsCycle(c) && e !in c
    ensures IsCycle(c[..|c| - 1] + [e, c[0]])
  {}

  /** The cycle `c` with the element at position `p` moved to just before the closing sentinel. */
  ghost function Moved<T>(c: seq<T>, p: nat): (r: seq<T>)
    requires IsCycle(c) && 0 < p < |c| - 1
  {
    RemoveAt(c, p)[..|c| - 2] + [c[p], c[0]]
  }

  lemma MovedCycle<T>(c: seq<T>, p: nat)
    requires IsCycle(c) && 0 < p < |c| - 1
    ensures IsCycle(Moved(c, p))
    ensures c[p] == c[|c| - 2] ==> Moved(c, p) == c
  {
    CycleWithout(c, p);
    CycleWith(RemoveAt(c, p), c[p]);
  }

  lemma MovedNodes<T>(root: T, nodes: seq<T>, i: nat)
    requires IsCycle([root] + nodes + [root]) && i < |nodes|
    ensures Moved([root] + nodes + [root], i + 1) == [root] + (RemoveAt(nodes, i) + [nodes[i]]) + [root]
  {}

  class List {
    var root: Element
    var len: nat
    ghost var nodes: seq<Element>
    ghost var cells: set<Element>  // every element ever linked, the sentinel included

    /** The elements in link order, the sentinel at both ends. */
    ghost function Cycle(): seq<Element>
      reads this
    {
      [root] + nodes + [root]
    }

    ghost predicate Valid()
      reads this, cells
    {
      && len == |nodes|
      && (forall e <- Cycle() :: e in cells)
      && IsCycle(Cycle())
      && Linked(Cycle())
    }

    /** Each element of `c` points forward to the next one and is pointed back to by it. */
    static ghost predicate Linked(c: seq<Element>)
      reads set e | e in c
    {
      && (forall i :: 0 <= i < |c| - 1 ==> c[i].next == c[i + 1])
      && (forall i :: 0 < i < |c| ==> c[i].prev == c[i - 1])
    }

    constructor ()
      ensures Valid() && nodes == [] && fresh(cells)
    {
      root := new Element(null);
      len, nodes, cells := 0, [], {root};
      new;
      root.next, root.prev := root, root;
    }

    /** The first element, or null when the list is empty. */
    method Front() returns (e: Element?)
      requires Valid()
      ensures e == if nodes == [] then null else nodes[0]
    {
      if len == 0 {
        return null;
      }
      assert Cycle()[0].next == Cycle()[1];
      e := root.next;
    }

    method PushBack(value: Entry) returns (e: Element)
      requires Valid()
      modifies this`len, this`nodes, this`cells, cells`next, cells`prev
      ensures Valid() && root == old(root) && cells == old(cells) + {e} && fresh(e) && e.value == value
      ensures nodes == old(nodes) + [e]
    {
      ghost var c := Cycle();
      e := new Element(value);
      hide Linked;
      InsertBefore(e, c);
      len := len + 1;
      nodes := nodes + [e];
      cells := cells + {e};
      CycleWith(c, e);
      assert Cycle() == c[..|c| - 1] + [e, root];
    }

    /** Unlinks `e`. */
    method Remove(e: Element, ghost i: nat)
      requires Valid() && i < |nodes| && nodes[i] == e
      modifies this`len, this`nodes, cells`next, cells`prev
      ensures Valid() && root == old(root)
      ensures nodes == RemoveAt(old(nodes), i)
    {
      hide IsCycle;
      hide Linked;
      ghost var c := Cycle();
      Unlink(e, i + 1, c);
      len := len - 1;
      nodes := RemoveAt(nodes, i);
      CycleWithout(c, i + 1);
      assert Cycle() == RemoveAt(c, i + 1);
    }

    /** Makes `e` the last element. */
    method MoveToBack(e: Element, ghost i: nat)
      requires Valid() && i < |nodes| && nodes[i] == e
      modifies this`nodes, cells`next, cells`prev
      ensures Valid() && root == old(root)
      ensures nodes == RemoveAt(old(nodes), i) + [e]
    {
      ghost var c := Cycle();
      assert c[|c| - 1].prev == c[|c| - 2] && c[i + 1] == e;
      MovedCycle(c, i + 1);
      MovedNodes(root, nodes, i);
      hide IsCycle;
      hide Linked;
      hide Moved;
      hide RemoveAt;
      if root.prev != e {
        Relink(e, i + 1, c);
      }
      nodes := RemoveAt(nodes, i) + [e];
    }

    /** Moves the element at position `p` of the cycle `c` to just before the sentinel. */
    method Relink(e: Element, ghost p: nat, ghost c: seq<Element>)
      requires IsCycle(c) && Linked(c) && 0 < p < |c| - 1 && c[p] == e && c[0] == root
      modifies (set x | x in c)`next, (set x | x in c)`prev
      ensures Linked(Moved(c, p))
    {
      CycleWithout(c, p);
      hide IsCycle;
      hide Linked;
      ghost var d := RemoveAt(c, p);
      assert forall x <- d :: x in c;
      Unlink(e, p, c);
      InsertBefore(e, d);
      assert d[..|d| - 1] + [e, root] == Moved(c, p);
    }

    /** Joins the neighbours of the element at position `p` of the cycle `c`. */
    method Unlink(e: Element, ghost p: nat, ghost c: seq<Element>)
      requires IsCycle(c) && Linked(c) && 0 < p < |c| - 1 && c[p] == e
      modifies (set x | x in c)`next, (set x | x in c)`prev
      ensures Linked(RemoveAt(c, p))
    {
      assert c[p].next == c[p + 1] && c[p].prev == c[p - 1];
      e.prev.next := e.next;
      e.next.prev := e.prev;
      e.next := null;
      e.prev := null;
      forall i | 0 <= i < |c| - 2
        ensures RemoveAt(c, p)[i].next == RemoveAt(c, p)[i + 1]
      {
        assert i != p - 1 && i != p ==> c[i] != e && c[i] != c[p - 1];
      }
      forall i | 0 < i < |c| - 1
        ensures RemoveAt(c, p)[i].prev == RemoveAt(c, p)[i - 1]
      {
        assert c[i + 1] != e || i + 1 == p;
      }
    }

    /** Inserts `e`, which is not on the cycle `c`, between its last element and the sentinel. */
    method InsertBefore(e: Element, ghost c: seq<Element>)
      requires IsCycle(c) && Linked(c) && c[0] == root && e !in c
      modifies (set x | x in c)`next, (set x | x in c)`prev, e`next, e`prev
      ensures Linked(c[..|c| - 1] + [e, root])
    {
      assert c[|c| - 1].prev == c[|c| - 2];
      assert c[|c| - 2].next == c[|c| - 1];
      var at := root.prev;
      e.prev := at;
      e.next := at.next;
      at.next := e;
      root.prev := e;
    }
  }
}
