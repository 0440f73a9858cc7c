/**
 * The singly-linked list of the interpreter's benchmark script: nodes
 * linked by `next`, a list holding its first and last node, and an
 * iterator that walks `next` from the first node.
 *
 * The list's ghost `nodes` sequence names its nodes in order and its ghost
 * `contents` holds their values; every operation is specified by what it
 * does to `contents` (and, for the iterator, to the values it has yet to
 * yield).
 */
module LinkedLists {
  import opened Wrappers

  class Node<T> {
    var value: T
    var next: Node?<T>

    constructor (value: T, next: Node?<T>)
      ensures this.value == value && this.next == next
    {
      this.value := value;
      this.next := next;
    }
  }

  /** `nodes` is a chain: each node's `next` is the following node, and the last one's is null. */
  ghost predicate Chain<T>(nodes: seq<Node<T>>)
    reads set i | 0 <= i < |nodes| :: nodes[i]
  {
    && (forall i :: 0 <= i < |nodes| - 1 ==> nodes[i].next == nodes[i + 1])
    && (|nodes| > 0 ==> nodes[|nodes| - 1].next == null)
  }

  /** `vs` is the sequence of the values held by `nodes`, in order. */
  ghost predicate Holds<T>(nodes: seq<Node<T>>, vs: seq<T>)
    reads set i | 0 <= i < |nodes| :: nodes[i]
  {
    |vs| == |nodes| && forall i :: 0 <= i < |nodes| ==> nodes[i].value == vs[i]
  }

  class List<T> {
    var first: Node?<T>
    var last: Node?<T>
    ghost var nodes: seq<Node<T>>
    ghost var contents: seq<T>
    ghost var Repr: set<object>

    ghost predicate Valid()
      reads this, Repr
    {
      && this in Repr
      && (forall i :: 0 <= i < |nodes| ==> nodes[i] in Repr)
      && (forall i, j :: 0 <= i < j < |nodes| ==> nodes[i] != nodes[j])
      && Chain(nodes)
      && Holds(nodes, contents)
      && (nodes == [] ==> first == null && last == null)
      && (nodes != [] ==> first == nodes[0] && last == nodes[|nodes| - 1])
    }

    /** A new list has neither a first nor a last node. */
    constructor ()
      ensures Valid() && fresh(Repr)
      ensures first == null && last == null
      ensures contents == []
    {
      first := null;
      last := null;
      nodes := [];
      contents := [];
      Repr := {this};
    }

    /**
     * `push_back`: a new last node holding `value`. On an empty list it is
     * also the first node; otherwise the old last node links to it.
     */
    method PushBack(value: T)
      requires Valid()
      modifies this, Repr
      ensures Valid() && fresh(Repr - old(Repr))
      ensures contents == old(contents) + [value]
      ensures last != null && last.value == value && last.next == null
      ensures old(last) == null ==> first == last
      ensures old(last) != null ==> first == old(first) && old(last).next == last
    {
      var prev := last;
      var node := new Node(value, null);
      last := node;
      if prev == null {
        first := last;
      } else {
        prev.next := last;
      }
      nodes := nodes + [node];
      contents := contents + [value];
      Repr := Repr + {node};
    }

    /** `__iter__`: an iterator starting at the first node. */
    method Iterate() returns (it: Iter<T>)
      requires Valid()
      ensures fresh(it) && it.Valid() && it.nodes == nodes
      ensures it.remaining == contents
    {
      it := new Iter(first, nodes, contents);
    }
  }

  class Iter<T> {
    var current: Node?<T>
    ghost var nodes: seq<Node<T>>
    /** The values the iterator has yet to yield. */
    ghost var remaining: seq<T>

    ghost predicate Valid()
      reads this, set i | 0 <= i < |nodes| :: nodes[i]
    {
      && Chain(nodes)
      && Holds(nodes, remaining)
      && (nodes == [] ==> current == null)
      && (nodes != [] ==> current == nodes[0])
    }

    constructor (current: Node?<T>, ghost nodes: seq<Node<T>>, ghost remaining: seq<T>)
      requires Chain(nodes) && Holds(nodes, remaining)
      requires nodes == [] ==> current == null
      requires nodes != [] ==> current == nodes[0]
      ensures Valid() && this.nodes == nodes && this.remaining == remaining && this.current == current
    {
      this.remaining := remaining;
      this.current := current;
      this.nodes := nodes;
    }

    /**
     * `__next__`: the current node's value, moving on to its `next`; at the
     * end (`StopIteration`), nothing.
     */
    method Next() returns (r: Option<T>)
      requires Valid()
      modifies this
      ensures Valid()
      ensures old(remaining) == [] ==> r.None? && remaining == old(remaining)
      ensures old(remaining) != [] ==> r == Some(old(remaining)[0]) && remaining == old(remaining)[1..]
    {
      var node := current;
      if node == null {
        return None;
      }
      current := node.next;
      nodes := nodes[1..];
      remaining := remaining[1..];
      r := Some(node.value);
    }
  }

  /** `for value in ll: out.append(value)`: every value, in push order. */
  method Collect<T>(l: List<T>) returns (out: seq<T>)
    requires l.Valid()
    ensures out == l.contents
  {
    var it := l.Iterate();
    out := [];
    while true
      invariant it.Valid() && fresh(it)
      invariant |it.remaining| == |it.nodes|
      invariant out + it.remaining == l.contents
      decreases |it.remaining|
    {
      ghost var before := it.remaining;
      var v := it.Next();
      if v.None? {
        assert out + [] == out;
        break;
      }
      assert before == [v.value] + it.remaining;
      MoveFront(out, v.value, it.remaining);
      out := out + [v.value];
    }
  }

  /** Moving the front of the remaining values to the end of the collected ones keeps their concatenation. */
  lemma MoveFront<T>(out: seq<T>, v: T, rest: seq<T>)
    ensures (out + [v]) + rest == out + ([v] + rest)
  {
  }

  /** The script: pushing 1, 2 and 3 and collecting them gives [1, 2, 3]. */
  method PushThreeAndCollect() returns (out: seq<int>)
    ensures out == [1, 2, 3]
  {
    var l := new List<int>();
    l.PushBack(1);
    l.PushBack(2);
    l.PushBack(3);
    out := Collect(l);
  }
}
