/** The write buffer and the read log of a transaction: linked lists with a tail pointer. */
module LinkedSets {
  import opened Striping
  import opened Tl2

  datatype Entry = Entry(a: Addr, w: Word)

  /** What a list of entries denotes: the last value given to each address. */
  function Fold(es: seq<Entry>): (m: Memory)
    ensures forall i :: 0 <= i < |es| ==> es[i].a in m
  {
    if es == [] then map[]
    else
      var init := es[..|es| - 1];
      assert forall i :: 0 <= i < |init| ==> es[i] == init[i];
      Fold(init)[es[|es| - 1].a := es[|es| - 1].w]
  }

  ghost predicate Unique(es: seq<Entry>) {
    forall i, j :: 0 <= i < j < |es| ==> es[i].a != es[j].a
  }

  lemma {:induction false} FoldKey(es: seq<Entry>, a: Addr) returns (i: nat)
    requires a in Fold(es)
    ensures i < |es| && es[i].a == a && Fold(es)[a] == es[i].w
  {
    if es[|es| - 1].a == a {
      i := |es| - 1;
    } else {
      i := FoldKey(es[..|es| - 1], a);
    }
  }

  lemma FoldAt(es: seq<Entry>, i: nat)
    requires Unique(es) && i < |es|
    ensures Fold(es)[es[i].a] == es[i].w
  {
    var j := FoldKey(es, es[i].a);
  }

  lemma FoldSnoc(es: seq<Entry>, e: Entry)
    ensures Fold(es + [e]) == Fold(es)[e.a := e.w]
  {
    assert (es + [e])[..|es|] == es;
  }

  /** A memory overridden by the first i entries. */
  function Override(m: Memory, es: seq<Entry>, i: nat): Memory
    requires i <= |es|
  {
    m + Fold(es[..i])
  }

  lemma OverrideNext(m: Memory, es: seq<Entry>, i: nat)
    requires i < |es|
    ensures Override(m, es, i + 1) == Override(m, es, i)[es[i].a := es[i].w]
  {
    assert es[..i + 1] == es[..i] + [es[i]];
    FoldSnoc(es[..i], es[i]);
  }

  lemma OverrideEnds(m: Memory, es: seq<Entry>)
    ensures Override(m, es, 0) == m && Override(m, es, |es|) == m + Fold(es)
  {
    assert es[..|es|] == es && m + map[] == m;
  }

  lemma {:induction false} FoldUpdate(es: seq<Entry>, k: nat, w: Word)
    requires Unique(es) && k < |es|
    ensures Fold(es[k := Entry(es[k].a, w)]) == Fold(es)[es[k].a := w]
  {
    var n := |es| - 1;
    var es' := es[k := Entry(es[k].a, w)];
    if k < n {
      assert es'[..n] == es[..n][k := Entry(es[k].a, w)];
      FoldUpdate(es[..n], k, w);
    } else {
      assert es'[..n] == es[..n];
    }
  }

  class WriteNode {
    const address: Addr
    var value: Word
    var next: WriteNode?

    constructor (address: Addr, value: Word)
      ensures this.address == address && this.value == value && next == null
    {
      this.address := address;
      this.value := value;
      next := null;
    }
  }

  class WriteSet {
    var first: WriteNode?
    var last: WriteNode?
    ghost var nodes: seq<WriteNode>

    /** The list runs from `first` through `next` to `last`, and no address has two nodes. */
    ghost predicate Valid()
      reads this, nodes
    {
      && first == NodeAt(0)
      && last == NodeAt(|nodes| - 1)
      && (forall i :: 0 <= i < |nodes| ==> LinkedAt(i))
      && (forall i, j :: 0 <= i < j < |nodes| ==> nodes[i].address != nodes[j].address)
    }

    /** The i-th node points to the next one. */
    ghost predicate LinkedAt(i: int)
      requires 0 <= i < |nodes|
      reads this, nodes
    {
      nodes[i].next == NodeAt(i + 1)
    }

    /** The i-th node, or null past either end. */
    ghost function NodeAt(i: int): WriteNode?
      reads this
    {
      if 0 <= i < |nodes| then nodes[i] else null
    }

    /** A cursor that starts at `first` and moves on through `next` visits the nodes in order. */
    lemma Cursor(i: nat)
      requires Valid()
      ensures first == NodeAt(0) && (i < |nodes| ==> nodes[i].next == NodeAt(i + 1))
    {
      assert i < |nodes| ==> LinkedAt(i);
    }

    lemma NodesDiffer(i: nat, n: nat)
      requires Valid() && i <= n <= |nodes|
      ensures NodeAt(i) == NodeAt(n) ==> i == n
    {
    }

    ghost function Addresses(): (addrs: seq<Addr>)
      reads this
      ensures |addrs| == |nodes| && forall i :: 0 <= i < |nodes| ==> addrs[i] == nodes[i].address
    {
      var ns := nodes;
      seq(|ns|, i requires 0 <= i < |ns| => ns[i].address)
    }

    static ghost function EntriesOf(ns: seq<WriteNode>): (es: seq<Entry>)
      reads ns
      ensures |es| == |ns| && forall i :: 0 <= i < |ns| ==> es[i] == Entry(ns[i].address, ns[i].value)
    {
      if ns == [] then []
      else EntriesOf(ns[..|ns| - 1]) + [Entry(ns[|ns| - 1].address, ns[|ns| - 1].value)]
    }

    /** The buffered value of each address in the list. */
    ghost function Contents(): Memory
      reads this, nodes
    {
      Fold(EntriesOf(nodes))
    }

    lemma ContentsAt(i: nat)
      requires Valid() && i < |nodes|
      ensures nodes[i].address in Contents() && Contents()[nodes[i].address] == nodes[i].value
    {
      FoldAt(EntriesOf(nodes), i);
    }

    lemma Listed(es: seq<Entry>)
      requires Valid() && es == EntriesOf(nodes)
      ensures Fold(es) == Contents()
      ensures forall i :: 0 <= i < |es| ==> es[i].a in Contents() && Contents()[es[i].a] == es[i].w
    {
      forall i | 0 <= i < |es| ensures es[i].a in Contents() && Contents()[es[i].a] == es[i].w {
        ContentsAt(i);
      }
    }

    lemma NotThere(a: Addr)
      requires forall i :: 0 <= i < |nodes| ==> nodes[i].address != a
      ensures a !in Contents()
    {
      if a in Contents() {
        var i := FoldKey(EntriesOf(nodes), a);
        assert false;
      }
    }

    constructor ()
      ensures Valid() && nodes == [] && Addresses() == [] && Contents() == map[]
    {
      first := null;
      last := null;
      nodes := [];
    }

    /** The node of an address, or null if the address was not written. */
    method Find(a: Addr) returns (node: WriteNode?)
      requires Valid()
      ensures node != null <==> a in Contents()
      ensures node != null ==> node in nodes && node.address == a && node.value == Contents()[a]
    {
      node := first;
      ghost var i := 0;
      while node != null
        invariant i <= |nodes| && node == NodeAt(i)
        invariant forall j :: 0 <= j < i ==> nodes[j].address != a
        decreases |nodes| - i
      {
        if node.address == a {
          ContentsAt(i);
          return;
        }
        Cursor(i);
        node := node.next;
        i := i + 1;
      }
      NotThere(a);
    }

    /** Replaces the value of a node. */
    method Overwrite(node: WriteNode, w: Word)
      requires Valid() && node in nodes
      modifies node`value
      ensures Valid() && nodes == old(nodes) && Addresses() == old(Addresses())
      ensures Contents() == old(Contents())[node.address := w]
    {
      hide Fold, EntriesOf;
      ghost var k :| 0 <= k < |nodes| && nodes[k] == node;
      ghost var es := EntriesOf(nodes);
      FoldUpdate(es, k, w);
      node.value := w;
      forall i | 0 <= i < |nodes| ensures LinkedAt(i) {
        assert old(LinkedAt(i));
      }
      assert EntriesOf(nodes) == es[k := Entry(node.address, w)];
    }

    /** Appends a node for an address that has none. */
    method Add(a: Addr, w: Word)
      requires Valid() && a !in Contents()
      modifies this, nodes
      ensures Valid() && fresh(set n | n in nodes && n !in old(nodes))
      ensures Addresses() == old(Addresses()) + [a]
      ensures Contents() == old(Contents())[a := w]
    {
      hide Fold, EntriesOf;
      ghost var es := EntriesOf(nodes);
      forall i | 0 <= i < |nodes| ensures nodes[i].address != a {
        ContentsAt(i);
      }
      FoldSnoc(es, Entry(a, w));
      var node := new WriteNode(a, w);
      Link(node);
      assert EntriesOf(nodes) == es + [Entry(a, w)];
    }

    /** Overwrites the value of an address, or appends a node for it. */
    method Put(a: Addr, w: Word)
      requires Valid()
      modifies this, nodes
      ensures Valid() && fresh(set n | n in nodes && n !in old(nodes))
      ensures Addresses() == if a in old(Contents()) then old(Addresses()) else old(Addresses()) + [a]
      ensures Contents() == old(Contents())[a := w]
    {
      hide Valid, Addresses, Contents, Fold, EntriesOf;
      var oldNode := Find(a);
      if oldNode == null {
        Add(a, w);
      } else {
        Overwrite(oldNode, w);
      }
    }

    /** Makes a node the last one. */
    method Link(node: WriteNode)
      requires Valid() && node.next == null && node !in nodes
      requires forall i :: 0 <= i < |nodes| ==> nodes[i].address != node.address
      modifies `first, `last, `nodes, (set n | n in nodes)`next
      ensures Valid() && nodes == old(nodes) + [node]
    {
      if first == null {
        first := node;
      } else {
        last.next := node;
      }
      last := node;
      nodes := nodes + [node];
      forall i | 0 <= i < |nodes| ensures LinkedAt(i) {
        assert i < |nodes| - 1 ==> old(LinkedAt(i));
      }
    }
  }

  class ReadNode {
    const address: Addr
    var next: ReadNode?

    constructor (address: Addr)
      ensures this.address == address && next == null
    {
      this.address := address;
      next := null;
    }
  }

  class ReadSet {
    var first: ReadNode?
    var last: ReadNode?
    ghost var nodes: seq<ReadNode>

    ghost predicate Valid()
      reads this, nodes
    {
      && first == NodeAt(0)
      && last == NodeAt(|nodes| - 1)
      && (forall i :: 0 <= i < |nodes| ==> LinkedAt(i))
      && (forall i, j :: 0 <= i < j < |nodes| ==> nodes[i] != nodes[j])
    }

    ghost predicate LinkedAt(i: int)
      requires 0 <= i < |nodes|
      reads this, nodes
    {
      nodes[i].next == NodeAt(i + 1)
    }

    ghost function NodeAt(i: int): ReadNode?
      reads this
    {
      if 0 <= i < |nodes| then nodes[i] else null
    }

    lemma Cursor(i: nat)
      requires Valid()
      ensures first == NodeAt(0) && (i < |nodes| ==> nodes[i].next == NodeAt(i + 1))
    {
      assert i < |nodes| ==> LinkedAt(i);
    }

    /** The logged addresses, in the order of the reads; an address read twice is logged twice. */
    ghost function Addresses(): (addrs: seq<Addr>)
      reads this
      ensures |addrs| == |nodes| && forall i :: 0 <= i < |nodes| ==> addrs[i] == nodes[i].address
    {
      var ns := nodes;
      seq(|ns|, i requires 0 <= i < |ns| => ns[i].address)
    }

    constructor ()
      ensures Valid() && nodes == [] && Addresses() == []
    {
      first := null;
      last := null;
      nodes := [];
    }

    method Add(a: Addr)
      requires Valid()
      modifies this, nodes
      ensures Valid() && fresh(set n | n in nodes && n !in old(nodes))
      ensures Addresses() == old(Addresses()) + [a]
    {
      var node := new ReadNode(a);
      if first == null {
        first := node;
      } else {
        last.next := node;
      }
      last := node;
      nodes := nodes + [node];
      forall i | 0 <= i < |nodes| ensures LinkedAt(i) {
        assert i < |nodes| - 1 ==> old(LinkedAt(i));
      }
    }
  }
}
