/** The intrusive pointer heap: a complete binary tree linked through its nodes and
    addressed by the bits of a node number. */
module Heap {
  import opened Sequences

  class Node<K> {
    var parent: Node?<K>
    var left: Node?<K>
    var right: Node?<K>
    var key: K

    constructor (key: K)
      ensures this.key == key
    {
      this.key := key;
      parent, left, right := null, null, null;
    }
  }

  // ---------- the links of a set of nodes, as a value ----------

  datatype Links<K> = Links(parent: Node?<K>, left: Node?<K>, right: Node?<K>)

  ghost function LinksOf<K>(n: Node<K>): Links<K>
    reads n
  {
    Links(n.parent, n.left, n.right)
  }

  ghost function Snap<K>(S: set<Node<K>>): map<Node<K>, Links<K>>
    reads S
  {
    map n | n in S :: LinksOf(n)
  }

  ghost function Nodes<K>(ns: seq<Node<K>>): set<Node<K>> {
    set n | n in ns
  }

  function Up(i: nat): nat
    requires i > 0
  {
    (i - 1) / 2
  }

  /** Node i, counting from 0 level by level, is linked to its parent and its children. */
  ghost predicate Linked<K>(m: map<Node<K>, Links<K>>, ns: seq<Node<K>>, i: nat)
    requires i < |ns|
  {
    && ns[i] in m
    && m[ns[i]] == Links(if i == 0 then null else ns[Up(i)],
                         if 2 * i + 1 < |ns| then ns[2 * i + 1] else null,
                         if 2 * i + 2 < |ns| then ns[2 * i + 2] else null)
  }

  /** The nodes ns form a complete binary tree with matching parent links. */
  ghost predicate Tree<K>(m: map<Node<K>, Links<K>>, ns: seq<Node<K>>) {
    && m.Keys == Nodes(ns)
    && NoDup(ns)
    && forall i :: 0 <= i < |ns| ==> Linked(m, ns, i)
  }

  /** Reading the links of node i of a tree off the heap. */
  lemma {:induction false} LinksAt<K>(S: set<Node<K>>, ns: seq<Node<K>>, i: nat)
    requires Tree(Snap(S), ns) && i < |ns|
    ensures S == Nodes(ns) && NoDup(ns) && ns[i] in S
    ensures ns[i].parent == if i == 0 then null else ns[Up(i)]
    ensures ns[i].left == if 2 * i + 1 < |ns| then ns[2 * i + 1] else null
    ensures ns[i].right == if 2 * i + 2 < |ns| then ns[2 * i + 2] else null
  {
    assert Linked(Snap(S), ns, i);
  }

  // ---------- trading places ----------

  function Swap<T>(s: seq<T>, i: nat, j: nat): seq<T>
    requires i < |s| && j < |s|
  {
    s[i := s[j]][j := s[i]]
  }

  /** The nodes a and c trade names. */
  function Trade<K>(a: Node<K>, c: Node<K>, n: Node?<K>): (r: Node?<K>)
    ensures n != null ==> r != null
  {
    if n == a then c else if n == c then a else n
  }

  function TradeLinks<K>(a: Node<K>, c: Node<K>, l: Links<K>): Links<K> {
    Links(Trade(a, c, l.parent), Trade(a, c, l.left), Trade(a, c, l.right))
  }

  /** The links r are the links m with a and c having traded places. */
  ghost predicate Traded<K>(a: Node<K>, c: Node<K>, m: map<Node<K>, Links<K>>, r: map<Node<K>, Links<K>>) {
    && a in m && c in m && r.Keys == m.Keys
    && r[a] == TradeLinks(a, c, m[c])
    && r[c] == TradeLinks(a, c, m[a])
    && forall n :: n in m && n != a && n != c ==> r[n] == TradeLinks(a, c, m[n])
  }

  lemma {:induction false} SwapNodes<K>(ns: seq<Node<K>>, i: nat, j: nat)
    requires i < |ns| && j < |ns| && i != j && NoDup(ns)
    ensures var ms := Swap(ns, i, j);
            && |ms| == |ns| && Nodes(ms) == Nodes(ns) && NoDup(ms)
            && forall k :: 0 <= k < |ms| ==> ms[k] == Trade(ns[i], ns[j], ns[k])
  {
    var ms := Swap(ns, i, j);
    forall n | n in ns ensures n in ms {
      var k :| 0 <= k < |ns| && ns[k] == n;
      assert n == if k == i then ms[j] else if k == j then ms[i] else ms[k];
    }
  }

  lemma {:induction false} TradeKeepsTree<K>(m: map<Node<K>, Links<K>>, r: map<Node<K>, Links<K>>,
                                             ns: seq<Node<K>>, i: nat, j: nat)
    requires i < |ns| && j < |ns| && i != j && Tree(m, ns) && Traded(ns[i], ns[j], m, r)
    ensures Tree(r, Swap(ns, i, j))
  {
    var ms := Swap(ns, i, j);
    SwapNodes(ns, i, j);
    hide Swap, Nodes, Linked, TradeLinks, Trade, Traded;
    forall k | 0 <= k < |ms|
      ensures Linked(r, ms, k)
    {
      TradeKeepsLinks(m, r, ns, ms, ns[i], ns[j], k);
    }
    TradedKeys(ns[i], ns[j], m, r);
  }

  lemma {:induction false} TradedKeys<K>(a: Node<K>, c: Node<K>, m: map<Node<K>, Links<K>>, r: map<Node<K>, Links<K>>)
    requires Traded(a, c, m, r)
    ensures r.Keys == m.Keys
  {
  }

  lemma {:induction false} TradeKeepsLinks<K>(m: map<Node<K>, Links<K>>, r: map<Node<K>, Links<K>>, ns: seq<Node<K>>,
                                              ms: seq<Node<K>>, a: Node<K>, c: Node<K>, k: nat)
    requires |ms| == |ns| && k < |ns| && Linked(m, ns, k) && Traded(a, c, m, r) && a != c
    requires forall x :: 0 <= x < |ms| ==> ms[x] == Trade(a, c, ns[x])
    ensures Linked(r, ms, k)
  {
    var n := ns[k];
    assert r[ms[k]] == TradeLinks(a, c, m[n]);
    hide Traded;
  }

  /** Links and back links of n agree; it is not its own neighbour nor that of its child. */
  ghost predicate Neighbours<K>(m: map<Node<K>, Links<K>>, n: Node<K>)
    requires n in m
  {
    var p, l, r := m[n].parent, m[n].left, m[n].right;
    && (p != null ==> p in m && p != n && (m[p].left == n || m[p].right == n))
    && (l != null ==> l in m && m[l].parent == n && l != r && m[l].left != n && m[l].right != n)
    && (r != null ==> r in m && m[r].parent == n && m[r].left != n && m[r].right != n)
  }

  ghost predicate Consistent<K>(m: map<Node<K>, Links<K>>) {
    forall n :: n in m ==> Neighbours(m, n)
  }

  lemma {:induction false} TreeConsistent<K>(m: map<Node<K>, Links<K>>, ns: seq<Node<K>>)
    requires Tree(m, ns)
    ensures Consistent(m)
  {
    hide Linked, Neighbours;
    forall n | n in m
      ensures Neighbours(m, n)
    {
      assert n in Nodes(ns);
      var k :| 0 <= k < |ns| && ns[k] == n;
      NeighboursAt(m, ns, k);
    }
  }

  lemma {:induction false} NeighboursAt<K>(m: map<Node<K>, Links<K>>, ns: seq<Node<K>>, k: nat)
    requires Tree(m, ns) && k < |ns|
    ensures ns[k] in m && Neighbours(m, ns[k])
  {
    assert Linked(m, ns, k);
    assert k > 0 ==> Linked(m, ns, Up(k));
    assert 2 * k + 1 < |ns| ==> Linked(m, ns, 2 * k + 1);
    assert 2 * k + 2 < |ns| ==> Linked(m, ns, 2 * k + 2);
  }

  // ---------- rewiring a node and its child ----------

  /** The links of n after a and child changed places, written out. */
  ghost function Rewired<K>(a: Node<K>, child: Node<K>, m: map<Node<K>, Links<K>>, n: Node<K>): Links<K>
    requires a in m && child in m && n in m
  {
    Links(
      if n == m[child].left || n == m[child].right then a
      else if n == child then m[a].parent
      else if n == a || n == m[a].left || n == m[a].right then child
      else m[n].parent,
      if n == a then m[child].left
      else if n == child then (if m[a].left == child then a else m[a].left)
      else if n == m[a].parent && m[n].left == a then child else m[n].left,
      if n == a then m[child].right
      else if n == child then (if m[a].left == child then m[a].right else a)
      else if n == m[a].parent && m[n].left != a then child else m[n].right)
  }

  lemma {:induction false} RewiredTrades<K>(a: Node<K>, child: Node<K>, m: map<Node<K>, Links<K>>, r: map<Node<K>,
                                            Links<K>>)
    requires Consistent(m) && a in m && child in m && m[child].parent == a && r.Keys == m.Keys
    requires forall n :: n in m ==> r[n] == Rewired(a, child, m, n)
    ensures Traded(a, child, m, r)
  {
    assert Neighbours(m, a) && Neighbours(m, child);
    forall n | n in m && n != a && n != child ensures r[n] == TradeLinks(a, child, m[n]) {
      assert Neighbours(m, n);
    }
  }

  /** Puts child in the place of its parent a, as far as the links above are concerned. */
  method ReplaceAbove<K>(a: Node<K>, child: Node<K>, ghost S: set<Node<K>>)
    requires a in S && child in S && a != child
    requires a.parent != null ==> a.parent in S && a.parent != a && a.parent != child
    modifies S`parent, S`left, S`right
    ensures forall n :: n in S ==>
              && n.parent == (if n == child then old(a.parent) else if n == a then child else old(n.parent))
              && n.left == (if n == old(a.parent) && old(n.left) == a then child else old(n.left))
              && n.right == (if n == old(a.parent) && old(n.left) != a then child else old(n.right))
  {
    child.parent := a.parent;
    if a.parent != null {
      if a.parent.left == a {
        a.parent.left := child;
      } else {
        a.parent.right := child;
      }
    }
    a.parent := child;
  }

  predicate Apart<K>(a: Node<K>, child: Node<K>, m: Node<K>)
    reads a
  {
    m != a && m != child && m != a.left && m != a.right
  }

  /** Hangs a below child, on the side where child was, each with the other's children. */
  method SwapSides<K>(a: Node<K>, child: Node<K>, ghost S: set<Node<K>>)
    requires a in S && child in S && a != child && (a.left == child || a.right == child)
    requires a.left != null && a.right != null ==> a.left != a.right
    requires a.left != null ==> a.left in S && a.left != a
    requires a.right != null ==> a.right in S && a.right != a
    requires child.left != null ==> child.left in S && Apart(a, child, child.left)
    requires child.right != null ==> child.right in S && Apart(a, child, child.right)
    modifies S`parent, S`left, S`right
    ensures forall n :: n in S ==>
              && n.parent == (if n == old(child.left) || n == old(child.right) then a
                              else if (n == old(a.left) || n == old(a.right)) && n != child then child
                              else old(n.parent))
              && n.left == (if n == a then old(child.left)
                            else if n != child then old(n.left)
                            else if old(a.left) == child then a else old(a.left))
              && n.right == (if n == a then old(child.right)
                             else if n != child then old(n.right)
                             else if old(a.left) == child then old(a.right) else a)
  {
    if a.left == child {
      a.left := child.left;
      if a.left != null {
        a.left.parent := a;
      }
      child.left := a;
      a.right, child.right := child.right, a.right;
      if a.right != null {
        a.right.parent := a;
      }
      if child.right != null {
        child.right.parent := child;
      }
    } else {
      a.right := child.right;
      if a.right != null {
        a.right.parent := a;
      }
      child.right := a;
      a.left, child.left := child.left, a.left;
      if a.left != null {
        a.left.parent := a;
      }
      if child.left != null {
        child.left.parent := child;
      }
    }
  }

  /** The two steps together. */
  method RewireChild<K>(a: Node<K>, child: Node<K>, ghost S: set<Node<K>>)
    requires a in S && child in S && child.parent == a
    requires Neighbours(Snap(S), a) && Neighbours(Snap(S), child)
    modifies S`parent, S`left, S`right
    ensures forall n :: n in S ==> LinksOf(n) == Rewired(a, child, old(Snap(S)), n)
  {
    assert forall n :: n in S ==> Snap(S)[n] == LinksOf(n);
    ReplaceAbove(a, child, S);
    SwapSides(a, child, S);
  }

  /** Rewires a node and its child so that they change places: the common part of
      heap_insert and heap_max_heapify. */
  method Exchange<K>(a: Node<K>, child: Node<K>, ghost S: set<Node<K>>, ghost ns: seq<Node<K>>, ghost i: nat)
    requires Tree(Snap(S), ns) && 0 < i < |ns| && child == ns[i] && a == ns[Up(i)]
    modifies S`parent, S`left, S`right
    ensures Tree(Snap(S), Swap(ns, Up(i), i))
  {
    hide Tree, NoDup, Traded, Swap;
    ghost var m := Snap(S);
    LinksAt(S, ns, i);
    LinksAt(S, ns, Up(i));
    TreeConsistent(m, ns);
    assert Neighbours(m, a) && Neighbours(m, child);
    hide Neighbours, Consistent;
    RewireChild(a, child, S);
    hide Rewired;
    assert forall n :: n in m ==> Snap(S)[n] == Rewired(a, child, m, n);
    RewiredTrades(a, child, m, Snap(S));
    TradeKeepsTree(m, Snap(S), ns, Up(i), i);
  }

  // ---------- node numbers and their bits ----------

  /** The largest power of two up to n: one shifted by the position of the leading one. */
  function Base(n: nat): (b: nat)
    requires n > 0
    ensures b <= n < 2 * b
  {
    if n == 1 then 1 else 2 * Base(n / 2)
  }

  /** heap_get_move: whether to go right, and the number to go on with. */
  function GetMove(n: nat): (r: (bool, nat))
    requires n > 1
    ensures 0 < r.1 < n
  {
    var base := Base(n);
    var aux := n - base / 2;
    if aux < base then (false, aux) else (true, aux - base / 2)
  }

  /** The bits of n below the leading one, from the most significant one on. */
  function Path(n: nat): seq<bool>
    requires n > 0
  {
    if n == 1 then [] else Path(n / 2) + [n % 2 == 1]
  }

  /** The number of the node reached from node number c by a path. */
  function Walk(c: nat, p: seq<bool>): nat
    decreases p
  {
    if p == [] then c else Walk(2 * c + (if p[0] then 1 else 0), p[1..])
  }

  lemma {:induction false} WalkAppend(c: nat, p: seq<bool>, bit: bool)
    ensures Walk(c, p + [bit]) == 2 * Walk(c, p) + (if bit then 1 else 0)
    decreases p
  {
    if p == [] {
      assert ([bit])[1..] == [];
      assert p + [bit] == [bit];
      assert Walk(2 * c + (if bit then 1 else 0), []) == 2 * c + (if bit then 1 else 0);
    } else {
      assert (p + [bit])[1..] == p[1..] + [bit];
      WalkAppend(2 * c + (if p[0] then 1 else 0), p[1..], bit);
    }
  }

  lemma {:induction false} WalkGrows(c: nat, p: seq<bool>)
    ensures Walk(c, p) >= c
    decreases p
  {
    if p != [] {
      WalkGrows(2 * c + (if p[0] then 1 else 0), p[1..]);
    }
  }

  /** Following the bits of n from the root reaches node number n. */
  lemma {:induction false} PathReaches(n: nat)
    requires n > 0
    ensures Walk(1, Path(n)) == n
  {
    if n > 1 {
      PathReaches(n / 2);
      WalkAppend(1, Path(n / 2), n % 2 == 1);
    }
  }

  lemma {:induction false} MoveHalves(n: nat)
    requires n > 3
    ensures GetMove(n).0 == GetMove(n / 2).0
    ensures GetMove(n).1 > 1 && GetMove(n).1 / 2 == GetMove(n / 2).1 && GetMove(n).1 % 2 == n % 2
  {
    var q := Base(n / 2 / 2);
    assert Base(n / 2) == 2 * q && Base(n) == 4 * q;
    hide Base;
  }

  /** The arithmetic of heap_get_move takes off exactly the first bit of the path. */
  lemma {:induction false} MoveIsFirstBit(n: nat)
    requires n > 1
    ensures Path(n) == [GetMove(n).0] + Path(GetMove(n).1)
  {
    if n <= 3 {
      assert Base(n) == 2 * Base(1);
      assert Path(n) == Path(1) + [n % 2 == 1];
    } else {
      MoveHalves(n);
      MoveIsFirstBit(n / 2);
      var m := GetMove(n).1;
      assert Path(m) == Path(m / 2) + [m % 2 == 1];
      hide GetMove, Path;
    }
  }

  // ---------- order ----------

  /** cmp is a comparison function: a total preorder by its sign. */
  ghost predicate Preorder<K(!new)>(cmp: (K, K) -> int) {
    && (forall x, y :: cmp(x, y) > 0 <==> cmp(y, x) < 0)
    && (forall x, y, z :: cmp(x, y) <= 0 && cmp(y, z) <= 0 ==> cmp(x, z) <= 0)
  }

  ghost function Keys<K>(S: set<Node<K>>): map<Node<K>, K>
    reads S
  {
    map n | n in S :: n.key
  }

  ghost predicate Below<K>(cmp: (K, K) -> int, ks: map<Node<K>, K>, x: Node<K>, y: Node<K>) {
    x in ks && y in ks && cmp(ks[x], ks[y]) <= 0
  }

  /** Heap order, except between node i and its parent. */
  ghost predicate OrderedBut<K>(cmp: (K, K) -> int, ks: map<Node<K>, K>, ns: seq<Node<K>>, i: nat) {
    forall j :: 0 < j < |ns| && j != i ==> Below(cmp, ks, ns[j], ns[Up(j)])
  }

  ghost predicate Ordered<K>(cmp: (K, K) -> int, ks: map<Node<K>, K>, ns: seq<Node<K>>) {
    forall j :: 0 < j < |ns| ==> Below(cmp, ks, ns[j], ns[Up(j)])
  }

  /** The children of node i are below its parent. */
  ghost predicate Skips<K>(cmp: (K, K) -> int, ks: map<Node<K>, K>, ns: seq<Node<K>>, i: nat) {
    forall j :: 0 < j < |ns| && i > 0 && Up(j) == i < |ns| ==> Below(cmp, ks, ns[j], ns[Up(i)])
  }

  lemma {:induction false} BelowTrans<K(!new)>(cmp: (K, K) -> int, ks: map<Node<K>, K>, x: Node<K>, y: Node<K>,
                                               z: Node<K>)
    requires Preorder(cmp) && Below(cmp, ks, x, y) && Below(cmp, ks, y, z)
    ensures Below(cmp, ks, x, z)
  {
  }

  /** What is not below is above. */
  lemma {:induction false} Above<K(!new)>(cmp: (K, K) -> int, ks: map<Node<K>, K>, x: Node<K>, y: Node<K>)
    requires Preorder(cmp) && x in ks && y in ks && cmp(ks[x], ks[y]) > 0
    ensures Below(cmp, ks, y, x)
  {
  }

  lemma {:induction false} BelowSelf<K(!new)>(cmp: (K, K) -> int, ks: map<Node<K>, K>, x: Node<K>)
    requires Preorder(cmp) && x in ks
    ensures Below(cmp, ks, x, x)
  {
    var c := cmp(ks[x], ks[x]);
    assert c > 0 <==> c < 0;
  }

  /** No node is above the root. */
  lemma {:induction false} RootIsMax<K(!new)>(cmp: (K, K) -> int, ks: map<Node<K>, K>, ns: seq<Node<K>>, i: nat)
    requires Preorder(cmp) && Ordered(cmp, ks, ns) && i < |ns| && forall n :: n in ns ==> n in ks
    ensures Below(cmp, ks, ns[i], ns[0])
  {
    hide Preorder;
    if i > 0 {
      RootIsMax(cmp, ks, ns, Up(i));
      BelowTrans(cmp, ks, ns[i], ns[Up(i)], ns[0]);
    } else {
      BelowSelf(cmp, ks, ns[0]);
    }
  }

  /** One step up: the node at i beats its parent and takes its place. */
  lemma {:induction false} BubbleKeepsOrder<K(!new)>(cmp: (K, K) -> int, ks: map<Node<K>, K>, ns: seq<Node<K>>, i: nat)
    requires Preorder(cmp) && NoDup(ns) && forall n :: n in ns ==> n in ks
    requires 0 < i < |ns| && OrderedBut(cmp, ks, ns, i) && Skips(cmp, ks, ns, i)
    requires cmp(ks[ns[i]], ks[ns[Up(i)]]) > 0
    ensures var ms := Swap(ns, Up(i), i); OrderedBut(cmp, ks, ms, Up(i)) && Skips(cmp, ks, ms, Up(i))
  {
    var p := Up(i);
    var ms := Swap(ns, p, i);
    Above(cmp, ks, ns[i], ns[p]);
    forall j | 0 < j < |ms| && j != p ensures Below(cmp, ks, ms[j], ms[Up(j)]) {
      hide Preorder, Below;
      if j != i && Up(j) == p {
        BelowTrans(cmp, ks, ns[j], ns[p], ns[i]);
      }
    }
    forall j | 0 < j < |ms| && p > 0 && Up(j) == p ensures Below(cmp, ks, ms[j], ms[Up(p)]) {
      hide Preorder, Below;
      assert Below(cmp, ks, ns[p], ns[Up(p)]);
      if j != i {
        BelowTrans(cmp, ks, ns[j], ns[p], ns[Up(p)]);
      }
    }
  }

  /** One step down: the greater child of the node at i takes its place. */
  lemma {:induction false} SinkKeepsOrder<K(!new)>(cmp: (K, K) -> int, ks: map<Node<K>, K>, ns: seq<Node<K>>, i: nat,
      c: nat)
    requires Preorder(cmp) && NoDup(ns) && forall n :: n in ns ==> n in ks
    requires 0 < c < |ns| && Up(c) == i && OrderedAbove(cmp, ks, ns, i) && Skips(cmp, ks, ns, i)
    requires Below(cmp, ks, ns[i], ns[c])
    requires forall j :: 0 < j < |ns| && Up(j) == i ==> Below(cmp, ks, ns[j], ns[c])
    ensures var ms := Swap(ns, i, c); OrderedAbove(cmp, ks, ms, c) && Skips(cmp, ks, ms, c)
  {
    var ms := Swap(ns, i, c);
    hide Preorder, Below;
    forall j | 0 < j < |ms| && Up(j) != c ensures Below(cmp, ks, ms[j], ms[Up(j)]) {
      if j == i {
        assert Below(cmp, ks, ns[c], ns[Up(i)]);
      }
    }
    forall j | 0 < j < |ms| && c > 0 && Up(j) == c ensures Below(cmp, ks, ms[j], ms[Up(c)]) {
      assert Below(cmp, ks, ns[j], ns[c]);
    }
  }

  /** Heap order, except between node i and its children. */
  ghost predicate OrderedAbove<K>(cmp: (K, K) -> int, ks: map<Node<K>, K>, ns: seq<Node<K>>, i: nat) {
    forall j :: 0 < j < |ns| && Up(j) != i ==> Below(cmp, ks, ns[j], ns[Up(j)])
  }

  // ---------- the heap ----------

  ghost predicate IsHeap<K(!new)>(cmp: (K, K) -> int, S: set<Node<K>>, ns: seq<Node<K>>)
    reads S
  {
    Tree(Snap(S), ns) && Ordered(cmp, Keys(S), ns)
  }

  lemma {:induction false} EmptyHeap<K(!new)>(cmp: (K, K) -> int)
    ensures Nodes<K>([]) == {} && IsHeap(cmp, {}, [])
  {
  }

  lemma {:induction false} SingleHeap<K(!new)>(cmp: (K, K) -> int, node: Node<K>)
    requires node.parent == null && node.left == null && node.right == null
    ensures Nodes([node]) == {node} && IsHeap(cmp, {node}, [node])
  {
    assert Linked(Snap({node}), [node], 0);
  }

  lemma {:induction false} NodesSnoc<K>(ns: seq<Node<K>>, node: Node<K>)
    ensures Nodes(ns + [node]) == Nodes(ns) + {node}
  {
  }

  class Heap<K(!new)> {
    var root: Node?<K>
    var size: nat
    /** The nodes in the heap, level by level. */
    ghost var ns: seq<Node<K>>

    ghost predicate Valid(cmp: (K, K) -> int)
      reads this, ns
    {
      && Preorder(cmp)
      && size == |ns|
      && root == (if size == 0 then null else ns[0])
      && IsHeap(cmp, Nodes(ns), ns)
    }

    /** heap_init */
    constructor (ghost cmp: (K, K) -> int)
      requires Preorder(cmp)
      ensures Valid(cmp) && ns == []
    {
      root, size, ns := null, 0, [];
    }

    /** heap_get: node number n. */
    method Get(n: nat) returns (current: Node<K>)
      requires Tree(Snap(Nodes(ns)), ns) && 0 < n <= |ns| && root == ns[0]
      ensures current == ns[n - 1]
    {
      current := root;
      var node := n;
      ghost var c := 1;
      PathReaches(n);
      while node != 1
        invariant 0 < node && 0 < c <= |ns| && current == ns[c - 1]
        invariant Walk(c, Path(node)) == n
        decreases node
      {
        MoveIsFirstBit(node);
        var (right, next) := GetMove(node);
        assert Linked(Snap(Nodes(ns)), ns, c - 1);
        WalkGrows(2 * c + (if right then 1 else 0), Path(next));
        assert Path(node)[1..] == Path(next);
        if right {
          current := current.right;
          c := 2 * c + 1;
        } else {
          current := current.left;
          c := 2 * c;
        }
        node := next;
      }
    }

    /** heap_insert */
    method Insert(node: Node<K>, cmp: (K, K) -> int)
      requires Valid(cmp) && node !in ns
      modifies this, node`parent, node`left, node`right
      modifies Nodes(ns)`parent, Nodes(ns)`left, Nodes(ns)`right
      ensures Valid(cmp) && Nodes(ns) == old(Nodes(ns)) + {node} && |ns| == |old(ns)| + 1
    {
      hide Preorder, IsHeap, OrderedBut, Skips, Tree, Snap, Keys, Ordered, NoDup, Linked;
      ghost var ns0, S := ns, Nodes(ns) + {node};
      NodesSnoc(ns, node);
      node.left := null;
      node.right := null;
      node.parent := null;
      size := size + 1;
      if root == null {
        root := node;
        ns := [node];
        EmptyHeap(cmp);
        SingleHeap(cmp, node);
        return;
      }
      HeapTree(cmp, Nodes(ns), ns);
      var parent := Get(size / 2);
      Attach(parent, node, size, cmp, ns0);
      ghost var cur, i;
      parent, cur, i := BubbleUp(node, parent, cmp, S, ns0 + [node]);
      if parent == null {
        root := node;
      }
      ns := cur;
    }

    /** heap_pop_max */
    method PopMax(cmp: (K, K) -> int) returns (max: Node?<K>)
      requires Valid(cmp)
      modifies this, Nodes(ns)`parent, Nodes(ns)`left, Nodes(ns)`right
      ensures Valid(cmp)
      ensures max == null <==> old(ns) == []
      ensures max == null ==> ns == []
      ensures max != null ==> max in old(ns) && Nodes(ns) == old(Nodes(ns)) - {max} && |ns| == |old(ns)| - 1
      ensures max != null ==> forall n :: n in old(ns) ==> cmp(n.key, max.key) <= 0
    {
      hide Preorder, IsHeap, OrderedBut, OrderedAbove, Skips, Tree, Snap, Keys, Ordered, NoDup, Linked;
      max := root;
      if max == null {
        return;
      }
      ghost var ns0 := ns;
      HeapTree(cmp, Nodes(ns), ns);
      MaxIsMax(cmp, Nodes(ns), ns);
      var change := Get(size);
      var size0 := size;
      size := size - 1;
      LinksAt(Nodes(ns), ns, size0 - 1);
      WithoutRoot(ns);
      if change.parent == null {
        root := null;
        ns := [];
        EmptyHeap(cmp);
        return;
      }
      Reheap(max, change, size0, cmp);
    }

    /** The end of heap_pop_max, for a heap of more than one node. */
    method Reheap(max: Node<K>, change: Node<K>, size0: nat, cmp: (K, K) -> int)
      requires Preorder(cmp) && IsHeap(cmp, Nodes(ns), ns) && |ns| == size0 == size + 1 > 1
      requires max == ns[0] && change == ns[size0 - 1]
      modifies this`root, this`ns, Nodes(ns)`parent, Nodes(ns)`left, Nodes(ns)`right
      ensures Valid(cmp) && Nodes(ns) == old(Nodes(ns)) - {max} && |ns| == |old(ns)| - 1
    {
      hide Preorder, IsHeap, OrderedBut, OrderedAbove, Skips, Tree, Snap, Keys, Ordered, NoDup, Linked;
      ghost var ns0 := ns;
      MoveLastToRoot(max, change, size0, cmp, ns0);
      root := change;
      ghost var cur := Heapify(this, change, cmp, Nodes(ns0) - {max}, LastFirst(ns0), 0);
      ns := cur;
    }
  }

  /** What remains when the last node replaces the root. */
  ghost function LastFirst<K>(ns: seq<Node<K>>): seq<Node<K>>
    requires |ns| > 1
  {
    ns[..|ns| - 1][0 := ns[|ns| - 1]]
  }

  lemma {:induction false} WithoutRoot<K>(ns: seq<Node<K>>)
    requires NoDup(ns) && |ns| > 0
    ensures |ns| == 1 ==> Nodes(ns) - {ns[0]} == {}
    ensures |ns| > 1 ==> Nodes(LastFirst(ns)) == Nodes(ns) - {ns[0]} && NoDup(LastFirst(ns))
  {
    if |ns| > 1 {
      var r := LastFirst(ns);
      forall n | n in ns && n != ns[0] ensures n in r {
        var k :| 0 <= k < |ns| && ns[k] == n;
        assert n == if k == |ns| - 1 then r[0] else r[k];
      }
      forall n | n in r ensures n in ns && n != ns[0] {
        var k :| 0 <= k < |r| && r[k] == n;
        assert n == if k == 0 then ns[|ns| - 1] else ns[k];
      }
    }
  }

  lemma {:induction false} MaxIsMax<K(!new)>(cmp: (K, K) -> int, S: set<Node<K>>, ns: seq<Node<K>>)
    requires Preorder(cmp) && IsHeap(cmp, S, ns) && |ns| > 0
    ensures forall n :: n in ns ==> cmp(n.key, ns[0].key) <= 0
  {
    forall n | n in ns ensures cmp(n.key, ns[0].key) <= 0 {
      var k :| 0 <= k < |ns| && ns[k] == n;
      RootIsMax(cmp, Keys(S), ns, k);
    }
  }

  /** The links of x after the last node took the place of the root. */
  ghost function Replaced<K>(m: map<Node<K>, Links<K>>, max: Node<K>, last: Node<K>, x: Node<K>): Links<K>
    requires max in m && last in m && x in m
  {
    var l := if x == last then m[max] else m[x];
    Links(if x == last then null else if l.parent == max then last else l.parent,
          if l.left == last then null else l.left,
          if l.right == last then null else l.right)
  }

  lemma {:induction false} ReplacedTree<K>(m: map<Node<K>, Links<K>>, r: map<Node<K>, Links<K>>, ns: seq<Node<K>>)
    requires |ns| > 1 && Tree(m, ns) && r.Keys == m.Keys - {ns[0]}
    requires forall x :: x in r ==> r[x] == Replaced(m, ns[0], ns[|ns| - 1], x)
    ensures Tree(r, LastFirst(ns))
  {
    var ms := LastFirst(ns);
    WithoutRoot(ns);
    assert Linked(m, ns, 0) && Linked(m, ns, |ns| - 1);
    forall k | 0 <= k < |ms| ensures Linked(r, ms, k) {
      hide Nodes, NoDup;
      assert Linked(m, ns, k);
      assert ms[k] in Nodes(ms);
    }
  }

  lemma {:induction false} ReplacedOrder<K(!new)>(cmp: (K, K) -> int, ks: map<Node<K>, K>, ls: map<Node<K>, K>,
      ns: seq<Node<K>>)
    requires |ns| > 1 && Ordered(cmp, ks, ns)
    requires forall x :: x in LastFirst(ns) && x in ks ==> x in ls && ls[x] == ks[x]
    ensures OrderedAbove(cmp, ls, LastFirst(ns), 0) && Skips(cmp, ls, LastFirst(ns), 0)
  {
    var ms := LastFirst(ns);
    forall j | 0 < j < |ms| && Up(j) != 0 ensures Below(cmp, ls, ms[j], ms[Up(j)]) {
      assert Below(cmp, ks, ns[j], ns[Up(j)]);
      assert ms[j] == ns[j] && ms[Up(j)] == ns[Up(j)];
    }
  }

  /** The middle of heap_pop_max: the last node leaves its place and takes that of the root. */
  method MoveLastToRoot<K(!new)>(max: Node<K>, change: Node<K>, size: nat, ghost cmp: (K, K) -> int,
                                 ghost ns: seq<Node<K>>)
    requires IsHeap(cmp, Nodes(ns), ns) && size == |ns| > 1 && max == ns[0] && change == ns[size - 1]
    modifies Nodes(ns)`parent, Nodes(ns)`left, Nodes(ns)`right
    ensures var S := Nodes(ns) - {max};
            && Tree(Snap(S), LastFirst(ns))
            && OrderedAbove(cmp, Keys(S), LastFirst(ns), 0) && Skips(cmp, Keys(S), LastFirst(ns), 0)
  {
    ghost var S := Nodes(ns) - {max};
    ghost var m, ks := Snap(Nodes(ns)), Keys(Nodes(ns));
    Rewire(max, change, size, ns);
    forall x | x in S ensures Snap(S)[x] == Replaced(m, max, change, x) {
      MovedReplaces(m, ns, x);
    }
    assert m.Keys == Nodes(ns) && Snap(S).Keys == m.Keys - {ns[0]};
    hide Tree, Linked, NoDup, Ordered, OrderedAbove, Skips, Replaced;
    ReplacedTree(m, Snap(S), ns);
    WithoutRoot(ns);
    ReplacedOrder(cmp, ks, Keys(S), ns);
  }

  /** The links of x written out, as the assignments of heap_pop_max leave them. */
  ghost function Moved<K>(m: map<Node<K>, Links<K>>, max: Node<K>, last: Node<K>, size: nat, x: Node<K>): Links<K>
    requires max in m && last in m && x in m
  {
    var p, l, r := m[last].parent, m[max].left, m[max].right;
    Links(if x == last then null else if x == l || x == r then last else m[x].parent,
          if x == last then (if l == last then null else l)
          else if x == p && size % 2 == 0 then null else m[x].left,
          if x == last then (if r == last then null else r)
          else if x == p && size % 2 == 1 then null else m[x].right)
  }

  lemma {:induction false} MovedReplaces<K>(m: map<Node<K>, Links<K>>, ns: seq<Node<K>>, x: Node<K>)
    requires |ns| > 1 && Tree(m, ns) && x in m && x != ns[0]
    ensures ns[0] in m && ns[|ns| - 1] in m
    ensures Moved(m, ns[0], ns[|ns| - 1], |ns|, x) == Replaced(m, ns[0], ns[|ns| - 1], x)
  {
    var last := |ns| - 1;
    TreeConsistent(m, ns);
    assert Linked(m, ns, 0) && Linked(m, ns, last) && Linked(m, ns, Up(last));
    assert Neighbours(m, ns[0]) && Neighbours(m, ns[last]) && Neighbours(m, x);
    hide Tree, NoDup, Consistent;
  }

  method Rewire<K>(max: Node<K>, change: Node<K>, size: nat, ghost ns: seq<Node<K>>)
    requires Tree(Snap(Nodes(ns)), ns) && size == |ns| > 1 && max == ns[0] && change == ns[size - 1]
    modifies Nodes(ns)`parent, Nodes(ns)`left, Nodes(ns)`right
    ensures forall x :: x in Nodes(ns) && x != max ==> LinksOf(x) == Moved(old(Snap(Nodes(ns))), max, change, size, x)
  {
    ghost var m := Snap(Nodes(ns));
    LinksAt(Nodes(ns), ns, 0);
    LinksAt(Nodes(ns), ns, size - 1);
    assert Up(size - 1) > 0 || size <= 3;
    assert ns[1] != max && (size > 2 ==> ns[2] != max && ns[1] != ns[2]);
    assert m[max] == LinksOf(max) && m[change] == LinksOf(change);
    assert forall x :: x in Nodes(ns) ==> m[x] == LinksOf(x);
    assert change.parent != null && change.parent in Nodes(ns) && change.parent != change;
    hide Tree, Linked, NoDup;
    if change.parent == max {
      if size % 2 == 1 {
        change.left := max.left;
        if change.left != null {
          change.left.parent := change;
        }
      } else {
        change.right := max.right;
        // With two nodes the root has no right child.
        if change.right != null {
          assert false;
        }
      }
    } else {
      if size % 2 == 1 {
        change.parent.right := null;
      } else {
        change.parent.left := null;
      }
      change.left := max.left;
      if change.left != null {
        change.left.parent := change;
      }
      change.right := max.right;
      if change.right != null {
        change.right.parent := change;
      }
    }
    change.parent := null;
  }

  ghost function HeadSet<K(!new)>(head: Heap?<K>): set<Heap<K>> {
    if head == null then {} else {head}
  }

  /** heap_max_heapify */
  method Heapify<K(!new)>(head: Heap?<K>, a: Node<K>, cmp: (K, K) -> int,
                          ghost S: set<Node<K>>, ghost ns: seq<Node<K>>, ghost i: nat)
    returns (ghost cur: seq<Node<K>>)
    requires Preorder(cmp) && Tree(Snap(S), ns) && i < |ns| && a == ns[i]
    requires OrderedAbove(cmp, Keys(S), ns, i) && Skips(cmp, Keys(S), ns, i)
    requires head == null || (i == 0 && head.root == a)
    modifies S`parent, S`left, S`right, HeadSet(head)`root
    ensures IsHeap(cmp, S, cur) && Nodes(cur) == S && |cur| == |ns|
    ensures if head != null then head.root == cur[0] else i > 0 ==> cur[0] == ns[0]
    decreases |ns| - i
  {
    hide Preorder, Tree, Linked, Ordered, OrderedAbove, Skips, Snap, NoDup;
    ghost var ks := Keys(S);
    ghost var c := i;
    LinksAt(S, ns, i);
    var largest := a;
    if a.left != null && cmp(a.left.key, largest.key) > 0 {
      largest := a.left;
      c := 2 * i + 1;
    }
    if a.right != null && cmp(a.right.key, largest.key) > 0 {
      largest := a.right;
      c := 2 * i + 2;
    }
    GreatestChild(cmp, ks, ns, i, c);
    if largest == a {
      cur := ns;
      return;
    }
    Exchange(a, largest, S, ns, c);
    assert Keys(S) == ks;
    hide Keys;
    if head != null {
      head.root := largest;
    }
    SinkKeepsOrder(cmp, ks, ns, i, c);
    SwapNodes(ns, i, c);
    cur := Heapify(null, a, cmp, S, Swap(ns, i, c), c);
  }

  /** The node chosen by heap_max_heapify is not below the node at i nor its children. */
  lemma {:induction false} GreatestChild<K(!new)>(cmp: (K, K) -> int, ks: map<Node<K>, K>, ns: seq<Node<K>>, i: nat,
      c: nat)
    requires Preorder(cmp) && i < |ns| && c < |ns| && forall n :: n in ns ==> n in ks
    requires OrderedAbove(cmp, ks, ns, i)
    requires var l, r := 2 * i + 1, 2 * i + 2;
             var c0 := if l < |ns| && cmp(ks[ns[l]], ks[ns[i]]) > 0 then l else i;
             c == if r < |ns| && cmp(ks[ns[r]], ks[ns[c0]]) > 0 then r else c0
    ensures c == i ==> Ordered(cmp, ks, ns)
    ensures c != i ==> Below(cmp, ks, ns[i], ns[c])
    ensures forall j :: 0 < j < |ns| && Up(j) == i ==> Below(cmp, ks, ns[j], ns[c])
  {
    var l, r := 2 * i + 1, 2 * i + 2;
    var c0 := if l < |ns| && cmp(ks[ns[l]], ks[ns[i]]) > 0 then l else i;
    BelowSelf(cmp, ks, ns[c]);
    if c0 != i {
      Above(cmp, ks, ns[c0], ns[i]);
      BelowSelf(cmp, ks, ns[c0]);
    } else {
      BelowSelf(cmp, ks, ns[i]);
    }
    if c != c0 {
      Above(cmp, ks, ns[c], ns[c0]);
      BelowTrans(cmp, ks, ns[i], ns[c0], ns[c]);
      if l < |ns| {
        BelowTrans(cmp, ks, ns[l], ns[c0], ns[c]);
      }
    }
    forall j | 0 < j < |ns| && Up(j) == i ensures Below(cmp, ks, ns[j], ns[c]) {
      assert j == l || j == r;
    }
  }

  lemma {:induction false} HeapTree<K(!new)>(cmp: (K, K) -> int, S: set<Node<K>>, ns: seq<Node<K>>)
    requires IsHeap(cmp, S, ns)
    ensures Tree(Snap(S), ns) && Ordered(cmp, Keys(S), ns) && S == Nodes(ns)
  {
  }

  /** Hangs a new node below the parent of node number n. */
  method Attach<K(!new)>(parent: Node<K>, node: Node<K>, n: nat, ghost cmp: (K, K) -> int, ghost ns: seq<Node<K>>)
    requires IsHeap(cmp, Nodes(ns), ns) && n == |ns| + 1 > 1 && parent == ns[n / 2 - 1]
    requires node !in ns && node.parent == null && node.left == null && node.right == null
    modifies parent`left, parent`right, node`parent
    ensures var S := Nodes(ns) + {node};
            && Tree(Snap(S), ns + [node]) && node.parent == parent
            && OrderedBut(cmp, Keys(S), ns + [node], |ns|) && Skips(cmp, Keys(S), ns + [node], |ns|)
  {
    ghost var S := Nodes(ns) + {node};
    ghost var m, ks := Snap(Nodes(ns)), Keys(Nodes(ns));
    ReadyToHang(parent, node, n, cmp, ns);
    hide IsHeap, Tree, Ordered, OrderedBut, Skips, Linked, NoDup, Nodes, Up;
    Hang(parent, node, n, Nodes(ns));
    TreeAppend(m, Snap(S), ns, node);
    AppendOrdered(cmp, ks, Keys(S), ns, node);
  }

  lemma {:induction false} ReadyToHang<K(!new)>(parent: Node<K>, node: Node<K>, n: nat, cmp: (K, K) -> int,
                                                ns: seq<Node<K>>)
    requires IsHeap(cmp, Nodes(ns), ns) && n == |ns| + 1 > 1 && parent == ns[n / 2 - 1] && node !in ns
    ensures Tree(Snap(Nodes(ns)), ns) && Ordered(cmp, Keys(Nodes(ns)), ns) && parent in Nodes(ns) && node !in Nodes(ns)
    ensures if n % 2 == 1 then parent.right == null else parent.left == null
    ensures Nodes(ns + [node]) == Nodes(ns) + {node}
    ensures parent == ns[Up(|ns|)] && (n % 2 == 1 <==> |ns| % 2 == 0)
  {
    NodesSnoc(ns, node);
    LinksAt(Nodes(ns), ns, n / 2 - 1);
    HeapTree(cmp, Nodes(ns), ns);
  }

  /** The pointers of a new child. */
  method Hang<K(!new)>(parent: Node<K>, node: Node<K>, n: nat, ghost S: set<Node<K>>)
    requires parent in S && node !in S && node.parent == null && node.left == null && node.right == null
    requires if n % 2 == 1 then parent.right == null else parent.left == null
    modifies parent`left, parent`right, node`parent
    ensures Snap(S + {node})[node] == Links(parent, null, null) && node.parent == parent
    ensures var l := old(LinksOf(parent));
            Snap(S + {node})[parent] == if n % 2 == 1 then l.(right := node) else l.(left := node)
    ensures forall x :: x in S && x != parent ==> Snap(S + {node})[x] == old(LinksOf(x))
  {
    if n % 2 == 1 {
      if parent.right != null {
        assert false;
      }
      parent.right := node;
    } else {
      if parent.left != null {
        assert false;
      }
      parent.left := node;
    }
    node.parent := parent;
  }

  lemma {:induction false} TreeAppend<K>(m: map<Node<K>, Links<K>>, r: map<Node<K>, Links<K>>, ns: seq<Node<K>>,
                                         node: Node<K>)
    requires Tree(m, ns) && |ns| > 0 && node !in ns && r.Keys == Nodes(ns + [node])
    requires var parent := ns[Up(|ns|)];
             && r[node] == Links(parent, null, null)
             && r[parent] == (if |ns| % 2 == 0 then m[parent].(right := node) else m[parent].(left := node))
             && forall n :: n in ns && n != parent ==> r[n] == m[n]
    ensures Tree(r, ns + [node])
  {
    var ms := ns + [node];
    var p := Up(|ns|);
    assert Linked(m, ns, p);
    forall k | 0 <= k < |ms| ensures Linked(r, ms, k) {
      if k < |ns| {
        assert Linked(m, ns, k);
        assert k != p ==> ns[k] != ns[p];
      }
    }
    assert NoDup(ms);
  }

  lemma {:induction false} AppendOrdered<K(!new)>(cmp: (K, K) -> int, ks: map<Node<K>, K>, ls: map<Node<K>, K>,
      ns: seq<Node<K>>, node: Node<K>)
    requires Ordered(cmp, ks, ns) && forall n :: n in ks ==> n in ls && ls[n] == ks[n]
    ensures OrderedBut(cmp, ls, ns + [node], |ns|) && Skips(cmp, ls, ns + [node], |ns|)
  {
    forall j | 0 < j < |ns| ensures Below(cmp, ls, (ns + [node])[j], (ns + [node])[Up(j)]) {
      assert Below(cmp, ks, ns[j], ns[Up(j)]);
    }
  }

  /** The loop of heap_insert: the last node moves up while it beats its parent. */
  method BubbleUp<K(!new)>(node: Node<K>, parent0: Node<K>, cmp: (K, K) -> int, ghost S: set<Node<K>>,
                           ghost ns: seq<Node<K>>)
    returns (parent: Node?<K>, ghost cur: seq<Node<K>>, ghost i: nat)
    requires Preorder(cmp) && |ns| > 1 && ns[|ns| - 1] == node && node.parent == parent0
    requires S == Nodes(ns) && Tree(Snap(S), ns)
    requires OrderedBut(cmp, Keys(S), ns, |ns| - 1) && Skips(cmp, Keys(S), ns, |ns| - 1)
    modifies S`parent, S`left, S`right
    ensures IsHeap(cmp, S, cur) && |cur| == |ns| && Nodes(cur) == S
    ensures i < |cur| && cur[i] == node && (parent == null <==> i == 0)
    ensures i > 0 ==> cur[0] == ns[0]
  {
    hide Preorder, Tree, Linked, OrderedBut, Ordered, Skips, Snap, NoDup;
    ghost var ks := Keys(S);
    cur, i := ns, |ns| - 1;
    parent := parent0;
    LinksAt(S, cur, i);
    while parent != null && cmp(node.key, parent.key) > 0
      invariant |cur| == |ns| && i < |cur| && cur[i] == node
      invariant S == Nodes(cur) && Tree(Snap(S), cur)
      invariant parent == (if i == 0 then null else cur[Up(i)])
      invariant Keys(S) == ks && OrderedBut(cmp, ks, cur, i) && Skips(cmp, ks, cur, i)
      invariant i > 0 ==> cur[0] == ns[0]
      decreases i
    {
      LinksAt(S, cur, i);
      Exchange(parent, node, S, cur, i);
      BubbleKeepsOrder(cmp, ks, cur, i);
      SwapNodes(cur, Up(i), i);
      cur := Swap(cur, Up(i), i);
      i := Up(i);
      LinksAt(S, cur, i);
      parent := node.parent;
    }
    if i > 0 {
      Above'(cmp, ks, node, cur[Up(i)]);
      OrderedAtLast(cmp, ks, cur, i);
    } else {
      OrderedAtRoot(cmp, ks, cur);
    }
  }

  lemma {:induction false} Above'<K(!new)>(cmp: (K, K) -> int, ks: map<Node<K>, K>, x: Node<K>, y: Node<K>)
    requires x in ks && y in ks && cmp(ks[x], ks[y]) <= 0
    ensures Below(cmp, ks, x, y)
  {
  }

  lemma {:induction false} OrderedAtRoot<K(!new)>(cmp: (K, K) -> int, ks: map<Node<K>, K>, ns: seq<Node<K>>)
    requires OrderedBut(cmp, ks, ns, 0)
    ensures Ordered(cmp, ks, ns)
  {
  }

  lemma {:induction false} OrderedAtLast<K(!new)>(cmp: (K, K) -> int, ks: map<Node<K>, K>, ns: seq<Node<K>>, i: nat)
    requires 0 < i < |ns| && OrderedBut(cmp, ks, ns, i)
    requires Below(cmp, ks, ns[i], ns[Up(i)])
    ensures Ordered(cmp, ks, ns)
  {
  }
}
