/** The digit trie of `stock_tree_trivial.cpp` and the two indexes built beside it. */
module StockIndex {

  predicate Digits(code: string) {
    forall i :: 0 <= i < |code| ==> '0' <= code[i] <= '9'
  }

  function Digit(c: char): (k: nat)
    requires '0' <= c <= '9'
    ensures k < 10
  {
    (c - '0') as int
  }

  class StockPrefixNode {
    /** The ten links stored inside the node. */
    var children: seq<StockPrefixNode?>
    /** Stands for `realVal != nullptr`. */
    var hasVal: bool

    constructor ()
      ensures |children| == 10 && !hasVal
      ensures forall k :: 0 <= k < 10 ==> children[k] == null
    {
      children := seq(10, _ => null);
      hasVal := false;
    }
  }

  class StockPrefixTree {
    const head: StockPrefixNode
    /** Every node, by the digits on the way to it. */
    ghost var nodes: map<string, StockPrefixNode>
    /** The non-empty codes inserted so far. */
    ghost var codes: set<string>

    /** The shape: a path leads to a node exactly when the node is linked from the path without its
        last digit, and different paths share nothing. */
    ghost predicate Shape()
      reads this, nodes.Values
    {
      && "" in nodes && nodes[""] == head
      && (forall p :: p in nodes ==> |nodes[p].children| == 10)
      && (forall p, q :: p in nodes && q in nodes && p != q ==> nodes[p] != nodes[q])
      && (forall p, c {:trigger p + [c]} :: p in nodes && '0' <= c <= '9' ==>
            nodes[p].children[Digit(c)] == if p + [c] in nodes then nodes[p + [c]] else null)
    }

    /** A node is marked exactly when its path was inserted; every inserted code has a node, and so does
        every beginning of a path. */
    ghost predicate Valid()
      reads this, nodes.Values
    {
      && Shape()
      && (forall p :: p in nodes ==> (nodes[p].hasVal <==> p in codes))
      && codes <= nodes.Keys && "" !in codes
      && (forall p, i :: p in nodes && 0 <= i <= |p| ==> p[..i] in nodes)
    }

    constructor ()
      ensures Valid() && codes == {} && fresh(head) && nodes == map["" := head]
    {
      head := new StockPrefixNode();
      nodes := map["" := head];
      codes := {};
    }

    /** True exactly for the codes that were inserted; the empty string never is. */
    method Find(code: string) returns (found: bool)
      requires Valid() && Digits(code)
      ensures found <==> code in codes
    {
      var p := 0;
      var node := head;
      while p < |code| && node.children[Digit(code[p])] != null
        invariant 0 <= p <= |code|
        invariant code[..p] in nodes && node == nodes[code[..p]]
      {
        assert code[..p + 1] == code[..p] + [code[p]];
        node := node.children[Digit(code[p])];
        p := p + 1;
      }
      if p == |code| {
        assert code[..p] == code;
      } else {
        assert code[..p + 1] == code[..p] + [code[p]];
        assert code[..p + 1] !in nodes;
      }
      found := p == |code| && node.hasVal;
    }

    /** Links a new node under `path`. */
    method Grow(node: StockPrefixNode, ghost path: string, c: char)
      requires Valid() && path in nodes && node == nodes[path] && '0' <= c <= '9' && path + [c] !in nodes
      modifies this`nodes, node`children
      ensures Valid() && codes == old(codes)
      ensures path + [c] in nodes && fresh(nodes[path + [c]])
      ensures nodes == old(nodes)[path + [c] := nodes[path + [c]]]
    {
      var n := new StockPrefixNode();
      node.children := node.children[Digit(c) := n];
      ghost var q := path + [c];
      nodes := nodes[q := n];
      forall p, d {:trigger p + [d]} | p in nodes && '0' <= d <= '9'
        ensures nodes[p].children[Digit(d)] == if p + [d] in nodes then nodes[p + [d]] else null
      {
        if p == q {
          assert (q + [d])[..|q|] == q;
          assert q + [d] !in old(nodes);
          assert q + [d] != q;
        } else if p + [d] == q {
          assert p == (p + [d])[..|p|] == (path + [c])[..|path|] == path;
        }
      }
      forall p, i | p in nodes && 0 <= i <= |p|
        ensures p[..i] in nodes
      {
        if p == q {
          assert i <= |path| ==> p[..i] == path[..i];
          assert i == |q| ==> p[..i] == q;
        }
      }
    }

    method Insert(code: string)
      requires Valid() && Digits(code)
      modifies this, nodes.Values
      ensures Valid()
      ensures codes == if code == "" then old(codes) else old(codes) + {code}
      ensures forall p :: p in nodes && p !in old(nodes) ==> fresh(nodes[p])
      ensures forall p :: p in old(nodes) ==> p in nodes && nodes[p] == old(nodes[p])
    {
      var p := 0;
      var node := head;
      while p < |code|
        invariant 0 <= p <= |code| && Valid() && codes == old(codes)
        invariant code[..p] in nodes && node == nodes[code[..p]]
        invariant forall q :: q in nodes && q !in old(nodes) ==> fresh(nodes[q])
        invariant forall q :: q in old(nodes) ==> q in nodes && nodes[q] == old(nodes[q])
      {
        assert code[..p + 1] == code[..p] + [code[p]];
        if node.children[Digit(code[p])] == null {
          Grow(node, code[..p], code[p]);
        }
        node := node.children[Digit(code[p])];
        p := p + 1;
      }
      assert code[..p] == code;
      if p != 0 {
        node.hasVal := true;
        codes := codes + {code};
      }
    }
  }

  // ---------------------------------------------------------------------------
  // Three indexes over the same codes
  // ---------------------------------------------------------------------------

  /** `atoi` on a digit string. */
  function Value(code: string): nat
    requires Digits(code)
  {
    if code == "" then 0 else 10 * Value(code[..|code| - 1]) + Digit(code[|code| - 1])
  }

  function Pow10(n: nat): nat { if n == 0 then 1 else 10 * Pow10(n - 1) }

  lemma {:induction false} ValueBelow(code: string)
    requires Digits(code)
    ensures Value(code) < Pow10(|code|)
  {
    if code != "" {
      ValueBelow(code[..|code| - 1]);
    }
  }

  /** Among codes of one length the decimal value identifies the code. */
  lemma {:induction false} ValueInjective(a: string, b: string)
    requires Digits(a) && Digits(b) && |a| == |b|
    ensures Value(a) == Value(b) <==> a == b
  {
    if a != "" && Value(a) == Value(b) {
      var n := |a| - 1;
      ValueInjective(a[..n], b[..n]);
      assert a == a[..n] + [a[n]] && b == b[..n] + [b[n]];
    }
  }

  predicate StockCode(code: string) { Digits(code) && |code| == 6 }

  lemma StockValue(code: string)
    requires StockCode(code)
    ensures Value(code) < 1_000_000
  {
    ValueBelow(code);
    assert Pow10(3) == 1000 && Pow10(6) == 1000 * Pow10(3);
  }

  const TABLE_SIZE: nat := 10_000_000

  /** The globals of the program and the loop of `main` that fills them. */
  class StockIndexes {
    const tree: StockPrefixTree
    var stockMap: map<string, bool>
    const boolVec: array<bool>

    ghost predicate Valid()
      reads this, tree, tree.nodes.Values, boolVec
    {
      && tree.Valid() && boolVec.Length == TABLE_SIZE
      && stockMap.Keys == tree.codes
      && (forall c :: c in tree.codes ==> StockCode(c))
      && TableMatches()
    }

    ghost predicate TableMatches()
      requires boolVec.Length == TABLE_SIZE
      reads this, tree, boolVec
    {
      forall c {:trigger Value(c)} :: StockCode(c) ==> Value(c) < TABLE_SIZE && (boolVec[Value(c)] <==> c in tree.codes)
    }

    constructor ()
      ensures Valid() && tree.codes == {} && fresh(tree) && fresh(boolVec) && fresh(tree.nodes.Values)
    {
      tree := new StockPrefixTree();
      stockMap := map[];
      boolVec := new bool[TABLE_SIZE](_ => false);
      new;
      forall c {:trigger Value(c)} | StockCode(c)
        ensures Value(c) < TABLE_SIZE
      {
        StockValue(c);
      }
    }

    method Insert(code: string)
      requires Valid() && StockCode(code)
      modifies this, tree, tree.nodes.Values, boolVec
      ensures Valid() && tree.codes == old(tree.codes) + {code}
    {
      tree.Insert(code);
      stockMap := stockMap[code := true];
      StockValue(code);
      boolVec[Value(code)] := true;
      forall c {:trigger Value(c)} | StockCode(c)
        ensures Value(c) < TABLE_SIZE && (boolVec[Value(c)] <==> c in tree.codes)
      {
        StockValue(c);
        ValueInjective(c, code);
      }
    }

    /** The three searches agree on every code, and agree with what was inserted. */
    method Lookup(code: string) returns (inMap: bool, inTree: bool, inTable: bool)
      requires Valid() && StockCode(code)
      ensures inMap == inTree == inTable
      ensures inMap <==> code in tree.codes
    {
      inMap := code in stockMap;
      inTree := tree.Find(code);
      StockValue(code);
      inTable := boolVec[Value(code)];
    }
  }
}
