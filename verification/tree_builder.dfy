/**
  `build_tree` (new-scripts/tree_builder.py): rebuild one sentence's dependency
  tree from its token records.

  The anytree nodes are modelled as an arena: node `0` is the virtual `ROOT`, node
  `k + 1` the node created for the token at position `k` of the sentence; a node's
  `parent` is the index of its parent node, and `children` lists each node's
  children in the order they were attached. The `nodes` dictionary of the script
  maps token ids to arena indices. The warnings the script prints for unknown heads
  are returned as a sequence.

  The two passes are specified by `Index` and `Labels` (node creation) and `Linked`
  (parent linking); `BuildTree` is proved to compute them, and the lemmas state
  what the linked tree is.
*/
module TreeBuilder {
  import opened Wrappers
  import opened Text

  /** The fields of a parsed token that `build_tree` reads. */
  datatype Token = Token(id: int, form: string, head: int, deprel: string)

  /** The label of the virtual root. */
  const RootLabel: string := "ROOT"

  /** The label `f"{word} ({relation})"` of a token's node. */
  function NodeLabel(t: Token): string {
    t.form + " (" + t.deprel + ")"
  }

  /** The message printed for a token whose head is not a known id. */
  function Warning(t: Token): string {
    "Warning: Parent with ID " + IntToString(t.head) + " not found for token " + t.form
  }

  // ---------------------------------------------------------------------------
  // First pass: node creation

  /** The `nodes` dictionary once the first `n` tokens have their node: the root
      under id 0, then each token's node under its id (a later token with the same
      id would take the entry over). */
  function Index(sentence: seq<Token>, n: nat): (index: map<int, nat>)
    requires n <= |sentence|
    ensures forall id :: id in index ==> index[id] <= n
  {
    if n == 0 then map[0 := 0] else Index(sentence, n - 1)[sentence[n - 1].id := n]
  }

  /** The labels of the nodes created by then, in creation order. */
  function Labels(sentence: seq<Token>, n: nat): (labels: seq<string>)
    requires n <= |sentence|
    ensures |labels| == n + 1
  {
    if n == 0 then [RootLabel] else Labels(sentence, n - 1) + [NodeLabel(sentence[n - 1])]
  }

  // ---------------------------------------------------------------------------
  // Second pass: parent linking

  /** The parent links, the child lists and the warnings. */
  datatype Links = Links(parent: seq<Option<nat>>, children: seq<seq<nat>>, warnings: seq<string>)

  /** The links once the first `n` tokens have been processed by the second pass. */
  function Linked(sentence: seq<Token>, n: nat): (l: Links)
    requires n <= |sentence|
    ensures |l.parent| == |l.children| == |sentence| + 1
  {
    if n == 0 then Links(seq(|sentence| + 1, _ => None), seq(|sentence| + 1, _ => []), [])
    else
      var l := Linked(sentence, n - 1);
      var t := sentence[n - 1];
      var index := Index(sentence, |sentence|);
      IndexHasIds(sentence, |sentence|);
      if t.head in index then
        var node, parent := index[t.id], index[t.head];
        Links(l.parent[node := Some(parent)], l.children[parent := l.children[parent] + [node]], l.warnings)
      else
        Links(l.parent, l.children, l.warnings + [Warning(t)])
  }

  // ---------------------------------------------------------------------------
  // What the script demands of a sentence

  /** Token ids are positive and pairwise distinct, so no token's node replaces the
      root or another token's node in the dictionary. */
  predicate DistinctIds(sentence: seq<Token>) {
    && (forall k :: 0 <= k < |sentence| ==> sentence[k].id >= 1)
    && (forall j, k :: 0 <= j < k < |sentence| ==> sentence[j].id != sentence[k].id)
  }

  /** The position of the first token with this id, if any. */
  function Find(sentence: seq<Token>, id: int): (k: Option<nat>)
    ensures k.Some? ==> k.value < |sentence| && sentence[k.value].id == id
    ensures k.Some? ==> forall j :: 0 <= j < k.value ==> sentence[j].id != id
    ensures k.None? ==> forall j :: 0 <= j < |sentence| ==> sentence[j].id != id
  {
    if sentence == [] then None
    else if sentence[0].id == id then Some(0)
    else match Find(sentence[1..], id)
      case None => None
      case Some(j) => Some(j + 1)
  }

  /** With distinct ids, a token is found at its own position. */
  lemma FindIndex(sentence: seq<Token>, j: nat)
    requires DistinctIds(sentence) && j < |sentence|
    ensures Find(sentence, sentence[j].id) == Some(j)
  {
    var found := Find(sentence, sentence[j].id);
    assert found.Some?;
    assert !(found.value < j) && !(found.value > j);
  }

  /** Following heads from `id` reaches the root or an unknown id within `fuel` steps. */
  predicate ChainEnds(sentence: seq<Token>, id: int, fuel: nat)
    decreases fuel
  {
    if id == 0 then true
    else match Find(sentence, id)
      case None => true
      case Some(k) => fuel > 0 && ChainEnds(sentence, sentence[k].head, fuel - 1)
  }

  /** No token is its own ancestor: otherwise anytree raises `LoopError` while linking. */
  predicate AcyclicHeads(sentence: seq<Token>) {
    forall k :: 0 <= k < |sentence| ==> ChainEnds(sentence, sentence[k].id, |sentence|)
  }

  // ---------------------------------------------------------------------------
  // The program

  /** The anytree nodes of one sentence, as an arena. */
  class Tree {
    var labels: seq<string>
    var parent: seq<Option<nat>>
    var children: seq<seq<nat>>

    ghost predicate Valid()
      reads this
    {
      |parent| == |labels| && |children| == |labels|
    }

    /** `Node("ROOT")`: an arena holding the root alone. */
    constructor ()
      ensures Valid()
      ensures labels == [RootLabel] && parent == [None] && children == [[]]
    {
      labels := [RootLabel];
      parent := [None];
      children := [[]];
    }

    /** `Node(label)`: a new node without parent or children; `node` is its index. */
    method NewNode(name: string) returns (node: nat)
      requires Valid()
      modifies this
      ensures Valid()
      ensures node == |old(labels)|
      ensures labels == old(labels) + [name] && parent == old(parent) + [None] && children == old(children) + [[]]
    {
      node := |labels|;
      labels := labels + [name];
      parent := parent + [None];
      children := children + [[]];
    }

    /** `node.parent = p` for a node that has no parent yet: the node becomes the
        last child of `p`. */
    method SetParent(node: nat, p: nat)
      requires Valid() && node < |labels| && p < |labels| && parent[node].None?
      modifies this
      ensures Valid() && labels == old(labels)
      ensures parent == old(parent)[node := Some(p)]
      ensures children == old(children)[p := old(children)[p] + [node]]
    {
      parent := parent[node := Some(p)];
      children := children[p := children[p] + [node]];
    }
  }

  /** `build_tree(sentence)`: create every token's node, then link each one under
      its head; `root` is the node the dictionary holds under id 0. */
  method BuildTree(sentence: seq<Token>) returns (tree: Tree, root: nat, warnings: seq<string>)
    requires DistinctIds(sentence) && AcyclicHeads(sentence)
    ensures fresh(tree) && tree.Valid()
    ensures root == 0
    ensures tree.labels == Labels(sentence, |sentence|)
    ensures Links(tree.parent, tree.children, warnings) == Linked(sentence, |sentence|)
  {
    var nodes;
    tree, nodes := CreateNodes(sentence);
    warnings := LinkNodes(tree, sentence, nodes);
    IndexAtRoot(sentence, |sentence|);
    root := nodes[0];
  }

  /** The first pass: the root, then one node per token, each under its id. */
  method CreateNodes(sentence: seq<Token>) returns (tree: Tree, nodes: map<int, nat>)
    ensures fresh(tree) && tree.Valid()
    ensures tree.labels == Labels(sentence, |sentence|) && nodes == Index(sentence, |sentence|)
    ensures tree.parent == Linked(sentence, 0).parent && tree.children == Linked(sentence, 0).children
  {
    tree := new Tree();
    nodes := map[0 := 0];
    for k := 0 to |sentence|
      invariant tree.Valid() && fresh(tree)
      invariant tree.labels == Labels(sentence, k) && nodes == Index(sentence, k)
      invariant tree.parent == seq(k + 1, _ => None) && tree.children == seq(k + 1, _ => [])
    {
      var node := tree.NewNode(NodeLabel(sentence[k]));
      nodes := nodes[sentence[k].id := node];
    }
  }

  /** The second pass: each token's node goes under its head's node, or a warning
      is issued when the head is no key of the dictionary. */
  method LinkNodes(tree: Tree, sentence: seq<Token>, nodes: map<int, nat>) returns (warnings: seq<string>)
    requires DistinctIds(sentence) && nodes == Index(sentence, |sentence|)
    requires tree.Valid() && |tree.labels| == |sentence| + 1
    requires tree.parent == Linked(sentence, 0).parent && tree.children == Linked(sentence, 0).children
    modifies tree
    ensures tree.Valid() && tree.labels == old(tree.labels)
    ensures Links(tree.parent, tree.children, warnings) == Linked(sentence, |sentence|)
  {
    warnings := [];
    for k := 0 to |sentence|
      invariant tree.Valid() && tree.labels == old(tree.labels)
      invariant Links(tree.parent, tree.children, warnings) == Linked(sentence, k)
      invariant forall q :: k < q <= |sentence| ==> tree.parent[q].None?
    {
      warnings := LinkToken(tree, sentence, nodes, k, warnings);
    }
  }

  /** One step of the second pass, for the token at position `k`. */
  method LinkToken(tree: Tree, sentence: seq<Token>, nodes: map<int, nat>, k: nat, warnings: seq<string>)
    returns (warnings': seq<string>)
    requires DistinctIds(sentence) && nodes == Index(sentence, |sentence|) && k < |sentence|
    requires tree.Valid() && |tree.labels| == |sentence| + 1
    requires Links(tree.parent, tree.children, warnings) == Linked(sentence, k)
    requires forall q :: k < q <= |sentence| ==> tree.parent[q].None?
    modifies tree
    ensures tree.Valid() && tree.labels == old(tree.labels)
    ensures Links(tree.parent, tree.children, warnings') == Linked(sentence, k + 1)
    ensures forall q :: k + 1 < q <= |sentence| ==> tree.parent[q].None?
  {
    var token := sentence[k];
    IndexAt(sentence, |sentence|, k);
    if token.head in nodes {
      tree.SetParent(nodes[token.id], nodes[token.head]);
      warnings' := warnings;
    } else {
      warnings' := warnings + [Warning(token)];
    }
  }

  // ---------------------------------------------------------------------------
  // The dictionary

  lemma {:induction false} IndexHasIds(sentence: seq<Token>, n: nat)
    requires n <= |sentence|
    ensures 0 in Index(sentence, n)
    ensures forall k :: 0 <= k < n ==> sentence[k].id in Index(sentence, n)
  {
    if n > 0 {
      IndexHasIds(sentence, n - 1);
    }
  }

  /** With distinct positive ids, the dictionary maps each token's id to its own node. */
  lemma {:induction false} IndexAt(sentence: seq<Token>, n: nat, k: nat)
    requires DistinctIds(sentence) && k < n <= |sentence|
    ensures sentence[k].id in Index(sentence, n) && Index(sentence, n)[sentence[k].id] == k + 1
  {
    if k < n - 1 {
      IndexAt(sentence, n - 1, k);
    }
  }

  /** With positive ids, id 0 keeps the root. */
  lemma {:induction false} IndexAtRoot(sentence: seq<Token>, n: nat)
    requires forall k :: 0 <= k < |sentence| ==> sentence[k].id >= 1
    requires n <= |sentence|
    ensures 0 in Index(sentence, n) && Index(sentence, n)[0] == 0
  {
    if n > 0 {
      IndexAtRoot(sentence, n - 1);
    }
  }

  /** The dictionary's keys are 0 and the ids of the tokens created so far. */
  lemma {:induction false} IndexKeys(sentence: seq<Token>, n: nat, id: int)
    requires n <= |sentence|
    ensures id in Index(sentence, n) <==> id == 0 || exists k :: 0 <= k < n && sentence[k].id == id
  {
    if n > 0 {
      IndexKeys(sentence, n - 1, id);
    }
  }

  // ---------------------------------------------------------------------------
  // The tree that the second pass builds

  /** The node a head id names, if any: the root for 0, else the node of the token
      with that id, wherever that token stands in the sentence. */
  function HeadNode(sentence: seq<Token>, head: int): (node: Option<nat>)
    ensures node.Some? ==> node.value <= |sentence|
  {
    if head == 0 then Some(0)
    else match Find(sentence, head)
      case None => None
      case Some(j) => Some(j + 1)
  }

  /** The membership test of the second pass picks out exactly the heads that name a node. */
  lemma HeadNodeIndex(sentence: seq<Token>, head: int)
    requires DistinctIds(sentence)
    ensures head in Index(sentence, |sentence|) <==> HeadNode(sentence, head).Some?
    ensures head in Index(sentence, |sentence|) ==> Index(sentence, |sentence|)[head] == HeadNode(sentence, head).value
  {
    if head == 0 {
      IndexAtRoot(sentence, |sentence|);
    } else {
      match Find(sentence, head)
      case None =>
        IndexKeys(sentence, |sentence|, head);
      case Some(j) =>
        IndexAt(sentence, |sentence|, j);
    }
  }

  /** One step of the second pass, phrased with `HeadNode`: token `n - 1` either
      hangs its node `n` under the node its head names or adds its warning. */
  lemma LinkedStep(sentence: seq<Token>, n: nat)
    requires DistinctIds(sentence) && 0 < n <= |sentence|
    ensures var l, t := Linked(sentence, n - 1), sentence[n - 1];
      Linked(sentence, n) == match HeadNode(sentence, t.head)
        case None => Links(l.parent, l.children, l.warnings + [Warning(t)])
        case Some(p) => Links(l.parent[n := Some(p)], l.children[p := l.children[p] + [n]], l.warnings)
  {
    HeadNodeIndex(sentence, sentence[n - 1].head);
    IndexAt(sentence, |sentence|, n - 1);
  }

  /** After `n` steps, the nodes of the first `n` tokens hang under the node their
      head names (or nowhere when it names none); the root and the later tokens'
      nodes have no parent. */
  lemma {:induction false} LinkedParents(sentence: seq<Token>, n: nat)
    requires DistinctIds(sentence) && n <= |sentence|
    ensures forall q :: 0 <= q <= |sentence| ==>
      Linked(sentence, n).parent[q] == if 1 <= q <= n then HeadNode(sentence, sentence[q - 1].head) else None
  {
    if n > 0 {
      LinkedParents(sentence, n - 1);
      LinkedStep(sentence, n);
    }
  }

  /** After `n` steps, a node's children are the nodes of the tokens among the first
      `n` whose head names it, in token order. */
  lemma LinkedChildren(sentence: seq<Token>, n: nat, p: nat)
    requires DistinctIds(sentence) && n <= |sentence| && p <= |sentence|
    ensures forall c :: c in Linked(sentence, n).children[p] <==>
      1 <= c <= n && HeadNode(sentence, sentence[c - 1].head) == Some(p)
    ensures forall a, b :: 0 <= a < b < |Linked(sentence, n).children[p]| ==>
      Linked(sentence, n).children[p][a] < Linked(sentence, n).children[p][b]
  {
    ChildrenMembers(sentence, n, p);
    ChildrenOrder(sentence, n, p);
  }

  lemma {:induction false} ChildrenMembers(sentence: seq<Token>, n: nat, p: nat)
    requires DistinctIds(sentence) && n <= |sentence| && p <= |sentence|
    ensures forall c :: c in Linked(sentence, n).children[p] <==>
      1 <= c <= n && HeadNode(sentence, sentence[c - 1].head) == Some(p)
  {
    if n > 0 {
      ChildrenMembers(sentence, n - 1, p);
      LinkedStep(sentence, n);
    }
  }

  lemma {:induction false} ChildrenOrder(sentence: seq<Token>, n: nat, p: nat)
    requires DistinctIds(sentence) && n <= |sentence| && p <= |sentence|
    ensures forall a :: 0 <= a < |Linked(sentence, n).children[p]| ==> Linked(sentence, n).children[p][a] <= n
    ensures forall a, b :: 0 <= a < b < |Linked(sentence, n).children[p]| ==>
      Linked(sentence, n).children[p][a] < Linked(sentence, n).children[p][b]
  {
    if n > 0 {
      ChildrenOrder(sentence, n - 1, p);
      LinkedStep(sentence, n);
      var before, after := Linked(sentence, n - 1).children[p], Linked(sentence, n).children[p];
      assert after == before || after == before + [n];
    }
  }

  /** The warnings of the tokens among `tokens` whose head names no node, in order. */
  function Warnings(sentence: seq<Token>, tokens: seq<Token>): (ws: seq<string>)
    ensures |ws| <= |tokens|
  {
    if tokens == [] then []
    else
      var t := tokens[|tokens| - 1];
      Warnings(sentence, tokens[..|tokens| - 1]) + if HeadNode(sentence, t.head).None? then [Warning(t)] else []
  }

  /** After `n` steps, one warning has been issued per token among the first `n`
      whose head names no node. */
  lemma {:induction false} LinkedWarnings(sentence: seq<Token>, n: nat)
    requires DistinctIds(sentence) && n <= |sentence|
    ensures Linked(sentence, n).warnings == Warnings(sentence, sentence[..n])
  {
    if n > 0 {
      LinkedWarnings(sentence, n - 1);
      LinkedStep(sentence, n);
      assert sentence[..n][..n - 1] == sentence[..n - 1];
    }
  }

  /** The nodes: the root first, labelled `ROOT`, then one per token with its label. */
  lemma {:induction false} LabelsSpec(sentence: seq<Token>, n: nat)
    requires n <= |sentence|
    ensures Labels(sentence, n)[0] == RootLabel
    ensures forall k :: 0 <= k < n ==> Labels(sentence, n)[k + 1] == NodeLabel(sentence[k])
  {
    if n > 0 {
      LabelsSpec(sentence, n - 1);
    }
  }

  /** A token whose head is 0 hangs under the root. */
  lemma ParentIsRoot(sentence: seq<Token>, k: nat)
    requires DistinctIds(sentence) && k < |sentence| && sentence[k].head == 0
    ensures Linked(sentence, |sentence|).parent[k + 1] == Some(0)
  {
    LinkedParents(sentence, |sentence|);
  }

  /** A token whose head is the id of another token hangs under that token's node,
      whether that token comes before it or after it. */
  lemma ParentIsHeadToken(sentence: seq<Token>, k: nat, j: nat)
    requires DistinctIds(sentence) && k < |sentence| && j < |sentence| && sentence[j].id == sentence[k].head
    ensures Linked(sentence, |sentence|).parent[k + 1] == Some(j + 1)
  {
    var head := sentence[k].head;
    assert head != 0;
    FindIndex(sentence, j);
    assert HeadNode(sentence, head) == Some(j + 1);
    LinkedParents(sentence, |sentence|);
    assert Linked(sentence, |sentence|).parent[k + 1] == HeadNode(sentence, head);
  }

  /** A token whose head is neither 0 nor the id of any token stays detached, and
      its warning is issued. */
  lemma OrphanToken(sentence: seq<Token>, k: nat)
    requires DistinctIds(sentence) && k < |sentence| && sentence[k].head != 0
    requires forall j :: 0 <= j < |sentence| ==> sentence[j].id != sentence[k].head
    ensures Linked(sentence, |sentence|).parent[k + 1] == None
    ensures Warning(sentence[k]) in Linked(sentence, |sentence|).warnings
  {
    LinkedParents(sentence, |sentence|);
    assert HeadNode(sentence, sentence[k].head).None?;
    LinkedWarnings(sentence, |sentence|);
    WarningIssued(sentence, sentence, k);
    assert sentence[..|sentence|] == sentence;
  }

  lemma {:induction false} WarningIssued(sentence: seq<Token>, tokens: seq<Token>, k: nat)
    requires k < |tokens| && HeadNode(sentence, tokens[k].head).None?
    ensures Warning(tokens[k]) in Warnings(sentence, tokens)
  {
    var init := tokens[..|tokens| - 1];
    if k < |init| {
      WarningIssued(sentence, init, k);
    }
  }

  /** The parent links and the child lists of the result agree: a node is among
      the children of `p` exactly when its parent is `p`. */
  lemma ParentsAndChildren(sentence: seq<Token>, c: nat, p: nat)
    requires DistinctIds(sentence) && c <= |sentence| && p <= |sentence|
    ensures c in Linked(sentence, |sentence|).children[p] <==> Linked(sentence, |sentence|).parent[c] == Some(p)
  {
    LinkedParents(sentence, |sentence|);
    LinkedChildren(sentence, |sentence|, p);
  }

  /** Following parent links from node `q` reaches a node without parent within
      `fuel` steps. */
  predicate ReachesTop(parent: seq<Option<nat>>, q: nat, fuel: nat)
    decreases fuel
  {
    q < |parent| && (parent[q].None? || (fuel > 0 && ReachesTop(parent, parent[q].value, fuel - 1)))
  }

  /** With acyclic heads, every node's chain of parents ends, at the root or at the
      node of a token whose head named no node: the result is a forest. */
  lemma ChainsEnd(sentence: seq<Token>, q: nat)
    requires DistinctIds(sentence) && AcyclicHeads(sentence) && q <= |sentence|
    ensures ReachesTop(Linked(sentence, |sentence|).parent, q, |sentence|)
  {
    LinkedParents(sentence, |sentence|);
    if q > 0 {
      TokenChainEnds(sentence, q - 1, |sentence|);
    }
  }

  lemma {:induction false} TokenChainEnds(sentence: seq<Token>, k: nat, fuel: nat)
    requires DistinctIds(sentence) && k < |sentence|
    requires ChainEnds(sentence, sentence[k].id, fuel)
    requires forall q :: 0 <= q <= |sentence| ==>
      Linked(sentence, |sentence|).parent[q] == if 1 <= q then HeadNode(sentence, sentence[q - 1].head) else None
    ensures ReachesTop(Linked(sentence, |sentence|).parent, k + 1, fuel)
    decreases fuel
  {
    var parent := Linked(sentence, |sentence|).parent;
    var head := sentence[k].head;
    FindIndex(sentence, k);
    match HeadNode(sentence, head)
    case None =>
    case Some(p) =>
      if p == 0 {
        assert ReachesTop(parent, 0, fuel - 1);
      } else {
        assert sentence[p - 1].id == head;
        TokenChainEnds(sentence, p - 1, fuel - 1);
      }
  }
}
