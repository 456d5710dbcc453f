/** The loops of pkg/appdefcompat/impl.go, each proved against its function of module Compat. */
module CompatChecker {
  import opened Options
  import opened Compat

  /** The last node with the name wins. */
  method FindNodeByName(nodes: seq<Node>, name: string) returns (found: Option<(Node, nat)>)
    ensures found == FindNode(nodes, name)
  {
    found := None;
    for i := 0 to |nodes|
      invariant found == FindNode(nodes[..i], name)
    {
      assert nodes[..i + 1][..i] == nodes[..i];
      if nodes[i].name == name {
        found := Some((nodes[i], i));
      }
    }
    assert nodes[..|nodes|] == nodes;
  }

  method FindConstraintByName(name: string, constrains: seq<NodeConstraint>) returns (constraint: Constraint)
    ensures constraint == FindConstraint(name, constrains)
  {
    constraint := ALL_ALLOWED;
    for i := 0 to |constrains|
      invariant FindConstraint(name, constrains) == FindConstraint(name, constrains[i..])
    {
      if constrains[i].nodeName == name {
        return constrains[i].constraint;
      }
      assert constrains[i..][1..] == constrains[i + 1..];
    }
  }

  method Match(oldNodes: seq<Node>, newNodes: seq<Node>) returns (result: MatchResult)
    ensures result == MatchNodes(oldNodes, newNodes)
  {
    result := MatchResult(0, [], 0, [], []);
    for i := 0 to |oldNodes|
      invariant result == MatchOld(oldNodes, newNodes, i)
    {
      var found := FindNodeByName(newNodes, oldNodes[i].name);
      if found.None? {
        result := result.(deleted := result.deleted + [oldNodes[i].name]);
      } else {
        var (newNode, index) := found.value;
        if i != index {
          result := result.(reordered := result.reordered + [newNode.name]);
        }
        result := result.(pairs := result.pairs + [(oldNodes[i], newNode)]);
      }
    }
    for i := 0 to |newNodes|
      invariant result == MatchNew(oldNodes, newNodes, MatchOld(oldNodes, newNodes, |oldNodes|), i)
    {
      var found := FindNodeByName(oldNodes, newNodes[i].name);
      if found.None? {
        if i > |oldNodes| - 1 {
          result := result.(appended := result.appended + 1);
        } else {
          result := result.(inserted := result.inserted + 1);
        }
      }
    }
  }

  /** One error for each name. */
  method ReportNames(c: Constraint, path: seq<string>, names: seq<string>, t: ErrorType) returns (errs: seq<CompatError>)
    ensures errs == ErrorsFor(c, path, names, t)
  {
    errs := [];
    for i := 0 to |names|
      invariant errs == ErrorsFor(c, path, names[..i], t)
    {
      assert names[..i + 1][..i] == names[..i];
      errs := errs + [CompatError(c, path + [names[i]], t)];
    }
    assert names[..|names|] == names;
  }

  method Check(path: seq<string>, m: MatchResult, c: Constraint) returns (errs: seq<CompatError>)
    ensures errs == CheckConstraint(path, m, c)
  {
    if c == ALL_ALLOWED {
      return [];
    }
    var inserted, appended, removed, reordered, changed := [], [], [], [], [];
    if m.deleted == [] && m.inserted > 0 && Appending(c) {
      inserted := [CompatError(c, path, Kind(c, NodeInserted))];
    }
    if c == NON_MODIFIABLE && m.appended > 0 {
      appended := [CompatError(c, path, NodeModified)];
    }
    if m.deleted != [] && (Appending(c) || c & INSERT_ONLY > 0) {
      removed := ReportNames(c, path, m.deleted, Kind(c, NodeRemoved));
    }
    if c & ORDER_CHANGE_ONLY == 0 && m.reordered != [] && m.deleted == [] && Appending(c) {
      reordered := ReportNames(c, path, m.reordered, Kind(c, OrderChanged));
    }
    if c & ORDER_CHANGE_ONLY > 0 && (m.appended > 0 || m.deleted != [] || m.inserted > 0) {
      changed := [CompatError(c, path, NodeModified)];
    }
    return inserted + appended + removed + reordered + changed;
  }

  lemma PairsInProps(o: Node, n: Node)
    ensures var pairs := MatchNodes(o.props, n.props).pairs;
      |pairs| <= |o.props| && forall i | 0 <= i < |pairs| :: pairs[i].0 in o.props
  {
    CompareNodesUnfold([], o, n, []);
  }

  lemma CompareNodesParts(path: seq<string>, o: Node, n: Node, cs: seq<NodeConstraint>)
    ensures var m := MatchNodes(o.props, n.props);
      && |m.pairs| <= |o.props| && (forall i | 0 <= i < |m.pairs| :: m.pairs[i].0 in o.props)
      && CompareNodes(path, o, n, cs)
           == (if o.value != n.value then [CompatError(VALUE_MATCH, path, ValueChanged)] else [])
              + CheckConstraint(path, m, FindConstraint(o.name, cs)) + ComparePairs(path, o, m.pairs, cs)
  {
    PairsInProps(o, n);
    hide MatchNodes, CheckConstraint, ComparePairs, FindConstraint;
  }

  lemma OneMorePair(path: seq<string>, o: Node, pairs: seq<(Node, Node)>, i: nat, cs: seq<NodeConstraint>)
    requires i < |pairs| <= |o.props| && forall k | 0 <= k < |pairs| :: pairs[k].0 in o.props
    ensures pairs[i].0 < o
    ensures ComparePairs(path, o, pairs[..i + 1], cs)
      == ComparePairs(path, o, pairs[..i], cs) + CompareNodes(path + [pairs[i].0.name], pairs[i].0, pairs[i].1, cs)
  {
    assert pairs[..i + 1][..i] == pairs[..i];
    hide CompareNodes;
  }

  method Compare(path: seq<string>, oldNode: Node, newNode: Node, constrains: seq<NodeConstraint>) returns (errs: seq<CompatError>)
    ensures errs == CompareNodes(path, oldNode, newNode, constrains)
    decreases oldNode
  {
    hide *;
    errs := [];
    if oldNode.value != newNode.value {
      errs := [CompatError(VALUE_MATCH, path, ValueChanged)];
    }
    var m := Match(oldNode.props, newNode.props);
    var constraint := FindConstraintByName(oldNode.name, constrains);
    var found := Check(path, m, constraint);
    errs := errs + found;
    CompareNodesParts(path, oldNode, newNode, constrains);
    var pairErrs := [];
    NoPairs(path, oldNode, m.pairs, constrains);
    for i := 0 to |m.pairs|
      invariant pairErrs == ComparePairs(path, oldNode, m.pairs[..i], constrains)
    {
      OneMorePair(path, oldNode, m.pairs, i, constrains);
      found := Compare(path + [m.pairs[i].0.name], m.pairs[i].0, m.pairs[i].1, constrains);
      pairErrs := pairErrs + found;
    }
    assert m.pairs[..|m.pairs|] == m.pairs;
    errs := errs + pairErrs;
  }

  lemma NoPairs(path: seq<string>, o: Node, pairs: seq<(Node, Node)>, cs: seq<NodeConstraint>)
    ensures ComparePairs(path, o, pairs[..0], cs) == []
  {
  }

  /** checkBackwardCompatibility on the two trees: no error exactly if they are compatible. */
  method CheckBackwardCompatibility(oldTree: Node, newTree: Node) returns (errs: seq<CompatError>)
    requires UniqueNames(oldTree) && UniqueNames(newTree)
    ensures errs == [] <==> Compatible(oldTree, newTree, CONSTRAINTS)
  {
    errs := Compare([oldTree.name], oldTree, newTree, CONSTRAINTS);
    ComparedIsCompatible([oldTree.name], oldTree, newTree, CONSTRAINTS);
    hide *;
  }
}
