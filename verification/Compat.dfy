/** The backward-compatibility check of pkg/appdefcompat: a recursive comparison of two trees under
    constraints that are looked up by node name, and what it means. */
module Compat {
  import opened Options

  type Constraint = bv8

  const VALUE_MATCH: Constraint := 1
  const APPEND_ONLY: Constraint := 2
  const INSERT_ONLY: Constraint := 4
  const DELETE_ONLY: Constraint := 8
  const ORDER_CHANGE_ONLY: Constraint := 16
  const ALL_ALLOWED: Constraint := 255
  const NON_MODIFIABLE: Constraint := 0

  datatype ErrorType = NodeRemoved | OrderChanged | NodeInserted | ValueChanged | NodeModified
  datatype CompatError = CompatError(constraint: Constraint, path: seq<string>, errorType: ErrorType)

  /** A node of the compatibility tree; a value is anything that can be compared. */
  datatype Node = Node(name: string, value: nat, props: seq<Node>)

  datatype NodeConstraint = NodeConstraint(nodeName: string, constraint: Constraint)

  /** The constraints of checkBackwardCompatibility. */
  const CONSTRAINTS: seq<NodeConstraint> := [
    NodeConstraint("Types", INSERT_ONLY),
    NodeConstraint("Fields", APPEND_ONLY),
    NodeConstraint("UniqueFields", ORDER_CHANGE_ONLY),
    NodeConstraint("PartKeyFields", NON_MODIFIABLE),
    NodeConstraint("ClustColsFields", NON_MODIFIABLE),
    NodeConstraint("CommandArgs", NON_MODIFIABLE),
    NodeConstraint("CommandResult", NON_MODIFIABLE),
    NodeConstraint("Packages", APPEND_ONLY | ORDER_CHANGE_ONLY)
  ]

  function FindConstraint(name: string, cs: seq<NodeConstraint>): Constraint {
    if cs == [] then ALL_ALLOWED
    else if cs[0].nodeName == name then cs[0].constraint
    else FindConstraint(name, cs[1..])
  }

  /* ---------- matching ---------- */

  /** The last node of the name, and its index. */
  function FindNode(nodes: seq<Node>, name: string): (r: Option<(Node, nat)>)
    ensures r.Some? ==> r.value.1 < |nodes| && r.value.0 == nodes[r.value.1] && r.value.0.name == name
    ensures r.Some? ==> forall j | r.value.1 < j < |nodes| :: nodes[j].name != name
    ensures r.None? ==> forall i | 0 <= i < |nodes| :: nodes[i].name != name
  {
    if nodes == [] then None
    else
      var n := |nodes| - 1;
      if nodes[n].name == name then Some((nodes[n], n)) else FindNode(nodes[..n], name)
  }

  datatype MatchResult = MatchResult(inserted: nat, deleted: seq<string>, appended: nat,
                                     pairs: seq<(Node, Node)>, reordered: seq<string>)

  /** The first loop of matchNodes, over the first i old nodes. */
  function MatchOld(olds: seq<Node>, news: seq<Node>, i: nat): MatchResult
    requires i <= |olds|
  {
    if i == 0 then MatchResult(0, [], 0, [], [])
    else
      var m := MatchOld(olds, news, i - 1);
      var o := olds[i - 1];
      match FindNode(news, o.name)
      case None => m.(deleted := m.deleted + [o.name])
      case Some((n, index)) =>
        m.(reordered := if i - 1 != index then m.reordered + [n.name] else m.reordered, pairs := m.pairs + [(o, n)])
  }

  /** The second loop, over the first i new nodes. */
  function MatchNew(olds: seq<Node>, news: seq<Node>, m: MatchResult, i: nat): MatchResult
    requires i <= |news|
  {
    if i == 0 then m
    else
      var r := MatchNew(olds, news, m, i - 1);
      if FindNode(olds, news[i - 1].name).Some? then r
      else if i - 1 > |olds| - 1 then r.(appended := r.appended + 1)
      else r.(inserted := r.inserted + 1)
  }

  function MatchNodes(olds: seq<Node>, news: seq<Node>): MatchResult {
    MatchNew(olds, news, MatchOld(olds, news, |olds|), |news|)
  }

  /* ---------- checking ---------- */

  function ErrorsFor(c: Constraint, path: seq<string>, names: seq<string>, t: ErrorType): (r: seq<CompatError>)
    ensures r == [] <==> names == []
  {
    if names == [] then []
    else ErrorsFor(c, path, names[..|names| - 1], t) + [CompatError(c, path + [names[|names| - 1]], t)]
  }

  function Kind(c: Constraint, t: ErrorType): ErrorType {
    if c == NON_MODIFIABLE then NodeModified else t
  }

  predicate Appending(c: Constraint) {
    c == NON_MODIFIABLE || c & APPEND_ONLY > 0
  }

  function CheckConstraint(path: seq<string>, m: MatchResult, c: Constraint): seq<CompatError> {
    if c == ALL_ALLOWED then []
    else
      (if m.deleted == [] && m.inserted > 0 && Appending(c) then [CompatError(c, path, Kind(c, NodeInserted))] else [])
      + (if c == NON_MODIFIABLE && m.appended > 0 then [CompatError(c, path, NodeModified)] else [])
      + (if m.deleted != [] && (Appending(c) || c & INSERT_ONLY > 0)
         then ErrorsFor(c, path, m.deleted, Kind(c, NodeRemoved)) else [])
      + (if c & ORDER_CHANGE_ONLY == 0 && m.reordered != [] && m.deleted == [] && Appending(c)
         then ErrorsFor(c, path, m.reordered, Kind(c, OrderChanged)) else [])
      + (if c & ORDER_CHANGE_ONLY > 0 && (m.appended > 0 || m.deleted != [] || m.inserted > 0)
         then [CompatError(c, path, NodeModified)] else [])
  }

  /** compareNodes; `path` is the path of the old node. */
  function CompareNodes(path: seq<string>, o: Node, n: Node, cs: seq<NodeConstraint>): seq<CompatError>
    decreases o, |o.props| + 1
  {
    var m := MatchNodes(o.props, n.props);
    PairsAreProps(o.props, n.props, |o.props|);
    MatchNewKeeps(o.props, n.props, MatchOld(o.props, n.props, |o.props|), |n.props|);
    (if o.value != n.value then [CompatError(VALUE_MATCH, path, ValueChanged)] else [])
    + CheckConstraint(path, m, FindConstraint(o.name, cs))
    + ComparePairs(path, o, m.pairs, cs)
  }

  function ComparePairs(path: seq<string>, o: Node, pairs: seq<(Node, Node)>, cs: seq<NodeConstraint>): seq<CompatError>
    requires |pairs| <= |o.props| && forall i | 0 <= i < |pairs| :: pairs[i].0 in o.props
    decreases o, |pairs|
  {
    if pairs == [] then []
    else
      var n := |pairs| - 1;
      ComparePairs(path, o, pairs[..n], cs) + CompareNodes(path + [pairs[n].0.name], pairs[n].0, pairs[n].1, cs)
  }

  lemma {:induction false} PairsAreProps(olds: seq<Node>, news: seq<Node>, i: nat)
    requires i <= |olds|
    ensures var pairs := MatchOld(olds, news, i).pairs;
      |pairs| <= i && forall k | 0 <= k < |pairs| :: pairs[k].0 in olds && pairs[k].1 in news && pairs[k].0.name == pairs[k].1.name
  {
    if i > 0 {
      PairsAreProps(olds, news, i - 1);
    }
  }

  lemma {:induction false} MatchNewKeeps(olds: seq<Node>, news: seq<Node>, m: MatchResult, i: nat)
    requires i <= |news|
    ensures var r := MatchNew(olds, news, m, i); r.deleted == m.deleted && r.pairs == m.pairs && r.reordered == m.reordered
  {
    if i > 0 {
      MatchNewKeeps(olds, news, m, i - 1);
    }
  }

  /* ---------- what compatibility means ---------- */

  function Names(nodes: seq<Node>): (r: seq<string>)
    ensures |r| == |nodes| && forall i | 0 <= i < |nodes| :: r[i] == nodes[i].name
  {
    if nodes == [] then [] else Names(nodes[..|nodes| - 1]) + [nodes[|nodes| - 1].name]
  }

  predicate Subset(a: seq<string>, b: seq<string>) {
    forall x | x in a :: x in b
  }

  /** What a constraint allows to happen to the names of the children. */
  predicate Allowed(c: Constraint, olds: seq<string>, news: seq<string>) {
    if c == ALL_ALLOWED then true
    else if c == NON_MODIFIABLE then olds == news
    else if c & ORDER_CHANGE_ONLY > 0 then Subset(olds, news) && Subset(news, olds)
    else if c & APPEND_ONLY > 0 then olds <= news
    else if c & INSERT_ONLY > 0 then Subset(olds, news)
    else true
  }

  /** Equal values, an allowed change of the children's names, and compatible children of equal names. */
  predicate Compatible(o: Node, n: Node, cs: seq<NodeConstraint>)
    decreases o
  {
    && o.value == n.value
    && Allowed(FindConstraint(o.name, cs), Names(o.props), Names(n.props))
    && forall i, j | 0 <= i < |o.props| && 0 <= j < |n.props| && o.props[i].name == n.props[j].name ::
         Compatible(o.props[i], n.props[j], cs)
  }

  predicate Distinct(names: seq<string>) {
    forall i, j | 0 <= i < j < |names| :: names[i] != names[j]
  }

  predicate UniqueNames(n: Node)
    decreases n
  {
    Distinct(Names(n.props)) && forall i | 0 <= i < |n.props| :: UniqueNames(n.props[i])
  }

  /* ---------- the matching, declaratively ---------- */

  lemma {:induction false} DeletedMeans(olds: seq<Node>, news: seq<Node>, i: nat)
    requires i <= |olds|
    ensures MatchOld(olds, news, i).deleted == [] <==> forall k | 0 <= k < i :: FindNode(news, olds[k].name).Some?
  {
    if i > 0 {
      DeletedMeans(olds, news, i - 1);
    }
  }

  lemma {:induction false} ReorderedMeans(olds: seq<Node>, news: seq<Node>, i: nat)
    requires i <= |olds|
    ensures MatchOld(olds, news, i).reordered == [] <==>
      forall k | 0 <= k < i :: FindNode(news, olds[k].name).Some? ==> FindNode(news, olds[k].name).value.1 == k
  {
    if i > 0 {
      ReorderedMeans(olds, news, i - 1);
    }
  }

  lemma {:induction false} NewMeans(olds: seq<Node>, news: seq<Node>, m: MatchResult, i: nat)
    requires i <= |news| && m.inserted == m.appended == 0
    ensures var r := MatchNew(olds, news, m, i);
      && (r.inserted == 0 <==> forall k | 0 <= k < i && k < |olds| :: FindNode(olds, news[k].name).Some?)
      && (r.appended == 0 <==> forall k | |olds| <= k < i :: FindNode(olds, news[k].name).Some?)
  {
    if i > 0 {
      NewMeans(olds, news, m, i - 1);
    }
  }

  lemma FindIsMembership(nodes: seq<Node>, name: string)
    ensures FindNode(nodes, name).Some? <==> name in Names(nodes)
  {
    if name in Names(nodes) {
      var i :| 0 <= i < |nodes| && Names(nodes)[i] == name;
      assert nodes[i].name == name;
    }
    if FindNode(nodes, name).Some? {
      assert Names(nodes)[FindNode(nodes, name).value.1] == name;
    }
  }

  /** Every name of the first sequence from index i up to j is in the second. */
  predicate RangeIn(a: seq<string>, i: nat, j: nat, b: seq<string>) {
    forall k | i <= k < j && k < |a| :: a[k] in b
  }

  lemma DeletedIsSubset(olds: seq<Node>, news: seq<Node>)
    ensures MatchNodes(olds, news).deleted == [] <==> Subset(Names(olds), Names(news))
  {
    MatchNewKeeps(olds, news, MatchOld(olds, news, |olds|), |news|);
    DeletedMeans(olds, news, |olds|);
    forall k | 0 <= k < |olds|
      ensures FindNode(news, olds[k].name).Some? <==> Names(olds)[k] in Names(news)
    {
      FindIsMembership(news, olds[k].name);
    }
    hide MatchOld, MatchNew, FindNode, Names;
    if Subset(Names(olds), Names(news)) {
      assert forall k | 0 <= k < |olds| :: Names(olds)[k] in Names(olds);
    }
  }

  lemma NoCountsYet(olds: seq<Node>, news: seq<Node>, i: nat)
    requires i <= |olds|
    ensures MatchOld(olds, news, i).inserted == 0 && MatchOld(olds, news, i).appended == 0
  {
  }

  lemma CountsAreRanges(olds: seq<Node>, news: seq<Node>)
    ensures var m := MatchNodes(olds, news);
      && (m.inserted == 0 <==> RangeIn(Names(news), 0, |olds|, Names(olds)))
      && (m.appended == 0 <==> RangeIn(Names(news), |olds|, |news|, Names(olds)))
  {
    NoCountsYet(olds, news, |olds|);
    NewMeans(olds, news, MatchOld(olds, news, |olds|), |news|);
    forall k | 0 <= k < |news|
      ensures FindNode(olds, news[k].name).Some? <==> Names(news)[k] in Names(olds)
    {
      FindIsMembership(olds, news[k].name);
    }
    hide MatchOld, MatchNew, FindNode, Names;
  }

  lemma ReorderedIsPrefix(olds: seq<Node>, news: seq<Node>)
    requires Distinct(Names(news)) && Subset(Names(olds), Names(news))
    ensures MatchNodes(olds, news).reordered == [] <==> Names(olds) <= Names(news)
  {
    MatchNewKeeps(olds, news, MatchOld(olds, news, |olds|), |news|);
    ReorderedMeans(olds, news, |olds|);
    var a, b := Names(olds), Names(news);
    forall k | 0 <= k < |olds|
      ensures FindNode(news, olds[k].name).Some?
      ensures FindNode(news, olds[k].name).value.1 == k <==> k < |news| && a[k] == b[k]
    {
      assert a[k] in a;
      FindIsMembership(news, olds[k].name);
      var index := FindNode(news, olds[k].name).value.1;
      assert b[index] == a[k];
    }
    hide MatchOld, MatchNew, FindNode, Names;
    if |a| <= |b| && forall k | 0 <= k < |a| :: a[k] == b[k] {
      assert a == b[..|a|];
    } else if |a| > |b| {
      assert |b| < |olds|;
    }
  }

  /** The checks find no error exactly if the constraint allows the change. */
  lemma CheckIsAllowed(path: seq<string>, olds: seq<Node>, news: seq<Node>, c: Constraint)
    requires Distinct(Names(olds)) && Distinct(Names(news))
    ensures CheckConstraint(path, MatchNodes(olds, news), c) == [] <==> Allowed(c, Names(olds), Names(news))
  {
    var m := MatchNodes(olds, news);
    var a, b := Names(olds), Names(news);
    DeletedIsSubset(olds, news);
    CountsAreRanges(olds, news);
    if Subset(a, b) {
      ReorderedIsPrefix(olds, news);
    }
    hide MatchNodes, Names, ErrorsFor;
    BothRangesAreSubset(a, b);
    PrefixRanges(a, b);
  }

  lemma BothRangesAreSubset(a: seq<string>, b: seq<string>)
    ensures RangeIn(b, 0, |a|, a) && RangeIn(b, |a|, |b|, a) <==> Subset(b, a)
  {
    if Subset(b, a) {
      assert forall k | 0 <= k < |b| :: b[k] in b;
    }
  }

  lemma LongerHasMore(a: seq<string>, b: seq<string>)
    requires a <= b && Distinct(b) && |a| < |b|
    ensures !Subset(b, a)
  {
    assert b[|a|] in b;
    forall k | 0 <= k < |a|
      ensures a[k] != b[|a|]
    {
      assert a[k] == b[k];
    }
  }

  lemma PrefixRanges(a: seq<string>, b: seq<string>)
    requires Distinct(b)
    ensures a <= b ==> Subset(a, b) && RangeIn(b, 0, |a|, a)
    ensures a <= b && Subset(b, a) ==> a == b
    ensures a == b ==> a <= b && Subset(b, a)
  {
    if a <= b {
      assert forall k | 0 <= k < |a| :: b[k] == a[k];
      if |a| < |b| {
        LongerHasMore(a, b);
      }
    }
  }

  /* ---------- the constraints of an application ---------- */

  lemma FindInConstraints(name: string)
    ensures FindConstraint(name, CONSTRAINTS) ==
      if name == "Types" then INSERT_ONLY
      else if name == "Fields" then APPEND_ONLY
      else if name == "UniqueFields" then ORDER_CHANGE_ONLY
      else if name == "PartKeyFields" || name == "ClustColsFields" || name == "CommandArgs" || name == "CommandResult" then NON_MODIFIABLE
      else if name == "Packages" then APPEND_ONLY | ORDER_CHANGE_ONLY
      else ALL_ALLOWED
  {
    var cs := CONSTRAINTS;
    assert FindConstraint(name, cs[8..]) == ALL_ALLOWED;
    FindNext(name, cs, 7); FindNext(name, cs, 6); FindNext(name, cs, 5); FindNext(name, cs, 4);
    FindNext(name, cs, 3); FindNext(name, cs, 2); FindNext(name, cs, 1); FindNext(name, cs, 0);
    assert cs[0..] == cs;
    hide FindConstraint;
  }

  lemma FindNext(name: string, cs: seq<NodeConstraint>, i: nat)
    requires i < |cs|
    ensures FindConstraint(name, cs[i..]) == if cs[i].nodeName == name then cs[i].constraint else FindConstraint(name, cs[i + 1..])
  {
    assert cs[i..][0] == cs[i] && cs[i..][1..] == cs[i + 1..];
  }

  /** What may happen to the children of the nodes of an application: types may be added anywhere, fields only at
      the end, unique fields and packages only change their order, keys and command types do not change at all,
      and everything else may. */
  lemma ApplicationMayChange(name: string, olds: seq<string>, news: seq<string>)
    ensures Allowed(FindConstraint(name, CONSTRAINTS), olds, news) <==>
      match name {
        case "Types" => forall x | x in olds :: x in news
        case "Fields" => |olds| <= |news| && news[..|olds|] == olds
        case "UniqueFields" => forall x :: x in olds <==> x in news
        case "Packages" => forall x :: x in olds <==> x in news
        case "PartKeyFields" => olds == news
        case "ClustColsFields" => olds == news
        case "CommandArgs" => olds == news
        case "CommandResult" => olds == news
        case _ => true
      }
  {
    FindInConstraints(name);
    hide FindConstraint;
  }

  /* ---------- the recursion ---------- */

  /** The pairs are those of the old and new children with the same name. */
  lemma {:induction false} PairsMeans(olds: seq<Node>, news: seq<Node>, i: nat, o: Node, n: Node)
    requires i <= |olds| && Distinct(Names(news))
    ensures (o, n) in MatchOld(olds, news, i).pairs <==> o in olds[..i] && n in news && o.name == n.name
  {
    if i > 0 {
      PairsMeans(olds, news, i - 1, o, n);
      assert olds[..i] == olds[..i - 1] + [olds[i - 1]];
      if n in news && n.name == olds[i - 1].name {
        var j :| 0 <= j < |news| && news[j] == n;
        var f := FindNode(news, n.name);
        assert f.Some?;
        var k := f.value.1;
        assert Names(news)[j] == Names(news)[k];
        assert j == k;
      }
    }
  }

  predicate ChildrenCompatible(olds: seq<Node>, news: seq<Node>, cs: seq<NodeConstraint>) {
    forall i, j | 0 <= i < |olds| && 0 <= j < |news| && olds[i].name == news[j].name :: Compatible(olds[i], news[j], cs)
  }

  predicate PairsCompatible(pairs: seq<(Node, Node)>, cs: seq<NodeConstraint>) {
    forall i | 0 <= i < |pairs| :: Compatible(pairs[i].0, pairs[i].1, cs)
  }

  lemma PairsAreChildren(olds: seq<Node>, news: seq<Node>, cs: seq<NodeConstraint>)
    requires Distinct(Names(news))
    ensures var pairs := MatchNodes(olds, news).pairs;
      PairsCompatible(pairs, cs) <==> ChildrenCompatible(olds, news, cs)
  {
    MatchNewKeeps(olds, news, MatchOld(olds, news, |olds|), |news|);
    var pairs := MatchOld(olds, news, |olds|).pairs;
    assert olds[..|olds|] == olds;
    if ChildrenCompatible(olds, news, cs) {
      forall k | 0 <= k < |pairs|
        ensures Compatible(pairs[k].0, pairs[k].1, cs)
      {
        assert pairs[k] in pairs;
        PairsMeans(olds, news, |olds|, pairs[k].0, pairs[k].1);
        var i :| 0 <= i < |olds| && olds[i] == pairs[k].0;
        var j :| 0 <= j < |news| && news[j] == pairs[k].1;
      }
    }
    if PairsCompatible(pairs, cs) {
      forall i, j | 0 <= i < |olds| && 0 <= j < |news| && olds[i].name == news[j].name
        ensures Compatible(olds[i], news[j], cs)
      {
        PairsMeans(olds, news, |olds|, olds[i], news[j]);
        var k :| 0 <= k < |pairs| && pairs[k] == (olds[i], news[j]);
      }
    }
    hide Compatible, MatchOld, MatchNew, Names;
  }

  lemma UniqueChild(n: Node, child: Node)
    requires UniqueNames(n) && child in n.props
    ensures UniqueNames(child) && child < n
  {
    var k :| 0 <= k < |n.props| && n.props[k] == child;
    assert UniqueNames(n.props[k]);
  }

  lemma UniqueProps(n: Node)
    ensures UniqueNames(n) ==> Distinct(Names(n.props))
  {
  }

  lemma ComparePairsUnfold(path: seq<string>, o: Node, pairs: seq<(Node, Node)>, cs: seq<NodeConstraint>)
    requires pairs != [] && |pairs| <= |o.props| && forall i | 0 <= i < |pairs| :: pairs[i].0 in o.props
    ensures var n := |pairs| - 1;
      && (ComparePairs(path, o, pairs, cs) == [] <==>
            ComparePairs(path, o, pairs[..n], cs) == [] && CompareNodes(path + [pairs[n].0.name], pairs[n].0, pairs[n].1, cs) == [])
      && (PairsCompatible(pairs, cs) <==> PairsCompatible(pairs[..n], cs) && Compatible(pairs[n].0, pairs[n].1, cs))
  {
    hide CompareNodes, Compatible;
  }

  /** What compareNodes reports, and what compatibility asks for, part by part. */
  lemma CompareNodesUnfold(path: seq<string>, o: Node, n: Node, cs: seq<NodeConstraint>)
    ensures var m := MatchNodes(o.props, n.props);
      && |m.pairs| <= |o.props|
      && (forall i | 0 <= i < |m.pairs| :: m.pairs[i].0 in o.props && m.pairs[i].1 in n.props)
      && (CompareNodes(path, o, n, cs) == [] <==>
            && o.value == n.value
            && CheckConstraint(path, m, FindConstraint(o.name, cs)) == []
            && ComparePairs(path, o, m.pairs, cs) == [])
      && (Compatible(o, n, cs) <==>
            && o.value == n.value
            && Allowed(FindConstraint(o.name, cs), Names(o.props), Names(n.props))
            && ChildrenCompatible(o.props, n.props, cs))
  {
    PairsAreProps(o.props, n.props, |o.props|);
    MatchNewKeeps(o.props, n.props, MatchOld(o.props, n.props, |o.props|), |n.props|);
    hide CheckConstraint, Allowed, FindConstraint, ComparePairs, MatchOld, MatchNew, Names;
  }

  lemma {:induction false} PairsCompared(path: seq<string>, o: Node, pairs: seq<(Node, Node)>, cs: seq<NodeConstraint>)
    requires |pairs| <= |o.props| && forall i | 0 <= i < |pairs| :: pairs[i].0 in o.props && UniqueNames(pairs[i].1)
    requires UniqueNames(o)
    ensures ComparePairs(path, o, pairs, cs) == [] <==> PairsCompatible(pairs, cs)
    decreases o, |pairs|
  {
    if pairs != [] {
      hide *;
      var n := |pairs| - 1;
      ComparePairsUnfold(path, o, pairs, cs);
      PairsCompared(path, o, pairs[..n], cs);
      UniqueChild(o, pairs[n].0);
      ComparedIsCompatible(path + [pairs[n].0.name], pairs[n].0, pairs[n].1, cs);
    }
  }

  /** compareNodes reports no error exactly if the trees are compatible. */
  lemma {:induction false} ComparedIsCompatible(path: seq<string>, o: Node, n: Node, cs: seq<NodeConstraint>)
    requires UniqueNames(o) && UniqueNames(n)
    ensures CompareNodes(path, o, n, cs) == [] <==> Compatible(o, n, cs)
    decreases o, |o.props| + 1
  {
    hide *;
    CompareNodesUnfold(path, o, n, cs);
    var m := MatchNodes(o.props, n.props);
    forall i | 0 <= i < |m.pairs|
      ensures UniqueNames(m.pairs[i].1)
    {
      UniqueChild(n, m.pairs[i].1);
    }
    UniqueProps(o);
    UniqueProps(n);
    CheckIsAllowed(path, o.props, n.props, FindConstraint(o.name, cs));
    PairsCompared(path, o, m.pairs, cs);
    PairsAreChildren(o.props, n.props, cs);
  }

  /* ---------- consequences ---------- */

  lemma {:induction false} SameTreeIsCompatible(n: Node, cs: seq<NodeConstraint>)
    requires UniqueNames(n)
    ensures Compatible(n, n, cs)
    decreases n
  {
    forall i, j | 0 <= i < |n.props| && 0 <= j < |n.props| && n.props[i].name == n.props[j].name
      ensures Compatible(n.props[i], n.props[j], cs)
    {
      assert Names(n.props)[i] == Names(n.props)[j];
      SameTreeIsCompatible(n.props[i], cs);
    }
  }

  /** A tree compared with itself gives no error. */
  lemma SameTreeGivesNoError(path: seq<string>, n: Node, cs: seq<NodeConstraint>)
    requires UniqueNames(n)
    ensures CompareNodes(path, n, n, cs) == []
  {
    hide *;
    SameTreeIsCompatible(n, cs);
    ComparedIsCompatible(path, n, n, cs);
  }

  /** No child is removed anywhere. */
  predicate NothingRemoved(o: Node, n: Node)
    decreases o
  {
    && Subset(Names(o.props), Names(n.props))
    && forall i, j | 0 <= i < |o.props| && 0 <= j < |n.props| && o.props[i].name == n.props[j].name ::
         NothingRemoved(o.props[i], n.props[j])
  }

  lemma AllowedIsTransitive(c: Constraint, x: seq<string>, y: seq<string>, z: seq<string>)
    ensures Allowed(c, x, y) && Allowed(c, y, z) ==> Allowed(c, x, z)
  {
    assert Subset(x, y) && Subset(y, z) ==> Subset(x, z);
    assert Subset(z, y) && Subset(y, x) ==> Subset(z, x);
  }

  /** Two compatible steps are one, if the first removes nothing. */
  lemma {:induction false} TwoStepsAreOne(a: Node, b: Node, c: Node, cs: seq<NodeConstraint>)
    requires a.name == b.name && Compatible(a, b, cs) && Compatible(b, c, cs) && NothingRemoved(a, b)
    ensures Compatible(a, c, cs)
    decreases a
  {
    AllowedIsTransitive(FindConstraint(a.name, cs), Names(a.props), Names(b.props), Names(c.props));
    forall i, j | 0 <= i < |a.props| && 0 <= j < |c.props| && a.props[i].name == c.props[j].name
      ensures Compatible(a.props[i], c.props[j], cs)
    {
      assert Names(a.props)[i] in Names(a.props);
      var k :| 0 <= k < |b.props| && Names(b.props)[k] == Names(a.props)[i];
      assert b.props[k].name == a.props[i].name;
      TwoStepsAreOne(a.props[i], b.props[k], c.props[j], cs);
    }
    hide Allowed, FindConstraint, Names;
  }

  /** A constraint that allowed the removal of a name allows everything. */
  lemma RemovalMeansAnyChange(c: Constraint, x: seq<string>, y: seq<string>, z: seq<string>, w: seq<string>)
    requires Allowed(c, x, y) && !Subset(x, y)
    ensures Allowed(c, z, w)
  {
  }

  lemma NamesStay(c: Constraint, names: seq<string>)
    ensures Allowed(c, names, names)
  {
  }

  lemma NamesOfMore(nodes: seq<Node>, n: Node)
    ensures Names(nodes + [n]) == Names(nodes) + [n.name]
  {
  }

  lemma NamesOfOther(nodes: seq<Node>, j: nat, n: Node)
    requires j < |nodes| && n.name == nodes[j].name
    ensures Names(nodes[j := n]) == Names(nodes)
  {
  }

  lemma UniqueAt(n: Node, i: nat, j: nat)
    requires UniqueNames(n) && i < |n.props| && j < |n.props| && n.props[i].name == n.props[j].name
    ensures i == j && UniqueNames(n.props[i])
  {
    assert Names(n.props)[i] == Names(n.props)[j];
  }

  /** The children of a node against those of another in which some children are the same, the others are
      compatible, and the rest has new names. */
  lemma ChildrenOf(b: Node, c: Node, cs: seq<NodeConstraint>)
    requires UniqueNames(b) && |b.props| <= |c.props|
    requires forall i | 0 <= i < |b.props| ::
      b.props[i].name == c.props[i].name && (b.props[i] == c.props[i] || Compatible(b.props[i], c.props[i], cs))
    requires forall i, j | 0 <= i < |b.props| <= j < |c.props| :: b.props[i].name != c.props[j].name
    ensures ChildrenCompatible(b.props, c.props, cs)
  {
    hide Compatible, Names;
    forall i, j | 0 <= i < |b.props| && 0 <= j < |c.props| && b.props[i].name == c.props[j].name
      ensures Compatible(b.props[i], c.props[j], cs)
    {
      UniqueAt(b, i, j);
      if b.props[i] == c.props[i] {
        SameTreeIsCompatible(b.props[i], cs);
      }
    }
  }

  lemma CompatibleIs(o: Node, n: Node, cs: seq<NodeConstraint>)
    ensures Compatible(o, n, cs) <==>
      o.value == n.value && Allowed(FindConstraint(o.name, cs), Names(o.props), Names(n.props)) && ChildrenCompatible(o.props, n.props, cs)
  {
    hide Allowed, FindConstraint, Names;
  }

  lemma ChildrenAt(olds: seq<Node>, news: seq<Node>, i: nat, j: nat, cs: seq<NodeConstraint>)
    requires ChildrenCompatible(olds, news, cs) && i < |olds| && j < |news| && olds[i].name == news[j].name
    ensures Compatible(olds[i], news[j], cs)
  {
    hide Compatible;
  }

  predicate ChildrenUnique(nodes: seq<Node>) {
    forall i | 0 <= i < |nodes| :: UniqueNames(nodes[i])
  }

  lemma UniqueIs(n: Node)
    ensures UniqueNames(n) <==> Distinct(Names(n.props)) && ChildrenUnique(n.props)
  {
    hide Distinct, Names;
  }

  lemma DistinctWithMore(names: seq<string>, name: string)
    requires Distinct(names) && name !in names
    ensures Distinct(names + [name])
  {
  }

  lemma UniqueWithMore(b: Node, child: Node)
    requires UniqueNames(b) && child.name !in Names(b.props) && child.props == []
    ensures UniqueNames(Node(b.name, b.value, b.props + [child]))
    ensures forall i | 0 <= i < |b.props| :: b.props[i].name != child.name
  {
    var c := Node(b.name, b.value, b.props + [child]);
    NotAmongNames(b.props, child.name);
    UniqueIs(b);
    UniqueIs(c);
    NamesOfMore(b.props, child);
    DistinctWithMore(Names(b.props), child.name);
    LeafIsUnique(child);
    hide *;
    ChildrenUniqueWithMore(b.props, child);
  }

  lemma NotAmongNames(nodes: seq<Node>, name: string)
    requires name !in Names(nodes)
    ensures forall i | 0 <= i < |nodes| :: nodes[i].name != name
  {
    assert forall i | 0 <= i < |nodes| :: Names(nodes)[i] in Names(nodes);
    hide Names;
  }

  lemma LeafIsUnique(n: Node)
    requires n.props == []
    ensures UniqueNames(n)
  {
  }

  lemma ChildrenUniqueWithMore(nodes: seq<Node>, child: Node)
    requires ChildrenUnique(nodes) && UniqueNames(child)
    ensures ChildrenUnique(nodes + [child])
  {
    hide UniqueNames;
  }

  lemma UniqueWithOther(b: Node, j: nat, child: Node)
    requires UniqueNames(b) && j < |b.props| && child.name == b.props[j].name && UniqueNames(child)
    ensures UniqueNames(Node(b.name, b.value, b.props[j := child]))
    ensures forall i | 0 <= i < |b.props| :: b.props[j := child][i].name == b.props[i].name
  {
    NamesOfOther(b.props, j, child);
    hide Names;
  }

  /** A name that is not kept, and the child that had it. */
  lemma RemovedName(olds: seq<Node>, news: seq<Node>) returns (i: nat)
    requires !Subset(Names(olds), Names(news))
    ensures i < |olds| && olds[i].name !in Names(news)
  {
    var x :| x in Names(olds) && x !in Names(news);
    i :| 0 <= i < |olds| && Names(olds)[i] == x;
  }

  lemma OtherValueIsIncompatible(o: Node, n: Node, cs: seq<NodeConstraint>)
    requires o.value != n.value
    ensures !Compatible(o, n, cs)
  {
  }

  lemma IncompatibleAt(a: Node, c: Node, i: nat, j: nat, cs: seq<NodeConstraint>)
    requires i < |a.props| && j < |c.props| && a.props[i].name == c.props[j].name && !Compatible(a.props[i], c.props[j], cs)
    ensures !Compatible(a, c, cs)
  {
    hide *;
    CompatibleIs(a, c, cs);
    if ChildrenCompatible(a.props, c.props, cs) {
      ChildrenAt(a.props, c.props, i, j, cs);
    }
  }

  /** A removed child comes back with another value. */
  lemma RemovedChildReturns(a: Node, b: Node, cs: seq<NodeConstraint>) returns (c: Node)
    requires a.name == b.name && UniqueNames(b) && Compatible(a, b, cs) && !Subset(Names(a.props), Names(b.props))
    ensures UniqueNames(c) && c.name == b.name && Compatible(b, c, cs) && !Compatible(a, c, cs)
  {
    hide *;
    var i := RemovedName(a.props, b.props);
    var child := Node(a.props[i].name, a.props[i].value + 1, []);
    c := Node(b.name, b.value, b.props + [child]);
    CompatibleIs(a, b, cs);
    RemovalMeansAnyChange(FindConstraint(a.name, cs), Names(a.props), Names(b.props), Names(b.props), Names(c.props));
    UniqueWithMore(b, child);
    ChildrenOf(b, c, cs);
    CompatibleIs(b, c, cs);
    OtherValueIsIncompatible(a.props[i], child, cs);
    IncompatibleAt(a, c, i, |b.props|, cs);
  }

  lemma ChildReplaced(a: Node, b: Node, i: nat, j: nat, child: Node, cs: seq<NodeConstraint>) returns (c: Node)
    requires UniqueNames(b) && i < |a.props| && j < |b.props| && a.props[i].name == b.props[j].name == child.name
    requires UniqueNames(child) && Compatible(b.props[j], child, cs) && !Compatible(a.props[i], child, cs)
    ensures UniqueNames(c) && c.name == b.name && Compatible(b, c, cs) && !Compatible(a, c, cs)
  {
    hide *;
    c := Node(b.name, b.value, b.props[j := child]);
    NamesOfOther(b.props, j, child);
    NamesStay(FindConstraint(b.name, cs), Names(b.props));
    UniqueWithOther(b, j, child);
    ChildrenOf(b, c, cs);
    CompatibleIs(b, c, cs);
    IncompatibleAt(a, c, i, j, cs);
  }

  /** A removal is among the children, or within a child that is kept. */
  lemma RemovalIsSomewhere(a: Node, b: Node) returns (i: nat, j: nat)
    requires !NothingRemoved(a, b) && Subset(Names(a.props), Names(b.props))
    ensures i < |a.props| && j < |b.props| && a.props[i].name == b.props[j].name && !NothingRemoved(a.props[i], b.props[j])
    ensures a.props[i] < a
  {
    i, j :| 0 <= i < |a.props| && 0 <= j < |b.props| && a.props[i].name == b.props[j].name
            && !NothingRemoved(a.props[i], b.props[j]);
  }

  /** From any removal a third tree can be built that is compatible with the second one only. */
  lemma {:induction false} RemovalHidesAChange(a: Node, b: Node, cs: seq<NodeConstraint>) returns (c: Node)
    requires a.name == b.name && UniqueNames(a) && UniqueNames(b) && Compatible(a, b, cs) && !NothingRemoved(a, b)
    ensures UniqueNames(c) && c.name == b.name && Compatible(b, c, cs) && !Compatible(a, c, cs)
    decreases a
  {
    hide *;
    if !Subset(Names(a.props), Names(b.props)) {
      c := RemovedChildReturns(a, b, cs);
    } else {
      var i, j := RemovalIsSomewhere(a, b);
      UniqueAt(a, i, i);
      UniqueAt(b, j, j);
      CompatibleIs(a, b, cs);
      ChildrenAt(a.props, b.props, i, j, cs);
      var child := RemovalHidesAChange(a.props[i], b.props[j], cs);
      c := ChildReplaced(a, b, i, j, child, cs);
    }
  }

  /** A compatible step composes with every compatible step after it exactly if it removes nothing. */
  lemma StepsComposeExactlyIf(a: Node, b: Node, cs: seq<NodeConstraint>)
    requires a.name == b.name && UniqueNames(a) && UniqueNames(b) && Compatible(a, b, cs)
    ensures NothingRemoved(a, b) <==>
      forall c | UniqueNames(c) && c.name == b.name && Compatible(b, c, cs) :: Compatible(a, c, cs)
  {
    hide *;
    if NothingRemoved(a, b) {
      forall c | UniqueNames(c) && c.name == b.name && Compatible(b, c, cs) ensures Compatible(a, c, cs) {
        TwoStepsAreOne(a, b, c, cs);
      }
    } else {
      var c := RemovalHidesAChange(a, b, cs);
    }
  }

  /** Of the constraints in use: packages may be reordered, but neither added nor removed. */
  lemma PackagesAreASet(olds: seq<string>, news: seq<string>)
    ensures Allowed(FindConstraint("Packages", CONSTRAINTS), olds, news) <==> Subset(olds, news) && Subset(news, olds)
  {
    var cs := CONSTRAINTS;
    assert FindConstraint("Packages", cs[7..]) == 18 as Constraint;
    assert FindConstraint("Packages", cs[6..]) == FindConstraint("Packages", cs[7..]);
    assert FindConstraint("Packages", cs[5..]) == FindConstraint("Packages", cs[6..]);
    assert FindConstraint("Packages", cs[4..]) == FindConstraint("Packages", cs[5..]);
    assert FindConstraint("Packages", cs[3..]) == FindConstraint("Packages", cs[4..]);
    assert FindConstraint("Packages", cs[2..]) == FindConstraint("Packages", cs[3..]);
    assert FindConstraint("Packages", cs[1..]) == FindConstraint("Packages", cs[2..]);
    assert FindConstraint("Packages", cs) == FindConstraint("Packages", cs[1..]);
  }
}
