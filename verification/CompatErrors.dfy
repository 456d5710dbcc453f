/** Which errors the comparison reports: their nodes, kinds and constraints. */
module CompatErrors {
  import opened Options
  import opened Compat

  /* ---------- what is to be reported ---------- */

  /** Removing, inserting in the middle and moving are each forbidden by some constraints. */
  predicate ForbidsRemoval(c: Constraint) {
    c != ALL_ALLOWED && (c == NON_MODIFIABLE || c & APPEND_ONLY > 0 || c & INSERT_ONLY > 0)
  }

  predicate ForbidsInsertion(c: Constraint) {
    c != ALL_ALLOWED && (c == NON_MODIFIABLE || c & APPEND_ONLY > 0)
  }

  predicate ForbidsMoves(c: Constraint) {
    ForbidsInsertion(c) && c & ORDER_CHANGE_ONLY == 0
  }

  predicate NeedsSameNames(c: Constraint) {
    c != ALL_ALLOWED && c & ORDER_CHANGE_ONLY > 0
  }

  /** A name that is new at a position of an old child, or after them. */
  predicate InsertedAt(olds: seq<string>, news: seq<string>, k: nat) {
    k < |news| && k < |olds| && news[k] !in olds
  }

  predicate AppendedAt(olds: seq<string>, news: seq<string>, k: nat) {
    |olds| <= k < |news| && news[k] !in olds
  }

  predicate MovedFrom(olds: seq<string>, news: seq<string>, k: nat, x: string) {
    k < |olds| && olds[k] == x && x in news && !(k < |news| && news[k] == x)
  }

  ghost predicate Moved(olds: seq<string>, news: seq<string>, x: string) {
    exists k :: MovedFrom(olds, news, k, x)
  }

  /** The error says what happened to the children of one node: a removed or moved child is named itself, and
      every change of what must not be modified is only called a modification. */
  ghost predicate ChildrenError(path: seq<string>, olds: seq<string>, news: seq<string>, c: Constraint, e: CompatError) {
    && e.constraint == c
    && (|| (ForbidsRemoval(c) && e.errorType == (if c == NON_MODIFIABLE then NodeModified else NodeRemoved)
            && exists x :: x in olds && x !in news && e.path == path + [x])
        || (ForbidsInsertion(c) && e.errorType == (if c == NON_MODIFIABLE then NodeModified else NodeInserted)
            && e.path == path && Subset(olds, news) && exists k :: InsertedAt(olds, news, k))
        || (c == NON_MODIFIABLE && e.errorType == NodeModified && e.path == path && exists k :: AppendedAt(olds, news, k))
        || (ForbidsMoves(c) && e.errorType == (if c == NON_MODIFIABLE then NodeModified else OrderChanged)
            && Subset(olds, news) && exists x :: Moved(olds, news, x) && e.path == path + [x])
        || (NeedsSameNames(c) && e.errorType == NodeModified && e.path == path && !(Subset(olds, news) && Subset(news, olds))))
  }

  ghost predicate NodeError(path: seq<string>, o: Node, n: Node, cs: seq<NodeConstraint>, e: CompatError) {
    || (o.value != n.value && e == CompatError(VALUE_MATCH, path, ValueChanged))
    || ChildrenError(path, Names(o.props), Names(n.props), FindConstraint(o.name, cs), e)
  }

  /** An error of the node, or of two children of the same name at their own path. */
  ghost predicate ToReport(path: seq<string>, o: Node, n: Node, cs: seq<NodeConstraint>, e: CompatError)
    decreases o
  {
    || NodeError(path, o, n, cs, e)
    || exists i, j :: 0 <= i < |o.props| && 0 <= j < |n.props| && o.props[i].name == n.props[j].name
         && ToReport(path + [o.props[i].name], o.props[i], n.props[j], cs, e)
  }

  /* ---------- the matching, name by name ---------- */

  lemma {:induction false} DeletedAre(olds: seq<Node>, news: seq<Node>, i: nat, x: string)
    requires i <= |olds|
    ensures x in MatchOld(olds, news, i).deleted <==> x in Names(olds)[..i] && x !in Names(news)
  {
    if i > 0 {
      DeletedAre(olds, news, i - 1, x);
      FindIsMembership(news, olds[i - 1].name);
      assert Names(olds)[..i] == Names(olds)[..i - 1] + [olds[i - 1].name];
    }
    hide Names, FindNode;
  }

  predicate MovedBelow(olds: seq<string>, news: seq<string>, i: nat, x: string) {
    exists k: nat :: k < i && MovedFrom(olds, news, k, x)
  }

  lemma MovedStep(olds: seq<string>, news: seq<string>, i: nat, x: string)
    ensures MovedBelow(olds, news, i + 1, x) <==> MovedBelow(olds, news, i, x) || MovedFrom(olds, news, i, x)
  {
  }

  /** A child is at its old place exactly if the last one of its name is. */
  lemma FoundAt(news: seq<Node>, name: string, k: nat)
    requires Distinct(Names(news)) && FindNode(news, name).Some?
    ensures FindNode(news, name).value.1 == k <==> k < |news| && Names(news)[k] == name
  {
    var index := FindNode(news, name).value.1;
    assert Names(news)[index] == name;
    hide Names, FindNode;
  }

  lemma {:induction false} ReorderedAre(olds: seq<Node>, news: seq<Node>, i: nat, x: string)
    requires i <= |olds| && Distinct(Names(news))
    ensures x in MatchOld(olds, news, i).reordered <==> MovedBelow(Names(olds), Names(news), i, x)
  {
    if i > 0 {
      var name := olds[i - 1].name;
      ReorderedAre(olds, news, i - 1, x);
      FindIsMembership(news, name);
      MovedStep(Names(olds), Names(news), i - 1, x);
      assert Names(olds)[i - 1] == name;
      if FindNode(news, name).Some? {
        FoundAt(news, name, i - 1);
      }
    }
    hide Names, FindNode, MovedBelow, Distinct, Subset;
  }

  lemma {:induction false} ErrorsForAre(c: Constraint, path: seq<string>, names: seq<string>, t: ErrorType, e: CompatError)
    ensures e in ErrorsFor(c, path, names, t) <==> exists x :: x in names && e == CompatError(c, path + [x], t)
  {
    if names != [] {
      var n := |names| - 1;
      ErrorsForAre(c, path, names[..n], t, e);
      assert names == names[..n] + [names[n]];
    }
  }

  lemma DeletedNames(olds: seq<Node>, news: seq<Node>, x: string)
    ensures x in MatchNodes(olds, news).deleted <==> x in Names(olds) && x !in Names(news)
  {
    MatchNewKeeps(olds, news, MatchOld(olds, news, |olds|), |news|);
    DeletedAre(olds, news, |olds|, x);
    assert Names(olds)[..|olds|] == Names(olds);
    hide Names, MatchOld, MatchNew;
  }

  lemma ReorderedNames(olds: seq<Node>, news: seq<Node>, x: string)
    requires Distinct(Names(news))
    ensures x in MatchNodes(olds, news).reordered <==> Moved(Names(olds), Names(news), x)
  {
    MatchNewKeeps(olds, news, MatchOld(olds, news, |olds|), |news|);
    ReorderedAre(olds, news, |olds|, x);
    assert |Names(olds)| == |olds|;
    hide Names, MatchOld, MatchNew, Distinct;
  }

  lemma CountsAre(olds: seq<Node>, news: seq<Node>)
    ensures var m := MatchNodes(olds, news);
      && (m.inserted > 0 <==> exists k :: InsertedAt(Names(olds), Names(news), k))
      && (m.appended > 0 <==> exists k :: AppendedAt(Names(olds), Names(news), k))
  {
    CountsAreRanges(olds, news);
    var a, b := Names(olds), Names(news);
    var m := MatchNodes(olds, news);
    assert |a| == |olds| && |b| == |news|;
    hide Names, MatchNodes;
    if m.inserted > 0 {
      var k :| 0 <= k < |a| && k < |b| && b[k] !in a;
      assert InsertedAt(a, b, k);
    }
    if m.appended > 0 {
      var k :| |a| <= k < |b| && b[k] !in a;
      assert AppendedAt(a, b, k);
    }
  }

  /* ---------- one node ---------- */

  /** The five checks, each with its errors. */
  lemma CheckParts(path: seq<string>, m: MatchResult, c: Constraint, e: CompatError)
    ensures e in CheckConstraint(path, m, c) <==>
      c != ALL_ALLOWED &&
      (|| (m.deleted == [] && m.inserted > 0 && Appending(c) && e == CompatError(c, path, Kind(c, NodeInserted)))
       || (c == NON_MODIFIABLE && m.appended > 0 && e == CompatError(c, path, NodeModified))
       || ((Appending(c) || c & INSERT_ONLY > 0) && e in ErrorsFor(c, path, m.deleted, Kind(c, NodeRemoved)))
       || (c & ORDER_CHANGE_ONLY == 0 && m.deleted == [] && Appending(c) && e in ErrorsFor(c, path, m.reordered, Kind(c, OrderChanged)))
       || (c & ORDER_CHANGE_ONLY > 0 && (m.appended > 0 || m.deleted != [] || m.inserted > 0) && e == CompatError(c, path, NodeModified)))
  {
    hide Kind, Appending;
  }

  lemma SameNamesMeans(olds: seq<Node>, news: seq<Node>)
    ensures var m := MatchNodes(olds, news);
      m.appended == 0 && m.deleted == [] && m.inserted == 0 <==> Subset(Names(olds), Names(news)) && Subset(Names(news), Names(olds))
  {
    DeletedIsSubset(olds, news);
    CountsAreRanges(olds, news);
    BothRangesAreSubset(Names(olds), Names(news));
    assert |Names(olds)| == |olds| && |Names(news)| == |news|;
    hide Names, MatchNodes, Subset, RangeIn;
  }

  lemma RemovedErrors(path: seq<string>, olds: seq<Node>, news: seq<Node>, c: Constraint, t: ErrorType, e: CompatError)
    ensures e in ErrorsFor(c, path, MatchNodes(olds, news).deleted, t) <==>
      e.constraint == c && e.errorType == t && exists x :: x in Names(olds) && x !in Names(news) && e.path == path + [x]
  {
    var m := MatchNodes(olds, news);
    ErrorsForAre(c, path, m.deleted, t, e);
    forall x ensures x in m.deleted <==> x in Names(olds) && x !in Names(news) {
      DeletedNames(olds, news, x);
    }
    hide Names, MatchNodes, ErrorsFor;
    if e in ErrorsFor(c, path, m.deleted, t) {
      var x :| x in m.deleted && e == CompatError(c, path + [x], t);
      assert x in Names(olds) && x !in Names(news);
    }
    if x :| x in Names(olds) && x !in Names(news) && e.path == path + [x] {
      assert x in m.deleted;
    }
  }

  lemma MovedErrors(path: seq<string>, olds: seq<Node>, news: seq<Node>, c: Constraint, t: ErrorType, e: CompatError)
    requires Distinct(Names(news))
    ensures e in ErrorsFor(c, path, MatchNodes(olds, news).reordered, t) <==>
      e.constraint == c && e.errorType == t && exists x :: Moved(Names(olds), Names(news), x) && e.path == path + [x]
  {
    var m := MatchNodes(olds, news);
    ErrorsForAre(c, path, m.reordered, t, e);
    forall x ensures x in m.reordered <==> Moved(Names(olds), Names(news), x) {
      ReorderedNames(olds, news, x);
    }
    hide Names, MatchNodes, ErrorsFor, Moved, Distinct;
    if e in ErrorsFor(c, path, m.reordered, t) {
      var x :| x in m.reordered && e == CompatError(c, path + [x], t);
      assert Moved(Names(olds), Names(news), x);
    }
    if x :| Moved(Names(olds), Names(news), x) && e.path == path + [x] {
      assert x in m.reordered;
    }
  }

  /** The checks of a node report exactly the errors of its children. */
  lemma CheckedAre(path: seq<string>, olds: seq<Node>, news: seq<Node>, c: Constraint, e: CompatError)
    requires Distinct(Names(news))
    ensures e in CheckConstraint(path, MatchNodes(olds, news), c) <==> ChildrenError(path, Names(olds), Names(news), c, e)
  {
    hide CheckConstraint, MatchNodes, Names, ErrorsFor, Subset, InsertedAt, AppendedAt, Moved, Distinct;
    var m := MatchNodes(olds, news);
    CheckParts(path, m, c, e);
    CountsAre(olds, news);
    DeletedIsSubset(olds, news);
    SameNamesMeans(olds, news);
    RemovedErrors(path, olds, news, c, Kind(c, NodeRemoved), e);
    MovedErrors(path, olds, news, c, Kind(c, OrderChanged), e);
  }

  /* ---------- the recursion ---------- */

  lemma CompareParts(path: seq<string>, o: Node, n: Node, cs: seq<NodeConstraint>, e: CompatError)
    requires Distinct(Names(n.props))
    ensures var pairs := MatchNodes(o.props, n.props).pairs;
      && |pairs| <= |o.props|
      && (forall i | 0 <= i < |pairs| :: pairs[i].0 in o.props && pairs[i].1 in n.props)
      && (e in CompareNodes(path, o, n, cs) <==> NodeError(path, o, n, cs, e) || e in ComparePairs(path, o, pairs, cs))
  {
    CompareNodesUnfold(path, o, n, cs);
    CheckedAre(path, o.props, n.props, FindConstraint(o.name, cs), e);
    PairsAreProps(o.props, n.props, |o.props|);
    MatchNewKeeps(o.props, n.props, MatchOld(o.props, n.props, |o.props|), |n.props|);
    hide CheckConstraint, FindConstraint, ComparePairs, MatchOld, MatchNew, Names, ChildrenError, Compatible;
  }

  ghost predicate PairError(path: seq<string>, pair: (Node, Node), cs: seq<NodeConstraint>, e: CompatError) {
    ToReport(path + [pair.0.name], pair.0, pair.1, cs, e)
  }

  lemma PairsUnfold(path: seq<string>, o: Node, pairs: seq<(Node, Node)>, cs: seq<NodeConstraint>, e: CompatError)
    requires pairs != [] && |pairs| <= |o.props| && forall i | 0 <= i < |pairs| :: pairs[i].0 in o.props
    ensures var n := |pairs| - 1;
      e in ComparePairs(path, o, pairs, cs) <==>
        e in ComparePairs(path, o, pairs[..n], cs) || e in CompareNodes(path + [pairs[n].0.name], pairs[n].0, pairs[n].1, cs)
  {
    hide CompareNodes;
  }

  lemma LastOrEarlier(path: seq<string>, pairs: seq<(Node, Node)>, cs: seq<NodeConstraint>, e: CompatError)
    requires pairs != []
    ensures var n := |pairs| - 1;
      (exists pair :: pair in pairs && PairError(path, pair, cs, e)) <==>
        (exists pair :: pair in pairs[..n] && PairError(path, pair, cs, e)) || PairError(path, pairs[n], cs, e)
  {
    assert pairs == pairs[..|pairs| - 1] + [pairs[|pairs| - 1]];
    hide PairError;
  }

  lemma NoPairs(path: seq<string>, o: Node, cs: seq<NodeConstraint>, e: CompatError)
    ensures e !in ComparePairs(path, o, [], cs)
  {
  }

  lemma PairErrorIs(path: seq<string>, pair: (Node, Node), cs: seq<NodeConstraint>, e: CompatError)
    ensures PairError(path, pair, cs, e) <==> ToReport(path + [pair.0.name], pair.0, pair.1, cs, e)
  {
    hide ToReport;
  }

  lemma {:induction false} PairsReport(path: seq<string>, o: Node, pairs: seq<(Node, Node)>, cs: seq<NodeConstraint>, e: CompatError)
    requires |pairs| <= |o.props| && forall i | 0 <= i < |pairs| :: pairs[i].0 in o.props && UniqueNames(pairs[i].1)
    requires UniqueNames(o)
    ensures e in ComparePairs(path, o, pairs, cs) <==> exists pair :: pair in pairs && PairError(path, pair, cs, e)
    decreases o, |pairs|
  {
    hide *;
    if pairs == [] {
      NoPairs(path, o, cs, e);
    } else {
      var n := |pairs| - 1;
      PairErrorIs(path, pairs[n], cs, e);
      PairsUnfold(path, o, pairs, cs, e);
      LastOrEarlier(path, pairs, cs, e);
      PairsReport(path, o, pairs[..n], cs, e);
      UniqueChild(o, pairs[n].0);
      ErrorsAreExact(path + [pairs[n].0.name], pairs[n].0, pairs[n].1, cs, e);
    }
  }

  lemma PairsAreMatches(path: seq<string>, o: Node, n: Node, cs: seq<NodeConstraint>, e: CompatError)
    requires Distinct(Names(n.props))
    ensures (exists pair :: pair in MatchNodes(o.props, n.props).pairs && PairError(path, pair, cs, e))
      <==> exists i, j :: 0 <= i < |o.props| && 0 <= j < |n.props| && o.props[i].name == n.props[j].name
             && ToReport(path + [o.props[i].name], o.props[i], n.props[j], cs, e)
  {
    var olds, news := o.props, n.props;
    MatchNewKeeps(olds, news, MatchOld(olds, news, |olds|), |news|);
    var pairs := MatchNodes(olds, news).pairs;
    assert pairs == MatchOld(olds, news, |olds|).pairs && olds[..|olds|] == olds;
    hide ToReport, MatchOld, MatchNew, Names, Distinct;
    if pair :| pair in pairs && PairError(path, pair, cs, e) {
      PairsMeans(olds, news, |olds|, pair.0, pair.1);
      var i :| 0 <= i < |olds| && olds[i] == pair.0;
      var j :| 0 <= j < |news| && news[j] == pair.1;
    }
    if i, j :| 0 <= i < |olds| && 0 <= j < |news| && olds[i].name == news[j].name
               && ToReport(path + [olds[i].name], olds[i], news[j], cs, e) {
      PairsMeans(olds, news, |olds|, olds[i], news[j]);
      assert PairError(path, (olds[i], news[j]), cs, e);
    }
  }

  lemma ToReportUnfold(path: seq<string>, o: Node, n: Node, cs: seq<NodeConstraint>, e: CompatError)
    ensures ToReport(path, o, n, cs, e) <==>
      || NodeError(path, o, n, cs, e)
      || exists i, j :: 0 <= i < |o.props| && 0 <= j < |n.props| && o.props[i].name == n.props[j].name
           && ToReport(path + [o.props[i].name], o.props[i], n.props[j], cs, e)
  {
    hide NodeError;
  }

  /** compareNodes reports exactly the errors to be reported, each with its constraint, path and kind. */
  lemma {:induction false} ErrorsAreExact(path: seq<string>, o: Node, n: Node, cs: seq<NodeConstraint>, e: CompatError)
    requires UniqueNames(o) && UniqueNames(n)
    ensures e in CompareNodes(path, o, n, cs) <==> ToReport(path, o, n, cs, e)
    decreases o, |o.props| + 1
  {
    hide *;
    UniqueProps(o);
    UniqueProps(n);
    CompareParts(path, o, n, cs, e);
    var pairs := MatchNodes(o.props, n.props).pairs;
    forall i | 0 <= i < |pairs|
      ensures UniqueNames(pairs[i].1)
    {
      UniqueChild(n, pairs[i].1);
    }
    PairsReport(path, o, pairs, cs, e);
    PairsAreMatches(path, o, n, cs, e);
    ToReportUnfold(path, o, n, cs, e);
  }
}
