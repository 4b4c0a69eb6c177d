/** Connected accounts, and union-find forests over account ids. */
module AccountGroups {
  import opened Accounts

  // -------------------------------------------------------------- connection

  /** A walk through accounts of `seen`, each related to the next. */
  ghost predicate Walk(accounts: Entities, seen: set<string>, w: seq<string>) {
    && w != []
    && (forall i :: 0 <= i < |w| ==> w[i] in seen)
    && (forall i :: 0 < i < |w| ==> IsRelated(accounts, w[i - 1], w[i]))
  }

  ghost predicate Joins(accounts: Entities, seen: set<string>, w: seq<string>, a: string, b: string) {
    Walk(accounts, seen, w) && w[0] == a && w[|w| - 1] == b
  }

  /** `a` and `b` lie in one component of the relation, restricted to `seen`. */
  ghost predicate Connected(accounts: Entities, seen: set<string>, a: string, b: string) {
    exists w :: Joins(accounts, seen, w, a, b)
  }

  ghost function Component(accounts: Entities, seen: set<string>, a: string): set<string> {
    set b | b in seen && Connected(accounts, seen, a, b)
  }

  lemma RelatedConnected(accounts: Entities, seen: set<string>, a: string, b: string)
    requires a in seen && b in seen && IsRelated(accounts, a, b)
    ensures Connected(accounts, seen, a, b)
  {
    assert Joins(accounts, seen, [a, b], a, b);
  }

  lemma ConnectedSymmetric(accounts: Entities, seen: set<string>, a: string, b: string)
    requires Connected(accounts, seen, a, b)
    ensures Connected(accounts, seen, b, a)
  {
    var w :| Joins(accounts, seen, w, a, b);
    var n := |w|;
    var back := seq(n, i requires 0 <= i < n => w[n - 1 - i]);
    forall i | 0 < i < n
      ensures IsRelated(accounts, back[i - 1], back[i])
    {
      var j := n - i;
      assert IsRelated(accounts, w[j - 1], w[j]);
      RelatedSymmetric(accounts, w[j - 1], w[j]);
    }
    assert Joins(accounts, seen, back, b, a);
  }

  lemma ConnectedTransitive(accounts: Entities, seen: set<string>, a: string, b: string, c: string)
    requires Connected(accounts, seen, a, b) && Connected(accounts, seen, b, c)
    ensures Connected(accounts, seen, a, c)
  {
    var v :| Joins(accounts, seen, v, a, b);
    var w :| Joins(accounts, seen, w, b, c);
    var all := v + w[1..];
    forall i | 0 < i < |all|
      ensures IsRelated(accounts, all[i - 1], all[i])
    {
      if i >= |v| {
        assert all[i] == w[i - |v| + 1] && all[i - 1] == w[i - |v|];
      }
    }
    assert Joins(accounts, seen, all, a, c);
  }

  /** Accounts seen later can only join components. */
  lemma ConnectedGrows(accounts: Entities, seen: set<string>, more: set<string>, a: string, b: string)
    requires Connected(accounts, seen, a, b) && seen <= more
    ensures Connected(accounts, more, a, b)
  {
    var w :| Joins(accounts, seen, w, a, b);
    assert Joins(accounts, more, w, a, b);
  }

  // ------------------------------------------------------------- union-find

  type Links = map<string, string>

  /**
   `parent` is a forest whose roots are given by `rep`: `level` falls along every link, so following
   parents ends, and it ends at `rep`.
   */
  ghost predicate Forest(parent: Links, rep: Links, level: map<string, nat>) {
    && parent.Keys == rep.Keys && rep.Keys == level.Keys
    && forall a {:trigger LinkedWell(parent, rep, level, a)} :: a in parent ==> LinkedWell(parent, rep, level, a)
  }

  ghost predicate LinkedWell(parent: Links, rep: Links, level: map<string, nat>, a: string)
    requires a in parent && parent.Keys == rep.Keys && rep.Keys == level.Keys
  {
    && parent[a] in parent && rep[a] in parent
    && rep[parent[a]] == rep[a] && rep[rep[a]] == rep[a]
    && (parent[a] == a <==> rep[a] == a)
    && (parent[a] != a ==> level[parent[a]] < level[a])
    && (rep[a] != a ==> level[rep[a]] < level[a])
  }

  lemma AddSingleton(parent: Links, rep: Links, level: map<string, nat>, a: string)
    requires Forest(parent, rep, level) && a !in parent
    ensures Forest(parent[a := a], rep[a := a], level[a := 0])
  {
    hide LinkedWell;
    var after := parent[a := a];
    forall x | x in after
      ensures LinkedWell(after, rep[a := a], level[a := 0], x)
    {
      SingletonLink(parent, rep, level, a, x);
    }
  }

  lemma SingletonLink(parent: Links, rep: Links, level: map<string, nat>, a: string, x: string)
    requires Forest(parent, rep, level) && a !in parent && x in parent[a := a]
    ensures LinkedWell(parent[a := a], rep[a := a], level[a := 0], x)
  {
    if x != a {
      assert LinkedWell(parent, rep, level, x);
    }
  }

  /** Linking an account straight to its root keeps the forest and all its roots. */
  lemma Compress(parent: Links, rep: Links, level: map<string, nat>, a: string)
    requires Forest(parent, rep, level) && a in parent
    ensures rep[a] in parent && Forest(parent[a := rep[a]], rep, level)
  {
    hide LinkedWell;
    CompressedLink(parent, rep, level, a, a);
    forall x | x in parent
      ensures LinkedWell(parent[a := rep[a]], rep, level, x)
    {
      CompressedLink(parent, rep, level, a, x);
    }
  }

  lemma CompressedLink(parent: Links, rep: Links, level: map<string, nat>, a: string, x: string)
    requires Forest(parent, rep, level) && a in parent && x in parent
    ensures rep[a] in parent && LinkedWell(parent[a := rep[a]], rep, level, x)
  {
    assert LinkedWell(parent, rep, level, a) && LinkedWell(parent, rep, level, x);
  }

  /** The roots after the tree of `ra` has been hung under `rb`. */
  function Merged(rep: Links, ra: string, rb: string): Links {
    map x | x in rep :: if rep[x] == ra then rb else rep[x]
  }

  function Raised(rep: Links, level: map<string, nat>, ra: string, extra: nat): map<string, nat> {
    map x | x in level :: if x in rep && rep[x] == ra then level[x] + extra + 1 else level[x]
  }

  lemma MergeRoots(parent: Links, rep: Links, level: map<string, nat>, ra: string, rb: string)
    requires Forest(parent, rep, level) && ra in parent && rb in parent && ra != rb
    requires rep[ra] == ra && rep[rb] == rb
    ensures Forest(parent[ra := rb], Merged(rep, ra, rb), Raised(rep, level, ra, level[rb]))
  {
    hide LinkedWell;
    var after, r, l := parent[ra := rb], Merged(rep, ra, rb), Raised(rep, level, ra, level[rb]);
    forall x | x in after
      ensures LinkedWell(after, r, l, x)
    {
      MergedLink(parent, rep, level, ra, rb, x);
    }
  }

  lemma MergedLink(parent: Links, rep: Links, level: map<string, nat>, ra: string, rb: string, x: string)
    requires Forest(parent, rep, level) && ra in parent && rb in parent && ra != rb && x in parent
    requires rep[ra] == ra && rep[rb] == rb
    ensures LinkedWell(parent[ra := rb], Merged(rep, ra, rb), Raised(rep, level, ra, level[rb]), x)
  {
    var p, q := parent[x], rep[x];
    assert LinkedWell(parent, rep, level, x);
    assert LinkedWell(parent, rep, level, p) && LinkedWell(parent, rep, level, q);
    assert LinkedWell(parent, rep, level, ra) && LinkedWell(parent, rep, level, rb);
  }

  // ---------------------------------------------------------------- grouping

  /** Every account is connected to its root. */
  ghost predicate RootsConnected(accounts: Entities, nodes: set<string>, rep: Links) {
    forall a :: a in rep ==> Connected(accounts, nodes, a, rep[a])
  }

  /** Related accounts of `among` have the same root. */
  ghost predicate RelatedTogether(accounts: Entities, among: set<string>, rep: Links) {
    forall a, b :: a in among && b in among && a in rep && b in rep && IsRelated(accounts, a, b) ==> rep[a] == rep[b]
  }

  /** The roots are those of the components of the accounts seen. */
  ghost predicate Grouped(accounts: Entities, seen: set<string>, rep: Links) {
    rep.Keys == seen && RootsConnected(accounts, seen, rep) && RelatedTogether(accounts, seen, rep)
  }

  lemma {:induction false} WalkKeepsRoot(accounts: Entities, seen: set<string>, rep: Links, w: seq<string>)
    requires Grouped(accounts, seen, rep) && Walk(accounts, seen, w)
    ensures rep[w[0]] == rep[w[|w| - 1]]
  {
    if |w| > 1 {
      var n := |w| - 1;
      WalkKeepsRoot(accounts, seen, rep, w[..n]);
      assert IsRelated(accounts, w[n - 1], w[n]);
    }
  }

  /** Two accounts have the same root if and only if they are connected. */
  lemma SameRootIffConnected(accounts: Entities, seen: set<string>, rep: Links, a: string, b: string)
    requires Grouped(accounts, seen, rep) && a in seen && b in seen
    ensures rep[a] == rep[b] <==> Connected(accounts, seen, a, b)
  {
    if Connected(accounts, seen, a, b) {
      var w :| Joins(accounts, seen, w, a, b);
      WalkKeepsRoot(accounts, seen, rep, w);
    }
    if rep[a] == rep[b] {
      assert Connected(accounts, seen, a, rep[a]) && Connected(accounts, seen, b, rep[b]);
      ConnectedSymmetric(accounts, seen, b, rep[b]);
      ConnectedTransitive(accounts, seen, a, rep[a], b);
    }
  }

  /** Merging the groups of two related accounts keeps every account connected to its root. */
  lemma MergeKeepsConnected(accounts: Entities, nodes: set<string>, rep: Links, a: string, b: string)
    requires RootsConnected(accounts, nodes, rep) && a in rep && b in rep && rep.Keys <= nodes
    requires IsRelated(accounts, a, b)
    ensures RootsConnected(accounts, nodes, Merged(rep, rep[a], rep[b]))
  {
    var r := Merged(rep, rep[a], rep[b]);
    assert Connected(accounts, nodes, a, rep[a]) && Connected(accounts, nodes, b, rep[b]);
    ConnectedSymmetric(accounts, nodes, a, rep[a]);
    RelatedConnected(accounts, nodes, a, b);
    ConnectedTransitive(accounts, nodes, rep[a], a, b);
    ConnectedTransitive(accounts, nodes, rep[a], b, rep[b]);
    forall x | x in r
      ensures Connected(accounts, nodes, x, r[x])
    {
      assert Connected(accounts, nodes, x, rep[x]);
      if rep[x] == rep[a] {
        ConnectedTransitive(accounts, nodes, x, rep[a], rep[b]);
      }
    }
  }

  /** A component is the set of seen accounts with the same root. */
  lemma ComponentIsRootClass(accounts: Entities, seen: set<string>, rep: Links, a: string)
    requires Grouped(accounts, seen, rep) && a in seen
    ensures Component(accounts, seen, a) == set b | b in seen && rep[b] == rep[a]
  {
    forall b | b in seen
      ensures rep[a] == rep[b] <==> Connected(accounts, seen, a, b)
    {
      SameRootIffConnected(accounts, seen, rep, a, b);
    }
  }
}
