/** How large a tree of handed-out runs can get. */
module PeerTree {
  import opened Wrappers
  import opened AgentRuns
  import opened PeerRuns

  ghost function Children(runs: Runs, p: RunId): set<RunId> {
    set r | r in runs && runs[r].parent == Some(p)
  }

  ghost function ChildrenOfAll(runs: Runs, parents: set<RunId>): set<RunId> {
    set r | r in runs && runs[r].parent.Some? && runs[r].parent.value in parents
  }

  /** The runs `d` hops below `root`. */
  ghost function Level(runs: Runs, root: RunId, d: nat): set<RunId>
    requires WellFounded(runs)
  {
    set r | r in runs && |Chain(runs, r)| > d && Chain(runs, r)[d] == root
  }

  /** `root` and everything started on its behalf. */
  ghost function Tree(runs: Runs, root: RunId): set<RunId>
    requires WellFounded(runs)
  {
    set r | r in runs && root in Chain(runs, r)
  }

  lemma {:induction false} EachChildHasItsInvocation(invs: Invocations, children: set<RunId>, owned: set<InvocationId>)
    requires forall r :: r in children ==> exists i :: i in owned && i in invs && invs[i].childRun == Some(r)
    ensures |children| <= |owned|
    decreases children
  {
    if children != {} {
      var r :| r in children;
      var i :| i in owned && i in invs && invs[i].childRun == Some(r);
      forall q | q in children - {r} ensures exists j :: j in owned - {i} && j in invs && invs[j].childRun == Some(q) {
        var j :| j in owned && j in invs && invs[j].childRun == Some(q);
        assert j in owned - {i};
      }
      EachChildHasItsInvocation(invs, children - {r}, owned - {i});
    }
  }

  lemma ChildrenAreCapped(s: State, limits: Limits, p: RunId)
    requires ForestOk(s, limits)
    ensures |Children(s.runs, p)| <= limits.maxPerRun
  {
    forall r | r in Children(s.runs, p)
      ensures exists i :: i in InvocationsOf(s.invs, p) && i in s.invs && s.invs[i].childRun == Some(r)
    {
      var i :| StartedBy(s.invs, r, p, i);
      assert i in InvocationsOf(s.invs, p);
    }
    EachChildHasItsInvocation(s.invs, Children(s.runs, p), InvocationsOf(s.invs, p));
  }

  lemma {:induction false} NextLevelIsCapped(runs: Runs, parents: set<RunId>, cap: nat)
    requires forall p :: |Children(runs, p)| <= cap
    ensures |ChildrenOfAll(runs, parents)| <= cap * |parents|
    decreases parents
  {
    if parents == {} {
      assert ChildrenOfAll(runs, parents) == {};
    } else {
      var p :| p in parents;
      NextLevelIsCapped(runs, parents - {p}, cap);
      assert ChildrenOfAll(runs, parents) == ChildrenOfAll(runs, parents - {p}) + Children(runs, p);
      assert |parents - {p}| == |parents| - 1;
      assert cap * |parents| == cap * (|parents| - 1) + cap;
    }
  }

  lemma LevelsDescend(runs: Runs, root: RunId, d: nat)
    requires WellFounded(runs)
    ensures Level(runs, root, d + 1) <= ChildrenOfAll(runs, Level(runs, root, d))
  {
  }

  ghost predicate FewChildren(runs: Runs, cap: nat) {
    forall p :: |Children(runs, p)| <= cap
  }

  lemma LevelSize(runs: Runs, cap: nat, root: RunId, d: nat)
    requires WellFounded(runs) && FewChildren(runs, cap)
    ensures |Level(runs, root, d + 1)| <= cap * |Level(runs, root, d)|
  {
    LevelsDescend(runs, root, d);
    NextLevelIsCapped(runs, Level(runs, root, d), cap);
    SubsetSize(Level(runs, root, d + 1), ChildrenOfAll(runs, Level(runs, root, d)));
  }

  lemma TopLevel(runs: Runs, root: RunId)
    requires WellFounded(runs)
    ensures |Level(runs, root, 0)| <= 1
  {
    assert forall r :: r in runs ==> Chain(runs, r)[0] == r;
    SubsetSize(Level(runs, root, 0), {root});
  }

  lemma TimesGrows(m: nat, a: nat, b: nat)
    requires a <= b
    ensures m * a <= m * b
  {
  }

  lemma UnionSize<T>(a: set<T>, b: set<T>)
    ensures |a + b| <= |a| + |b|
  {
  }

  lemma TreeIsFourLevels(runs: Runs, root: RunId)
    requires WellFounded(runs) && forall r :: r in runs ==> ChainOk(runs, r)
    ensures Tree(runs, root) <=
            Level(runs, root, 0) + Level(runs, root, 1) + Level(runs, root, 2) + Level(runs, root, 3)
  {
  }

  lemma Products(m: nat, a: nat, b: nat, c: nat, d: nat)
    requires a <= 1 && b <= m * a && c <= m * b && d <= m * c
    ensures b <= m && c <= m * m && d <= m * (m * m)
  {
  }

  lemma LevelSizes(runs: Runs, m: nat, root: RunId)
    requires WellFounded(runs) && FewChildren(runs, m)
    ensures |Level(runs, root, 0)| <= 1 && |Level(runs, root, 1)| <= m
    ensures |Level(runs, root, 2)| <= m * m && |Level(runs, root, 3)| <= m * (m * m)
  {
    TopLevel(runs, root);
    LevelSize(runs, m, root, 0);
    LevelSize(runs, m, root, 1);
    LevelSize(runs, m, root, 2);
    Products(m, |Level(runs, root, 0)|, |Level(runs, root, 1)|, |Level(runs, root, 2)|, |Level(runs, root, 3)|);
  }

  lemma FourLevelSize(a: set<RunId>, b: set<RunId>, c: set<RunId>, d: set<RunId>, all: set<RunId>)
    requires all <= a + b + c + d
    ensures |all| <= |a| + |b| + |c| + |d|
  {
    UnionSize(a, b);
    UnionSize(a + b, c);
    UnionSize(a + b + c, d);
    SubsetSize(all, a + b + c + d);
  }

  /** A root and all work started on its behalf number at most 1 + M + M^2 + M^3 runs. */
  lemma TreesStaySmall(actions: seq<Action>, limits: Limits, root: RunId)
    ensures var s := RunAll(NOTHING, actions, limits);
            var m := limits.maxPerRun;
            WellFounded(s.runs) && |Tree(s.runs, root)| <= 1 + m + m * m + m * (m * m)
  {
    var s, m := RunAll(NOTHING, actions, limits), limits.maxPerRun;
    EveryForestIsOk(actions, limits);
    forall p ensures |Children(s.runs, p)| <= m { ChildrenAreCapped(s, limits, p); }
    LevelSizes(s.runs, m, root);
    TreeIsFourLevels(s.runs, root);
    FourLevelSize(Level(s.runs, root, 0), Level(s.runs, root, 1), Level(s.runs, root, 2), Level(s.runs, root, 3),
                  Tree(s.runs, root));
  }

  /** With the largest cap the environment can set, a tree never exceeds 33825 runs. */
  lemma TreesStayBelowHardCap(actions: seq<Action>, parsed: Option<real>, maxDepth: int, root: RunId)
    ensures var s := RunAll(NOTHING, actions, Limits(SubAgentMaxPerRun(parsed), maxDepth));
            WellFounded(s.runs) && |Tree(s.runs, root)| <= 33825
  {
    var m := SubAgentMaxPerRun(parsed);
    TreesStaySmall(actions, Limits(m, maxDepth), root);
    TimesGrows(m, m, 32);
    TimesGrows(32, m, 32);
    TimesGrows(m, m * m, 1024);
  }
}
