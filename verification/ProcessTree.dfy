/** The memory of browser process trees: a walk over the parent table of the system. */
module ProcessTree {
  import opened Wrappers

  type Pid = int

  datatype Process = Process(pid: Pid, ppid: Pid)

  datatype Tree = Tree(root: Pid, rss: real, processes: nat)

  // ---- Reference: paths in the parent table ----

  ghost predicate IsPath(rows: seq<Process>, path: seq<Pid>) {
    path != [] && forall i :: 0 <= i < |path| - 1 ==> Process(path[i + 1], path[i]) in rows
  }

  ghost predicate Joins(rows: seq<Process>, path: seq<Pid>, a: Pid, b: Pid) {
    IsPath(rows, path) && path[0] == a && path[|path| - 1] == b
  }

  ghost predicate Reaches(rows: seq<Process>, a: Pid, b: Pid) {
    exists path :: Joins(rows, path, a, b)
  }

  ghost predicate Distinct(pids: seq<Pid>) {
    forall i, j :: 0 <= i < j < |pids| ==> pids[i] != pids[j]
  }

  /** A list of the tree of `root`, each of its processes once. */
  ghost predicate ListsTree(rows: seq<Process>, root: Pid, pids: seq<Pid>) {
    Distinct(pids) && forall p :: p in pids <==> Reaches(rows, root, p)
  }

  function Sum(pids: seq<Pid>, f: Pid -> real): real
    decreases |pids|
  {
    if pids == [] then 0.0 else Sum(pids[..|pids| - 1], f) + f(pids[|pids| - 1])
  }

  // ---- Lists of distinct processes ----

  function RemoveAt(pids: seq<Pid>, i: nat): (rest: seq<Pid>)
    requires i < |pids|
    ensures |rest| == |pids| - 1
  {
    pids[..i] + pids[i + 1..]
  }

  lemma RemovedMembers(pids: seq<Pid>, i: nat)
    requires i < |pids|
    ensures forall p :: p in pids <==> p in RemoveAt(pids, i) || p == pids[i]
    ensures Distinct(pids) ==> Distinct(RemoveAt(pids, i)) && pids[i] !in RemoveAt(pids, i)
  {
    assert pids == pids[..i] + [pids[i]] + pids[i + 1..];
  }

  lemma {:induction false} SumOfRemoved(pids: seq<Pid>, i: nat, f: Pid -> real)
    requires i < |pids|
    ensures Sum(pids, f) == Sum(RemoveAt(pids, i), f) + f(pids[i])
    decreases |pids|
  {
    var n := |pids| - 1;
    if i == n {
      assert RemoveAt(pids, i) == pids[..n];
    } else {
      SumOfRemoved(pids[..n], i, f);
      assert RemoveAt(pids, i)[..n - 1] == RemoveAt(pids[..n], i);
    }
  }

  /** A list of distinct processes is no longer than a list that contains them. */
  lemma {:induction false} DistinctFits(pids: seq<Pid>, all: seq<Pid>)
    requires Distinct(pids) && forall p :: p in pids ==> p in all
    ensures |pids| <= |all|
    decreases |pids|
  {
    if pids == [] {
    } else {
      var n := |pids| - 1;
      assert pids[n] in pids;
      var i :| 0 <= i < |all| && all[i] == pids[n];
      RemovedMembers(pids, n);
      RemovedMembers(all, i);
      DistinctFits(RemoveAt(pids, n), RemoveAt(all, i));
    }
  }

  /** The sum does not depend on the order in which the processes are listed. */
  lemma {:induction false} SumIgnoresOrder(pids: seq<Pid>, other: seq<Pid>, f: Pid -> real)
    requires Distinct(pids) && Distinct(other) && forall p :: p in pids <==> p in other
    ensures |pids| == |other| && Sum(pids, f) == Sum(other, f)
    decreases |pids|
  {
    DistinctFits(pids, other);
    DistinctFits(other, pids);
    if pids == [] {
    } else {
      var n := |pids| - 1;
      assert pids[n] in other;
      var i :| 0 <= i < |other| && other[i] == pids[n];
      RemovedMembers(pids, n);
      RemovedMembers(other, i);
      SumOfRemoved(pids, n, f);
      SumOfRemoved(other, i, f);
      SumIgnoresOrder(RemoveAt(pids, n), RemoveAt(other, i), f);
    }
  }

  // ---- The walk ----

  function ChildrenIn(rows: seq<Process>, parent: Pid): seq<Pid>
    decreases |rows|
  {
    if rows == [] then []
    else
      var row := rows[|rows| - 1];
      ChildrenIn(rows[..|rows| - 1], parent) + if row.ppid == parent then [row.pid] else []
  }

  lemma {:induction false} ChildrenAreRows(rows: seq<Process>, parent: Pid, child: Pid)
    ensures child in ChildrenIn(rows, parent) <==> Process(child, parent) in rows
    decreases |rows|
  {
    if rows == [] {
    } else {
      ChildrenAreRows(rows[..|rows| - 1], parent, child);
      assert rows == rows[..|rows| - 1] + [rows[|rows| - 1]];
    }
  }

  method ChildrenOf(rows: seq<Process>) returns (children: map<Pid, seq<Pid>>)
    ensures forall p, c :: c in Get(children, p, []) <==> Process(c, p) in rows
  {
    children := map[];
    for i := 0 to |rows|
      invariant forall p :: Get(children, p, []) == ChildrenIn(rows[..i], p)
    {
      assert rows[..i + 1][..i] == rows[..i];
      var sibling := Get(children, rows[i].ppid, []);
      sibling := sibling + [rows[i].pid];
      children := children[rows[i].ppid := sibling];
    }
    assert rows[..|rows|] == rows;
    forall p, c ensures c in Get(children, p, []) <==> Process(c, p) in rows {
      ChildrenAreRows(rows, p, c);
    }
  }

  lemma StepReaches(rows: seq<Process>, a: Pid, b: Pid, c: Pid)
    requires Reaches(rows, a, b) && Process(c, b) in rows
    ensures Reaches(rows, a, c)
  {
    var path :| Joins(rows, path, a, b);
    assert Joins(rows, path + [c], a, c);
  }

  lemma ReachesItself(rows: seq<Process>, a: Pid)
    ensures Reaches(rows, a, a)
  {
    assert Joins(rows, [a], a, a);
  }

  /** A list that contains the children of its members contains all that a member reaches. */
  lemma {:induction false} ClosedContains(rows: seq<Process>, pids: seq<Pid>, path: seq<Pid>)
    requires IsPath(rows, path) && path[0] in pids
    requires forall p, c :: p in pids && Process(c, p) in rows ==> c in pids
    ensures path[|path| - 1] in pids
    decreases |path|
  {
    if |path| > 1 {
      var before := path[..|path| - 1];
      ClosedContains(rows, pids, before);
      assert Process(path[|path| - 2 + 1], path[|path| - 2]) in rows;
    }
  }

  lemma ClosedListsTree(rows: seq<Process>, root: Pid, pids: seq<Pid>)
    requires Distinct(pids) && root in pids && forall p :: p in pids ==> Reaches(rows, root, p)
    requires forall p, c :: p in pids && Process(c, p) in rows ==> c in pids
    ensures ListsTree(rows, root, pids)
  {
    forall p | Reaches(rows, root, p) ensures p in pids {
      var path :| Joins(rows, path, root, p);
      ClosedContains(rows, pids, path);
    }
  }

  /** Every process that a walk can meet. */
  function Known(rows: seq<Process>, root: Pid): (pids: seq<Pid>)
    ensures root in pids && forall row :: row in rows ==> row.pid in pids
  {
    if rows == [] then [root] else [rows[0].pid] + Known(rows[1..], root)
  }

  ghost predicate Found(rows: seq<Process>, root: Pid, found: seq<Pid>, pending: seq<Pid>) {
    && root in found && Distinct(found)
    && (forall p :: p in found ==> Reaches(rows, root, p) && p in Known(rows, root))
    && (forall p :: p in pending ==> p in found)
  }

  /** All children have been found of what was found and is no longer pending, but for those of `parent`. */
  ghost predicate FollowedBut(rows: seq<Process>, found: seq<Pid>, pending: seq<Pid>, parent: Pid) {
    forall p, c :: p in found && p !in pending && p != parent && Process(c, p) in rows ==> c in found
  }

  ghost predicate Followed(rows: seq<Process>, found: seq<Pid>, pending: seq<Pid>) {
    forall p, c :: p in found && p !in pending && Process(c, p) in rows ==> c in found
  }

  /** The children of one process: new ones are found and pending. */
  method Follow(ghost rows: seq<Process>, ghost root: Pid, children: seq<Pid>, ghost parent: Pid, found: seq<Pid>,
                pending: seq<Pid>)
      returns (found': seq<Pid>, pending': seq<Pid>)
    requires forall c :: c in children <==> Process(c, parent) in rows
    requires Found(rows, root, found, pending) && FollowedBut(rows, found, pending, parent) && parent in found
    ensures Found(rows, root, found', pending') && Followed(rows, found', pending')
    ensures |found'| - |found| == |pending'| - |pending| >= 0
  {
    found', pending' := found, pending;
    for i := 0 to |children|
      invariant Found(rows, root, found', pending') && FollowedBut(rows, found', pending', parent) && parent in found'
      invariant forall c :: c in children[..i] ==> c in found'
      invariant |found'| - |found| == |pending'| - |pending| >= 0
    {
      var child := children[i];
      assert children[..i + 1] == children[..i] + [child];
      if child !in found' {
        assert Process(child, parent) in rows;
        StepReaches(rows, root, parent, child);
        found' := found' + [child];
        pending' := pending' + [child];
      }
    }
    assert children[..|children|] == children;
  }

  /** The walk ends on every table, cyclic ones included, and finds exactly what the root reaches, each once. */
  method Descendants(ghost rows: seq<Process>, children: map<Pid, seq<Pid>>, root: Pid) returns (found: seq<Pid>)
    requires forall p, c :: c in Get(children, p, []) <==> Process(c, p) in rows
    ensures ListsTree(rows, root, found)
  {
    found := [root];
    var pending := [root];
    ReachesItself(rows, root);
    DistinctFits(found, Known(rows, root));
    while pending != []
      invariant Found(rows, root, found, pending) && Followed(rows, found, pending)
      invariant |found| <= |Known(rows, root)|
      decreases 2 * (|Known(rows, root)| - |found|) + |pending|
    {
      var parent := pending[|pending| - 1];
      var rest := pending[..|pending| - 1];
      assert pending == rest + [parent];
      found, pending := Follow(rows, root, Get(children, parent, []), parent, found, rest);
      DistinctFits(found, Known(rows, root));
    }
    ClosedListsTree(rows, root, found);
  }

  /** The tree can be listed, and however it is, the measurement counts each of its processes once. */
  ghost predicate IsMeasured(rows: seq<Process>, rss: Pid -> real, tree: Tree) {
    && (exists pids :: ListsTree(rows, tree.root, pids))
    && forall pids :: ListsTree(rows, tree.root, pids) ==> tree.processes == |pids| && tree.rss == Sum(pids, rss)
  }

  method Total(found: seq<Pid>, rss: Pid -> real) returns (total: real)
    ensures total == Sum(found, rss)
  {
    total := 0.0;
    for i := 0 to |found|
      invariant total == Sum(found[..i], rss)
    {
      assert found[..i + 1][..i] == found[..i];
      total := total + rss(found[i]);
    }
    assert found[..|found|] == found;
  }

  lemma AnyListWillDo(rows: seq<Process>, root: Pid, found: seq<Pid>, rss: Pid -> real)
    requires ListsTree(rows, root, found)
    ensures IsMeasured(rows, rss, Tree(root, Sum(found, rss), |found|))
  {
    forall pids | ListsTree(rows, root, pids) ensures |found| == |pids| && Sum(found, rss) == Sum(pids, rss) {
      SumIgnoresOrder(found, pids, rss);
    }
  }

  /** The positive roots are measured, each once, with all they reach. */
  method Measure(rows: seq<Process>, rootPids: seq<Pid>, rss: Pid -> real) returns (trees: map<Pid, Tree>)
    ensures forall root :: root in trees <==> root in rootPids && root > 0
    ensures forall root :: root in trees ==> trees[root].root == root && IsMeasured(rows, rss, trees[root])
  {
    var children := ChildrenOf(rows);
    trees := map[];
    for i := 0 to |rootPids|
      invariant forall root :: root in trees <==> root in rootPids[..i] && root > 0
      invariant forall root :: root in trees ==> trees[root].root == root && IsMeasured(rows, rss, trees[root])
    {
      var root := rootPids[i];
      assert rootPids[..i + 1] == rootPids[..i] + [root];
      if root > 0 && root !in trees {
        var found := Descendants(rows, children, root);
        var total := Total(found, rss);
        AnyListWillDo(rows, root, found, rss);
        trees := trees[root := Tree(root, total, |found|)];
      }
    }
    assert rootPids[..|rootPids|] == rootPids;
  }

  // ---- Trees of several roots ----

  /** The system lists each process once, so it has one parent. */
  ghost predicate OneParent(rows: seq<Process>) {
    forall r, q :: r in rows && q in rows && r.pid == q.pid ==> r == q
  }

  lemma {:induction false} PathsMeet(rows: seq<Process>, path: seq<Pid>, other: seq<Pid>)
    requires OneParent(rows) && IsPath(rows, path) && IsPath(rows, other)
    requires path[|path| - 1] == other[|other| - 1]
    ensures Reaches(rows, path[0], other[0]) || Reaches(rows, other[0], path[0])
    decreases |path|
  {
    if |path| == 1 {
      assert Joins(rows, other, other[0], path[0]);
    } else if |other| == 1 {
      assert Joins(rows, path, path[0], other[0]);
    } else {
      var n, m := |path| - 1, |other| - 1;
      assert Process(path[n - 1 + 1], path[n - 1]) in rows && Process(other[m - 1 + 1], other[m - 1]) in rows;
      PathsMeet(rows, path[..n], other[..m]);
    }
  }

  lemma ReachesFurther(rows: seq<Process>, a: Pid, b: Pid, c: Pid)
    requires Reaches(rows, a, b) && Reaches(rows, b, c)
    ensures Reaches(rows, a, c)
  {
    var path :| Joins(rows, path, a, b);
    var more :| Joins(rows, more, b, c);
    var whole := path + more[1..];
    forall i | 0 <= i < |whole| - 1 ensures Process(whole[i + 1], whole[i]) in rows {
      if i >= |path| - 1 {
        var j := i - (|path| - 1);
        assert whole[i] == more[j] && whole[i + 1] == more[j + 1];
      }
    }
    assert Joins(rows, whole, a, c);
  }

  /** Two trees share a process exactly when one root reaches the other, and then one tree lies in the other. */
  lemma TreesAreNestedOrDisjoint(rows: seq<Process>, a: Pid, b: Pid)
    requires OneParent(rows)
    ensures (exists p :: Reaches(rows, a, p) && Reaches(rows, b, p)) <==> Reaches(rows, a, b) || Reaches(rows, b, a)
    ensures Reaches(rows, a, b) ==> forall p :: Reaches(rows, b, p) ==> Reaches(rows, a, p)
  {
    ReachesItself(rows, a);
    ReachesItself(rows, b);
    if p :| Reaches(rows, a, p) && Reaches(rows, b, p) {
      var path :| Joins(rows, path, a, p);
      var other :| Joins(rows, other, b, p);
      PathsMeet(rows, path, other);
    }
    if Reaches(rows, a, b) {
      forall p | Reaches(rows, b, p) ensures Reaches(rows, a, p) {
        ReachesFurther(rows, a, b, p);
      }
    }
  }

  lemma {:induction false} SumOfConcat(a: seq<Pid>, b: seq<Pid>, f: Pid -> real)
    ensures Sum(a + b, f) == Sum(a, f) + Sum(b, f)
    decreases |b|
  {
    if b == [] {
      assert a + b == a;
    } else {
      assert (a + b)[..|a + b| - 1] == a + b[..|b| - 1];
      SumOfConcat(a, b[..|b| - 1], f);
    }
  }

  /** So the memory of roots that do not reach each other adds up without counting a process twice. */
  lemma SeparateTreesAdd(rows: seq<Process>, a: Tree, b: Tree, inA: seq<Pid>, inB: seq<Pid>, rss: Pid -> real)
    requires OneParent(rows) && IsMeasured(rows, rss, a) && IsMeasured(rows, rss, b)
    requires ListsTree(rows, a.root, inA) && ListsTree(rows, b.root, inB)
    requires !Reaches(rows, a.root, b.root) && !Reaches(rows, b.root, a.root)
    ensures Distinct(inA + inB) && a.rss + b.rss == Sum(inA + inB, rss) && a.processes + b.processes == |inA + inB|
  {
    TreesAreNestedOrDisjoint(rows, a.root, b.root);
    forall i, j | 0 <= i < |inA| && 0 <= j < |inB| ensures inA[i] != inB[j] {
      assert inA[i] in inA && inB[j] in inB;
    }
    SumOfConcat(inA, inB, rss);
  }
}
