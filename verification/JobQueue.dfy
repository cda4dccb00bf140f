/** JobManager::job_queue (gearbox/job/JobManager.cc:452-564): the agents of a
    configuration are layered into batches by their requirements. The depth
    first search behind boost::topological_sort is written out. Vertices are
    the agent names, which are the keys of the configuration. */
module JobQueue {
  import opened Outcomes

  /** Agent name to the names in its "require" list. */
  type Config = map<string, seq<string>>

  // ---- what the code promises ------------------------------------------------

  predicate Undefined(cfg: Config) { exists a <- cfg :: exists r <- cfg[a] :: r !in cfg }

  /** Each name requires the next one. */
  predicate Chain(cfg: Config, p: seq<string>) {
    && p != []
    && (forall i | 0 <= i < |p| :: p[i] in cfg)
    && forall i | 0 <= i < |p| - 1 :: Requires(cfg, p[i], p[i + 1])
  }

  predicate Requires(cfg: Config, a: string, b: string) { a in cfg && b in cfg[a] }

  ghost predicate Cyclic(cfg: Config) { exists p :: Chain(cfg, p) && |p| >= 2 && p[0] == p[|p| - 1] }

  /** The longest requirement chain starting at `a` has `d` links. */
  ghost predicate IsDepth(cfg: Config, a: string, d: nat) {
    && (exists p :: Chain(cfg, p) && p[0] == a && |p| == d + 1)
    && (forall p | Chain(cfg, p) && p[0] == a :: |p| <= d + 1)
  }

  /** Every agent is in exactly one place, its batch index is its depth, and no
      batch is empty. */
  ghost predicate Layered(cfg: Config, q: seq<seq<string>>) {
    && (forall i, j | 0 <= i < |q| && 0 <= j < |q[i]| :: q[i][j] in cfg && IsDepth(cfg, q[i][j], i))
    && (forall i, j, k | 0 <= i < |q| && 0 <= j < k < |q[i]| :: q[i][j] != q[i][k])
    && (forall a <- cfg :: exists i :: 0 <= i < |q| && a in q[i])
    && (forall i | 0 <= i < |q| :: q[i] != [])
  }

  // ---- the graph -----------------------------------------------------------------

  /** Out-edges of `k`: the agents that require it. */
  function Dependents(cfg: Config, k: string): set<string> { set a | a in cfg && k in cfg[a] }

  ghost predicate IsGraph(cfg: Config, out: map<string, set<string>>) {
    out.Keys == cfg.Keys && forall k <- cfg :: out[k] == Dependents(cfg, k)
  }

  /** The edges for the requirements of one agent. */
  method AddRequirements(cfg: Config, a: string, before: map<string, set<string>>)
    returns (out: map<string, set<string>>, ok: bool)
    requires a in cfg && before.Keys == cfg.Keys
    ensures out.Keys == cfg.Keys
    ensures ok ==> forall r <- cfg[a] :: r in cfg
    ensures ok ==> forall k <- cfg :: out[k] == if k in cfg[a] then before[k] + {a} else before[k]
    ensures !ok ==> Undefined(cfg) || Cyclic(cfg)
  {
    out := before;
    var reqs := cfg[a];
    for j := 0 to |reqs|
      invariant out.Keys == cfg.Keys
      invariant forall i | 0 <= i < j :: reqs[i] in cfg
      invariant forall k <- cfg :: out[k] == if k in reqs[..j] then before[k] + {a} else before[k]
    {
      if reqs[j] !in cfg { return out, false; }
      if reqs[j] == a {
        assert Chain(cfg, [a, a]);
        return out, false;
      }
      assert reqs[..j + 1] == reqs[..j] + [reqs[j]];
      out := out[reqs[j] := out[reqs[j]] + {a}];
    }
    assert reqs[..|reqs|] == reqs;
    ok := true;
  }

  method BuildGraph(cfg: Config) returns (out: map<string, set<string>>, ok: bool)
    ensures ok ==> IsGraph(cfg, out) && !Undefined(cfg)
    ensures !ok ==> Undefined(cfg) || Cyclic(cfg)
  {
    out := map k <- cfg :: {};
    var todo := cfg.Keys;
    while todo != {}
      invariant todo <= cfg.Keys && out.Keys == cfg.Keys
      invariant forall k <- cfg :: out[k] == Dependents(cfg, k) - todo
      invariant forall a <- cfg :: a in todo || forall r <- cfg[a] :: r in cfg
      decreases todo
    {
      var a :| a in todo;
      out, ok := AddRequirements(cfg, a, out);
      if !ok { return; }
      todo := todo - {a};
    }
    ok := true;
  }

  // ---- depth first search ----------------------------------------------------------

  datatype Color = White | Gray | Black

  /** Every out-edge of an entry leads further back in the order. */
  ghost predicate Sorted(cfg: Config, order: seq<string>) {
    forall i, w | 0 <= i < |order| && w in Dependents(cfg, order[i]) :: w in order[i + 1..]
  }

  predicate NoRepeats(order: seq<string>) { forall i, j | 0 <= i < j < |order| :: order[i] != order[j] }

  /** The finished vertices are the order built so far, which is sorted. */
  ghost predicate Finished(cfg: Config, color: map<string, Color>, order: seq<string>) {
    && color.Keys == cfg.Keys
    && (forall a <- cfg :: color[a] == Black <==> a in order)
    && (forall a <- order :: a in cfg)
    && Sorted(cfg, order) && NoRepeats(order)
  }

  /** The vertices being visited are a path of the search: each requires the
      one before it. */
  ghost predicate OnPath(cfg: Config, color: map<string, Color>, path: seq<string>) {
    && (forall a <- color :: color[a] == Gray <==> a in path)
    && (forall i | 0 <= i < |path| :: path[i] in cfg)
    && (forall i, j | 0 <= i && j == i + 1 < |path| :: Requires(cfg, path[j], path[i]))
  }

  function Whites(color: map<string, Color>): set<string> { set a | a in color && color[a] == White }

  /** A gray vertex reached from the end of the path closes a cycle. */
  lemma BackEdge(cfg: Config, path: seq<string>, k: nat, w: string)
    requires forall i | 0 <= i < |path| :: path[i] in cfg
    requires forall i, j | 0 <= i && j == i + 1 < |path| :: Requires(cfg, path[j], path[i])
    requires k < |path| && w == path[k] && w in Dependents(cfg, path[|path| - 1])
    ensures Cyclic(cfg)
  {
    var n := |path| - k;
    var p := seq(n + 1, i requires 0 <= i <= n => if i == 0 then w else path[|path| - i]);
    forall i | 0 <= i < |p| - 1
      ensures Requires(cfg, p[i], p[i + 1])
    {
      if i > 0 {
        assert Requires(cfg, path[|path| - i], path[|path| - i - 1]);
      }
    }
    assert Chain(cfg, p) && p[0] == p[|p| - 1];
  }

  method Visit(cfg: Config, out: map<string, set<string>>, v: string,
               color0: map<string, Color>, order0: seq<string>, ghost path: seq<string>)
    returns (color: map<string, Color>, order: seq<string>, ok: bool)
    requires IsGraph(cfg, out) && v in cfg && v in color0 && color0[v] == White
    requires Finished(cfg, color0, order0) && OnPath(cfg, color0, path)
    requires path != [] ==> v in Dependents(cfg, path[|path| - 1])
    ensures !ok ==> Cyclic(cfg)
    ensures ok ==> Finished(cfg, color, order) && OnPath(cfg, color, path)
    ensures ok ==> v in order && (forall a <- order0 :: a in order) && Whites(color) < Whites(color0)
    decreases Whites(color0)
  {
    color, order := color0[v := Gray], order0;
    ghost var here := path + [v];
    EnterKeeps(cfg, color0, order0, path, v);
    var todo := out[v];
    while todo != {}
      invariant todo <= out[v]
      invariant Finished(cfg, color, order) && OnPath(cfg, color, here)
      invariant forall w <- out[v] :: w in todo || w in order
      invariant forall a <- order0 :: a in order
      invariant Whites(color) < Whites(color0)
      decreases todo
    {
      var w :| w in todo;
      match color[w] {
        case White =>
          color, order, ok := Visit(cfg, out, w, color, order, here);
          if !ok { return; }
        case Gray =>
          ghost var k :| 0 <= k < |here| && here[k] == w;
          BackEdge(cfg, here, k, w);
          return color, order, false;
        case Black =>
      }
      todo := todo - {w};
    }
    LeaveKeeps(cfg, color, order, path, v);
    color, order, ok := color[v := Black], [v] + order, true;
  }

  lemma EnterKeeps(cfg: Config, color: map<string, Color>, order: seq<string>, path: seq<string>, v: string)
    requires Finished(cfg, color, order) && OnPath(cfg, color, path) && v in cfg && color[v] == White
    requires path != [] ==> v in Dependents(cfg, path[|path| - 1])
    ensures Finished(cfg, color[v := Gray], order) && OnPath(cfg, color[v := Gray], path + [v])
    ensures Whites(color[v := Gray]) < Whites(color)
  {
    assert v in Whites(color) && v !in Whites(color[v := Gray]);
    assert (path + [v])[|path|] == v;
    forall a | a in cfg
      ensures color[v := Gray][a] == Gray <==> a in path + [v]
    {
    }
  }

  lemma LeaveKeeps(cfg: Config, color: map<string, Color>, order: seq<string>, path: seq<string>, v: string)
    requires Finished(cfg, color, order) && OnPath(cfg, color, path + [v]) && v in cfg
    requires v !in path
    requires forall w <- Dependents(cfg, v) :: w in order
    ensures Finished(cfg, color[v := Black], [v] + order) && OnPath(cfg, color[v := Black], path)
    ensures Whites(color[v := Black]) <= Whites(color)
  {
    var here, order' := path + [v], [v] + order;
    assert here[|path|] == v;
    forall i, w | 0 <= i < |order'| && w in Dependents(cfg, order'[i])
      ensures w in order'[i + 1..]
    {
      if i == 0 {
        assert order'[1..] == order;
      } else {
        assert order'[i + 1..] == order[i..];
      }
    }
    forall i, j | 0 <= i && j == i + 1 < |path|
      ensures Requires(cfg, path[j], path[i])
    {
      assert here[j] == path[j] && here[i] == path[i];
    }
    forall i | 0 <= i < |path|
      ensures path[i] in cfg
    {
      assert here[i] == path[i];
    }
    forall a | a in color[v := Black]
      ensures color[v := Black][a] == Gray <==> a in path
    {
      assert a in here <==> a in path || a == v;
    }
  }

  /** boost::topological_sort with a front inserter: an order in which every
      agent comes after its requirements, or a cycle. */
  method TopologicalSort(cfg: Config, out: map<string, set<string>>) returns (order: seq<string>, ok: bool)
    requires IsGraph(cfg, out)
    ensures !ok ==> Cyclic(cfg)
    ensures ok ==> IsOrder(cfg, order)
  {
    var color := map a <- cfg :: White;
    order := [];
    var todo := cfg.Keys;
    while todo != {}
      invariant todo <= cfg.Keys
      invariant Finished(cfg, color, order) && OnPath(cfg, color, [])
      invariant forall a <- cfg :: a in todo || a in order
      decreases todo
    {
      var v :| v in todo;
      if color[v] == White {
        color, order, ok := Visit(cfg, out, v, color, order, []);
        if !ok { return; }
      }
      todo := todo - {v};
    }
    ok := true;
  }

  ghost predicate IsOrder(cfg: Config, order: seq<string>) {
    && Sorted(cfg, order) && NoRepeats(order)
    && (forall a <- cfg :: a in order) && (forall a <- order :: a in cfg)
  }

  ghost function Pos(order: seq<string>, a: string): (i: nat)
    requires a in order
    ensures i < |order| && order[i] == a
  {
    var i :| 0 <= i < |order| && order[i] == a;
    i
  }

  lemma RequirementComesFirst(cfg: Config, order: seq<string>, a: string, r: string)
    requires IsOrder(cfg, order) && Requires(cfg, a, r) && r in cfg
    ensures Pos(order, r) < Pos(order, a)
  {
    assert a in Dependents(cfg, order[Pos(order, r)]);
    var j :| 0 <= j < |order[Pos(order, r) + 1..]| && order[Pos(order, r) + 1..][j] == a;
    assert order[Pos(order, r) + 1 + j] == a;
  }

  lemma {:induction false} ChainDescends(cfg: Config, order: seq<string>, p: seq<string>)
    requires IsOrder(cfg, order) && Chain(cfg, p)
    ensures Pos(order, p[|p| - 1]) + |p| - 1 <= Pos(order, p[0])
  {
    if |p| > 1 {
      assert Requires(cfg, p[0], p[1]);
      RequirementComesFirst(cfg, order, p[0], p[1]);
      ChainTail(cfg, p);
      ChainDescends(cfg, order, p[1..]);
    }
  }

  lemma ChainTail(cfg: Config, p: seq<string>)
    requires Chain(cfg, p) && |p| > 1
    ensures Chain(cfg, p[1..])
  {
    forall i | 0 <= i < |p[1..]| - 1
      ensures Requires(cfg, p[1..][i], p[1..][i + 1])
    {
      assert Requires(cfg, p[i + 1], p[i + 1 + 1]);
    }
  }

  lemma OrderedIsAcyclic(cfg: Config, order: seq<string>)
    requires IsOrder(cfg, order)
    ensures !Cyclic(cfg)
  {
    forall p | Chain(cfg, p) && |p| >= 2
      ensures p[0] != p[|p| - 1]
    {
      ChainDescends(cfg, order, p);
    }
  }

  // ---- layering -----------------------------------------------------------------------

  /** One more than the deepest requirement, or 0 without requirements. */
  ghost predicate LocalDepth(cfg: Config, depth: map<string, nat>, a: string) {
    && a in cfg && a in depth
    && (forall r <- cfg[a] :: r in depth && depth[r] < depth[a])
    && (depth[a] > 0 ==> exists r <- cfg[a] :: r in depth && depth[a] == depth[r] + 1)
  }

  ghost predicate AllLocal(cfg: Config, depth: map<string, nat>) {
    depth.Keys == cfg.Keys && Locals(cfg, depth)
  }

  ghost predicate Locals(cfg: Config, depth: map<string, nat>) { forall a <- depth :: LocalDepth(cfg, depth, a) }

  /** Giving the next agent its depth leaves the others right. */
  lemma LocalDepthGrows(cfg: Config, depth: map<string, nat>, a: string, d: nat)
    requires Locals(cfg, depth) && a in cfg && a !in depth
    requires forall r <- cfg[a] :: r in depth && depth[r] < d
    requires d > 0 ==> exists r <- cfg[a] :: r in depth && d == depth[r] + 1
    ensures Locals(cfg, depth[a := d])
  {
    var depth' := depth[a := d];
    forall b | b in depth'
      ensures LocalDepth(cfg, depth', b)
    {
      if b != a {
        assert LocalDepth(cfg, depth, b);
        if depth[b] > 0 {
          var r :| r in cfg[b] && r in depth && depth[b] == depth[r] + 1;
          assert depth'[b] == depth'[r] + 1;
        }
      } else if d > 0 {
        var r :| r in cfg[a] && r in depth && d == depth[r] + 1;
        assert depth'[a] == depth'[r] + 1;
      }
    }
  }

  lemma {:induction false} DepthBoundsChains(cfg: Config, depth: map<string, nat>, p: seq<string>)
    requires AllLocal(cfg, depth) && Chain(cfg, p)
    ensures |p| <= depth[p[0]] + 1
  {
    assert LocalDepth(cfg, depth, p[0]);
    if |p| > 1 {
      assert Requires(cfg, p[0], p[1]);
      ChainTail(cfg, p);
      DepthBoundsChains(cfg, depth, p[1..]);
    }
  }

  lemma {:induction false} DepthIsReached(cfg: Config, depth: map<string, nat>, a: string) returns (p: seq<string>)
    requires !Undefined(cfg) && AllLocal(cfg, depth) && a in cfg
    ensures Chain(cfg, p) && p[0] == a && |p| == depth[a] + 1
    decreases depth[a]
  {
    if depth[a] == 0 {
      p := [a];
    } else {
      assert LocalDepth(cfg, depth, a);
      var r :| r in cfg[a] && r in depth && depth[a] == depth[r] + 1;
      var q := DepthIsReached(cfg, depth, r);
      p := [a] + q;
      forall i | 0 <= i < |p| - 1
        ensures Requires(cfg, p[i], p[i + 1])
      {
        if i > 0 { assert Requires(cfg, q[i - 1], q[i - 1 + 1]); }
      }
    }
  }

  lemma LocalDepthIsDepth(cfg: Config, depth: map<string, nat>, a: string)
    requires !Undefined(cfg) && AllLocal(cfg, depth) && a in cfg
    ensures IsDepth(cfg, a, depth[a])
  {
    var p := DepthIsReached(cfg, depth, a);
    forall q | Chain(cfg, q) && q[0] == a
      ensures |q| <= depth[a] + 1
    {
      DepthBoundsChains(cfg, depth, q);
    }
  }

  /** `group` holds the agents of `depth`, each under its own depth, with no
      depth below `size` missing. */
  ghost predicate Grouped(depth: map<string, nat>, group: map<nat, seq<string>>, size: nat) {
    && (forall d: nat :: d in group <==> d < size)
    && (forall d <- group :: group[d] != [] && NoRepeats(group[d]))
    && (forall d <- group, a :: a in group[d] <==> a in depth && depth[a] == d)
    && (forall a <- depth :: depth[a] < size)
  }

  method MaxDist(reqs: seq<string>, edgeCount: map<string, nat>) returns (maxdist: nat)
    requires reqs != [] && forall r <- reqs :: r in edgeCount
    ensures forall r <- reqs :: edgeCount[r] <= maxdist
    ensures exists r <- reqs :: edgeCount[r] == maxdist
  {
    maxdist := 0;
    for j := 0 to |reqs|
      invariant forall i | 0 <= i < j :: edgeCount[reqs[i]] <= maxdist
      invariant j > 0 ==> exists i :: 0 <= i < j && edgeCount[reqs[i]] == maxdist
      invariant j == 0 ==> maxdist == 0
    {
      if maxdist <= edgeCount[reqs[j]] {
        maxdist := edgeCount[reqs[j]];
        assert edgeCount[reqs[j]] == maxdist;
      }
    }
  }

  lemma GroupedAdd(depth: map<string, nat>, group: map<nat, seq<string>>, size: nat, a: string, d: nat)
    requires Grouped(depth, group, size) && a !in depth && d <= size
    ensures var old' := if d in group then group[d] else [];
      Grouped(depth[a := d], group[d := old' + [a]], if d == size then size + 1 else size)
  {
    var old' := if d in group then group[d] else [];
    var group', depth' := group[d := old' + [a]], depth[a := d];
    assert a !in old';
    forall e, b | e in group'
      ensures b in group'[e] <==> b in depth' && depth'[b] == e
    {
      if e != d { assert b in group[e] <==> b in depth && depth[b] == e; }
      if e == d && d in group { assert b in group[d] <==> b in depth && depth[b] == d; }
    }
  }

  /** The grouping loop over the topological order. */
  method Layer(cfg: Config, order: seq<string>)
    returns (edgeCount: map<string, nat>, group: map<nat, seq<string>>, ghost size: nat)
    requires IsOrder(cfg, order) && !Undefined(cfg)
    ensures AllLocal(cfg, edgeCount) && Grouped(edgeCount, group, size)
  {
    edgeCount, group, size := map[], map[], 0;
    for t := 0 to |order|
      invariant forall a :: a in edgeCount <==> a in order[..t]
      invariant Locals(cfg, edgeCount)
      invariant Grouped(edgeCount, group, size)
    {
      var a := order[t];
      assert order[..t + 1] == order[..t] + [a];
      RequirementsDone(cfg, order, t);
      var d := 0;
      if cfg[a] != [] {
        var maxdist := MaxDist(cfg[a], edgeCount);
        d := maxdist + 1;
        ghost var r :| r in cfg[a] && edgeCount[r] == maxdist;
        assert maxdist in group;
      }
      LocalDepthGrows(cfg, edgeCount, a, d);
      GroupedAdd(edgeCount, group, size, a, d);
      group := group[d := (if d in group then group[d] else []) + [a]];
      size := if d == size then size + 1 else size;
      edgeCount := edgeCount[a := d];
    }
    assert order[..|order|] == order;
  }

  lemma RequirementsDone(cfg: Config, order: seq<string>, t: nat)
    requires IsOrder(cfg, order) && !Undefined(cfg) && t < |order|
    ensures order[t] !in order[..t]
    ensures forall r <- cfg[order[t]] :: r in order[..t]
  {
    var a := order[t];
    assert Pos(order, a) == t;
    forall r | r in cfg[a]
      ensures r in order[..t]
    {
      RequirementComesFirst(cfg, order, a, r);
      assert order[..t][Pos(order, r)] == r;
    }
  }

  lemma {:induction false} LeastOf(s: set<nat>) returns (k: nat)
    requires s != {}
    ensures k in s && forall e <- s :: k <= e
    decreases s
  {
    var some :| some in s;
    var smaller := set e | e in s && e < some;
    if smaller != {} {
      k := LeastOf(smaller);
      assert forall e <- s :: e < some ==> e in smaller;
    } else {
      k := some;
      assert forall e <- s :: e < some ==> e in smaller;
    }
  }

  /** Filling the queue walks the group map in key order and drops the keys:
      batch i is the group with key i. */
  method FillQueue(ghost depth: map<string, nat>, group: map<nat, seq<string>>, ghost size: nat)
    returns (q: seq<seq<string>>)
    requires Grouped(depth, group, size)
    ensures |q| == size && forall i | 0 <= i < size :: q[i] == group[i]
  {
    q := [];
    var todo := group.Keys;
    while todo != {}
      invariant |q| <= size && forall d :: d in todo <==> |q| <= d < size
      invariant forall i | 0 <= i < |q| :: q[i] == group[i]
      decreases todo
    {
      ghost var least := LeastOf(todo);
      var k :| k in todo && forall e <- todo :: k <= e;
      assert |q| in todo;
      q := q + [group[k]];
      todo := todo - {k};
    }
    assert |q| < size ==> |q| in todo;
  }

  method JobQueue(cfg: Config) returns (r: Result<seq<seq<string>>, string>)
    ensures r.Err? <==> Undefined(cfg) || Cyclic(cfg)
    ensures r.Ok? ==> Layered(cfg, r.value)
  {
    var out, defined := BuildGraph(cfg);
    if !defined { return Err("undefined or cyclic dependency"); }
    var order, dag := TopologicalSort(cfg, out);
    if !dag { return Err("Cycle detected in configuration"); }
    OrderedIsAcyclic(cfg, order);
    var depth, group, size := Layer(cfg, order);
    var q := FillQueue(depth, group, size);
    GroupedIsLayered(cfg, depth, group, size, q);
    return Ok(q);
  }

  lemma GroupedIsLayered(
    cfg: Config, depth: map<string, nat>, group: map<nat, seq<string>>, size: nat, q: seq<seq<string>>)
    requires !Undefined(cfg) && AllLocal(cfg, depth)
    requires Grouped(depth, group, size)
    requires |q| == size && forall i | 0 <= i < size :: q[i] == group[i]
    ensures Layered(cfg, q)
  {
    forall i, j | 0 <= i < |q| && 0 <= j < |q[i]|
      ensures q[i][j] in cfg && IsDepth(cfg, q[i][j], i)
    {
      assert i in group && q[i][j] in group[i];
      LocalDepthIsDepth(cfg, depth, q[i][j]);
    }
    forall a | a in cfg
      ensures exists i :: 0 <= i < |q| && a in q[i]
    {
      assert depth[a] in group && a in group[depth[a]];
      assert a in q[depth[a]];
    }
    forall i | 0 <= i < |q|
      ensures q[i] != [] && NoRepeats(q[i])
    {
      assert i in group;
    }
  }
}
