/** The memoised depth computation of tree mode over an arbitrary parent graph
    (computeSpanDepths, internal/format/runblock.go). */
module SpanDepths {
  import opened Basics

  /** Every buffered span id with its parent, when the parent is buffered too. */
  type Graph<!Id> = map<Id, Option<Id>>

  ghost predicate Closed<Id>(g: Graph<Id>) {
    forall x {:trigger g[x].value} :: x in g && g[x].Some? ==> g[x].value in g
  }

  /** The recursive closure `resolve`: the memo afterwards, and the result. */
  function Resolve<Id(==)>(g: Graph<Id>, memo: map<Id, nat>, id: Id, hops: nat): (map<Id, nat>, nat)
    requires Closed(g) && id in g && hops <= |g| + 1
    decreases |g| + 1 - hops
  {
    if id in memo then (memo, memo[id])
    else if hops > |g| || g[id].None? then (memo[id := 0], 0)
    else
      var (m, d) := Resolve(g, memo, g[id].value, hops + 1);
      (m[id := d + 1], d + 1)
  }

  /** The loop over the ids, in some order. */
  function ResolveAll<Id(==)>(g: Graph<Id>, memo: map<Id, nat>, order: seq<Id>): map<Id, nat>
    requires Closed(g) && forall x <- order :: x in g
    decreases |order|
  {
    if order == [] then memo
    else ResolveAll(g, Resolve(g, memo, order[0], 0).0, order[1..])
  }

  /** Following parents from `id` takes `k` steps to a memoised or parentless id. */
  predicate Reaches<Id(==)>(g: Graph<Id>, memo: map<Id, nat>, id: Id, k: nat)
    requires Closed(g) && id in g
  {
    if id in memo || g[id].None? then k == 0
    else k > 0 && Reaches(g, memo, g[id].value, k - 1)
  }

  /** The parent chain of `id` ends after `k` links. */
  predicate Chain<Id(==)>(g: Graph<Id>, id: Id, k: nat)
    requires Closed(g) && id in g
  {
    Reaches(g, map[], id, k)
  }

  /** The chain of an id is that of its parent and one link. */
  lemma ChainLink<Id>(g: Graph<Id>, id: Id, k: nat)
    requires Closed(g) && id in g
    ensures Chain(g, id, k) <==> if g[id].None? then k == 0 else k > 0 && Chain(g, g[id].value, k - 1)
  {}

  ghost predicate Acyclic<Id>(g: Graph<Id>, id: Id)
    requires Closed(g) && id in g
  {
    exists k: nat :: Chain(g, id, k)
  }

  /** Two graphs share the link of `id`, which stays inside, if its chain ends. */
  ghost predicate Shared<Id>(g: Graph<Id>, h: Graph<Id>, inside: set<Id>, id: Id)
    requires Closed(g) && inside <= g.Keys && inside <= h.Keys && id in inside
  {
    Acyclic(g, id) ==> h[id] == g[id] && (g[id].Some? ==> g[id].value in inside)
  }

  lemma {:induction false} SharedChain<Id>(g: Graph<Id>, h: Graph<Id>, inside: set<Id>, id: Id, k: nat)
    requires Closed(g) && Closed(h) && inside <= g.Keys && inside <= h.Keys && id in inside && Chain(g, id, k)
    requires forall x {:trigger Shared(g, h, inside, x)} :: x in inside ==> Shared(g, h, inside, x)
    ensures Chain(h, id, k)
    decreases k
  {
    assert Shared(g, h, inside, id);
    ChainLink(g, id, k);
    if k > 0 { SharedChain(g, h, inside, g[id].value, k - 1); }
    ChainLink(h, id, k);
  }

  /** Resolving `id` runs into the hop guard. */
  predicate GuardFires<Id(==)>(g: Graph<Id>, memo: map<Id, nat>, id: Id, hops: nat)
    requires Closed(g) && id in g && hops <= |g| + 1
    decreases |g| + 1 - hops
  {
    id !in memo && (hops > |g| || (g[id].Some? && GuardFires(g, memo, g[id].value, hops + 1)))
  }

  lemma {:induction false} ReachesUnique<Id>(g: Graph<Id>, memo: map<Id, nat>, id: Id, j: nat, k: nat)
    requires Closed(g) && id in g && Reaches(g, memo, id, j) && Reaches(g, memo, id, k)
    ensures j == k
  {
    if !(id in memo || g[id].None?) {
      ReachesUnique(g, memo, g[id].value, j - 1, k - 1);
    }
  }

  /** The ids visited on the way. */
  function Path<Id(==)>(g: Graph<Id>, memo: map<Id, nat>, id: Id, k: nat): set<Id>
    requires Closed(g) && id in g && Reaches(g, memo, id, k)
  {
    if k == 0 then {id} else {id} + Path(g, memo, g[id].value, k - 1)
  }

  ghost predicate Within<Id>(g: Graph<Id>, memo: map<Id, nat>, x: Id, k: nat)
    requires Closed(g)
  {
    x in g && exists j: nat :: j <= k && Reaches(g, memo, x, j)
  }

  /** Pigeonhole: the ids on a path that ends are distinct, so it is shorter than the graph. */
  lemma {:induction false} PathIsShort<Id>(g: Graph<Id>, memo: map<Id, nat>, id: Id, k: nat)
    requires Closed(g) && id in g && Reaches(g, memo, id, k)
    ensures forall x <- Path(g, memo, id, k) :: Within(g, memo, x, k)
    ensures |Path(g, memo, id, k)| == k + 1 <= |g|
  {
    var path := Path(g, memo, id, k);
    assert Within(g, memo, id, k);
    if k > 0 {
      var rest := Path(g, memo, g[id].value, k - 1);
      PathIsShort(g, memo, g[id].value, k - 1);
      if Within(g, memo, id, k - 1) {
        var j: nat :| j <= k - 1 && Reaches(g, memo, id, j);
        ReachesUnique(g, memo, id, j, k);
      }
      assert id !in rest;
      forall x <- rest ensures Within(g, memo, x, k) {
        assert Within(g, memo, x, k - 1);
      }
    }
    CardinalityOfSubset(path, g.Keys);
    assert |g.Keys| == |g|;
  }

  lemma {:induction false} CardinalityOfSubset<T>(a: set<T>, b: set<T>)
    requires a <= b
    ensures |a| <= |b|
  {
    if a != {} {
      var x :| x in a;
      CardinalityOfSubset(a - {x}, b - {x});
    }
  }

  /** What the end of the path contributes to the depth. */
  function Base<Id(==)>(g: Graph<Id>, memo: map<Id, nat>, id: Id, k: nat): nat
    requires Closed(g) && id in g && Reaches(g, memo, id, k)
  {
    if k > 0 then Base(g, memo, g[id].value, k - 1) else if id in memo then memo[id] else 0
  }

  /** `m` holds for `x` the distance to the end of its own path, at most `k`. */
  ghost predicate Placed<Id>(g: Graph<Id>, memo: map<Id, nat>, m: map<Id, nat>, x: Id, k: nat)
    requires Closed(g) && x in m
  {
    x in g && exists j: nat :: j <= k && Reaches(g, memo, x, j) && m[x] == Base(g, memo, x, j) + j
  }

  ghost predicate Filled<Id>(g: Graph<Id>, memo: map<Id, nat>, m: map<Id, nat>, k: nat)
    requires Closed(g)
  {
    && memo.Keys <= m.Keys <= g.Keys
    && (forall x <- memo :: m[x] == memo[x])
    && forall x <- m :: x !in memo ==> Placed(g, memo, m, x, k)
  }

  lemma {:induction false} ResolveOnPath<Id>(g: Graph<Id>, memo: map<Id, nat>, id: Id, hops: nat, k: nat)
    requires Closed(g) && id in g && memo.Keys <= g.Keys
    requires Reaches(g, memo, id, k) && hops + k <= |g|
    ensures var (m, d) := Resolve(g, memo, id, hops);
            Filled(g, memo, m, k) && id in m && m[id] == d == Base(g, memo, id, k) + k && |m| >= |memo| + k
    decreases k
  {
    if k == 0 {
      var (m, d) := Resolve(g, memo, id, hops);
      assert Placed(g, memo, m, id, 0);
    } else {
      var (m, d) := Resolve(g, memo, g[id].value, hops + 1);
      ResolveOnPath(g, memo, g[id].value, hops + 1, k - 1);
      OnePlace(g, memo, m, id, k, d + 1);
    }
  }

  /** One level of the recursion returning: `id` is new to the memo. */
  lemma OnePlace<Id>(g: Graph<Id>, memo: map<Id, nat>, m: map<Id, nat>, id: Id, k: nat, d: nat)
    requires Closed(g) && id in g && id !in memo && k > 0
    requires Filled(g, memo, m, k - 1) && Reaches(g, memo, id, k) && d == Base(g, memo, id, k) + k
    ensures id !in m && |m[id := d]| == |m| + 1 && Filled(g, memo, m[id := d], k)
  {
    if id in m {
      assert Placed(g, memo, m, id, k - 1);
      var j: nat :| j <= k - 1 && Reaches(g, memo, id, j);
      ReachesUnique(g, memo, id, j, k);
    }
    forall x <- m[id := d] | x !in memo ensures Placed(g, memo, m[id := d], x, k) {
      if x != id {
        assert Placed(g, memo, m, x, k - 1);
      }
    }
  }

  /** No path from `id` ends. */
  ghost predicate Endless<Id>(g: Graph<Id>, memo: map<Id, nat>, id: Id)
    requires Closed(g) && id in g
  {
    forall k: nat :: !Reaches(g, memo, id, k)
  }

  lemma ParentEndless<Id>(g: Graph<Id>, memo: map<Id, nat>, id: Id)
    requires Closed(g) && id in g && Endless(g, memo, id)
    ensures id !in memo && g[id].Some? && Endless(g, memo, g[id].value)
  {
    assert !Reaches(g, memo, id, 0);
    forall k: nat ensures !Reaches(g, memo, g[id].value, k) {
      assert !Reaches(g, memo, id, k + 1);
    }
  }

  /** What stands in the memo when the guard has stopped the recursion from `id`. */
  ghost predicate Stopped<Id>(g: Graph<Id>, memo: map<Id, nat>, m: map<Id, nat>, id: Id, d: int)
    requires Closed(g)
  {
    && memo.Keys <= m.Keys <= g.Keys && id in m && m[id] == d
    && (forall x <- memo :: m[x] == memo[x])
    && (forall x <- m :: x !in memo ==> Endless(g, memo, x))
    && (forall x <- m :: x !in memo && x != id ==> m[x] < d)
  }

  lemma StoppedBehind<Id>(g: Graph<Id>, memo: map<Id, nat>, m: map<Id, nat>, id: Id, d: nat)
    requires Closed(g) && id in g && Endless(g, memo, id) && id !in memo && g[id].Some? && Stopped(g, memo, m, g[id].value, d)
    ensures Stopped(g, memo, m[id := d + 1], id, d + 1)
  {}

  /** When no path ends, the guard stops the recursion and each level adds one. */
  lemma {:induction false} ResolveUnderGuard<Id>(g: Graph<Id>, memo: map<Id, nat>, id: Id, hops: nat)
    requires Closed(g) && id in g && memo.Keys <= g.Keys && hops <= |g| + 1 && Endless(g, memo, id)
    ensures var (m, d) := Resolve(g, memo, id, hops);
            Stopped(g, memo, m, id, |g| + 1 - hops) && d == |g| + 1 - hops && |m| > 0
    ensures GuardFires(g, memo, id, hops)
    decreases |g| + 1 - hops
  {
    ParentEndless(g, memo, id);
    if hops <= |g| {
      ResolveUnderGuard(g, memo, g[id].value, hops + 1);
      StoppedBehind(g, memo, Resolve(g, memo, g[id].value, hops + 1).0, id, |g| - hops);
    }
  }

  /** The memo after any number of top-level calls. */
  ghost predicate MemoInv<Id>(g: Graph<Id>, memo: map<Id, nat>)
    requires Closed(g)
  {
    && memo.Keys <= g.Keys
    && (forall x <- memo :: memo[x] <= |g| + |memo|)
    && (forall x <- memo, k: nat :: Chain(g, x, k) ==> memo[x] == k)
  }

  /** With an exact memo, a path that ends gives the length of the chain. */
  lemma {:induction false} PathIsExact<Id>(g: Graph<Id>, memo: map<Id, nat>, id: Id, j: nat, k: nat)
    requires Closed(g) && MemoInv(g, memo) && id in g && Reaches(g, memo, id, j) && Chain(g, id, k)
    ensures Base(g, memo, id, j) + j == k
  {
    if j > 0 {
      PathIsExact(g, memo, g[id].value, j - 1, k - 1);
    }
  }

  lemma {:induction false} BaseBound<Id>(g: Graph<Id>, memo: map<Id, nat>, id: Id, k: nat)
    requires Closed(g) && MemoInv(g, memo) && id in g && Reaches(g, memo, id, k)
    ensures Base(g, memo, id, k) <= |g| + |memo|
  {
    if k > 0 {
      BaseBound(g, memo, g[id].value, k - 1);
    }
  }

  /** A chain that ends also ends against any memo, no later. */
  lemma {:induction false} ChainReaches<Id>(g: Graph<Id>, memo: map<Id, nat>, id: Id, k: nat)
    requires Closed(g) && id in g && Chain(g, id, k)
    ensures exists j: nat :: j <= k && Reaches(g, memo, id, j)
  {
    if id in memo || g[id].None? {
      assert Reaches(g, memo, id, 0);
    } else {
      ChainReaches(g, memo, g[id].value, k - 1);
      var j: nat :| j <= k - 1 && Reaches(g, memo, g[id].value, j);
      assert Reaches(g, memo, id, j + 1);
    }
  }

  /** One top-level call keeps the invariant and enters `id`. */
  lemma ResolveKeepsInv<Id>(g: Graph<Id>, memo: map<Id, nat>, id: Id)
    requires Closed(g) && MemoInv(g, memo) && id in g
    ensures var m := Resolve(g, memo, id, 0).0;
            MemoInv(g, m) && memo.Keys <= m.Keys && id in m && forall x <- memo :: m[x] == memo[x]
  {
    var m := Resolve(g, memo, id, 0).0;
    if k: nat :| Reaches(g, memo, id, k) {
      PathIsShort(g, memo, id, k);
      ResolveOnPath(g, memo, id, 0, k);
      forall x <- m ensures m[x] <= |g| + |m| {
        if x !in memo {
          assert Placed(g, memo, m, x, k);
          var j: nat :| j <= k && Reaches(g, memo, x, j) && m[x] == Base(g, memo, x, j) + j;
          BaseBound(g, memo, x, j);
        }
      }
      forall x <- m, c: nat | Chain(g, x, c) ensures m[x] == c {
        if x !in memo {
          assert Placed(g, memo, m, x, k);
          var j: nat :| j <= k && Reaches(g, memo, x, j) && m[x] == Base(g, memo, x, j) + j;
          PathIsExact(g, memo, x, j, c);
        }
      }
    } else {
      ResolveUnderGuard(g, memo, id, 0);
      CardinalityOfSubset(memo.Keys, m.Keys);
      forall x <- m, c: nat | Chain(g, x, c) ensures m[x] == c {
        if x !in memo {
          ChainReaches(g, memo, x, c);
        }
      }
    }
  }

  lemma {:induction false} ResolveAllKeepsInv<Id>(g: Graph<Id>, memo: map<Id, nat>, order: seq<Id>)
    requires Closed(g) && MemoInv(g, memo) && forall x <- order :: x in g
    ensures var m := ResolveAll(g, memo, order);
            && MemoInv(g, m) && memo.Keys <= m.Keys && (forall x <- order :: x in m)
            && (forall x <- memo :: m[x] == memo[x])
    decreases |order|
  {
    if order != [] {
      ResolveKeepsInv(g, memo, order[0]);
      ResolveAllKeepsInv(g, Resolve(g, memo, order[0], 0).0, order[1..]);
    }
  }

  /** Whatever the graph and the order, cycles and self-parents included, every
      depth is at most twice the number of spans. */
  lemma DepthBound<Id>(g: Graph<Id>, order: seq<Id>)
    requires Closed(g) && forall x <- order :: x in g
    ensures forall x <- ResolveAll(g, map[], order) :: ResolveAll(g, map[], order)[x] <= 2 * |g|
  {
    ResolveAllKeepsInv(g, map[], order);
    CardinalityOfSubset(ResolveAll(g, map[], order).Keys, g.Keys);
    assert |g.Keys| == |g|;
  }

  /** A span whose parent chain ends gets the length of that chain, in every
      order and whatever the rest of the graph looks like. */
  lemma DepthExact<Id>(g: Graph<Id>, order: seq<Id>, id: Id, k: nat)
    requires Closed(g) && id in g && Chain(g, id, k)
    requires (forall x <- order :: x in g) && id in order
    ensures id in ResolveAll(g, map[], order) && ResolveAll(g, map[], order)[id] == k < |g|
  {
    ResolveAllKeepsInv(g, map[], order);
    PathIsShort(g, map[], id, k);
  }

  lemma {:induction false} GuardMeansEndless<Id>(g: Graph<Id>, memo: map<Id, nat>, id: Id, hops: nat, k: nat)
    requires Closed(g) && id in g && hops + k <= |g| && Reaches(g, memo, id, k)
    ensures !GuardFires(g, memo, id, hops)
    decreases k
  {
    if k > 0 {
      GuardMeansEndless(g, memo, g[id].value, hops + 1, k - 1);
    }
  }

  /** The hop guard fires on a fresh memo exactly for the spans whose parent
      chain never ends; on a partly filled memo it fires for no other span. */
  lemma GuardFiresIffCyclic<Id>(g: Graph<Id>, memo: map<Id, nat>, id: Id)
    requires Closed(g) && id in g && memo.Keys <= g.Keys
    ensures GuardFires(g, map[], id, 0) <==> !Acyclic(g, id)
    ensures GuardFires(g, memo, id, 0) ==> !Acyclic(g, id)
  {
    if k: nat :| Chain(g, id, k) {
      PathIsShort(g, map[], id, k);
      GuardMeansEndless(g, map[], id, 0, k);
      ChainReaches(g, memo, id, k);
      var j: nat :| j <= k && Reaches(g, memo, id, j);
      GuardMeansEndless(g, memo, id, 0, j);
    } else {
      forall k: nat ensures !Reaches(g, map[], id, k) {
        assert !Chain(g, id, k);
      }
      ResolveUnderGuard(g, map[], id, 0);
    }
  }

  // ---- Where the depth exceeds the number of spans ----

  /** Every id once. */
  ghost predicate Visits<Id>(g: Graph<Id>, order: seq<Id>) {
    |order| == |g| && (forall x <- order :: x in g) && (forall x <- g :: x in order)
  }

  ghost predicate OnlyAcyclic<Id>(g: Graph<Id>, memo: map<Id, nat>)
    requires Closed(g)
  {
    forall x <- memo :: x in g && Acyclic(g, x)
  }

  /** A path that ends, at the root or at an id whose chain ends. */
  lemma {:induction false} EndsAcyclic<Id>(g: Graph<Id>, memo: map<Id, nat>, id: Id, k: nat)
    requires Closed(g) && OnlyAcyclic(g, memo) && id in g && Reaches(g, memo, id, k)
    ensures Acyclic(g, id)
  {
    if id in memo {
    } else if g[id].None? {
      assert Chain(g, id, 0);
    } else {
      EndsAcyclic(g, memo, g[id].value, k - 1);
      var j: nat :| Chain(g, g[id].value, j);
      assert Chain(g, id, j + 1);
    }
  }

  lemma ResolveStaysAcyclic<Id>(g: Graph<Id>, memo: map<Id, nat>, id: Id)
    requires Closed(g) && OnlyAcyclic(g, memo) && id in g && Acyclic(g, id)
    ensures OnlyAcyclic(g, Resolve(g, memo, id, 0).0)
  {
    var c: nat :| Chain(g, id, c);
    ChainReaches(g, memo, id, c);
    var k: nat :| Reaches(g, memo, id, k);
    PathIsShort(g, memo, id, k);
    ResolveOnPath(g, memo, id, 0, k);
    var m := Resolve(g, memo, id, 0).0;
    forall x <- m ensures x in g && Acyclic(g, x) {
      if x !in memo {
        assert Placed(g, memo, m, x, k);
        var j: nat :| Reaches(g, memo, x, j);
        EndsAcyclic(g, memo, x, j);
      }
    }
  }

  /** The first span without an end to its chain gets one more than there are spans. */
  lemma {:induction false} FirstEndless<Id>(g: Graph<Id>, memo: map<Id, nat>, order: seq<Id>) returns (id: Id)
    requires Closed(g) && MemoInv(g, memo) && OnlyAcyclic(g, memo)
    requires (forall x <- order :: x in g) && exists x <- order :: !Acyclic(g, x)
    ensures var m := ResolveAll(g, memo, order); id in m && m[id] == |g| + 1
    decreases |order|
  {
    id := order[0];
    var m := Resolve(g, memo, id, 0).0;
    ResolveKeepsInv(g, memo, id);
    if Acyclic(g, id) {
      ResolveStaysAcyclic(g, memo, id);
      assert forall x <- order :: x == order[0] || x in order[1..];
      id := FirstEndless(g, m, order[1..]);
    } else {
      forall k: nat ensures !Reaches(g, memo, id, k) {
        if Reaches(g, memo, id, k) { EndsAcyclic(g, memo, id, k); }
      }
      assert Endless(g, memo, id);
      ResolveUnderGuard(g, memo, id, 0);
      ResolveAllKeepsInv(g, m, order[1..]);
    }
  }

  /** No depth exceeds the number of spans, as the comment has it, if and only if every
      parent chain ends. */
  lemma DepthsCappedIff<Id>(g: Graph<Id>, order: seq<Id>)
    requires Closed(g) && Visits(g, order)
    ensures (forall x <- ResolveAll(g, map[], order) :: ResolveAll(g, map[], order)[x] <= |g|) <==> (forall x <- g :: Acyclic(g, x))
  {
    ResolveAllKeepsInv(g, map[], order);
    if forall x <- g :: Acyclic(g, x) {
      forall x <- ResolveAll(g, map[], order) ensures ResolveAll(g, map[], order)[x] <= |g| {
        var k: nat :| Chain(g, x, k);
        DepthExact(g, order, x, k);
      }
    } else {
      var id := FirstEndless(g, map[], order);
    }
  }

  // ---- A self-parent and spans in line behind it ----

  /** A span that is its own parent runs into the guard by itself. */
  lemma {:induction false} SelfParentResolves<Id>(g: Graph<Id>, memo: map<Id, nat>, id: Id, hops: nat)
    requires Closed(g) && id in g && g[id] == Some(id) && id !in memo && hops <= |g| + 1
    ensures Resolve(g, memo, id, hops) == (memo[id := |g| + 1 - hops], |g| + 1 - hops)
    decreases |g| + 1 - hops
  {
    if hops <= |g| {
      SelfParentResolves(g, memo, id, hops + 1);
      assert memo[id := |g| - hops][id := |g| + 1 - hops] == memo[id := |g| + 1 - hops];
    }
  }

  /** The first of these is its own parent, every other is a child of the one before it. */
  ghost predicate InLine<Id>(g: Graph<Id>, names: seq<Id>) {
    && Closed(g) && |g| == |names| && names != []
    && (forall i, j :: 0 <= i < j < |names| ==> names[i] != names[j])
    && (forall i :: 0 <= i < |names| ==> Behind(g, names, i))
  }

  predicate Behind<Id(==)>(g: Graph<Id>, names: seq<Id>, i: nat)
    requires i < |names|
  {
    names[i] in g && g[names[i]] == Some(names[if i == 0 then 0 else i - 1])
  }

  lemma LineStep<Id>(g: Graph<Id>, names: seq<Id>, i: nat, memo: map<Id, nat>)
    requires InLine(g, names) && 0 < i < |names| && Behind(g, names, i) && names[i] !in memo
    requires names[i - 1] in memo && memo[names[i - 1]] == |names| + i
    ensures Resolve(g, memo, names[i], 0) == (memo[names[i] := |names| + i + 1], |names| + i + 1)
  {
    assert Behind(g, names, i) && Behind(g, names, i - 1);
    assert Resolve(g, memo, names[i - 1], 1) == (memo, |names| + i);
  }

  /** The memo holds exactly the first `i`. */
  ghost predicate HoldsFirst<Id>(names: seq<Id>, memo: map<Id, nat>, i: nat) {
    forall j {:trigger names[j]} :: 0 <= j < |names| ==> (names[j] in memo <==> j < i)
  }

  lemma {:induction false} LineResolves<Id>(g: Graph<Id>, names: seq<Id>, i: nat, memo: map<Id, nat>)
    requires InLine(g, names) && 0 < i <= |names| && HoldsFirst(names, memo, i)
    requires names[i - 1] in memo && memo[names[i - 1]] == |names| + i
    requires forall x <- names[i..] :: x in g
    ensures var m := ResolveAll(g, memo, names[i..]); var last := names[|names| - 1]; last in m && m[last] == 2 * |names|
    decreases |names| - i
  {
    if i < |names| {
      assert Behind(g, names, i);
      LineStep(g, names, i, memo);
      assert names[i..][0] == names[i] && names[i..][1..] == names[i + 1..];
      LineResolves(g, names, i + 1, memo[names[i] := |names| + i + 1]);
    }
  }

  /** Visited in line, the last of n spans gets a depth of 2n: the bound is met. */
  lemma BoundAttained<Id>(g: Graph<Id>, names: seq<Id>)
    requires InLine(g, names)
    ensures forall x <- names :: x in g
    ensures var m := ResolveAll(g, map[], names); var last := names[|names| - 1]; last in m && m[last] == 2 * |names|
  {
    assert Behind(g, names, 0);
    forall x <- names ensures x in g {
      var i :| 0 <= i < |names| && names[i] == x;
      assert Behind(g, names, i);
    }
    SelfParentResolves(g, map[], names[0], 0);
    var memo := map[names[0] := |g| + 1];
    assert Resolve(g, map[], names[0], 0).0 == memo;
    LineResolves(g, names, 1, memo);
  }

  // ---- Where the order of the map shows ----

  lemma {:induction false} AnyOrder<Id>(ids: set<Id>) returns (order: seq<Id>)
    ensures |order| == |ids| && forall x :: x in order <==> x in ids
  {
    if ids == {} {
      order := [];
    } else {
      var x :| x in ids;
      var rest := AnyOrder(ids - {x});
      order := [x] + rest;
    }
  }

  ghost predicate OrderHidden<Id(!new)>(g: Graph<Id>)
    requires Closed(g)
  {
    forall a: seq<Id>, b: seq<Id> {:trigger Visits(g, a), Visits(g, b)} ::
      Visits(g, a) && Visits(g, b) ==> ResolveAll(g, map[], a) == ResolveAll(g, map[], b)
  }

  /** Every self-parent seen so far has one more than there are spans. */
  ghost predicate SelfParentsKnown<Id>(g: Graph<Id>, memo: map<Id, nat>) {
    forall x <- memo :: x in g && (g[x] == Some(x) ==> memo[x] == |g| + 1)
  }

  lemma {:induction false} SelfParentIsEndless<Id>(g: Graph<Id>, memo: map<Id, nat>, id: Id, k: nat)
    requires Closed(g) && id in g && g[id] == Some(id) && id !in memo
    ensures !Reaches(g, memo, id, k)
  {
    if k > 0 { SelfParentIsEndless(g, memo, id, k - 1); }
  }

  lemma ResolveKnowsSelfParents<Id>(g: Graph<Id>, memo: map<Id, nat>, id: Id)
    requires Closed(g) && SelfParentsKnown(g, memo) && memo.Keys <= g.Keys && id in g && (Acyclic(g, id) || g[id] == Some(id))
    ensures SelfParentsKnown(g, Resolve(g, memo, id, 0).0)
  {
    var m := Resolve(g, memo, id, 0).0;
    if g[id] == Some(id) {
      if id !in memo { SelfParentResolves(g, memo, id, 0); }
    } else {
      var c: nat :| Chain(g, id, c);
      ChainReaches(g, memo, id, c);
      var k: nat :| Reaches(g, memo, id, k);
      PathIsShort(g, memo, id, k);
      ResolveOnPath(g, memo, id, 0, k);
      forall x <- m | x !in memo ensures x in g && g[x] != Some(x) {
        assert Placed(g, memo, m, x, k);
        var j: nat :| Reaches(g, memo, x, j);
        if g[x] == Some(x) { SelfParentIsEndless(g, memo, x, j); }
      }
    }
  }

  lemma {:induction false} AllKnowSelfParents<Id>(g: Graph<Id>, memo: map<Id, nat>, order: seq<Id>)
    requires Closed(g) && MemoInv(g, memo) && SelfParentsKnown(g, memo)
    requires forall x <- order :: x in g && (Acyclic(g, x) || g[x] == Some(x))
    ensures SelfParentsKnown(g, ResolveAll(g, memo, order))
    decreases |order|
  {
    if order != [] {
      ResolveKnowsSelfParents(g, memo, order[0]);
      ResolveKeepsInv(g, memo, order[0]);
      AllKnowSelfParents(g, Resolve(g, memo, order[0], 0).0, order[1..]);
    }
  }

  lemma DepthsAre<Id>(g: Graph<Id>, order: seq<Id>)
    requires Closed(g) && Visits(g, order) && forall x <- g :: Acyclic(g, x) || g[x] == Some(x)
    ensures var m := ResolveAll(g, map[], order);
            && m.Keys == g.Keys
            && (forall x <- g, k: nat :: Chain(g, x, k) ==> m[x] == k)
            && (forall x <- g :: g[x] == Some(x) ==> m[x] == |g| + 1)
  {
    ResolveAllKeepsInv(g, map[], order);
    AllKnowSelfParents(g, map[], order);
  }

  /** With nothing behind a loop every depth is the same in every order. */
  lemma SameInEveryOrder<Id>(g: Graph<Id>, a: seq<Id>, b: seq<Id>)
    requires Closed(g) && Visits(g, a) && Visits(g, b) && forall x <- g :: Acyclic(g, x) || g[x] == Some(x)
    ensures ResolveAll(g, map[], a) == ResolveAll(g, map[], b)
  {
    var m, n := ResolveAll(g, map[], a), ResolveAll(g, map[], b);
    DepthsAre(g, a);
    DepthsAre(g, b);
    forall x <- g ensures m[x] == n[x] {
      if k: nat :| Chain(g, x, k) {}
    }
    assert m.Keys == g.Keys == n.Keys;
  }

  /** An endless span of which the parent is another: visited first it gets one more than
      there are spans, visited behind its parent it does not. */
  lemma DifferentOrders<Id>(g: Graph<Id>, x: Id) returns (a: seq<Id>, b: seq<Id>)
    requires Closed(g) && x in g && !Acyclic(g, x) && g[x] != Some(x)
    ensures Visits(g, a) && Visits(g, b) && ResolveAll(g, map[], a) != ResolveAll(g, map[], b)
  {
    forall k: nat ensures !Reaches(g, map[], x, k) {
      assert !Chain(g, x, k);
    }
    ParentEndless(g, map[], x);
    var y := g[x].value;
    var rest := AnyOrder(g.Keys - {x});
    a := [x] + rest;
    var others := AnyOrder(g.Keys - {x, y});
    b := [y, x] + others;
    assert |g.Keys - {x}| == |g| - 1 && |g.Keys - {x, y}| == |g| - 2;
    FirstGets(g, x, a);
    SecondGets(g, x, y, b);
  }

  lemma FirstGets<Id>(g: Graph<Id>, x: Id, order: seq<Id>)
    requires Closed(g) && x in g && Endless(g, map[], x)
    requires order != [] && order[0] == x && forall z <- order :: z in g
    ensures var m := ResolveAll(g, map[], order); x in m && m[x] == |g| + 1
  {
    ResolveUnderGuard(g, map[], x, 0);
    ResolveKeepsInv(g, map[], x);
    ResolveAllKeepsInv(g, Resolve(g, map[], x, 0).0, order[1..]);
  }

  lemma SecondResolves<Id>(g: Graph<Id>, memo: map<Id, nat>, x: Id, y: Id)
    requires Closed(g) && x in g && g[x] == Some(y) && y in memo && memo[y] == |g| + 1 && (x in memo ==> memo[x] <= |g|)
    ensures var (m, d) := Resolve(g, memo, x, 0); x in m && m[x] == d != |g| + 1
  {
    assert x !in memo ==> Resolve(g, memo, y, 1) == (memo, |g| + 1);
  }

  lemma SecondGets<Id>(g: Graph<Id>, x: Id, y: Id, order: seq<Id>)
    requires Closed(g) && x in g && g[x] == Some(y) && y != x && Endless(g, map[], y)
    requires |order| >= 2 && order[0] == y && order[1] == x && forall z <- order :: z in g
    ensures var m := ResolveAll(g, map[], order); x in m && m[x] != |g| + 1
  {
    ResolveUnderGuard(g, map[], y, 0);
    ResolveKeepsInv(g, map[], y);
    var m1 := Resolve(g, map[], y, 0).0;
    ResolveKeepsInv(g, m1, x);
    var m2 := Resolve(g, m1, x, 0).0;
    SecondResolves(g, m1, x, y);
    assert order[1..][0] == x && order[1..][1..] == order[2..];
    ResolveAllKeepsInv(g, m2, order[2..]);
    assert ResolveAll(g, map[], order) == ResolveAll(g, m1, order[1..]) == ResolveAll(g, m2, order[2..]);
  }

  /** The order in which the map is visited shows in no depth if and only if every parent
      chain ends or belongs to a span that is its own parent. */
  lemma OrderHiddenIff<Id(!new)>(g: Graph<Id>)
    requires Closed(g)
    ensures OrderHidden(g) <==> forall x <- g :: Acyclic(g, x) || g[x] == Some(x)
  {
    if forall x <- g :: Acyclic(g, x) || g[x] == Some(x) {
      forall a: seq<Id>, b: seq<Id> | Visits(g, a) && Visits(g, b) ensures ResolveAll(g, map[], a) == ResolveAll(g, map[], b) {
        SameInEveryOrder(g, a, b);
      }
    } else {
      var x :| x in g && !Acyclic(g, x) && g[x] != Some(x);
      var a, b := DifferentOrders(g, x);
    }
  }
}
