/** Axes that the attributes name: the code uses them, the launcher does not. */
module ExplicitAxes {
  import opened LoopLang
  import opened LoopHeader
  import opened LoopTree
  import opened KernelUtils
  import opened CudaNest
  import opened GridCoverage
  import opened Launcher
  import opened GridLevels
  import opened AnyGrid
  import opened SemaCtx
  import opened SemaRun
  import opened PassedAxes

  // ----- code with given axes -----

  /** One axis for each type of each loop. */
  predicate AxesFor(infos: seq<Info>, axes: seq<seq<nat>>) {
    |axes| == |infos| && forall k :: 0 <= k < |infos| ==> TypesOk(infos[k].types) && |axes[k]| == |infos[k].types|
  }

  function AxedChain(infos: seq<Info>, axes: seq<seq<nat>>): Stmt
    requires AxesFor(infos, axes)
  {
    if infos == [] then Body(0) else CudaLoop(infos[0], axes[0], AxedChain(infos[1..], axes[1..]))
  }

  function AxedTrace(infos: seq<Info>, axes: seq<seq<nat>>, c: Ctx): seq<seq<int>>
    requires ChainOk(infos, c) && AxesFor(infos, axes)
  {
    if infos == [] then [[]] else Cross(ThreadPositions(infos[0], axes[0], c), AxedTrace(infos[1..], axes[1..], c))
  }

  lemma {:induction false} AxedFree(infos: seq<Info>, axes: seq<seq<nat>>, x: VarName, c: Ctx)
    requires ChainOk(infos, c) && AxesFor(infos, axes)
    ensures !Free(AxedChain(infos, axes), x)
  {
    if infos != [] {
      AxedFree(infos[1..], axes[1..], x, c);
      ClosedEval(infos[0].head.start, map[], c);
      ClosedEval(infos[0].head.end, map[], c);
      ClosedEval(StepOf(infos[0].head), map[], c);
      ClosedEval(infos[0].size, map[], c);
      CudaLoopFree(infos[0], axes[0], AxedChain(infos[1..], axes[1..]), x);
    }
  }

  lemma {:induction false} AxedMeaning(infos: seq<Info>, axes: seq<seq<nat>>, env: Env, c: Ctx)
    requires ChainOk(infos, c) && AxesFor(infos, axes)
    ensures Exec(AxedChain(infos, axes), env, c) == Ran(HitsOf(infos, AxedTrace(infos, axes, c), c))
    decreases |infos|
  {
    if infos == [] {
      assert HitsOf(infos, [[]], c) == [Hit(0, [])];
    } else {
      var rest := AxedChain(infos[1..], axes[1..]);
      AxedFree(infos[1..], axes[1..], Tiled(infos[0].head.name), c);
      WholeLoopMeaning(infos[0], axes[0], rest, env, c);
      forall e ensures Exec(rest, e, c) == Ran(HitsOf(infos[1..], AxedTrace(infos[1..], axes[1..], c), c)) {
        AxedMeaning(infos[1..], axes[1..], e, c);
      }
      EachCross(infos, ThreadPositions(infos[0], axes[0], c), AxedTrace(infos[1..], axes[1..], c), rest, env, c);
    }
  }

  // ----- a thread seen through the axes -----

  /** The axis numbers of one loop, where the coordinates of its iteration would stand. */
  function OwnAxesIn(types: seq<LoopType>, axes: seq<nat>): (r: (seq<int>, seq<int>))
    requires TypesOk(types) && |axes| == |types|
    ensures |r.0| == Count(types, Outer) && |r.1| == Count(types, Inner)
  {
    OwnSizes(types, Outer);
    OwnSizes(types, Inner);
    if IsRegular(types) then ([], [])
    else if |types| == 1 || types[1] == Regular then Placed(types[0], axes[0])
    else Both(Placed(types[1], axes[1]), Placed(types[0], axes[0]))
  }

  /** The axis that the code uses for each axis that it would use by itself. */
  function AxesUsed(infos: seq<Info>, axes: seq<seq<nat>>): (r: (seq<int>, seq<int>))
    requires AxesFor(infos, axes)
    ensures HasRank(r, infos)
  {
    if infos == [] then ([], []) else Both(AxesUsed(infos[1..], axes[1..]), OwnAxesIn(infos[0].types, axes[0]))
  }

  /** The values on the used axes; an axis that is not there has the given value. */
  function Through(used: seq<int>, g: seq<int>, v: int): (r: seq<int>)
    ensures |r| == |used| && forall h :: 0 <= h < |r| ==> r[h] == if 0 <= used[h] < |g| then g[used[h]] else v
  {
    seq(|used|, h requires 0 <= h < |used| => if 0 <= used[h] < |g| then g[used[h]] else v)
  }

  /** The thread that runs by its own axes what this one runs by the given ones. */
  function Seen(used: (seq<int>, seq<int>), g: (seq<int>, seq<int>), v: int): (seq<int>, seq<int>) {
    (Through(used.0, g.0, v), Through(used.1, g.1, v))
  }

  lemma {:induction false} SeenParts(a: (seq<int>, seq<int>), b: (seq<int>, seq<int>), g: (seq<int>, seq<int>), v: int)
    ensures Seen(Both(a, b), g, v) == Both(Seen(a, g, v), Seen(b, g, v))
  {
    assert Through(a.0 + b.0, g.0, v) == Through(a.0, g.0, v) + Through(b.0, g.0, v);
    assert Through(a.1 + b.1, g.1, v) == Through(a.1, g.1, v) + Through(b.1, g.1, v);
  }

  lemma {:induction false} SeenPlaced(kind: LoopType, axis: nat, c: Ctx)
    requires kind != Regular
    ensures Seen(Placed(kind, axis), (c.outer, c.inner), 0) == Placed(kind, Coord(kind, axis, c))
  {
    var r := Seen(Placed(kind, axis), (c.outer, c.inner), 0);
    assert r.0 == Placed(kind, Coord(kind, axis, c)).0;
    assert r.1 == Placed(kind, Coord(kind, axis, c)).1;
  }

  /** One loop runs the same positions. */
  lemma {:induction false} SameHead(info: Info, axes: seq<nat>, c: Ctx, heights: seq<nat>, d: Ctx)
    requires LoopOk(info, c) && LoopOk(info, d) && c.args == d.args && |axes| == |heights| == |info.types|
    requires OwnIs(info.types, heights, Seen(OwnAxesIn(info.types, axes), (c.outer, c.inner), 0), d)
    ensures ThreadPositions(info, axes, c) == ThreadPositions(info, heights, d)
  {
    assert Host(c) == Host(d);
    var types := info.types;
    if !IsRegular(types) {
      assert types[0] != Regular;
      SeenPlaced(types[0], axes[0], c);
      if |types| == 1 || types[1] == Regular {
        PlacedSame(types[0], Coord(types[0], axes[0], c), Coord(types[0], heights[0], d));
      } else {
        SeenPlaced(types[1], axes[1], c);
        SeenParts(Placed(types[1], axes[1]), Placed(types[0], axes[0]), (c.outer, c.inner), 0);
        PairedSame(types[1], types[0], Coord(types[1], axes[1], c), Coord(types[1], heights[1], d),
                   Coord(types[0], axes[0], c), Coord(types[0], heights[0], d));
      }
    }
  }

  /** The code with given axes runs on one thread what the code by itself runs on the thread seen. */
  lemma {:induction false} SameTrace(infos: seq<Info>, axes: seq<seq<nat>>, c: Ctx)
    requires ChainOk(infos, c) && AxesFor(infos, axes)
    ensures var g := Seen(AxesUsed(infos, axes), (c.outer, c.inner), 0);
            var d := Ctx(c.args, g.0, g.1);
            ChainOk(infos, d) && AxedTrace(infos, axes, c) == ThreadTrace(infos, d)
    decreases |infos|
  {
    var used := AxesUsed(infos, axes);
    var g := Seen(used, (c.outer, c.inner), 0);
    var d := Ctx(c.args, g.0, g.1);
    SameHost(infos, c, d);
    if infos != [] {
      var rest, own := AxesUsed(infos[1..], axes[1..]), OwnAxesIn(infos[0].types, axes[0]);
      var r, o := Seen(rest, (c.outer, c.inner), 0), Seen(own, (c.outer, c.inner), 0);
      SeenParts(rest, own, (c.outer, c.inner), 0);
      SameTrace(infos[1..], axes[1..], c);
      AgreeOnAxes(infos[1..], Ctx(c.args, r.0, r.1), d);
      HeadAxes(infos);
      OwnAxes(infos, r.0, r.1, o, d);
      SameHead(infos[0], axes[0], c, AxisHeights(ToTree(infos)), d);
    }
  }

  lemma {:induction false} SeenHits(infos: seq<Info>, axes: seq<seq<nat>>, env: Env, c: Ctx, g: (seq<int>, seq<int>))
    requires ChainOk(infos, c) && AxesFor(infos, axes)
    ensures HitsOfThread(AxedChain(infos, axes), env, c, g)
            == HitsOfThread(CudaChain(infos), env, c, Seen(AxesUsed(infos, axes), g, 0))
  {
    var d, h := Ctx(c.args, g.0, g.1), Seen(AxesUsed(infos, axes), g, 0);
    var d' := Ctx(c.args, h.0, h.1);
    SameHost(infos, c, d);
    SameTrace(infos, axes, d);
    AxedMeaning(infos, axes, env, d);
    ThreadMeaning(infos, env, d');
    SameHits(infos, AxedTrace(infos, axes, d), d, d');
  }

  // ----- axes that are a rearrangement -----

  /** Every axis number below the length occurs, so each does once. */
  predicate Rearranges(used: seq<int>) {
    forall h :: 0 <= h < |used| ==> h in used
  }

  predicate Rearranged(infos: seq<Info>, axes: seq<seq<nat>>)
    requires AxesFor(infos, axes)
  {
    Rearranges(AxesUsed(infos, axes).0) && Rearranges(AxesUsed(infos, axes).1)
  }

  lemma {:induction false} OneOfEach(used: seq<int>, n: nat)
    requires |used| == n && forall h :: 0 <= h < n ==> h in used
    ensures forall k :: 0 <= k < n ==> 0 <= used[k] < n
    ensures forall j, k :: 0 <= j < k < n ==> used[j] != used[k]
  {
    if n > 0 {
      assert n - 1 in used;
      var i: nat := IndexOf(used, n - 1);
      var rest := used[..i] + used[i + 1..];
      forall h | 0 <= h < n - 1 ensures h in rest {
        assert h in used;
        var k := IndexOf(used, h);
        assert rest[if k < i then k else k - 1] == h;
      }
      OneOfEach(rest, n - 1);
      forall k | 0 <= k < n && k != i ensures 0 <= used[k] < n - 1 {
        assert rest[if k < i then k else k - 1] == used[k];
      }
      forall j, k | 0 <= j < k < n ensures used[j] != used[k] {
        if j != i && k != i {
          assert rest[if j < i then j else j - 1] == used[j] && rest[if k < i then k else k - 1] == used[k];
        }
      }
    }
  }

  /** The coordinates that are seen as these. */
  function Back(used: seq<int>, h: seq<int>): (g: seq<int>)
    requires |h| == |used| && Rearranges(used)
    ensures |g| == |used| && Through(used, g, 0) == h
  {
    OneOfEach(used, |used|);
    var g := seq(|used|, a requires 0 <= a < |used| => assert a in used; h[IndexOf(used, a)]);
    assert forall k :: 0 <= k < |used| ==> IndexOf(used, used[k]) == k;
    assert Through(used, g, 0) == h;
    g
  }

  function IndexOf(used: seq<int>, a: int): (k: nat)
    requires a in used
    ensures k < |used| && used[k] == a
  {
    if used[0] == a then 0 else 1 + IndexOf(used[1..], a)
  }

  lemma {:induction false} ThroughBelow(used: seq<int>, g: seq<int>, grid: seq<int>)
    requires |g| == |grid| == |used| && Rearranges(used)
    ensures GridCoverage.Below(g, grid) <==> GridCoverage.Below(Through(used, g, 0), Through(used, grid, 1))
  {
    OneOfEach(used, |used|);
    var a, b := Through(used, g, 0), Through(used, grid, 1);
    if GridCoverage.Below(a, b) {
      forall h | 0 <= h < |g| ensures 0 <= g[h] < grid[h] {
        assert h in used;
        var k := IndexOf(used, h);
        assert 0 <= a[k] < b[k];
      }
    }
  }

  lemma {:induction false} ThroughOne(used: seq<int>, g: seq<int>, h: seq<int>)
    requires |g| == |h| == |used| && Rearranges(used) && Through(used, g, 0) == Through(used, h, 0)
    ensures g == h
  {
    forall a | 0 <= a < |g| ensures g[a] == h[a] {
      assert a in used;
      var k := IndexOf(used, a);
      assert Through(used, g, 0)[k] == Through(used, h, 0)[k];
    }
  }

  /** Rearranged axes run over a grid what the code by itself runs over the grid with its extents so rearranged. */
  lemma {:induction false} RearrangedGrid(infos: seq<Info>, axes: seq<seq<nat>>, env: Env, c: Ctx,
                                          grid: (seq<int>, seq<int>))
    requires ChainOk(infos, c) && AxesFor(infos, axes) && HasRank(grid, infos) && Rearranged(infos, axes)
    ensures CodeRunsOnce(AxedChain(infos, axes), infos, env, c, grid)
            <==> RunsOnce(infos, env, c, Seen(AxesUsed(infos, axes), grid, 1))
  {
    var code, plain, seen := AxedChain(infos, axes), CudaChain(infos), Seen(AxesUsed(infos, axes), grid, 1);
    forall hit
      ensures RunAtMostOnce(code, env, c, grid, hit) <==> RunAtMostOnce(plain, env, c, seen, hit)
      ensures RunBySome(code, env, c, grid, hit) <==> RunBySome(plain, env, c, seen, hit)
    {
      RearrangedHit(infos, axes, env, c, grid, hit);
    }
    SameOnce(code, plain, infos, env, c, grid, seen);
  }

  lemma {:induction false} SameOnce(a: Stmt, b: Stmt, infos: seq<Info>, env: Env, c: Ctx, grid: (seq<int>, seq<int>),
                                    seen: (seq<int>, seq<int>))
    requires forall hit :: RunAtMostOnce(a, env, c, grid, hit) <==> RunAtMostOnce(b, env, c, seen, hit)
    requires forall hit :: RunBySome(a, env, c, grid, hit) <==> RunBySome(b, env, c, seen, hit)
    ensures CodeRunsOnce(a, infos, env, c, grid) <==> CodeRunsOnce(b, infos, env, c, seen)
  {
  }

  /** The thread seen is one of the rearranged grid and runs the same. */
  predicate SeenThread(infos: seq<Info>, axes: seq<seq<nat>>, env: Env, c: Ctx, g: (seq<int>, seq<int>),
                       grid: (seq<int>, seq<int>))
    requires ChainOk(infos, c) && AxesFor(infos, axes)
  {
    var used := AxesUsed(infos, axes);
    HasRank(g, infos) && InGrid(Seen(used, g, 0), Seen(used, grid, 1))
    && HitsOfThread(AxedChain(infos, axes), env, c, g) == HitsOfThread(CudaChain(infos), env, c, Seen(used, g, 0))
  }

  lemma {:induction false} SeenInGrid(infos: seq<Info>, axes: seq<seq<nat>>, env: Env, c: Ctx,
                                      g: (seq<int>, seq<int>), grid: (seq<int>, seq<int>))
    requires ChainOk(infos, c) && AxesFor(infos, axes) && HasRank(grid, infos) && Rearranged(infos, axes)
    requires InGrid(g, grid)
    ensures SeenThread(infos, axes, env, c, g, grid)
  {
    var used := AxesUsed(infos, axes);
    ThroughBelow(used.0, g.0, grid.0);
    ThroughBelow(used.1, g.1, grid.1);
    SeenHits(infos, axes, env, c, g);
  }

  lemma {:induction false} SeenBack(infos: seq<Info>, axes: seq<seq<nat>>, h: (seq<int>, seq<int>),
                                    grid: (seq<int>, seq<int>)) returns (g: (seq<int>, seq<int>))
    requires AxesFor(infos, axes) && HasRank(grid, infos) && Rearranged(infos, axes)
    requires InGrid(h, Seen(AxesUsed(infos, axes), grid, 1))
    ensures InGrid(g, grid) && Seen(AxesUsed(infos, axes), g, 0) == h
  {
    var used := AxesUsed(infos, axes);
    g := (Back(used.0, h.0), Back(used.1, h.1));
    ThroughBelow(used.0, g.0, grid.0);
    ThroughBelow(used.1, g.1, grid.1);
  }

  lemma {:induction false} RearrangedHit(infos: seq<Info>, axes: seq<seq<nat>>, env: Env, c: Ctx,
                                         grid: (seq<int>, seq<int>), hit: Hit)
    requires ChainOk(infos, c) && AxesFor(infos, axes) && HasRank(grid, infos) && Rearranged(infos, axes)
    ensures var code, seen := AxedChain(infos, axes), Seen(AxesUsed(infos, axes), grid, 1);
            && (RunAtMostOnce(code, env, c, grid, hit) <==> RunAtMostOnce(CudaChain(infos), env, c, seen, hit))
            && (RunBySome(code, env, c, grid, hit) <==> RunBySome(CudaChain(infos), env, c, seen, hit))
  {
    var code, seen := AxedChain(infos, axes), Seen(AxesUsed(infos, axes), grid, 1);
    forall g | InGrid(g, grid) ensures SeenThread(infos, axes, env, c, g, grid) {
      SeenInGrid(infos, axes, env, c, g, grid);
    }
    if RunBySome(code, env, c, grid, hit) {
      var g :| InGrid(g, grid) && hit in HitsOfThread(code, env, c, g);
      assert SeenThread(infos, axes, env, c, g, grid);
    }
    if RunBySome(CudaChain(infos), env, c, seen, hit) {
      var h :| InGrid(h, seen) && hit in HitsOfThread(CudaChain(infos), env, c, h);
      var g := SeenBack(infos, axes, h, grid);
      assert SeenThread(infos, axes, env, c, g, grid);
    }
    if RunAtMostOnce(code, env, c, grid, hit) { ThereAtMost(infos, axes, env, c, grid, hit); }
    if RunAtMostOnce(CudaChain(infos), env, c, seen, hit) { BackAtMost(infos, axes, env, c, grid, hit); }
  }

  lemma {:induction false} ThereAtMost(infos: seq<Info>, axes: seq<seq<nat>>, env: Env, c: Ctx,
                                       grid: (seq<int>, seq<int>), hit: Hit)
    requires ChainOk(infos, c) && AxesFor(infos, axes) && HasRank(grid, infos) && Rearranged(infos, axes)
    requires forall g :: InGrid(g, grid) ==> SeenThread(infos, axes, env, c, g, grid)
    requires RunAtMostOnce(AxedChain(infos, axes), env, c, grid, hit)
    ensures RunAtMostOnce(CudaChain(infos), env, c, Seen(AxesUsed(infos, axes), grid, 1), hit)
  {
    var code, seen := CudaChain(infos), Seen(AxesUsed(infos, axes), grid, 1);
    forall h | InGrid(h, seen) ensures HitsOfThread(code, env, c, h)[hit] <= 1 {
      var g := SeenBack(infos, axes, h, grid);
      assert SeenThread(infos, axes, env, c, g, grid);
    }
    forall h, k | InGrid(h, seen) && InGrid(k, seen) && hit in HitsOfThread(code, env, c, h) && h != k
      ensures hit !in HitsOfThread(code, env, c, k)
    {
      var g := SeenBack(infos, axes, h, grid);
      var f := SeenBack(infos, axes, k, grid);
      assert SeenThread(infos, axes, env, c, g, grid) && SeenThread(infos, axes, env, c, f, grid);
    }
  }

  lemma {:induction false} BackAtMost(infos: seq<Info>, axes: seq<seq<nat>>, env: Env, c: Ctx,
                                      grid: (seq<int>, seq<int>), hit: Hit)
    requires ChainOk(infos, c) && AxesFor(infos, axes) && HasRank(grid, infos) && Rearranged(infos, axes)
    requires forall g :: InGrid(g, grid) ==> SeenThread(infos, axes, env, c, g, grid)
    requires RunAtMostOnce(CudaChain(infos), env, c, Seen(AxesUsed(infos, axes), grid, 1), hit)
    ensures RunAtMostOnce(AxedChain(infos, axes), env, c, grid, hit)
  {
    var code, used := AxedChain(infos, axes), AxesUsed(infos, axes);
    forall g | InGrid(g, grid) ensures HitsOfThread(code, env, c, g)[hit] <= 1 {
      assert SeenThread(infos, axes, env, c, g, grid);
    }
    forall g, f | InGrid(g, grid) && InGrid(f, grid) && hit in HitsOfThread(code, env, c, g) && g != f
      ensures hit !in HitsOfThread(code, env, c, f)
    {
      assert SeenThread(infos, axes, env, c, g, grid) && SeenThread(infos, axes, env, c, f, grid);
      if Seen(used, g, 0) == Seen(used, f, 0) {
        ThroughOne(used.0, g.0, f.0);
        ThroughOne(used.1, g.1, f.1);
      }
    }
  }

  // ----- axes that clash -----

  /** All coordinates 0. */
  function Origin(infos: seq<Info>): (r: (seq<int>, seq<int>))
    ensures HasRank(r, infos)
    ensures (forall h :: 0 <= h < |r.0| ==> r.0[h] == 0) && forall h :: 0 <= h < |r.1| ==> r.1[h] == 0
  {
    (seq(CountAll(infos, Outer), _ => 0), seq(CountAll(infos, Inner), _ => 0))
  }

  function Zeros(n: nat): (p: seq<int>)
    ensures |p| == n && forall k :: 0 <= k < n ==> p[k] == 0
  {
    seq(n, _ => 0)
  }

  lemma {:induction false} OriginRuns(infos: seq<Info>, c: Ctx)
    requires ChainOk(infos, c) && !SomeIdle(infos, c)
    ensures RunsAt(infos, Zeros(|infos|), Origin(infos), c)
  {
    if infos != [] {
      var g := Origin(infos);
      CutParts(infos, g);
      IdleBelow(infos, c);
      OriginRuns(infos[1..], c);
      assert Zeros(|infos|)[1..] == Zeros(|infos| - 1);
      assert RestPart(infos, g).0 == Origin(infos[1..]).0 && RestPart(infos, g).1 == Origin(infos[1..]).1;
      ZeroRuns(infos[0], OwnPart(infos, g), c);
    }
  }

  lemma {:induction false} ZeroRuns(info: Info, own: (seq<int>, seq<int>), c: Ctx)
    requires LoopOk(info, c) && OwnRank(own, info) && !Idle(info, c)
    requires (forall h :: 0 <= h < |own.0| ==> own.0[h] == 0) && forall h :: 0 <= h < |own.1| ==> own.1[h] == 0
    ensures LevelRuns(info, own, 0, c)
  {
    OwnSizes(info.types, Outer);
    OwnSizes(info.types, Inner);
    assert TileSize(info, c) * 0 == 0;
    if !IsRegular(info.types) {
      assert info.types[0] != Regular;
      if |info.types| == 2 && info.types[1] == Regular { PassFits(HostWalk(info, c), TileSize(info, c), info.check); }
    }
  }

  /** A thread at 1 on one axis. */
  function OneOff(n: nat, h: nat): (g: seq<int>)
    requires h < n
    ensures |g| == n && forall k :: 0 <= k < n ==> g[k] == if k == h then 1 else 0
  {
    seq(n, k requires 0 <= k < n => if k == h then 1 else 0)
  }

  predicate Unused(used: seq<int>, e: seq<int>, h: nat) {
    h < |e| == |used| && e[h] > 1 && h !in used
  }

  lemma {:induction false} SameSeen(used: seq<int>, e: seq<int>, h: nat, g: seq<int>)
    requires Unused(used, e, h) && |g| == |e| && forall k :: 0 <= k < |g| ==> g[k] == 0 < e[k]
    ensures OneOff(|e|, h) != g && GridCoverage.Below(OneOff(|e|, h), e) && GridCoverage.Below(g, e)
    ensures Through(used, OneOff(|e|, h), 0) == g == Through(used, g, 0)
  {
    var f := OneOff(|e|, h);
    assert f[h] == 1;
    forall k | 0 <= k < |used| ensures Through(used, f, 0)[k] == 0 { assert used[k] in used; }
  }

  /** An axis along which the grid has two threads and that no loop uses: a second thread sees the origin. */
  lemma {:induction false} SecondThread(infos: seq<Info>, used: (seq<int>, seq<int>), grid: (seq<int>, seq<int>),
                                        h: nat)
    returns (f: (seq<int>, seq<int>))
    requires HasRank(used, infos) && HasRank(grid, infos) && Positive(grid)
    requires Unused(used.0, grid.0, h) || Unused(used.1, grid.1, h)
    ensures InGrid(Origin(infos), grid) && InGrid(f, grid) && f != Origin(infos)
    ensures Seen(used, f, 0) == Seen(used, Origin(infos), 0) == Origin(infos)
  {
    var g := Origin(infos);
    assert Through(used.0, g.0, 0) == g.0 && Through(used.1, g.1, 0) == g.1;
    if Unused(used.0, grid.0, h) {
      f := (OneOff(|g.0|, h), g.1);
      SameSeen(used.0, grid.0, h, g.0);
    } else {
      f := (g.0, OneOff(|g.1|, h));
      SameSeen(used.1, grid.1, h, g.1);
    }
  }

  /** If no loop uses an axis along which the grid has two threads, both run the same. */
  lemma {:induction false} UnusedAxis(infos: seq<Info>, axes: seq<seq<nat>>, env: Env, c: Ctx,
                                      grid: (seq<int>, seq<int>), h: nat)
    requires ChainOk(infos, c) && AxesFor(infos, axes) && HasRank(grid, infos) && Positive(grid) && !SomeIdle(infos, c)
    requires Unused(AxesUsed(infos, axes).0, grid.0, h) || Unused(AxesUsed(infos, axes).1, grid.1, h)
    ensures !CodeRunsOnce(AxedChain(infos, axes), infos, env, c, grid)
  {
    var used, g := AxesUsed(infos, axes), Origin(infos);
    var f := SecondThread(infos, used, grid, h);
    SeenHits(infos, axes, env, c, g);
    SeenHits(infos, axes, env, c, f);
    OriginRuns(infos, c);
    var hit := OriginHit(infos, env, c);
    assert !RunAtMostOnce(AxedChain(infos, axes), env, c, grid, hit);
  }

  lemma {:induction false} OriginHit(infos: seq<Info>, env: Env, c: Ctx) returns (hit: Hit)
    requires ChainOk(infos, c) && RunsAt(infos, Zeros(|infos|), Origin(infos), c)
    ensures hit in HitsOfThread(CudaChain(infos), env, c, Origin(infos))
  {
    var p := Zeros(|infos|);
    hit := Hit(0, ValuesOf(infos, p, c));
    PositionsInverse(infos, p, c);
    ThreadHits(infos, env, c, Origin(infos), hit);
  }

  /** More than one thread along every axis. */
  predicate Wide(grid: (seq<int>, seq<int>)) {
    (forall k :: 0 <= k < |grid.0| ==> grid.0[k] > 1) && forall k :: 0 <= k < |grid.1| ==> grid.1[k] > 1
  }

  lemma {:induction false} IdleCode(infos: seq<Info>, axes: seq<seq<nat>>, env: Env, c: Ctx, grid: (seq<int>, seq<int>))
    requires ChainOk(infos, c) && AxesFor(infos, axes) && SomeIdle(infos, c)
    ensures CodeRunsOnce(AxedChain(infos, axes), infos, env, c, grid)
  {
    forall hit, g | InGrid(g, grid) ensures hit !in HitsOfThread(AxedChain(infos, axes), env, c, g) {
      SeenHits(infos, axes, env, c, g);
      IdleHits(infos, env, c, Seen(AxesUsed(infos, axes), g, 0), hit);
    }
    forall hit ensures !InSource(infos, env, c, hit) {
      SourceHas(infos, env, c, hit);
      IdleTuple(infos, PositionsOf(infos, hit.at, c), c);
    }
  }

  lemma {:induction false} IdleTuple(infos: seq<Info>, p: seq<int>, c: Ctx)
    requires ChainOk(infos, c) && SomeIdle(infos, c)
    ensures p !in NestTrace(infos, c)
  {
    if |p| == |infos| {
      NothingRuns(infos, p, Origin(infos), c);
    } else if p in NestTrace(infos, c) {
      TraceShape(infos, p, c);
    }
  }

  lemma {:induction false} IdleHits(infos: seq<Info>, env: Env, c: Ctx, g: (seq<int>, seq<int>), hit: Hit)
    requires ChainOk(infos, c) && SomeIdle(infos, c) && HasRank(g, infos)
    requires (forall k :: 0 <= k < |g.0| ==> g.0[k] >= 0) && forall k :: 0 <= k < |g.1| ==> g.1[k] >= 0
    ensures hit !in HitsOfThread(CudaChain(infos), env, c, g)
  {
    ThreadHits(infos, env, c, g, hit);
    if ThreadHas(infos, hit, g, c) {
      var p, grid := PositionsOf(infos, hit.at, c), (Above(g.0), Above(g.1));
      NothingRuns(infos, p, grid, c);
      assert Runner(infos, p, g, grid, c);
    }
  }

  function Above(g: seq<int>): (r: seq<int>)
    ensures |r| == |g| && forall k :: 0 <= k < |r| ==> r[k] == g[k] + 1
  {
    seq(|g|, k requires 0 <= k < |g| => g[k] + 1)
  }

  /** Over a grid with several threads along every axis, a nest with explicit axes is run exactly once if and only if
    * the axes of each type are a rearrangement of those the code would use by itself, so that none clash, and the
    * extents so rearranged fit; or nothing runs at all. */
  lemma {:induction false} ExplicitAxesExactly(infos: seq<Info>, axes: seq<seq<nat>>, env: Env, c: Ctx,
                                               grid: (seq<int>, seq<int>))
    requires ChainOk(infos, c) && AxesFor(infos, axes) && HasRank(grid, infos) && Wide(grid)
    ensures CodeRunsOnce(AxedChain(infos, axes), infos, env, c, grid)
            <==> SomeIdle(infos, c)
                 || (Rearranged(infos, axes) && AllFit(infos, Seen(AxesUsed(infos, axes), grid, 1), c))
  {
    var used := AxesUsed(infos, axes);
    if SomeIdle(infos, c) {
      IdleCode(infos, axes, env, c, grid);
    } else if Rearranged(infos, axes) {
      RearrangedGrid(infos, axes, env, c, grid);
      GridExactly(infos, env, c, Seen(used, grid, 1));
      assert Positive(Seen(used, grid, 1));
    } else if !Rearranges(used.0) {
      var h :| 0 <= h < |used.0| && h !in used.0;
      UnusedAxis(infos, axes, env, c, grid, h);
    } else {
      var h :| 0 <= h < |used.1| && h !in used.1;
      UnusedAxis(infos, axes, env, c, grid, h);
    }
  }

  /** For plain loops and the launched grid of the chain: each must find its own extent on the axis it names. */
  lemma {:induction false} PlainExplicitAxes(infos: seq<Info>, axes: seq<seq<nat>>, host: Env, env: Env, c: Ctx)
    requires infos != [] && ChainOk(infos, c) && ChainLaunched(infos, c) && PlainChain(infos) && AxesFor(infos, axes)
    requires Wide(GridExtents(infos, c))
    ensures forall k :: 0 <= k < |Collected(ToTree(infos))| ==> TypesOk(Collected(ToTree(infos))[k].types)
    ensures CodeRunsOnce(AxedChain(infos, axes), infos, env, c, RunDims(Collected(ToTree(infos)), host, c))
            <==> SomeIdle(infos, c)
                 || (Rearranged(infos, axes)
                     && Seen(AxesUsed(infos, axes), GridExtents(infos, c), 1) == GridExtents(infos, c))
  {
    var grid, used := GridExtents(infos, c), AxesUsed(infos, axes);
    LaunchMatchesGrid(infos, host, c);
    GridSizes(infos, c);
    ExplicitAxesExactly(infos, axes, env, c, grid);
    PlainFit(infos, Seen(used, grid, 1), c);
  }

  // ----- the axes that the pass leaves -----

  /** The numbers of the axes stored in the slots; an axis still open has none. */
  function AxesOfSlots(nodes: seq<Node>): (r: seq<seq<nat>>)
    ensures |r| == |nodes| && forall k :: 0 <= k < |r| ==> |r[k]| == |nodes[k].info.axes|
  {
    seq(|nodes|, k requires 0 <= k < |nodes| => NumbersOf(nodes[k].info.axes))
  }

  function NumbersOf(axes: seq<Axis>): (r: seq<nat>)
    ensures |r| == |axes|
  {
    seq(|axes|, j requires 0 <= j < |axes| => if axes[j] == Auto then 0 else AxisNumber(axes[j]))
  }

  /** Each axis is the one named in the source, or the number of levels of its type further in. */
  predicate NamedOrCounted(infos: seq<Info>, axes: seq<seq<nat>>) {
    |axes| == |infos| && forall k :: 0 <= k < |infos| ==> AxesOf(ToTree(infos[k..]), axes[k])
  }

  predicate AxesOf(t: Loop, axes: seq<nat>) {
    && |axes| == |t.info.axes| == |t.info.types|
    && forall j :: 0 <= j < |axes| ==>
         axes[j] == if t.info.axes[j] != Auto then AxisNumber(t.info.axes[j]) else LevelsBehind(t, j)
  }

  lemma {:induction false} ChainInOrder(infos: seq<Info>, k: nat)
    requires k < |infos|
    ensures |Preorder([ToTree(infos)])| == |infos| && Preorder([ToTree(infos)])[k] == ToTree(infos[k..])
    decreases |infos|
  {
    var t := ToTree(infos);
    assert [t][1..] == [] && infos[0..] == infos;
    assert Preorder([t]) == [t] + Preorder(t.children) + Preorder([]);
    if |infos| > 1 {
      assert t.children == [ToTree(infos[1..])];
      ChainInOrder(infos[1..], if k == 0 then 0 else k - 1);
      if k > 0 { assert infos[1..][k - 1..] == infos[k..]; }
    }
  }

  /** A chain that the pass accepts, whatever axes it names: its slots hold an axis for every level. */
  lemma {:induction false} PassedChainAxes(infos: seq<Info>, s: State)
    requires infos != [] && InfosOk([ToTree(infos)]) && Valid(EMPTY)
    requires Feed(EMPTY, Events([ToTree(infos)])) == (s, None)
    ensures AxesFor(infos, AxesOfSlots(s.nodes)) && NamedOrCounted(infos, AxesOfSlots(s.nodes))
  {
    AxesAreKept([ToTree(infos)], s);
    ChainInOrder(infos, 0);
    var axes := AxesOfSlots(s.nodes);
    forall k | 0 <= k < |infos|
      ensures TypesOk(infos[k].types) && |axes[k]| == |infos[k].types| && AxesOf(ToTree(infos[k..]), axes[k])
    {
      ChainInOrder(infos, k);
      assert infos[k..][0] == infos[k];
      assert KeptAxes(ToTree(infos[k..]), s.nodes[k].info);
      assert axes[k] == NumbersOf(s.nodes[k].info.axes);
    }
  }

  /** So for the code of the kernel as the pass leaves it: the nest is run exactly once over a grid with several threads
    * along every axis if and only if it is idle, or the axes it names and those counted for it are a rearrangement and
    * the extents so rearranged fit. */
  lemma {:induction false} PassedExplicitAxes(infos: seq<Info>, s: State, env: Env, c: Ctx, grid: (seq<int>, seq<int>))
    requires infos != [] && InfosOk([ToTree(infos)]) && Valid(EMPTY)
    requires Feed(EMPTY, Events([ToTree(infos)])) == (s, None)
    requires ChainOk(infos, c) && HasRank(grid, infos) && Wide(grid)
    ensures var axes := AxesOfSlots(s.nodes);
            && AxesFor(infos, axes) && NamedOrCounted(infos, axes)
            && (CodeRunsOnce(AxedChain(infos, axes), infos, env, c, grid)
                <==> SomeIdle(infos, c)
                     || (Rearranged(infos, axes) && AllFit(infos, Seen(AxesUsed(infos, axes), grid, 1), c)))
  {
    PassedChainAxes(infos, s);
    ExplicitAxesExactly(infos, AxesOfSlots(s.nodes), env, c, grid);
  }

  /** Where the source names no axis, that code is the code of the chain by itself. */
  lemma {:induction false} CountedAxesAreOwn(infos: seq<Info>, axes: seq<seq<nat>>)
    requires AxesFor(infos, axes) && NamedOrCounted(infos, axes)
    requires forall k, j :: 0 <= k < |infos| && 0 <= j < |infos[k].axes| ==> infos[k].axes[j] == Auto
    ensures AxedChain(infos, axes) == CudaChain(infos)
  {
    if infos != [] {
      assert infos[0..] == infos;
      HeightsAreLevels(ToTree(infos));
      assert axes[0] == AxisHeights(ToTree(infos));
      InnerCounted(infos, axes);
      CountedAxesAreOwn(infos[1..], axes[1..]);
    }
  }

  lemma {:induction false} InnerCounted(infos: seq<Info>, axes: seq<seq<nat>>)
    requires infos != [] && NamedOrCounted(infos, axes)
    ensures NamedOrCounted(infos[1..], axes[1..])
  {
    forall k | 0 <= k < |infos[1..]| ensures AxesOf(ToTree(infos[1..][k..]), axes[1..][k]) {
      assert infos[1..][k..] == infos[k + 1..] && axes[1..][k] == axes[k + 1];
    }
  }

  /** Two nested `@inner` loops: `@inner(0)` twice clashes, `@inner(0)` around `@inner(1)` is a rearrangement. */
  lemma {:induction false} ClashAndSwap(a: Info, b: Info)
    requires a.types == [Inner] && b.types == [Inner]
    ensures AxesFor([a, b], [[0], [0]]) && !Rearranged([a, b], [[0], [0]])
    ensures AxesFor([a, b], [[0], [1]]) && Rearranged([a, b], [[0], [1]])
  {
    assert a.types[0] == Inner && b.types[0] == Inner;
    UsedByTwo(a, b, 0, 0);
    UsedByTwo(a, b, 0, 1);
    assert 1 !in [0, 0];
    assert [1, 0][1] == 0 && [1, 0][0] == 1;
  }

  lemma {:induction false} UsedByTwo(a: Info, b: Info, x: nat, y: nat)
    requires a.types == [Inner] && b.types == [Inner] && AxesFor([a, b], [[x], [y]])
    ensures AxesUsed([a, b], [[x], [y]]) == ([], [y as int, x as int])
  {
    assert a.types[0] == Inner && b.types[0] == Inner;
    assert [a, b][1..] == [b] && [[x], [y]][1..] == [[y]] && [b][1..] == [] && [[y]][1..] == [];
    var none: seq<int> := [];
    assert none + none == none && none + [y as int] == [y as int];
    assert AxesUsed([b], [[y]]) == Both(([], []), ([], [y as int]));
    assert [y as int] + [x as int] == [y as int, x as int];
  }
}
