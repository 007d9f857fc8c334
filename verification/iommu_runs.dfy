/** Whole runs of one domain, and of two domains over one allocator. */
module IommuRuns {
  import opened Prelude
  import opened Words
  import opened FrameAllocator
  import opened IommuPte
  import opened IommuTree
  import opened IommuDomain

  datatype DmaOp = DoMap(iova: nat, phys: nat, perms: nat) | DoUnmap(iova: nat)

  // ----- the plain finite map a run should compute -----

  /** One operation on the plain map, given whether table frames sufficed. It
      knows nothing of tables, entries or walks. */
  function Step(fmt: PteFmt, levels: nat, was: map<nat, Leaf>, op: DmaOp, frames: bool)
    : (map<nat, Leaf>, Result<(), DomainError>)
  {
    var page := op.iova / 4096 % PageLimit(levels);
    match op
    case DoMap(iova, phys, perms) =>
      if iova % 4096 != 0 || phys % 4096 != 0 then (was, Err(Misaligned))
      else if page in was then (was, Err(AlreadyMapped))
      else if !frames then (was, Err(DomainError.Exhausted))
      else (match LeafMapped(fmt, phys, perms) case Some(leaf) => was[page := leaf] case None => was, Ok(()))
    case DoUnmap(iova) =>
      if iova % 4096 != 0 then (was, Err(Misaligned))
      else if page !in was then (was, Err(NotMapped))
      else (was - {page}, Ok(()))
  }

  /** A domain as far as its answers go: the plain map, and which tables it has. */
  datatype Held = Held(view: map<nat, Leaf>, nodes: set<Path>)

  /** Whether the free frames are enough for the tables the operation needs. */
  predicate Affords(levels: Depth, nodes: set<Path>, free: nat, op: DmaOp) {
    op.DoUnmap? || Missing(nodes, PathOf(op.iova / 4096, levels)) <= free
  }

  /** The tables and the free frames after it. */
  function Built(levels: Depth, nodes: set<Path>, free: nat, op: DmaOp): (set<Path>, nat) {
    if op.DoMap? && op.iova % 4096 == 0 && op.phys % 4096 == 0
    then Grown(nodes, free, PathOf(op.iova / 4096, levels)) else (nodes, free)
  }

  /** One operation on a domain that finds `free` frames in the allocator. */
  function Turn(fmt: PteFmt, levels: Depth, was: Held, free: nat, op: DmaOp): (Held, nat, Result<(), DomainError>) {
    var (view, answer) := Step(fmt, levels, was.view, op, Affords(levels, was.nodes, free, op));
    var (nodes, left) := Built(levels, was.nodes, free, op);
    (Held(view, nodes), left, answer)
  }

  /** A domain alone with the allocator: what it holds, the frames left, and every
      answer given, after `ops`. */
  function Replay(fmt: PteFmt, levels: Depth, start: Held, free: nat, ops: seq<DmaOp>)
    : (r: (Held, nat, seq<Result<(), DomainError>>))
    ensures |r.2| == |ops|
  {
    if ops == [] then (start, free, [])
    else
      var n := |ops| - 1;
      var (was, left, answers) := Replay(fmt, levels, start, free, ops[..n]);
      var (now, left', answer) := Turn(fmt, levels, was, left, ops[n]);
      (now, left', answers + [answer])
  }

  lemma ReplayMore(fmt: PteFmt, levels: Depth, start: Held, free: nat, ops: seq<DmaOp>, op: DmaOp)
    ensures var (was, left, answers) := Replay(fmt, levels, start, free, ops);
            var (now, left', answer) := Turn(fmt, levels, was, left, op);
            Replay(fmt, levels, start, free, ops + [op]) == (now, left', answers + [answer])
  {
    assert (ops + [op])[..|ops|] == ops;
  }

  // ----- one domain -----

  ghost function HeldBy(d: Domain, m: PhysMem): Held
    reads d, m
  {
    Held(d.View(m), d.tables.Keys)
  }

  /** One operation on a live domain does what the plain map does, and runs out of
      frames exactly when the tables it misses are more than the frames there are. */
  method Apply(fa: FrameAlloc, m: PhysMem, d: Domain, op: DmaOp) returns (r: Result<(), DomainError>)
    requires d.Valid(m, fa)
    modifies d, fa, fa.bitmap, m
    ensures d.Valid(m, fa) && d.root == old(d.root)
    ensures Turn(d.fmt, d.levels, old(HeldBy(d, m)), old(|fa.avail|), op) == (HeldBy(d, m), |fa.avail|, r)
    ensures fa.avail + TableFrames(d.tables) == old(fa.avail) + old(TableFrames(d.tables))
    ensures fa.avail <= old(fa.avail)
    ensures OthersUntouched(old(m.tab), m.tab, old(TableFrames(d.tables)), old(fa.avail))
  {
    hide Pages, PageLimit, FreeIn, TableFrames, Shaped, LeavesArePages, Owned, FrameAlloc.Valid;
    hide OthersUntouched, LeafMapped, Missing, Grown, PathOf;
    match op {
      case DoMap(iova, phys, perms) =>
        r := d.Map(fa, m, iova, phys, perms);
      case DoUnmap(iova) =>
        r := d.Unmap(m, iova, fa);
        FewerExcuses(old(m.tab), m.tab, TableFrames(d.tables), fa.avail);
    }
    if r.Ok? { assert r.value == (); }
  }

  lemma FewerExcuses(mem: Mem, mem': Mem, mine: set<nat>, free: set<nat>)
    requires OthersUntouched(mem, mem', mine, {})
    ensures OthersUntouched(mem, mem', mine, free)
  {
  }

  /** The whole life of a domain, any operations in between: every answer, running
      out of frames included, is the plain map's, `translate` agrees with the plain map at any address probed,
      and teardown puts the allocator back bit for bit. */
  method Lifecycle(fa: FrameAlloc, m: PhysMem, width: nat, fmt: PteFmt, ops: seq<DmaOp>, probe: nat)
    returns (made: bool, results: seq<Result<(), DomainError>>, found: Option<nat>)
    requires PoolOk(fa)
    modifies fa, fa.bitmap, m
    ensures PoolOk(fa)
    ensures made <==> width in {39, 48, 57} && old(fa.avail) != {}
    ensures made ==>
      var (end, _, answers) := Replay(fmt, LevelsFor(width).value, Held(map[], {[]}), |old(fa.avail)| - 1, ops);
      var page := probe / 4096 % PageLimit(LevelsFor(width).value);
      && results == answers
      && found == if page in end.view then Some(end.view[page].frame + probe % 4096) else None
    ensures fa.avail == old(fa.avail) && fa.free == old(fa.free)
    ensures fa.bitmap[..] == old(fa.bitmap[..])
  {
    hide Pages, PageLimit, FreeIn, TableFrames, Shaped, LeavesArePages, Owned, OthersUntouched, Step;
    var d := NewDomain(fa, m, width, fmt);
    made, results, found := d.Ok?, [], None;
    if made {
      results, found := Live(fa, m, d.value, ops, probe);
    }
    BitmapRestored(fa, old(fa.bitmap[..]), old(fa.avail), old(fa.free));
  }

  /** From a fresh domain to its teardown. */
  method Live(fa: FrameAlloc, m: PhysMem, d: Domain, ops: seq<DmaOp>, probe: nat)
    returns (results: seq<Result<(), DomainError>>, found: Option<nat>)
    requires d.Valid(m, fa) && d.root != 0
    modifies d, fa, fa.bitmap, m
    ensures PoolOk(fa)
    ensures var (end, _, answers) := Replay(d.fmt, d.levels, old(HeldBy(d, m)), |old(fa.avail)|, ops);
            var page := probe / 4096 % PageLimit(d.levels);
            && results == answers
            && found == if page in end.view then Some(end.view[page].frame + probe % 4096) else None
    ensures fa.avail == old(fa.avail) + old(TableFrames(d.tables))
  {
    hide Pages, PageLimit, FreeIn, TableFrames, Shaped, LeavesArePages, Owned, OthersUntouched, Turn;
    results := [];
    for n := 0 to |ops|
      invariant d.Valid(m, fa) && d.root != 0
      invariant Replay(d.fmt, d.levels, old(HeldBy(d, m)), |old(fa.avail)|, ops[..n]) == (HeldBy(d, m), |fa.avail|, results)
      invariant fa.avail + TableFrames(d.tables) == old(fa.avail) + old(TableFrames(d.tables))
    {
      var r := Apply(fa, m, d, ops[n]);
      ReplayMore(d.fmt, d.levels, old(HeldBy(d, m)), |old(fa.avail)|, ops[..n], ops[n]);
      assert ops[..n + 1] == ops[..n] + [ops[n]];
      results := results + [r];
    }
    assert ops[..|ops|] == ops;
    found := d.Translate(m, probe, fa);
    d.Teardown(fa, m);
  }

  lemma OwnedIsDisjoint(tables: map<Path, nat>, fa: FrameAlloc)
    requires Owned(tables, fa)
    ensures TableFrames(tables) !! fa.avail
  {
  }

  lemma BitmapRestored(fa: FrameAlloc, bitmap: seq<Word>, avail: set<nat>, free: nat)
    requires fa.Valid() && fa.avail == avail && FreeIn(bitmap) == avail && free == |avail|
    requires |bitmap| == fa.bitmap.Length
    ensures fa.bitmap[..] == bitmap && fa.free == free
  {
    FreeSetDeterminesBitmap(fa.bitmap[..], bitmap);
  }

  // ----- two domains over one allocator -----

  /** A step on one domain cannot be seen through another. */
  lemma BystanderKept(mem: Mem, mem': Mem, d: Shape, mine: set<nat>, wasFree: set<nat>)
    requires Shaped(mem, d) && LeavesArePages(mem, d)
    requires TableFrames(d.tables) !! mine && TableFrames(d.tables) !! wasFree
    requires OthersUntouched(mem, mem', mine, wasFree)
    ensures Shaped(mem', d) && LeavesArePages(mem', d) && Pages(mem', d) == Pages(mem, d)
  {
    hide LinkOk, Pages, LeafOf, Present;
    forall p | p in d.tables ensures d.tables[p] in mem' && mem'[d.tables[p]] == mem[d.tables[p]] {
      InTableFrames(d.tables, p);
      assert TableFrame(mem, d.tables[p]);
    }
    Untouched(mem, mem', d);
    forall p, i | p in d.tables && |p| + 1 == d.levels && 0 <= i < ENTRIES ensures LeafIsPage(mem', d, p, i) {
      assert LeafIsPage(mem, d, p, i);
    }
  }

  /** Two live domains: distinct objects, disjoint tables. */
  ghost predicate Apart(a: Domain, b: Domain, m: PhysMem, fa: FrameAlloc)
    reads a, b, m, fa, fa.bitmap
  {
    a != b && a.Valid(m, fa) && b.Valid(m, fa) && TableFrames(a.tables) !! TableFrames(b.tables)
  }

  /** An operation on `a` keeps the two apart and leaves `b`'s map as it was. */
  method ApplyBeside(fa: FrameAlloc, m: PhysMem, a: Domain, b: Domain, op: DmaOp) returns (r: Result<(), DomainError>)
    requires Apart(a, b, m, fa)
    modifies a, fa, fa.bitmap, m
    ensures Apart(a, b, m, fa) && a.root == old(a.root)
    ensures b.View(m) == old(b.View(m))
    ensures Turn(a.fmt, a.levels, old(HeldBy(a, m)), old(|fa.avail|), op) == (HeldBy(a, m), |fa.avail|, r)
    ensures fa.avail + TableFrames(a.tables) == old(fa.avail) + old(TableFrames(a.tables))
  {
    hide Pages, PageLimit, FreeIn, TableFrames, Shaped, LeavesArePages, FrameAlloc.Valid, OthersUntouched, Turn;
    OwnedIsDisjoint(b.tables, fa);
    assert forall p :: p in b.tables ==> b.tables[p] / FRAME_SIZE < fa.frames && b.tables[p] / FRAME_SIZE !in fa.avail;
    r := Apply(fa, m, a, op);
    BystanderKept(old(m.tab), m.tab, b.S(), old(TableFrames(a.tables)), old(fa.avail));
    StillOwned(b.tables, old(fa.avail), fa);
    StillApart(old(TableFrames(a.tables)), TableFrames(a.tables), old(fa.avail), fa.avail, TableFrames(b.tables));
  }

  lemma StillOwned(tables: map<Path, nat>, wasAvail: set<nat>, fa: FrameAlloc)
    requires fa.avail <= wasAvail
    requires forall p :: p in tables ==> tables[p] / FRAME_SIZE < fa.frames && tables[p] / FRAME_SIZE !in wasAvail
    ensures Owned(tables, fa)
  {
  }

  lemma StillApart(was: set<nat>, now: set<nat>, wasAvail: set<nat>, avail: set<nat>, other: set<nat>)
    requires was !! other && other !! wasAvail && avail + now == wasAvail + was
    ensures now !! other
  {
    assert now <= wasAvail + was;
  }

  /** The operations of an interleaving that fall on one side. */
  function Side<T>(which: seq<bool>, items: seq<T>, side: bool): seq<T>
    requires |which| == |items|
  {
    if which == [] then []
    else
      var n := |which| - 1;
      Side(which[..n], items[..n], side) + (if which[n] == side then [items[n]] else [])
  }

  lemma {:induction false} SideLengths<T, U>(which: seq<bool>, ts: seq<T>, us: seq<U>, side: bool)
    requires |which| == |ts| == |us|
    ensures |Side(which, ts, side)| == |Side(which, us, side)|
  {
    if which != [] {
      var n := |which| - 1;
      SideLengths(which[..n], ts[..n], us[..n], side);
    }
  }

  lemma SideMore<T>(which: seq<bool>, items: seq<T>, w: bool, x: T, side: bool)
    requires |which| == |items|
    ensures Side(which + [w], items + [x], side)
         == if w == side then Side(which, items, side) + [x] else Side(which, items, side)
  {
    assert (which + [w])[..|which|] == which && (items + [x])[..|items|] == items;
  }

  /** The plain map and its answers after `ops`, where `frames[n]` says whether the
      n-th operation found the table frames it needed. */
  function Given(fmt: PteFmt, levels: Depth, ops: seq<DmaOp>, frames: seq<bool>)
    : (r: (map<nat, Leaf>, seq<Result<(), DomainError>>))
    requires |ops| == |frames|
    ensures |r.1| == |ops|
  {
    if ops == [] then (map[], [])
    else
      var n := |ops| - 1;
      var (was, answers) := Given(fmt, levels, ops[..n], frames[..n]);
      var (now, answer) := Step(fmt, levels, was, ops[n], frames[n]);
      (now, answers + [answer])
  }

  lemma GivenMore(fmt: PteFmt, levels: Depth, ops: seq<DmaOp>, frames: seq<bool>, op: DmaOp, ok: bool)
    requires |ops| == |frames|
    ensures var (was, answers) := Given(fmt, levels, ops, frames);
            var (now, answer) := Step(fmt, levels, was, op, ok);
            Given(fmt, levels, ops + [op], frames + [ok]) == (now, answers + [answer])
  {
    assert (ops + [op])[..|ops|] == ops && (frames + [ok])[..|frames|] == frames;
  }

  /** Two domains and the frames they draw on. */
  datatype Couple = Couple(a: Held, b: Held, free: nat)

  /** The format and depth of the two domains of a couple. */
  datatype Kinds = Kinds(aFmt: PteFmt, aLevels: Depth, bFmt: PteFmt, bLevels: Depth)

  function CoupleTurn(k: Kinds, was: Couple, onA: bool, op: DmaOp): (Couple, Result<(), DomainError>) {
    if onA then
      var (a, free, answer) := Turn(k.aFmt, k.aLevels, was.a, was.free, op);
      (Couple(a, was.b, free), answer)
    else
      var (b, free, answer) := Turn(k.bFmt, k.bLevels, was.b, was.free, op);
      (Couple(was.a, b, free), answer)
  }

  function Together(k: Kinds, start: Couple, which: seq<bool>, ops: seq<DmaOp>)
    : (r: (Couple, seq<Result<(), DomainError>>))
    requires |which| == |ops|
    ensures |r.1| == |ops|
  {
    if ops == [] then (start, [])
    else
      var n := |ops| - 1;
      var (was, answers) := Together(k, start, which[..n], ops[..n]);
      var (now, answer) := CoupleTurn(k, was, which[n], ops[n]);
      (now, answers + [answer])
  }

  lemma TogetherMore(k: Kinds, start: Couple, which: seq<bool>, ops: seq<DmaOp>, w: bool, op: DmaOp)
    requires |which| == |ops|
    ensures var (was, answers) := Together(k, start, which, ops);
            var (now, answer) := CoupleTurn(k, was, w, op);
            Together(k, start, which + [w], ops + [op]) == (now, answers + [answer])
  {
    assert (ops + [op])[..|ops|] == ops && (which + [w])[..|which|] == which;
  }

  /** Which operations found their frames, read off the answers. */
  function Fed(answers: seq<Result<(), DomainError>>): (frames: seq<bool>)
    ensures |frames| == |answers|
  {
    seq(|answers|, n requires 0 <= n < |answers| => answers[n] != Err(DomainError.Exhausted))
  }

  ghost predicate SideIs(k: Kinds, side: bool, which: seq<bool>, ops: seq<DmaOp>,
                         answers: seq<Result<(), DomainError>>, view: map<nat, Leaf>)
    requires |which| == |ops| == |answers|
  {
    SideLengths(which, ops, Fed(answers), side);
    Given(if side then k.aFmt else k.bFmt, if side then k.aLevels else k.bLevels,
          Side(which, ops, side), Side(which, Fed(answers), side)) == (view, Side(which, answers, side))
  }

  /** However two domains are interleaved, each has the map and gave the answers that
      its own operations alone would have led to: the other shows only in which of
      them found frames. */
  lemma {:induction false} SidesAreAlone(k: Kinds, start: Couple, which: seq<bool>, ops: seq<DmaOp>)
    requires |which| == |ops| && start.a.view == start.b.view == map[]
    ensures var (end, answers) := Together(k, start, which, ops);
      SideIs(k, true, which, ops, answers, end.a.view) && SideIs(k, false, which, ops, answers, end.b.view)
  {
    if ops != [] {
      hide Step, Given, Side, Fed, Affords, Built;
      var n := |ops| - 1;
      SidesAreAlone(k, start, which[..n], ops[..n]);
      var (was, answers) := Together(k, start, which[..n], ops[..n]);
      var (now, answer) := CoupleTurn(k, was, which[n], ops[n]);
      assert which == which[..n] + [which[n]] && ops == ops[..n] + [ops[n]];
      SideMoves(k, true, which[..n], ops[..n], answers, was.a.view, which[n], ops[n], answer, now.a.view);
      SideMoves(k, false, which[..n], ops[..n], answers, was.b.view, which[n], ops[n], answer, now.b.view);
    }
  }

  lemma SideMoves(k: Kinds, side: bool, which: seq<bool>, ops: seq<DmaOp>, answers: seq<Result<(), DomainError>>,
                  was: map<nat, Leaf>, w: bool, op: DmaOp, answer: Result<(), DomainError>, now: map<nat, Leaf>)
    requires |which| == |ops| == |answers| && SideIs(k, side, which, ops, answers, was)
    requires w != side ==> now == was
    requires w == side ==>
      Step(if side then k.aFmt else k.bFmt, if side then k.aLevels else k.bLevels, was, op, answer != Err(DomainError.Exhausted))
      == (now, answer)
    ensures SideIs(k, side, which + [w], ops + [op], answers + [answer], now)
  {
    hide Step, Given, Side;
    var ok := answer != Err(DomainError.Exhausted);
    assert Fed(answers + [answer]) == Fed(answers) + [ok];
    SideLengths(which, ops, Fed(answers), side);
    SideMore(which, ops, w, op, side);
    SideMore(which, Fed(answers), w, ok, side);
    SideMore(which, answers, w, answer, side);
    GivenMore(if side then k.aFmt else k.bFmt, if side then k.aLevels else k.bLevels,
              Side(which, ops, side), Side(which, Fed(answers), side), op, ok);
  }

  ghost function CoupleOf(a: Domain, b: Domain, m: PhysMem, fa: FrameAlloc): Couple
    reads a, b, m, fa
  {
    Couple(HeldBy(a, m), HeldBy(b, m), |fa.avail|)
  }

  function KindsOf(a: Domain, b: Domain): Kinds {
    Kinds(a.fmt, a.levels, b.fmt, b.levels)
  }

  /** Any interleaving of operations on two domains: every answer, and what each
      domain ends with, is the plain maps' over one count of free frames, and no frame
      is lost. */
  method Interleaved(fa: FrameAlloc, m: PhysMem, a: Domain, b: Domain, which: seq<bool>, ops: seq<DmaOp>)
    returns (results: seq<Result<(), DomainError>>)
    requires Apart(a, b, m, fa) && |which| == |ops|
    modifies a, b, fa, fa.bitmap, m
    ensures Apart(a, b, m, fa)
    ensures Together(KindsOf(a, b), old(CoupleOf(a, b, m, fa)), which, ops) == (CoupleOf(a, b, m, fa), results)
    ensures fa.avail + TableFrames(a.tables) + TableFrames(b.tables)
         == old(fa.avail) + old(TableFrames(a.tables)) + old(TableFrames(b.tables))
  {
    hide Pages, PageLimit, FreeIn, TableFrames, Apart, Turn;
    results := [];
    for n := 0 to |ops|
      invariant Apart(a, b, m, fa)
      invariant Together(KindsOf(a, b), old(CoupleOf(a, b, m, fa)), which[..n], ops[..n]) == (CoupleOf(a, b, m, fa), results)
      invariant fa.avail + TableFrames(a.tables) + TableFrames(b.tables)
             == old(fa.avail) + old(TableFrames(a.tables)) + old(TableFrames(b.tables))
    {
      var r;
      SwapSides(a, b, m, fa);
      if which[n] {
        r := ApplyBeside(fa, m, a, b, ops[n]);
      } else {
        r := ApplyBeside(fa, m, b, a, ops[n]);
        SwapSides(b, a, m, fa);
      }
      TogetherMore(KindsOf(a, b), old(CoupleOf(a, b, m, fa)), which[..n], ops[..n], which[n], ops[n]);
      assert which[..n + 1] == which[..n] + [which[n]] && ops[..n + 1] == ops[..n] + [ops[n]];
      results := results + [r];
    }
    assert which[..|ops|] == which && ops[..|ops|] == ops;
  }

  lemma SwapSides(a: Domain, b: Domain, m: PhysMem, fa: FrameAlloc)
    requires Apart(a, b, m, fa)
    ensures Apart(b, a, m, fa)
  {
  }
}
