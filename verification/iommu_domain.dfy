/** `Domain`: the walker code over flat memory and the frame allocator
    (kernel/src/iommu.rs), proved to refine a finite map. */
module IommuDomain {
  import opened Prelude
  import opened Words
  import opened FrameAllocator
  import opened IommuPte
  import opened IommuTree

  datatype DomainError =
    Exhausted | Misaligned | AlreadyMapped | NotMapped | UnsupportedWidth | IovaExhausted

  /** Frames an x86-64 physical address can name: every table address then fits
      the address field of an entry. */
  const FRAME_LIMIT: nat := 0x100_0000_0000

  /** Walk depths the two formats support: 39, 48 and 57-bit addresses. */
  type Depth = n: nat | 3 <= n <= 5 witness 3

  /** The physical-memory window, as far as translation tables use it. */
  class PhysMem {
    var tab: Mem
    constructor ()
      ensures tab == map[]
    {
      tab := map[];
    }
  }

  /** What the allocator must promise a domain: real addresses, and never frame 0. */
  ghost predicate PoolOk(fa: FrameAlloc)
    reads fa, fa.bitmap
  {
    fa.Valid() && 0 !in fa.avail && fa.frames <= FRAME_LIMIT
  }

  /** Frame numbers of a tree's tables. */
  ghost function TableFrames(tables: map<Path, nat>): set<nat> {
    set p | p in tables :: tables[p] / FRAME_SIZE
  }

  /** The tables are allocated frames: no other holder can be given them. */
  ghost predicate Owned(tables: map<Path, nat>, fa: FrameAlloc)
    reads fa
  {
    forall p :: p in tables ==> tables[p] / FRAME_SIZE < fa.frames && tables[p] / FRAME_SIZE !in fa.avail
  }

  /** Memory outside the tables in `mine` and the frames that were free is as it was. */
  ghost predicate OthersUntouched(mem: Mem, mem': Mem, mine: set<nat>, wasFree: set<nat>) {
    forall a {:trigger a in mem'} :: a in mem && a / FRAME_SIZE !in mine && a / FRAME_SIZE !in wasFree ==>
      a in mem' && mem'[a] == mem[a]
  }

  /** Tables still missing along a full path: how many frames a map there needs. */
  function Missing(nodes: set<Path>, path: Path, depth: nat := 0): nat
    requires depth < |path|
    decreases |path| - depth
  {
    if depth + 1 == |path| then 0
    else (if path[..depth + 1] in nodes then 0 else 1) + Missing(nodes, path, depth + 1)
  }

  /** The tables there are, and the frames left, after a map along a full path that
      found `budget` frames free: the missing tables from the root down, as far as the
      frames go. */
  function Grown(nodes: set<Path>, budget: nat, path: Path, depth: nat := 0): (set<Path>, nat)
    requires depth < |path|
    decreases |path| - depth
  {
    if depth + 1 == |path| then (nodes, budget)
    else if path[..depth + 1] in nodes then Grown(nodes, budget, path, depth + 1)
    else if budget == 0 then (nodes, 0)
    else Grown(nodes + {path[..depth + 1]}, budget - 1, path, depth + 1)
  }

  lemma TableFramesAdd(tables: map<Path, nat>, p: Path, child: nat)
    requires p !in tables
    ensures TableFrames(tables[p := child]) == TableFrames(tables) + {child / FRAME_SIZE}
  {
    var more := tables[p := child];
    forall q | q in tables ensures more[q] == tables[q] { }
    forall f | f in TableFrames(tables) + {child / FRAME_SIZE} ensures f in TableFrames(more) {
      if f == child / FRAME_SIZE {
        assert p in more && more[p] == child;
      } else {
        var q :| q in tables && tables[q] / FRAME_SIZE == f;
        assert q in more;
      }
    }
  }

  lemma InTableFrames(tables: map<Path, nat>, p: Path)
    requires p in tables
    ensures tables[p] / FRAME_SIZE in TableFrames(tables)
  {
  }

  /** `alloc_table`: a zeroed frame nobody holds. */
  method AllocTable(fa: FrameAlloc, m: PhysMem) returns (r: Result<nat, DomainError>)
    requires PoolOk(fa)
    modifies fa, fa.bitmap, m
    ensures PoolOk(fa)
    ensures r.Ok? <==> old(fa.avail) != {}
    ensures r.Err? ==> r.error == DomainError.Exhausted && fa.avail == old(fa.avail) && m.tab == old(m.tab)
    ensures r.Ok? ==>
      && r.value / FRAME_SIZE in old(fa.avail) && fa.avail == old(fa.avail) - {r.value / FRAME_SIZE}
      && r.value != 0 && r.value % 4096 == 0 && r.value < ADDR_LIMIT && r.value / FRAME_SIZE < fa.frames
      && m.tab == old(m.tab)[r.value := Zeros()]
  {
    hide FreeIn;
    var f := fa.Alloc();
    if f.Err? {
      return Err(DomainError.Exhausted);
    }
    m.tab := m.tab[f.value := Zeros()];
    return Ok(f.value);
  }

  /** `Domain::new`'s width check, shared with `levels_for`. */
  function LevelsFor(width: nat): (r: Result<Depth, DomainError>)
    ensures r.Ok? <==> width in {39, 48, 57}
    ensures r.Ok? ==> width == PAGE_SHIFT + INDEX_BITS * r.value
    ensures r.Err? ==> r.error == UnsupportedWidth
  {
    if width < PAGE_SHIFT then Err(UnsupportedWidth)
    else
      var span := width - PAGE_SHIFT;
      if span == 0 || span % INDEX_BITS != 0 then Err(UnsupportedWidth)
      else
        var levels := span / INDEX_BITS;
        if 3 <= levels <= 5 then Ok(levels) else Err(UnsupportedWidth)
  }

  class Domain {
    var root: nat
    const levels: Depth
    const fmt: PteFmt
    /** Which table each index path reaches. */
    ghost var tables: map<Path, nat>

    ghost function S(): Shape
      reads this
    {
      Shape(fmt, levels, root, tables)
    }

    ghost predicate Valid(m: PhysMem, fa: FrameAlloc)
      reads this, m, fa, fa.bitmap
    {
      && PoolOk(fa)
      && Shaped(m.tab, S()) && LeavesArePages(m.tab, S())
      && Owned(tables, fa)
    }

    /** The finite map this domain represents: device page -> leaf. */
    ghost function View(m: PhysMem): map<nat, Leaf>
      reads this, m
    {
      Pages(m.tab, S())
    }

    /** The page a device address falls in; addresses past the width wrap. */
    ghost function PageIn(iova: nat): nat {
      iova / 4096 % PageLimit(levels)
    }

    /** `Domain::new` after the width check: one zeroed root table. */
    constructor (fa: FrameAlloc, m: PhysMem, levels: Depth, fmt: PteFmt, root: nat)
      requires PoolOk(fa)
      requires TableFrame(m.tab, root) && m.tab[root] == Zeros()
      requires root / FRAME_SIZE < fa.frames && root / FRAME_SIZE !in fa.avail
      ensures Valid(m, fa) && View(m) == map[]
      ensures this.root == root && this.levels == levels && this.fmt == fmt
      ensures tables == map[[] := root]
    {
      this.root, this.levels, this.fmt := root, levels, fmt;
      tables := map[[] := root];
      new;
      hide Pages, Lookup, PageLimit, FreeIn;
      RootOnly(m.tab, fmt, levels, root);
      ZeroIsAbsent(fmt);
    }

    method Map(fa: FrameAlloc, m: PhysMem, iova: nat, phys: nat, perms: nat)
      returns (r: Result<(), DomainError>)
      requires Valid(m, fa)
      modifies this, fa, fa.bitmap, m
      ensures Valid(m, fa) && root == old(root)
      ensures iova % 4096 != 0 || phys % 4096 != 0 <==> r == Err(Misaligned)
      ensures r == Err(AlreadyMapped) <==>
        iova % 4096 == 0 && phys % 4096 == 0 && PageIn(iova) in old(View(m))
      ensures r == Err(DomainError.Exhausted) <==>
        && iova % 4096 == 0 && phys % 4096 == 0 && PageIn(iova) !in old(View(m))
        && |old(fa.avail)| < Missing(old(tables).Keys, PathOf(iova / 4096, levels))
      ensures r.Err? ==> r.error in {Misaligned, AlreadyMapped, DomainError.Exhausted} && View(m) == old(View(m))
      ensures (tables.Keys, |fa.avail|) == if r == Err(Misaligned) then (old(tables).Keys, |old(fa.avail)|)
                                           else Grown(old(tables).Keys, |old(fa.avail)|, PathOf(iova / 4096, levels))
      ensures r.Ok? ==> View(m) == match LeafMapped(fmt, phys, perms)
                                   case Some(leaf) => old(View(m))[PageIn(iova) := leaf]
                                   case None => old(View(m))
      ensures fa.avail + TableFrames(tables) == old(fa.avail) + old(TableFrames(tables))
      ensures fa.avail <= old(fa.avail)
      ensures OthersUntouched(old(m.tab), m.tab, old(TableFrames(tables)), old(fa.avail))
    {
      hide Pages, Lookup, PageLimit, FreeIn, TableFrames, PathOf, LinkOk, EncodeLink, EncodeLeaf, LeafOf;
      hide Present, LeafMapped, Index, LeafIsPage, AddrField, Missing, Grown, Shaped, LeavesArePages, OthersUntouched;
      NothingTouched(m.tab, TableFrames(tables), fa.avail);
      if iova % 4096 != 0 || phys % 4096 != 0 {
        return Err(Misaligned);
      }
      ghost var path := PathOf(iova / 4096, levels);
      var tablePhys := root;
      var last := levels - 1;
      assert path[..0] == [];
      RootIsTable(m.tab, S());
      var depth := 0;
      while depth < levels
        invariant 0 <= depth < levels
        invariant Valid(m, fa) && root == old(root)
        invariant path[..depth] in tables && tables[path[..depth]] == tablePhys
        invariant View(m) == old(View(m))
        invariant fa.avail + TableFrames(tables) == old(fa.avail) + old(TableFrames(tables))
        invariant fa.avail <= old(fa.avail)
        invariant |fa.avail| - Missing(tables.Keys, path, depth) == |old(fa.avail)| - Missing(old(tables).Keys, path)
        invariant Grown(tables.Keys, |fa.avail|, path, depth) == Grown(old(tables).Keys, |old(fa.avail)|, path)
        invariant OthersUntouched(old(m.tab), m.tab, old(TableFrames(tables)), old(fa.avail))
      {
        var idx := Index(iova, levels, depth);
        IndexIsDigit(iova, levels, depth);
        TableIsThere(m.tab, S(), path[..depth]);
        if depth == last {
          MissingNothing(tables.Keys, |fa.avail|, path);
          LeafPresence(m.tab, S(), iova);
          if Decode(fmt, m.tab[tablePhys][idx]).0 {
            return Err(AlreadyMapped);
          }
          var e := EncodeLeaf(fmt, phys, perms);
          ghost var before := m.tab;
          m.tab := Store(m.tab, tablePhys, idx, e);
          LeafRoundTrip(fmt, phys, perms);
          LeafStored(before, S(), iova, e, m.tab);
          MappingNothing(View(m), old(View(m)), PageIn(iova), fmt, phys, perms);
          InTableFrames(tables, path[..depth]);
          StoreTouchesOne(old(m.tab), before, tablePhys, idx, e, old(TableFrames(tables)), old(fa.avail), fa.avail, TableFrames(tables));
          return Ok(());
        }
        FollowLink(m.tab, S(), path[..depth], idx);
        assert path[..depth + 1] == path[..depth] + [idx];
        MissingStep(tables.Keys, |fa.avail|, path, depth);
        var (present, next) := Decode(fmt, m.tab[tablePhys][idx]);
        if !present {
          NothingBelow(m.tab, S(), iova, depth + 1);
          ghost var wasTables, wasTab, wasAvail := tables, m.tab, fa.avail;
          var child := AddChild(fa, m, path[..depth], idx, levels - 1 - depth, tablePhys);
          UntouchedThenUntouched(old(m.tab), wasTab, m.tab, old(TableFrames(tables)), old(fa.avail),
                                 TableFrames(wasTables), wasAvail);
          if child.Err? {
            return Err(child.error);
          }
          KeysAdd(wasTables, path[..depth + 1], child.value);
          MissingAfterAdd(wasTables.Keys, path, depth);
          tablePhys := child.value;
        } else {
          tablePhys := next;
        }
        depth := depth + 1;
      }
      assert false;
    }

    /** Allocate a table and hang it on the absent entry `idx` of the table at `p`. */
    method AddChild(fa: FrameAlloc, m: PhysMem, ghost p: Path, idx: nat, nextLevel: nat, tablePhys: nat)
      returns (child: Result<nat, DomainError>)
      requires Valid(m, fa)
      requires p in tables && tables[p] == tablePhys && idx < ENTRIES
      requires |p| + 1 < levels && nextLevel == levels - 1 - |p| && p + [idx] !in tables
      modifies this, fa, fa.bitmap, m
      ensures Valid(m, fa) && root == old(root) && View(m) == old(View(m))
      ensures fa.avail + TableFrames(tables) == old(fa.avail) + old(TableFrames(tables))
      ensures fa.avail <= old(fa.avail)
      ensures OthersUntouched(old(m.tab), m.tab, old(TableFrames(tables)), old(fa.avail))
      ensures child.Err? ==>
        child.error == DomainError.Exhausted && old(fa.avail) == {} && fa.avail == {} && tables == old(tables)
      ensures child.Ok? ==>
        tables == old(tables)[p + [idx] := child.value] && |fa.avail| + 1 == |old(fa.avail)|
    {
      hide Pages, Lookup, PageLimit, FreeIn, TableFrames, LinkOk, EncodeLink, LeafOf;
      hide Present, LeafIsPage, AddrField, Shaped, LeavesArePages, OthersUntouched;
      NothingTouched(m.tab, TableFrames(tables), fa.avail);
      TableIsThere(m.tab, S(), p);
      ghost var was := S();
      child := AllocTable(fa, m);
      if child.Err? {
        return;
      }
      StillThere(old(m.tab), was, p, child.value, old(fa.avail), fa);
      m.tab := Store(m.tab, tablePhys, idx, EncodeLink(fmt, child.value, nextLevel));
      tables := tables[p + [idx] := child.value];
      LinkStored(old(m.tab), was, p, idx, child.value, m.tab, S());
      TableFramesAdd(old(tables), p + [idx], child.value);
      InTableFrames(old(tables), p);
      LinkTouchesTwo(old(m.tab), tablePhys, idx, child.value, EncodeLink(fmt, child.value, nextLevel),
                     old(TableFrames(tables)), old(fa.avail));
    }

    method Unmap(m: PhysMem, iova: nat, ghost fa: FrameAlloc) returns (r: Result<(), DomainError>)
      requires Valid(m, fa)
      modifies m
      ensures Valid(m, fa)
      ensures r == Err(Misaligned) <==> iova % 4096 != 0
      ensures r == Err(NotMapped) <==> iova % 4096 == 0 && PageIn(iova) !in old(View(m))
      ensures r.Err? ==> r.error in {Misaligned, NotMapped} && m.tab == old(m.tab)
      ensures r.Ok? ==> View(m) == old(View(m)) - {PageIn(iova)}
      ensures OthersUntouched(old(m.tab), m.tab, TableFrames(tables), {})
    {
      hide Pages, Lookup, PageLimit, FreeIn, TableFrames, PathOf, LinkOk, EncodeLink, EncodeLeaf, LeafOf;
      hide Present, LeafMapped, Index, LeafIsPage, AddrField, Missing, Grown, Shaped, LeavesArePages, OthersUntouched;
      NothingTouched(m.tab, TableFrames(tables), {});
      if iova % 4096 != 0 {
        return Err(Misaligned);
      }
      ghost var path := PathOf(iova / 4096, levels);
      var tablePhys := root;
      var last := levels - 1;
      assert path[..0] == [];
      RootIsTable(m.tab, S());
      var depth := 0;
      while depth < levels
        invariant 0 <= depth < levels && m.tab == old(m.tab)
        invariant path[..depth] in tables && tables[path[..depth]] == tablePhys
      {
        var idx := Index(iova, levels, depth);
        IndexIsDigit(iova, levels, depth);
        TableIsThere(m.tab, S(), path[..depth]);
        var (present, next) := Decode(fmt, m.tab[tablePhys][idx]);
        if depth < last {
          FollowLink(m.tab, S(), path[..depth], idx);
          assert path[..depth + 1] == path[..depth] + [idx];
        } else {
          LeafPresence(m.tab, S(), iova);
        }
        if !present {
          if depth < last {
            NothingBelow(m.tab, S(), iova, depth + 1);
          }
          return Err(NotMapped);
        }
        if depth == last {
          m.tab := Store(m.tab, tablePhys, idx, 0);
          ZeroIsAbsent(fmt);
          LeafStored(old(m.tab), S(), iova, 0, m.tab);
          InTableFrames(tables, path[..depth]);
          StoreTouchesOne(old(m.tab), old(m.tab), tablePhys, idx, 0, TableFrames(tables), {}, {}, TableFrames(tables));
          return Ok(());
        }
        tablePhys := next;
        depth := depth + 1;
      }
      assert false;
    }

    /** Return every table frame and forget the tree; a torn-down domain (root 0)
        is left as it is. Mapped frames are the caller's and stay allocated. */
    method Teardown(fa: FrameAlloc, m: PhysMem)
      requires PoolOk(fa) && (root != 0 ==> Valid(m, fa)) && (root == 0 ==> tables == map[])
      modifies this, fa, fa.bitmap
      ensures PoolOk(fa)
      ensures fa.avail == old(fa.avail) + old(TableFrames(tables))
      ensures root == 0 && tables == map[]
    {
      hide FreeIn, Shaped, Under, TableFrames, LeavesArePages;
      if root != 0 {
        RootIsTable(m.tab, S());
        UnderBelongs(m.tab, S(), [], 0);
        FramesAreOwned(tables, fa);
        FreeSubtree(fa, m, root, levels, S(), [], fmt);
        root := 0;
        tables := map[];
      } else {
        NoTables();
      }
    }

    /** What the device would be given for `iova`. */
    method Translate(m: PhysMem, iova: nat, ghost fa: FrameAlloc) returns (r: Option<nat>)
      requires Valid(m, fa)
      ensures r == if PageIn(iova) in View(m) then Some(View(m)[PageIn(iova)].frame + iova % 4096) else None
    {
      hide Pages, Lookup, PageLimit, FreeIn, TableFrames, PathOf, LinkOk, EncodeLink, EncodeLeaf, LeafOf;
      hide Present, LeafMapped, Index, LeafIsPage, AddrField, Missing, Grown, Shaped, LeavesArePages, OthersUntouched;
      ghost var path := PathOf(iova / 4096, levels);
      var tablePhys := root;
      var last := levels - 1;
      assert path[..0] == [];
      RootIsTable(m.tab, S());
      var depth := 0;
      while depth < levels
        invariant 0 <= depth < levels
        invariant path[..depth] in tables && tables[path[..depth]] == tablePhys
      {
        var idx := Index(iova, levels, depth);
        IndexIsDigit(iova, levels, depth);
        TableIsThere(m.tab, S(), path[..depth]);
        var (present, next) := Decode(fmt, m.tab[tablePhys][idx]);
        if depth < last {
          FollowLink(m.tab, S(), path[..depth], idx);
          assert path[..depth + 1] == path[..depth] + [idx];
        } else {
          LeafPresence(m.tab, S(), iova);
        }
        if !present {
          if depth < last {
            NothingBelow(m.tab, S(), iova, depth + 1);
          }
          return None;
        }
        if depth == last {
          return Some(next + iova % 4096);
        }
        tablePhys := next;
        depth := depth + 1;
      }
      assert false;
      return None;
    }
  }

  // ----- building and taking down a domain -----

  /** `Domain::new`: check the width, then allocate the root. */
  method NewDomain(fa: FrameAlloc, m: PhysMem, width: nat, fmt: PteFmt) returns (r: Result<Domain, DomainError>)
    requires PoolOk(fa)
    modifies fa, fa.bitmap, m
    ensures PoolOk(fa)
    ensures r.Err? ==> fa.avail == old(fa.avail) && m.tab == old(m.tab)
    ensures r == Err(UnsupportedWidth) <==> width !in {39, 48, 57}
    ensures r == Err(DomainError.Exhausted) <==> width in {39, 48, 57} && old(fa.avail) == {}
    ensures r.Err? ==> r.error in {UnsupportedWidth, DomainError.Exhausted}
    ensures r.Ok? ==>
      && fresh(r.value) && r.value.Valid(m, fa) && r.value.View(m) == map[]
      && r.value.root != 0 && r.value.fmt == fmt && r.value.levels == LevelsFor(width).value
      && TableFrames(r.value.tables) !! fa.avail && r.value.tables.Keys == {[]} && |fa.avail| + 1 == |old(fa.avail)|
      && old(fa.avail) == fa.avail + TableFrames(r.value.tables)
      && OthersUntouched(old(m.tab), m.tab, {}, old(fa.avail))
  {
    hide Pages, PageLimit, FreeIn, Shaped, LeavesArePages;
    var levels := LevelsFor(width);
    if levels.Err? {
      return Err(levels.error);
    }
    var root := AllocTable(fa, m);
    if root.Err? {
      return Err(root.error);
    }
    var d := new Domain(fa, m, levels.value, fmt, root.value);
    OneTable(root.value);
    return Ok(d);
  }

  lemma NoTables()
    ensures TableFrames(map[]) == {}
  {
  }

  lemma FramesAreOwned(tables: map<Path, nat>, fa: FrameAlloc)
    requires Owned(tables, fa)
    ensures forall f :: f in TableFrames(tables) ==> f < fa.frames && f !in fa.avail
  {
  }

  lemma OneTable(root: nat)
    ensures TableFrames(map[[] := root]) == {root / FRAME_SIZE}
  {
    InTableFrames(map[[] := root], []);
  }

  /** Frames of the tables at or below `p`. */
  ghost function Under(tables: map<Path, nat>, p: Path): set<nat> {
    set q | q in tables && p <= q :: tables[q] / FRAME_SIZE
  }

  /** Frames of the tables strictly below `p` through an entry before `n`. */
  ghost function UnderEntries(tables: map<Path, nat>, p: Path, n: nat): set<nat> {
    set q | q in tables && p < q && q[|p|] < n :: tables[q] / FRAME_SIZE
  }

  lemma UnderIsSelfAndEntries(tables: map<Path, nat>, p: Path)
    requires p in tables && forall q :: q in tables ==> IsPath(q)
    ensures Under(tables, p) == UnderEntries(tables, p, ENTRIES) + {tables[p] / FRAME_SIZE}
  {
    forall q | q in tables && p <= q && q != p ensures p < q && q[|p|] < ENTRIES { }
    forall f | f in Under(tables, p) ensures f in UnderEntries(tables, p, ENTRIES) + {tables[p] / FRAME_SIZE} {
      var q :| q in tables && p <= q && tables[q] / FRAME_SIZE == f;
      assert q != p ==> p < q;
    }
    assert p <= p;
  }

  lemma UnderEntriesStep(d: Shape, p: Path, n: nat)
    requires PathsOk(d) && p in d.tables && n < ENTRIES
    ensures UnderEntries(d.tables, p, n + 1)
         == UnderEntries(d.tables, p, n) + Under(d.tables, p + [n])
    ensures p + [n] !in d.tables ==> Under(d.tables, p + [n]) == {}
  {
    forall q | q in d.tables ensures p < q && q[|p|] == n <==> p + [n] <= q {
      if p < q && q[|p|] == n { assert q[..|p| + 1] == p + [n]; }
      if p + [n] <= q { assert q[..|p|] == (p + [n])[..|p|] == p; }
    }
    if p + [n] !in d.tables {
      forall q | q in d.tables ensures !(p + [n] <= q) {
        if p + [n] <= q { assert q[..|p| + 1] == p + [n]; PrefixIsTable(d, q, |p| + 1); }
      }
    }
  }

  /** Tables are closed under prefixes. */
  lemma {:induction false} PrefixIsTable(d: Shape, q: Path, k: nat)
    requires PathsOk(d) && q in d.tables && k <= |q|
    ensures q[..k] in d.tables
  {
    if k < |q| {
      assert HasParent(d, q);
      var parent := q[..|q| - 1];
      PrefixIsTable(d, parent, k);
      assert parent[..k] == q[..k];
    } else {
      assert q[..k] == q;
    }
  }

  /** Tables below different entries sit in different frames. */
  lemma EntriesAreDisjoint(mem: Mem, d: Shape, p: Path, n: nat)
    requires Shaped(mem, d)
    ensures UnderEntries(d.tables, p, n) !! Under(d.tables, p + [n])
    ensures p in d.tables ==> d.tables[p] / FRAME_SIZE !in UnderEntries(d.tables, p, n)
  {
    hide LinkOk;
    forall q, r | q in d.tables && r in d.tables && d.tables[q] / FRAME_SIZE == d.tables[r] / FRAME_SIZE
      ensures q == r
    {
      assert TableFrame(mem, d.tables[q]) && TableFrame(mem, d.tables[r]);
    }
    assert forall q :: p + [n] <= q ==> q[|p|] == n;
  }

  lemma UnderBelongs(mem: Mem, d: Shape, p: Path, i: nat)
    requires Shaped(mem, d)
    ensures Under(d.tables, p + [i]) <= Under(d.tables, p) <= TableFrames(d.tables)
    ensures Under(d.tables, []) == TableFrames(d.tables)
    ensures 0 !in TableFrames(d.tables)
  {
    hide LinkOk;
    forall q | q in d.tables && p + [i] <= q ensures p <= q { assert q[..|p|] == (p + [i])[..|p|] == p; }
    forall q | q in d.tables ensures d.tables[q] / FRAME_SIZE != 0 { assert TableFrame(mem, d.tables[q]); }
    assert forall q :: q in d.tables ==> [] <= q;
  }

  /** `free_subtree`: return the frame of every table at or below `p`, each once,
      and nothing else. `level` counts the levels from here to the leaves. */
  method FreeSubtree(fa: FrameAlloc, m: PhysMem, tablePhys: nat, level: nat, ghost d: Shape, ghost p: Path, fmt: PteFmt)
    requires PoolOk(fa) && Shaped(m.tab, d) && fmt == d.fmt
    requires p in d.tables && d.tables[p] == tablePhys && level == d.levels - |p|
    requires forall f :: f in Under(d.tables, p) ==> f < fa.frames && f !in fa.avail
    modifies fa, fa.bitmap
    ensures PoolOk(fa)
    ensures fa.avail == old(fa.avail) + Under(d.tables, p)
    decreases level, 1
  {
    hide FreeIn, Shaped, LinkOk, Under, UnderEntries, TableFrames, EncodeLink, Present, AddrField;
    hide FrameAlloc.Valid;
    ShapedPaths(m.tab, d);
    UnderIsSelfAndEntries(d.tables, p);
    UnderBelongs(m.tab, d, p, 0);
    if level > 1 {
      FreeEntries(fa, m, tablePhys, level, d, p, fmt);
    } else {
      LeafTableHasNoTables(d, p);
    }
    EntriesAreDisjoint(m.tab, d, p, ENTRIES);
    AddrIsFrame(m.tab, d, p);
    DeallocIsExact(fa);
    var freed := fa.Dealloc(tablePhys);
    assert freed.Ok?;
  }

  /** The loop over a table's entries, freeing the subtree behind each present one. */
  method FreeEntries(fa: FrameAlloc, m: PhysMem, tablePhys: nat, level: nat, ghost d: Shape, ghost p: Path, fmt: PteFmt)
    requires PoolOk(fa) && Shaped(m.tab, d) && fmt == d.fmt
    requires p in d.tables && d.tables[p] == tablePhys && level == d.levels - |p| > 1
    requires forall f :: f in Under(d.tables, p) ==> f < fa.frames && f !in fa.avail
    modifies fa, fa.bitmap
    ensures PoolOk(fa)
    ensures fa.avail == old(fa.avail) + UnderEntries(d.tables, p, ENTRIES)
    decreases level, 0
  {
    hide FreeIn, Shaped, LinkOk, Under, UnderEntries, TableFrames, EncodeLink, Present, AddrField;
    hide FrameAlloc.Valid;
    TableIsThere(m.tab, d, p);
    NoEntriesYet(d.tables, p);
    for i := 0 to ENTRIES
      invariant PoolOk(fa)
      invariant fa.avail == old(fa.avail) + UnderEntries(d.tables, p, i)
    {
      FollowLink(m.tab, d, p, i);
      EntryStep(m.tab, d, p, i);
      var (present, child) := Decode(fmt, m.tab[tablePhys][i]);
      if present {
        FreeSubtree(fa, m, child, level - 1, d, p + [i], fmt);
      }
    }
  }

  lemma DeallocIsExact(fa: FrameAlloc)
    requires PoolOk(fa)
    ensures fa.Valid() && forall i :: i in fa.avail ==> i < fa.frames
  {
  }

  lemma EntryStep(mem: Mem, d: Shape, p: Path, i: nat)
    requires Shaped(mem, d) && p in d.tables && i < ENTRIES
    ensures UnderEntries(d.tables, p, i + 1) == UnderEntries(d.tables, p, i) + Under(d.tables, p + [i])
    ensures p + [i] !in d.tables ==> Under(d.tables, p + [i]) == {}
    ensures forall f :: f in Under(d.tables, p + [i]) ==>
      f in Under(d.tables, p) && f !in UnderEntries(d.tables, p, i) && f != 0
  {
    hide Under, UnderEntries, TableFrames, LinkOk;
    UnderEntriesStep(d, p, i);
    EntriesAreDisjoint(mem, d, p, i);
    UnderBelongs(mem, d, p, i);
  }

  lemma ShapedPaths(mem: Mem, d: Shape)
    requires Shaped(mem, d)
    ensures PathsOk(d)
  {
  }

  lemma NoEntriesYet(tables: map<Path, nat>, p: Path)
    ensures UnderEntries(tables, p, 0) == {}
  {
  }

  lemma LeafTableHasNoTables(d: Shape, p: Path)
    requires PathsOk(d) && p in d.tables && |p| + 1 == d.levels
    ensures UnderEntries(d.tables, p, ENTRIES) == {}
  {
  }

  lemma AddrIsFrame(mem: Mem, d: Shape, p: Path)
    requires Shaped(mem, d) && p in d.tables
    ensures d.tables[p] % FRAME_SIZE == 0
  {
    assert TableFrame(mem, d.tables[p]);
  }

  // ----- the steps of a walk -----

  lemma RootIsTable(mem: Mem, d: Shape)
    requires Shaped(mem, d)
    ensures [] in d.tables && d.tables[[]] == d.root
  {
  }

  lemma TableIsThere(mem: Mem, d: Shape, p: Path)
    requires Shaped(mem, d) && p in d.tables
    ensures d.tables[p] in mem && |mem[d.tables[p]]| == ENTRIES
  {
  }

  lemma FollowLink(mem: Mem, d: Shape, p: Path, i: nat)
    requires Shaped(mem, d) && p in d.tables && |p| + 1 < d.levels && i < ENTRIES
    ensures d.tables[p] in mem && |mem[d.tables[p]]| == ENTRIES
    ensures Decode(d.fmt, mem[d.tables[p]][i]).0 <==> p + [i] in d.tables
    ensures p + [i] in d.tables ==> Decode(d.fmt, mem[d.tables[p]][i]).1 == d.tables[p + [i]]
  {
    assert LinkOk(mem, d, p, i);
    if p + [i] in d.tables {
      LinkRoundTrip(d.fmt, d.tables[p + [i]], d.levels - 1 - |p|);
      AddrOfTable(mem, d.tables[p + [i]]);
    }
  }

  /** At the last level: an entry is present exactly when its page is mapped. */
  lemma LeafPresence(mem: Mem, d: Shape, iova: nat)
    requires Shaped(mem, d)
    requires PathOf(iova / 4096, d.levels)[..d.levels - 1] in d.tables
    ensures var path := PathOf(iova / 4096, d.levels);
            var page := iova / 4096 % PageLimit(d.levels);
            var t := d.tables[path[..d.levels - 1]];
            && t in mem && |mem[t]| == ENTRIES
            && (Decode(d.fmt, mem[t][path[d.levels - 1]]).0 <==> page in Pages(mem, d))
            && (page in Pages(mem, d) ==> Pages(mem, d)[page].frame == Decode(d.fmt, mem[t][path[d.levels - 1]]).1)
  {
    PathOfWraps(iova / 4096, d.levels);
    PagesAt(mem, d, iova / 4096 % PageLimit(d.levels));
  }

  /** Where a table is missing, no page below is mapped. */
  lemma NothingBelow(mem: Mem, d: Shape, iova: nat, depth: nat)
    requires Shaped(mem, d) && depth < d.levels
    requires PathOf(iova / 4096, d.levels)[..depth] !in d.tables
    ensures iova / 4096 % PageLimit(d.levels) !in Pages(mem, d)
  {
    hide LinkOk, LeafOf;
    var path := PathOf(iova / 4096, d.levels);
    NoTableNoLeaf(d, path, depth);
    LookupMissing(mem, d, path);
    PathOfWraps(iova / 4096, d.levels);
    PagesAt(mem, d, iova / 4096 % PageLimit(d.levels));
  }

  /** Writing a leaf: shape kept, exactly one page of the map changed. */
  lemma LeafStored(mem: Mem, d: Shape, iova: nat, e: Word, mem': Mem)
    requires Shaped(mem, d) && LeavesArePages(mem, d)
    requires Present(d.fmt, e) ==> HwIsPage(d.fmt, e, 1)
    requires var path := PathOf(iova / 4096, d.levels);
             path[..d.levels - 1] in d.tables && mem' == Store(mem, d.tables[path[..d.levels - 1]], path[d.levels - 1], e)
    ensures Shaped(mem', d) && LeavesArePages(mem', d)
    ensures Pages(mem', d) == match LeafOf(d.fmt, e)
                              case Some(leaf) => Pages(mem, d)[iova / 4096 % PageLimit(d.levels) := leaf]
                              case None => Pages(mem, d) - {iova / 4096 % PageLimit(d.levels)}
  {
    hide LeafOf, Lookup, PathOf, LinkOk, Present, HwIsPage, PageLimit, Pages;
    var path := PathOf(iova / 4096, d.levels);
    PathOfWraps(iova / 4096, d.levels);
    SetLeaf(mem, d, path, e, mem');
    SetLeafPages(mem, d, iova / 4096 % PageLimit(d.levels), e, mem');
    forall p, i | p in d.tables && |p| + 1 == d.levels && 0 <= i < ENTRIES ensures LeafIsPage(mem', d, p, i) {
      assert LeafIsPage(mem, d, p, i);
    }
  }

  /** Linking a fresh table in: shape kept, represented map unchanged. */
  lemma LinkStored(mem: Mem, d: Shape, p: Path, i: nat, child: nat, mem': Mem, d': Shape)
    requires Shaped(mem, d) && LeavesArePages(mem, d)
    requires p in d.tables && |p| + 1 < d.levels && i < ENTRIES && p + [i] !in d.tables
    requires child != 0 && child % 4096 == 0 && child < ADDR_LIMIT && child !in d.tables.Values
    requires mem' == Store(mem[child := Zeros()], d.tables[p], i, EncodeLink(d.fmt, child, d.levels - 1 - |p|))
    requires d' == d.(tables := d.tables[p + [i] := child])
    ensures Shaped(mem', d') && LeavesArePages(mem', d')
    ensures Pages(mem', d') == Pages(mem, d)
  {
    hide LeafOf, Lookup, LinkOk, Present, HwIsPage, PageLimit, Pages, EncodeLink;
    AddTable(mem, d, p, i, child, mem', d');
    SameLookupsSamePages(mem, d, mem', d');
    ZeroIsAbsent(d.fmt);
    forall q, j | q in d'.tables && |q| + 1 == d'.levels && 0 <= j < ENTRIES ensures LeafIsPage(mem', d', q, j) {
      if q != p + [i] {
        assert LeafIsPage(mem, d, q, j);
        assert d.tables[q] in d.tables.Values;
      }
    }
  }

  /** A freshly allocated frame is none of the tree's tables. */
  lemma StillThere(mem: Mem, d: Shape, p: Path, child: nat, wasAvail: set<nat>, fa: FrameAlloc)
    requires Shaped(mem, d) && p in d.tables
    requires child / FRAME_SIZE in wasAvail && child % 4096 == 0
    requires fa.avail == wasAvail - {child / FRAME_SIZE}
    requires forall q :: q in d.tables ==> d.tables[q] / FRAME_SIZE !in wasAvail
    ensures child !in d.tables.Values
    ensures d.tables[p] in mem[child := Zeros()] && mem[child := Zeros()][d.tables[p]] == mem[d.tables[p]]
    ensures |mem[d.tables[p]]| == ENTRIES
  {
  }

  lemma NothingTouched(mem: Mem, mine: set<nat>, wasFree: set<nat>)
    ensures OthersUntouched(mem, mem, mine, wasFree)
  {
  }

  lemma StoreTouchesOne(mem0: Mem, mem: Mem, t: nat, i: nat, e: Word, mine: set<nat>, wasFree: set<nat>,
                        avail: set<nat>, owned: set<nat>)
    requires OthersUntouched(mem0, mem, mine, wasFree) && t in mem && i < |mem[t]|
    requires t / FRAME_SIZE in owned && avail + owned == wasFree + mine
    ensures OthersUntouched(mem0, Store(mem, t, i, e), mine, wasFree)
  {
    assert t / FRAME_SIZE in wasFree + mine;
  }

  lemma LinkTouchesTwo(mem: Mem, t: nat, i: nat, child: nat, e: Word, mine: set<nat>, wasFree: set<nat>)
    requires t in mem[child := Zeros()] && i < |mem[child := Zeros()][t]|
    requires t / FRAME_SIZE in mine && child / FRAME_SIZE in wasFree
    ensures OthersUntouched(mem, Store(mem[child := Zeros()], t, i, e), mine, wasFree)
  {
  }

  lemma UntouchedThenUntouched(mem0: Mem, mem1: Mem, mem2: Mem, mine: set<nat>, free: set<nat>,
                               mine1: set<nat>, free1: set<nat>)
    requires OthersUntouched(mem0, mem1, mine, free) && OthersUntouched(mem1, mem2, mine1, free1)
    requires free1 + mine1 == free + mine
    ensures OthersUntouched(mem0, mem2, mine, free)
  {
    forall a {:trigger a in mem2} | a in mem0 && a / FRAME_SIZE !in mine && a / FRAME_SIZE !in free
      ensures a in mem2 && mem2[a] == mem0[a]
    {
      assert a in mem1 && mem1[a] == mem0[a];
      assert a / FRAME_SIZE !in free + mine;
    }
  }

  lemma MappingNothing(now: map<nat, Leaf>, was: map<nat, Leaf>, page: nat, fmt: PteFmt, phys: nat, perms: nat)
    requires page !in was
    requires now == match LeafOf(fmt, EncodeLeaf(fmt, phys, perms))
                    case Some(leaf) => was[page := leaf]
                    case None => was - {page}
    requires LeafOf(fmt, EncodeLeaf(fmt, phys, perms)) == LeafMapped(fmt, phys, perms)
    ensures now == match LeafMapped(fmt, phys, perms)
                   case Some(leaf) => was[page := leaf]
                   case None => was
  {
    assert was - {page} == was;
  }

  // ----- counting the tables a map must add -----

  lemma KeysAdd(tables: map<Path, nat>, p: Path, child: nat)
    ensures tables[p := child].Keys == tables.Keys + {p}
  {
  }

  lemma MissingNothing(nodes: set<Path>, budget: nat, path: Path)
    requires path != []
    ensures Missing(nodes, path, |path| - 1) == 0
    ensures Grown(nodes, budget, path, |path| - 1) == (nodes, budget)
  {
  }

  lemma MissingStep(nodes: set<Path>, budget: nat, path: Path, depth: nat)
    requires depth + 1 < |path|
    ensures var next := path[..depth + 1];
      && Missing(nodes, path, depth) == (if next in nodes then 0 else 1) + Missing(nodes, path, depth + 1)
      && Grown(nodes, budget, path, depth)
         == if next in nodes then Grown(nodes, budget, path, depth + 1)
            else if budget == 0 then (nodes, 0)
            else Grown(nodes + {next}, budget - 1, path, depth + 1)
  {
  }

  lemma {:induction false} MissingAfterAdd(nodes: set<Path>, path: Path, depth: nat)
    requires depth + 1 < |path|
    ensures Missing(nodes + {path[..depth + 1]}, path, depth + 1) == Missing(nodes, path, depth + 1)
  {
    MissingIgnoresShorter(nodes, path, depth + 1, depth + 1);
  }

  lemma {:induction false} MissingIgnoresShorter(nodes: set<Path>, path: Path, k: nat, depth: nat)
    requires k <= depth < |path|
    ensures Missing(nodes + {path[..k]}, path, depth) == Missing(nodes, path, depth)
    decreases |path| - depth
  {
    if depth + 1 < |path| {
      assert |path[..depth + 1]| != |path[..k]|;
      MissingIgnoresShorter(nodes, path, k, depth + 1);
    }
  }

  /** A map takes what is missing or, where that is more than there is, every frame
      left; it builds one table from each frame it takes, and all of them exactly when
      the frames suffice. */
  lemma {:induction false} GrownTakesTheMissing(nodes: set<Path>, budget: nat, path: Path, depth: nat)
    requires depth < |path|
    ensures var (after, left) := Grown(nodes, budget, path, depth);
      && left == (if budget < Missing(nodes, path, depth) then 0 else budget - Missing(nodes, path, depth))
      && nodes <= after && |after| + left == |nodes| + budget
      && (Missing(nodes, path, depth) <= budget <==> forall k :: depth < k < |path| ==> path[..k] in after)
      && forall p :: p in after && p !in nodes ==> exists k :: depth < k < |path| && p == path[..k]
    decreases |path| - depth
  {
    if depth + 1 < |path| {
      var next := path[..depth + 1];
      if next in nodes {
        GrownTakesTheMissing(nodes, budget, path, depth + 1);
      } else if budget > 0 {
        MissingAfterAdd(nodes, path, depth);
        GrownTakesTheMissing(nodes + {next}, budget - 1, path, depth + 1);
      }
    }
  }
}
