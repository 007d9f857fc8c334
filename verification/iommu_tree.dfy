/** A DMA page-table tree as it lies in flat physical memory, and the finite map
    from device pages to leaves that it represents.

    `Shape.tables` records which table frame each index path reaches. It is the
    ownership picture the walker code never stores: from it come disjointness,
    the represented map, and the independence of two trees. */
module IommuTree {
  import opened Prelude
  import opened Words
  import opened IommuPte

  const ENTRIES: nat := 512
  const PAGE_SHIFT: nat := 12
  const INDEX_BITS: nat := 9

  /** Physical memory as the tables use it: frame address -> its 512 words. */
  type Mem = map<nat, seq<Word>>
  type Path = seq<nat>

  datatype Shape = Shape(fmt: PteFmt, levels: nat, root: nat, tables: map<Path, nat>)

  // ----- index paths -----

  /** The table index the walker computes: `(iova >> shift) & 511`. */
  function Index(iova: nat, levels: nat, depth: nat): (i: nat)
    requires depth < levels
    ensures i < ENTRIES
  {
    iova / Pow2(PAGE_SHIFT + (levels - 1 - depth) * INDEX_BITS) % ENTRIES
  }

  /** The `levels` base-512 digits of a page number, most significant first. */
  function PathOf(page: nat, levels: nat): (p: Path)
    ensures |p| == levels
    ensures forall k :: 0 <= k < |p| ==> p[k] < ENTRIES
  {
    if levels == 0 then [] else PathOf(page / ENTRIES, levels - 1) + [page % ENTRIES]
  }

  /** The page number a path spells. */
  function PageOf(p: Path): nat {
    if p == [] then 0 else PageOf(p[..|p| - 1]) * ENTRIES + p[|p| - 1]
  }

  function PageLimit(levels: nat): (n: nat)
    ensures n >= 1
  {
    if levels == 0 then 1 else ENTRIES * PageLimit(levels - 1)
  }

  predicate IsPath(p: Path) {
    forall k :: 0 <= k < |p| ==> p[k] < ENTRIES
  }

  lemma {:induction false} PageOfPath(page: nat, levels: nat)
    requires page < PageLimit(levels)
    ensures PageOf(PathOf(page, levels)) == page
  {
    if levels > 0 {
      PageOfPath(page / ENTRIES, levels - 1);
      var p := PathOf(page, levels);
      assert p[..|p| - 1] == PathOf(page / ENTRIES, levels - 1);
    }
  }

  lemma {:induction false} PathOfPage(p: Path)
    requires IsPath(p)
    ensures PageOf(p) < PageLimit(|p|)
    ensures PathOf(PageOf(p), |p|) == p
  {
    if p != [] {
      var front, last := p[..|p| - 1], p[|p| - 1];
      PathOfPage(front);
      assert (PageOf(front) * ENTRIES + last) / ENTRIES == PageOf(front);
      assert p == front + [last];
    }
  }

  /** Only the page number modulo the tree's width reaches the tree: a wider
      address aliases a narrow one. */
  lemma {:induction false} PathOfWraps(page: nat, levels: nat)
    ensures PathOf(page, levels) == PathOf(page % PageLimit(levels), levels)
    ensures page % PageLimit(levels) < PageLimit(levels)
  {
    if levels > 0 {
      var n := PageLimit(levels - 1);
      PathOfWraps(page / ENTRIES, levels - 1);
      ModSplit(page, n);
      assert page % (ENTRIES * n) / ENTRIES == page / ENTRIES % n;
      assert page % (ENTRIES * n) % ENTRIES == page % ENTRIES;
    }
  }

  lemma ModSplit(page: nat, n: nat)
    requires n >= 1
    ensures page % (ENTRIES * n) == page / ENTRIES % n * ENTRIES + page % ENTRIES
  {
    var q, r := page / ENTRIES / n, page / ENTRIES % n;
    var low := page % ENTRIES;
    assert page == (q * n + r) * ENTRIES + low == q * (ENTRIES * n) + (r * ENTRIES + low);
    assert r * ENTRIES + low < ENTRIES * n;
    QuotientIsUnique(page, ENTRIES * n, q, r * ENTRIES + low);
  }

  /** Shifting one level further is dividing by 512 once more. */
  lemma DivDiv(x: nat, a: nat, b: nat)
    requires a > 0 && b > 0
    ensures a * b > 0 && x / (a * b) == x / a / b
  {
    var q, r := x / a, x % a;
    var q2, r2 := q / b, q % b;
    assert x == q * a + r && q == q2 * b + r2;
    RadixPair(q2, b, r2, a, r);
  }

  lemma RadixPair(q: nat, b: nat, r2: nat, a: nat, r: nat)
    requires a > 0 && b > 0 && r2 < b && r < a
    ensures a * b > 0 && ((q * b + r2) * a + r) / (a * b) == q
  {
    var d := a * b;
    Regroup(q, b, r2, a);
    MulStep(r2, b, a);
    Commute(a, b);
    QuotientIsUnique((q * b + r2) * a + r, d, q, r2 * a + r);
  }

  lemma Commute(a: nat, b: nat)
    ensures a * b == b * a
  {
  }

  lemma Regroup(q: nat, b: nat, r: nat, a: nat)
    ensures (q * b + r) * a == q * (a * b) + r * a
  {
  }

  /** What the walker indexes with is the path's digit at that depth. */
  lemma {:induction false} IndexIsDigit(iova: nat, levels: nat, depth: nat)
    requires depth < levels
    ensures Index(iova, levels, depth) == PathOf(iova / 4096, levels)[depth]
    decreases levels
  {
    DigitByShift(iova / 4096, levels, depth);
    var k := levels - 1 - depth;
    Pow2Adds(PAGE_SHIFT, k * INDEX_BITS);
    assert Pow2(12) == 4096;
    DivDiv(iova, 4096, Pow2(k * INDEX_BITS));
  }

  lemma {:induction false} Pow2Adds(a: nat, b: nat)
    ensures Pow2(a + b) == Pow2(a) * Pow2(b)
  {
    if a > 0 {
      Pow2Adds(a - 1, b);
      assert 2 * (Pow2(a - 1) * Pow2(b)) == 2 * Pow2(a - 1) * Pow2(b);
    }
  }

  lemma {:induction false} DigitByShift(page: nat, levels: nat, depth: nat)
    requires depth < levels
    ensures PathOf(page, levels)[depth] == page / Pow2((levels - 1 - depth) * INDEX_BITS) % ENTRIES
    decreases levels
  {
    var k := levels - 1 - depth;
    if k > 0 {
      DigitByShift(page / ENTRIES, levels - 1, depth);
      assert k * INDEX_BITS == INDEX_BITS + (k - 1) * INDEX_BITS;
      Pow2Adds(INDEX_BITS, (k - 1) * INDEX_BITS);
      assert Pow2(9) == 512;
      DivDiv(page, ENTRIES, Pow2((k - 1) * INDEX_BITS));
    } else {
      assert Pow2(0) == 1;
    }
  }

  // ----- the tree in memory -----

  predicate TableFrame(mem: Mem, a: nat) {
    a != 0 && a % 4096 == 0 && a < ADDR_LIMIT && a in mem && |mem[a]| == ENTRIES
  }

  /** Entry `i` of the table at `p` is a link exactly when a table hangs there. */
  predicate LinkOk(mem: Mem, d: Shape, p: Path, i: nat)
    requires p in d.tables && d.tables[p] in mem && i < |mem[d.tables[p]]|
    requires |p| < d.levels
  {
    var e := mem[d.tables[p]][i];
    if p + [i] in d.tables
    then e == EncodeLink(d.fmt, d.tables[p + [i]], d.levels - 1 - |p|)
    else !Present(d.fmt, e)
  }

  predicate HasParent(d: Shape, p: Path) {
    p != [] ==> p[..|p| - 1] in d.tables
  }

  ghost predicate PathsOk(d: Shape) {
    && 1 <= d.levels <= 8
    && [] in d.tables && d.tables[[]] == d.root
    && (forall p :: p in d.tables ==> |p| < d.levels && IsPath(p))
    && (forall p {:trigger HasParent(d, p)} :: p in d.tables ==> HasParent(d, p))
    && (forall p, q :: p in d.tables && q in d.tables && d.tables[p] == d.tables[q] ==> p == q)
  }

  ghost predicate Shaped(mem: Mem, d: Shape) {
    && PathsOk(d)
    && (forall p :: p in d.tables ==> TableFrame(mem, d.tables[p]))
    && (forall p, i :: p in d.tables && |p| + 1 < d.levels && 0 <= i < ENTRIES ==> LinkOk(mem, d, p, i))
  }

  /** The leaf a full path reaches. */
  function Lookup(mem: Mem, d: Shape, path: Path): Option<Leaf>
    requires |path| == d.levels > 0
  {
    var p, i := path[..d.levels - 1], path[d.levels - 1];
    if p in d.tables && d.tables[p] in mem && i < |mem[d.tables[p]]|
    then LeafOf(d.fmt, mem[d.tables[p]][i])
    else None
  }

  function LookupPage(mem: Mem, d: Shape, page: nat): Option<Leaf>
    requires d.levels > 0
  {
    Lookup(mem, d, PathOf(page, d.levels))
  }

  /** The map the tree represents: device page -> leaf. */
  ghost function Pages(mem: Mem, d: Shape): map<nat, Leaf>
    requires d.levels > 0
  {
    map page | 0 <= page < PageLimit(d.levels) && LookupPage(mem, d, page).Some?
      :: LookupPage(mem, d, page).value
  }

  lemma PagesAt(mem: Mem, d: Shape, page: nat)
    requires d.levels > 0 && page < PageLimit(d.levels)
    ensures page in Pages(mem, d) <==> LookupPage(mem, d, page).Some?
    ensures page in Pages(mem, d) ==> Pages(mem, d)[page] == LookupPage(mem, d, page).value
  {
  }

  ghost predicate SameLookups(mem: Mem, d: Shape, mem': Mem, d': Shape)
    requires d.levels == d'.levels > 0
  {
    forall q: Path :: |q| == d.levels && IsPath(q) ==> Lookup(mem', d', q) == Lookup(mem, d, q)
  }

  lemma SameLookupsSamePages(mem: Mem, d: Shape, mem': Mem, d': Shape)
    requires d.levels == d'.levels > 0 && SameLookups(mem, d, mem', d')
    ensures Pages(mem', d') == Pages(mem, d)
  {
    hide Lookup, PageLimit;
    assert forall page :: LookupPage(mem', d', page) == LookupPage(mem, d, page);
  }

  // ----- the four ways a step touches memory -----

  function Zeros(): (z: seq<Word>)
    ensures |z| == ENTRIES && forall i :: 0 <= i < ENTRIES ==> z[i] == 0
  {
    seq(ENTRIES, _ => 0)
  }

  /** Write entry `i` of the table at `t`. */
  function Store(mem: Mem, t: nat, i: nat, e: Word): Mem
    requires t in mem && i < |mem[t]|
  {
    var row: seq<Word> := mem[t][i := e];
    mem[t := row]
  }

  /** A one-table tree. */
  lemma RootOnly(mem: Mem, fmt: PteFmt, levels: nat, root: nat)
    requires 1 <= levels <= 8
    requires TableFrame(mem, root) && mem[root] == Zeros()
    ensures Shaped(mem, Shape(fmt, levels, root, map[[] := root]))
    ensures Pages(mem, Shape(fmt, levels, root, map[[] := root])) == map[]
  {
    hide PageLimit, Lookup, PathOf, Shaped;
    var d := Shape(fmt, levels, root, map[[] := root]);
    RootShaped(mem, d);
    forall page ensures LookupPage(mem, d, page) == None { RootLookup(mem, d, PathOf(page, levels)); }
  }

  lemma RootShaped(mem: Mem, d: Shape)
    requires 1 <= d.levels <= 8 && d.tables == map[[] := d.root] && TableFrame(mem, d.root) && mem[d.root] == Zeros()
    ensures Shaped(mem, d)
  {
    hide Decode;
    assert forall p :: p in d.tables ==> p == [] && HasParent(d, p);
    forall p, i | p in d.tables && |p| + 1 < d.levels && 0 <= i < ENTRIES ensures LinkOk(mem, d, p, i) {
      assert mem[d.root][i] == 0;
      assert p + [i] !in d.tables;
    }
  }

  lemma RootLookup(mem: Mem, d: Shape, path: Path)
    requires |path| == d.levels > 0 && d.tables == map[[] := d.root] && d.root in mem && mem[d.root] == Zeros()
    ensures Lookup(mem, d, path) == None
  {
    AbsentLeaf(d.fmt);
  }

  lemma AbsentLeaf(fmt: PteFmt)
    ensures LeafOf(fmt, 0) == None
  {
  }

  /** Hanging a zeroed table on an absent entry: the link is the only change and
      the represented map does not move. */
  lemma AddTable(mem: Mem, d: Shape, p: Path, i: nat, child: nat, mem': Mem, d': Shape)
    requires Shaped(mem, d) && p in d.tables && |p| + 1 < d.levels && i < ENTRIES
    requires p + [i] !in d.tables
    requires child != 0 && child % 4096 == 0 && child < ADDR_LIMIT && child !in d.tables.Values
    requires mem' == Store(mem[child := Zeros()], d.tables[p], i, EncodeLink(d.fmt, child, d.levels - 1 - |p|))
    requires d' == d.(tables := d.tables[p + [i] := child])
    ensures Shaped(mem', d')
    ensures SameLookups(mem, d, mem', d')
  {
    hide LeafOf, EncodeLink, Present, Lookup;
    AddTablePaths(d, p, i, child);
    forall q | q in d.tables ensures d.tables[q] != child { assert d.tables[q] in d.tables.Values; }
    forall q, j | q in d'.tables && |q| + 1 < d'.levels && 0 <= j < ENTRIES
      ensures LinkOk(mem', d', q, j)
    {
      AddTableLink(mem, d, p, i, child, mem', d', q, j);
    }
    forall q: Path | |q| == d.levels && IsPath(q) ensures Lookup(mem', d', q) == Lookup(mem, d, q) {
      AddTableLookup(mem, d, p, i, child, mem', d', q);
    }
  }

  ghost predicate TableAdded(mem: Mem, d: Shape, p: Path, i: nat, child: nat, mem': Mem, d': Shape) {
    && Shaped(mem, d) && p in d.tables && |p| + 1 < d.levels && i < ENTRIES
    && p + [i] !in d.tables
    && (forall q :: q in d.tables ==> d.tables[q] != child)
    && mem' == Store(mem[child := Zeros()], d.tables[p], i, EncodeLink(d.fmt, child, d.levels - 1 - |p|))
    && d' == d.(tables := d.tables[p + [i] := child])
  }

  lemma AddTableLink(mem: Mem, d: Shape, p: Path, i: nat, child: nat, mem': Mem, d': Shape, q: Path, j: nat)
    requires TableAdded(mem, d, p, i, child, mem', d')
    requires q in d'.tables && |q| + 1 < d'.levels && j < ENTRIES
    ensures d'.tables[q] in mem' && |mem'[d'.tables[q]]| == ENTRIES
    ensures LinkOk(mem', d', q, j)
  {
    hide LeafOf, EncodeLink, Present;
    assert (q + [j])[..|q|] == q;
    assert (p + [i])[..|p|] == p;
    if q == p + [i] {
      ZeroIsAbsent(d.fmt);
      assert q + [j] in d.tables ==> HasParent(d, q + [j]);
    } else {
      assert LinkOk(mem, d, q, j);
      assert q + [j] == p + [i] ==> (q + [j])[|q|] == (p + [i])[|q|];
    }
  }

  lemma AddTableLookup(mem: Mem, d: Shape, p: Path, i: nat, child: nat, mem': Mem, d': Shape, q: Path)
    requires TableAdded(mem, d, p, i, child, mem', d')
    requires |q| == d.levels && IsPath(q)
    ensures Lookup(mem', d', q) == Lookup(mem, d, q)
  {
    hide LeafOf, EncodeLink, Present, LinkOk;
    var front := q[..d.levels - 1];
    if front == p + [i] {
      ZeroIsAbsent(d.fmt);
    } else if front in d.tables {
      assert front != p;
    }
  }

  lemma AddTablePaths(d: Shape, p: Path, i: nat, child: nat)
    requires PathsOk(d) && p in d.tables && |p| + 1 < d.levels && i < ENTRIES
    requires p + [i] !in d.tables && child !in d.tables.Values
    ensures PathsOk(d.(tables := d.tables[p + [i] := child]))
  {
    assert (p + [i])[..|p|] == p;
    forall q | q in d.tables ensures d.tables[q] != child { assert d.tables[q] in d.tables.Values; }
    var d' := d.(tables := d.tables[p + [i] := child]);
    forall q | q in d'.tables ensures HasParent(d', q) { assert q in d.tables ==> HasParent(d, q); }
  }

  lemma ZeroIsAbsent(fmt: PteFmt)
    ensures !Present(fmt, 0) && LeafOf(fmt, 0) == None
  {
  }

  /** Writing one leaf entry changes exactly one page of the represented map. */
  lemma SetLeaf(mem: Mem, d: Shape, path: Path, e: Word, mem': Mem)
    requires Shaped(mem, d) && |path| == d.levels && IsPath(path)
    requires path[..d.levels - 1] in d.tables
    requires mem' == Store(mem, d.tables[path[..d.levels - 1]], path[d.levels - 1], e)
    ensures Shaped(mem', d)
    ensures forall q: Path :: |q| == d.levels && IsPath(q) ==>
              Lookup(mem', d, q) == if q == path then LeafOf(d.fmt, e) else Lookup(mem, d, q)
  {
    hide LeafOf, EncodeLink, Present, Lookup;
    var p, i := path[..d.levels - 1], path[d.levels - 1];
    forall q, j | q in d.tables && |q| + 1 < d.levels && 0 <= j < ENTRIES ensures LinkOk(mem', d, q, j) {
      assert LinkOk(mem, d, q, j);
      assert q != p;
    }
    forall q: Path | |q| == d.levels && IsPath(q)
      ensures Lookup(mem', d, q) == if q == path then LeafOf(d.fmt, e) else Lookup(mem, d, q)
    {
      SetLeafLookup(mem, d, path, e, mem', q);
    }
  }

  lemma SetLeafLookup(mem: Mem, d: Shape, path: Path, e: Word, mem': Mem, q: Path)
    requires Shaped(mem, d) && |path| == |q| == d.levels && IsPath(path) && IsPath(q)
    requires path[..d.levels - 1] in d.tables
    requires mem' == Store(mem, d.tables[path[..d.levels - 1]], path[d.levels - 1], e)
    ensures Lookup(mem', d, q) == if q == path then LeafOf(d.fmt, e) else Lookup(mem, d, q)
  {
    hide LeafOf, LinkOk;
    var n := d.levels - 1;
    assert q == q[..n] + [q[n]] && path == path[..n] + [path[n]];
  }

  lemma SetLeafPages(mem: Mem, d: Shape, page: nat, e: Word, mem': Mem)
    requires d.levels > 0 && page < PageLimit(d.levels)
    requires forall q: Path :: |q| == d.levels && IsPath(q) ==>
               Lookup(mem', d, q) == if q == PathOf(page, d.levels) then LeafOf(d.fmt, e) else Lookup(mem, d, q)
    ensures Pages(mem', d) == match LeafOf(d.fmt, e)
                              case Some(leaf) => Pages(mem, d)[page := leaf]
                              case None => Pages(mem, d) - {page}
  {
    hide Lookup, PathOf, LeafOf;
    forall x | 0 <= x < PageLimit(d.levels)
      ensures LookupPage(mem', d, x) == if x == page then LeafOf(d.fmt, e) else LookupPage(mem, d, x)
    {
      PageOfPath(x, d.levels);
      PageOfPath(page, d.levels);
    }
    var want := match LeafOf(d.fmt, e)
                case Some(leaf) => Pages(mem, d)[page := leaf]
                case None => Pages(mem, d) - {page};
    forall x | 0 <= x < PageLimit(d.levels)
      ensures x in Pages(mem', d) <==> x in want
      ensures x in want ==> Pages(mem', d)[x] == want[x]
    {
      PagesAt(mem, d, x);
      PagesAt(mem', d, x);
    }
    assert forall x :: x in Pages(mem', d) ==> 0 <= x < PageLimit(d.levels);
  }

  /** A step that leaves this tree's own tables alone leaves the tree alone. */
  lemma Untouched(mem: Mem, mem': Mem, d: Shape)
    requires Shaped(mem, d)
    requires forall p :: p in d.tables ==> d.tables[p] in mem' && mem'[d.tables[p]] == mem[d.tables[p]]
    ensures Shaped(mem', d) && Pages(mem', d) == Pages(mem, d)
  {
    hide LeafOf, EncodeLink, Present, PathOf;
    forall q, j | q in d.tables && |q| + 1 < d.levels && 0 <= j < ENTRIES ensures LinkOk(mem', d, q, j) {
      assert LinkOk(mem, d, q, j);
    }
    SameLookupsSamePages(mem, d, mem', d);
  }

  // ----- the hardware's own walk -----

  /** The walk an IOMMU makes, from the formats' definitions: at every level the
      entry must be present and say what comes next, and the permissions are
      ANDed on the way down. */
  function HwWalk(mem: Mem, fmt: PteFmt, table: nat, level: nat, iova: nat): Option<Leaf>
    requires level > 0
    decreases level
  {
    if table !in mem || |mem[table]| != ENTRIES then None
    else
      var e := mem[table][Index(iova, level, 0)];
      if !Present(fmt, e) then None
      else if HwIsPage(fmt, e, level) then
        if level == 1 then LeafOf(fmt, e) else None
      else if HwIsNextTable(fmt, e, level) then
        match HwWalk(mem, fmt, AddrField(e), level - 1, iova)
        case None => None
        case Some(l) => Some(Leaf(l.frame, l.read && HwRead(fmt, e), l.write && HwWrite(fmt, e)))
      else None
  }

  /** Every entry of every leaf table is absent or a page, as far as the hardware
      is concerned: for AMD-Vi this is the Next Level field of a leaf. */
  ghost predicate LeavesArePages(mem: Mem, d: Shape) {
    forall p, i :: p in d.tables && |p| + 1 == d.levels && 0 <= i < ENTRIES ==> LeafIsPage(mem, d, p, i)
  }

  predicate LeafIsPage(mem: Mem, d: Shape, p: Path, i: nat)
    requires p in d.tables
  {
    d.tables[p] in mem && i < |mem[d.tables[p]]|
    && (Present(d.fmt, mem[d.tables[p]][i]) ==> HwIsPage(d.fmt, mem[d.tables[p]][i], 1))
  }

  /** The hardware resolves every address exactly as the represented map says,
      with the leaf's own permissions: no intermediate link takes any away. */
  lemma HardwareAgrees(mem: Mem, d: Shape, iova: nat)
    requires Shaped(mem, d) && LeavesArePages(mem, d)
    ensures HwWalk(mem, d.fmt, d.root, d.levels, iova)
         == LookupPage(mem, d, iova / 4096 % PageLimit(d.levels))
  {
    var path := PathOf(iova / 4096, d.levels);
    PathOfWraps(iova / 4096, d.levels);
    assert path[..0] == [];
    HardwareAgreesBelow(mem, d, iova, 0);
  }

  lemma {:induction false} HardwareAgreesBelow(mem: Mem, d: Shape, iova: nat, depth: nat)
    requires Shaped(mem, d) && LeavesArePages(mem, d) && depth < d.levels
    requires PathOf(iova / 4096, d.levels)[..depth] in d.tables
    ensures HwWalk(mem, d.fmt, d.tables[PathOf(iova / 4096, d.levels)[..depth]], d.levels - depth, iova)
         == Lookup(mem, d, PathOf(iova / 4096, d.levels))
    decreases d.levels - depth
  {
    hide LeafOf, EncodeLink, HwRead, HwWrite, HwIsPage, HwIsNextTable, PathOf, AddrField, Lookup, Index;
    var path := PathOf(iova / 4096, d.levels);
    var p, i := path[..depth], path[depth];
    IndexIsDigit(iova, d.levels, depth);
    IndexFromHere(iova, d.levels, depth);
    if depth + 1 == d.levels {
      HardwareAtLeaf(mem, d, iova, path);
    } else {
      assert LinkOk(mem, d, p, i);
      assert path[..depth + 1] == p + [i];
      if p + [i] in d.tables {
        LinkRoundTrip(d.fmt, d.tables[p + [i]], d.levels - 1 - depth);
        HardwareAgreesBelow(mem, d, iova, depth + 1);
        AddrOfTable(mem, d.tables[p + [i]]);
      } else {
        NoTableNoLeaf(d, path, depth + 1);
        LookupMissing(mem, d, path);
      }
    }
  }

  lemma IndexFromHere(iova: nat, levels: nat, depth: nat)
    requires depth < levels
    ensures Index(iova, levels - depth, 0) == Index(iova, levels, depth)
  {
  }

  lemma LookupMissing(mem: Mem, d: Shape, path: Path)
    requires |path| == d.levels > 0 && path[..|path| - 1] !in d.tables
    ensures Lookup(mem, d, path) == None
  {
  }

  lemma HardwareAtLeaf(mem: Mem, d: Shape, iova: nat, path: Path)
    requires Shaped(mem, d) && LeavesArePages(mem, d) && |path| == d.levels
    requires IsPath(path) && path[..d.levels - 1] in d.tables
    requires path[d.levels - 1] == Index(iova, 1, 0)
    ensures HwWalk(mem, d.fmt, d.tables[path[..d.levels - 1]], 1, iova) == Lookup(mem, d, path)
  {
    hide LeafOf, HwIsPage, HwIsNextTable, Index, LinkOk;
    var p, i := path[..d.levels - 1], path[d.levels - 1];
    assert LeafIsPage(mem, d, p, i);
    LeafAbsentIsNone(d.fmt, mem[d.tables[p]][i]);
  }

  lemma LeafAbsentIsNone(fmt: PteFmt, e: nat)
    ensures !Present(fmt, e) ==> LeafOf(fmt, e) == None
  {
  }

  lemma AddrOfTable(mem: Mem, a: nat)
    requires TableFrame(mem, a)
    ensures AddrField(a) == a
  {
  }

  /** Table paths are closed under prefixes, so a missing table hides all below. */
  lemma {:induction false} NoTableNoLeaf(d: Shape, path: Path, depth: nat)
    requires PathsOk(d) && depth < |path| <= d.levels
    requires path[..depth] !in d.tables
    ensures path[..|path| - 1] !in d.tables
  {
    if depth < |path| - 1 && path[..|path| - 1] in d.tables {
      var shorter := path[..|path| - 1];
      assert HasParent(d, shorter);
      assert shorter[..depth] == path[..depth];
      NoTableNoLeaf(d, shorter, depth);
    }
  }
}
