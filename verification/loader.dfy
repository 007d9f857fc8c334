/** Carrying out an accepted image: one frame per page, copied, mapped and recorded,
    then the stack; and undoing it when something runs out
    (kernel/src/process.rs). */
module Loader {
  import opened Prelude
  import opened FrameAllocator
  import opened Elf

  const USER_IMAGE_BASE: nat := 0x40_0000
  const USER_IMAGE_END: nat := 0x0F00_0000
  const USER_STACK_TOP: nat := 0x0FF0_0000
  const USER_STACK_PAGES: nat := 4

  datatype LoadError = BadImage(why: ElfError) | OutOfFrames | MapFailed

  /** A page-table entry as user code sees it; always present and user-accessible. */
  datatype Mapping = Mapping(phys: nat, writable: bool, executable: bool)

  /** One page to be set up: where, how, and with what bytes. */
  datatype PagePlan = PagePlan(va: nat, writable: bool, executable: bool, content: seq<Byte>)

  /** The page-table mapper: one entry more, or a refusal. It refuses an address that
      is mapped, and anything once it can make no more tables. */
  class AddressSpace {
    var pages: map<nat, Mapping>
    var spare: nat

    constructor (spare: nat)
      ensures pages == map[] && this.spare == spare
    {
      pages, this.spare := map[], spare;
    }

    method MapPage(va: nat, m: Mapping) returns (ok: bool)
      modifies this
      ensures ok <==> va !in old(pages) && old(spare) > 0
      ensures pages == if ok then old(pages)[va := m] else old(pages)
      ensures spare == if ok then old(spare) - 1 else old(spare)
    {
      if va in pages || spare == 0 {
        return false;
      }
      pages, spare := pages[va := m], spare - 1;
      return true;
    }

    method Unmap(va: nat)
      modifies this`pages
      ensures pages == old(pages) - {va}
    {
      pages := pages - {va};
    }
  }

  /** Physical memory through the kernel's full mapping, a frame at a time. */
  class FrameBytes {
    var at: map<nat, seq<Byte>>

    constructor ()
      ensures at == map[]
    {
      at := map[];
    }

    /** Zero the frame, then copy `data` to its start. */
    method Fill(phys: nat, data: seq<Byte>)
      requires |data| <= PAGE
      modifies this
      ensures at == old(at)[phys / FRAME_SIZE := Padded(data)]
    {
      var bytes := seq(PAGE, _ => 0);
      bytes := data + bytes[|data|..];
      at := at[phys / FRAME_SIZE := bytes];
      assert bytes == Padded(data);
    }
  }

  function Padded(data: seq<Byte>): (r: seq<Byte>)
    requires |data| <= PAGE
    ensures |r| == PAGE
  {
    data + seq(PAGE - |data|, _ => 0)
  }

  function Min(a: nat, b: nat): nat { if a < b then a else b }

  // ----- the plan -----

  /** The file's share of page `i`. */
  function FilePart(b: File, s: LoadSeg, i: nat): (r: seq<Byte>)
    requires s.offset + s.filesz <= |b|
    ensures |r| <= PAGE
  {
    if i * PAGE < s.filesz then b[s.offset + i * PAGE..s.offset + i * PAGE + Min(PAGE, s.filesz - i * PAGE)] else []
  }

  function PageOf(b: File, s: LoadSeg, i: nat): PagePlan
    requires s.offset + s.filesz <= |b|
  {
    PagePlan(PageVa(s, i), Writable(s.flags), Executable(s.flags), Padded(FilePart(b, s, i)))
  }

  function SegPlan(b: File, s: LoadSeg, n: nat): (r: seq<PagePlan>)
    requires s.offset + s.filesz <= |b|
    ensures |r| == n
  {
    seq(n, i requires 0 <= i < n => PageOf(b, s, i))
  }

  predicate InFile(segs: seq<LoadSeg>, fileLen: nat) {
    forall k :: 0 <= k < |segs| ==> segs[k].offset + segs[k].filesz <= fileLen
  }

  function ImagePlan(b: File, segs: seq<LoadSeg>): (r: seq<PagePlan>)
    requires InFile(segs, |b|)
    ensures |r| == TotalPages(segs)
  {
    if segs == [] then []
    else
      var n := |segs| - 1;
      ImagePlan(b, segs[..n]) + SegPlan(b, segs[n], Pages(segs[n]))
  }

  function StackPage(i: nat): PagePlan
    requires i < USER_STACK_PAGES
  {
    PagePlan(USER_STACK_TOP - (i + 1) * PAGE, true, false, Padded([]))
  }

  function StackPlan(n: nat): (r: seq<PagePlan>)
    requires n <= USER_STACK_PAGES
    ensures |r| == n
  {
    seq(n, i requires 0 <= i < n => StackPage(i))
  }

  function FullPlan(b: File, segs: seq<LoadSeg>): (r: seq<PagePlan>)
    requires InFile(segs, |b|)
    ensures |r| == TotalPages(segs) + USER_STACK_PAGES
  {
    ImagePlan(b, segs) + StackPlan(USER_STACK_PAGES)
  }

  /** Where page `i` of segment `k` stands in the plan. */
  function PlanIndex(segs: seq<LoadSeg>, k: nat, i: nat): nat
    requires k < |segs|
  {
    TotalPages(segs[..k]) + i
  }

  lemma {:induction false} TotalSplit(segs: seq<LoadSeg>, k: nat)
    requires k < |segs|
    ensures TotalPages(segs[..k]) + Pages(segs[k]) <= TotalPages(segs)
    ensures TotalPages(segs[..k + 1]) == TotalPages(segs[..k]) + Pages(segs[k])
  {
    var n := |segs| - 1;
    assert segs[..k + 1][..k] == segs[..k];
    if k == n {
      assert segs[..n + 1] == segs;
    } else {
      TotalSplit(segs[..n], k);
      assert segs[..n][..k] == segs[..k] && segs[..n][..k + 1] == segs[..k + 1];
    }
  }

  lemma {:induction false} PlanAt(b: File, segs: seq<LoadSeg>, k: nat, i: nat)
    requires InFile(segs, |b|) && k < |segs| && i < Pages(segs[k])
    ensures PlanIndex(segs, k, i) < TotalPages(segs)
    ensures ImagePlan(b, segs)[PlanIndex(segs, k, i)] == PageOf(b, segs[k], i)
  {
    hide Pages, PageOf, TotalPages;
    var n := |segs| - 1;
    TotalSplit(segs, k);
    if k < n {
      PlanAt(b, segs[..n], k, i);
      assert segs[..n][..k] == segs[..k];
      assert PlanIndex(segs, k, i) < |ImagePlan(b, segs[..n])|;
    } else {
      assert SegPlan(b, segs[n], Pages(segs[n]))[i] == PageOf(b, segs[n], i);
    }
  }

  /** Every entry of the image plan is some page of some segment. */
  lemma {:induction false} PlanSource(b: File, segs: seq<LoadSeg>, x: nat) returns (k: nat, i: nat)
    requires InFile(segs, |b|) && x < TotalPages(segs)
    ensures k < |segs| && i < Pages(segs[k]) && x == PlanIndex(segs, k, i)
    ensures ImagePlan(b, segs)[x] == PageOf(b, segs[k], i)
  {
    var n := |segs| - 1;
    if x < TotalPages(segs[..n]) {
      k, i := PlanSource(b, segs[..n], x);
      assert segs[..n][..k] == segs[..k];
    } else {
      k, i := n, x - TotalPages(segs[..n]);
      assert ImagePlan(b, segs)[x] == SegPlan(b, segs[n], Pages(segs[n]))[i];
    }
  }

  /** No page is planned twice, image pages never meet stack pages, and everything
      lies below the top of the stack. */
  lemma PlanIsInjective(b: File, segs: seq<LoadSeg>, lim: Limits, x: nat, y: nat)
    requires GoodImage(segs, |b|, lim) && lim.base == USER_IMAGE_BASE && lim.end == USER_IMAGE_END
    requires InFile(segs, |b|) && x < |FullPlan(b, segs)| && y < |FullPlan(b, segs)| && x != y
    ensures FullPlan(b, segs)[x].va != FullPlan(b, segs)[y].va
  {
    var total := TotalPages(segs);
    if x < total && y < total {
      var k, i := PlanSource(b, segs, x);
      var m, j := PlanSource(b, segs, y);
      if k == m {
        assert i != j;
      } else if k < m {
        assert Sound(segs[k], |b|, lim) && Sound(segs[m], |b|, lim);
        PagesApart(segs[m], segs[k], j, i);
      } else {
        assert Sound(segs[k], |b|, lim) && Sound(segs[m], |b|, lim);
        PagesApart(segs[k], segs[m], i, j);
      }
    } else if x < total {
      ImageBelowStack(b, segs, lim, x);
    } else if y < total {
      ImageBelowStack(b, segs, lim, y);
    }
  }

  lemma ImageBelowStack(b: File, segs: seq<LoadSeg>, lim: Limits, x: nat)
    requires GoodImage(segs, |b|, lim) && lim.base == USER_IMAGE_BASE && lim.end == USER_IMAGE_END
    requires InFile(segs, |b|) && x < TotalPages(segs)
    ensures USER_IMAGE_BASE <= ImagePlan(b, segs)[x].va && ImagePlan(b, segs)[x].va + PAGE <= USER_IMAGE_END
  {
    var k, i := PlanSource(b, segs, x);
    assert Sound(segs[k], |b|, lim);
    PageBeforeEnd(segs[k], i, USER_IMAGE_END);
  }

  /** No page of the plan is both writable and executable. */
  lemma PlanIsWx(b: File, segs: seq<LoadSeg>, lim: Limits, x: nat)
    requires GoodImage(segs, |b|, lim) && InFile(segs, |b|) && x < |FullPlan(b, segs)|
    ensures !(FullPlan(b, segs)[x].writable && FullPlan(b, segs)[x].executable)
  {
    if x < TotalPages(segs) {
      var k, i := PlanSource(b, segs, x);
      assert Sound(segs[k], |b|, lim);
    }
  }

  /** What a byte of a segment reads once its page is in place: the file below
      `filesz`, zero up to `memsz`. */
  lemma ByteOfSegment(b: File, s: LoadSeg, off: nat)
    requires s.offset + s.filesz <= |b| && off < s.memsz
    ensures off / PAGE < Pages(s)
    ensures PageOf(b, s, off / PAGE).content[off % PAGE] == if off < s.filesz then b[s.offset + off] else 0
  {
    var i := off / PAGE;
    assert off == i * PAGE + off % PAGE;
  }

  // ----- carrying it out -----

  /** What the page tables hold once the first pages of the plan are mapped to the
      frames `got`. */
  ghost function Mapped(was: map<nat, Mapping>, plan: seq<PagePlan>, got: seq<nat>): map<nat, Mapping>
    requires |got| <= |plan|
  {
    if got == [] then was
    else
      var n := |got| - 1;
      Mapped(was, plan, got[..n])[plan[n].va := Mapping(got[n], plan[n].writable, plan[n].executable)]
  }

  /** The first pages of the plan are filled, mapped and recorded, each in a frame of
      its own, and nothing else has changed. */
  ghost predicate Loaded(plan: seq<PagePlan>, got: seq<nat>, was: map<nat, Mapping>, pages: map<nat, Mapping>,
                         boot: seq<Option<(nat, nat)>>, at: map<nat, seq<Byte>>, wasAvail: set<nat>, avail: set<nat>) {
    && |got| <= |plan| && |got| <= |boot|
    && (forall k {:trigger got[k]} :: 0 <= k < |got| ==>
         && boot[k] == Some((plan[k].va, got[k])) && got[k] % FRAME_SIZE == 0 && got[k] / FRAME_SIZE in wasAvail
         && got[k] / FRAME_SIZE in at && at[got[k] / FRAME_SIZE] == plan[k].content && plan[k].va !in was)
    && (forall j, k :: 0 <= j < k < |got| ==> got[j] / FRAME_SIZE != got[k] / FRAME_SIZE)
    && (forall j, k :: 0 <= j < k < |got| ==> plan[j].va != plan[k].va)
    && (forall k :: |got| <= k < |boot| ==> boot[k] == None)
    && avail == wasAvail - FramesOf(got) && pages == Mapped(was, plan, got)
  }

  lemma LoadedNone(plan: seq<PagePlan>, was: map<nat, Mapping>, boot: seq<Option<(nat, nat)>>, at: map<nat, seq<Byte>>, avail: set<nat>)
    requires forall k :: 0 <= k < |boot| ==> boot[k] == None
    ensures Loaded(plan, [], was, was, boot, at, avail, avail)
  {
  }

  lemma {:induction false} MappedKeys(was: map<nat, Mapping>, plan: seq<PagePlan>, got: seq<nat>, va: nat)
    requires |got| <= |plan|
    ensures va in Mapped(was, plan, got) <==> va in was || exists k :: 0 <= k < |got| && plan[k].va == va
  {
    if got != [] {
      var n := |got| - 1;
      MappedKeys(was, plan, got[..n], va);
      if plan[n].va == va { assert plan[n].va == va; }
    }
  }

  lemma LoadedMore(plan: seq<PagePlan>, got: seq<nat>, was: map<nat, Mapping>, pages: map<nat, Mapping>, boot: seq<Option<(nat, nat)>>,
                   at: map<nat, seq<Byte>>, wasAvail: set<nat>, avail: set<nat>, phys: nat)
    requires Loaded(plan, got, was, pages, boot, at, wasAvail, avail) && |got| < |plan| && |got| < |boot|
    requires phys % FRAME_SIZE == 0 && phys / FRAME_SIZE in avail && plan[|got|].va !in pages
    ensures var p := plan[|got|];
            Loaded(plan, got + [phys], was, pages[p.va := Mapping(phys, p.writable, p.executable)],
                   boot[|got| := Some((p.va, phys))], at[phys / FRAME_SIZE := p.content], wasAvail, avail - {phys / FRAME_SIZE})
  {
    hide FrameAlloc.Valid;
    var n := |got|;
    var more := got + [phys];
    assert more[..n] == got;
    forall k | 0 <= k < n ensures plan[k].va != plan[n].va && got[k] / FRAME_SIZE != phys / FRAME_SIZE {
      MappedKeys(was, plan, got, plan[n].va);
      assert got[k] in got && got[k] / FRAME_SIZE in FramesOf(got);
    }
    MappedKeys(was, plan, got, plan[n].va);
    FramesMore(got, phys);
  }

  lemma FramesMore(got: seq<nat>, phys: nat)
    ensures FramesOf(got + [phys]) == FramesOf(got) + {phys / FRAME_SIZE}
  {
    var more := got + [phys];
    forall f | f in FramesOf(got) + {phys / FRAME_SIZE} ensures f in FramesOf(more) {
      if f in FramesOf(got) {
        var a :| a in got && a / FRAME_SIZE == f;
        assert a in more;
      } else {
        assert phys in more;
      }
    }
  }

  /** What a load started from. */
  datatype Job = Job(plan: seq<PagePlan>, was: map<nat, Mapping>, wasAvail: set<nat>, spare: nat)

  /** `got` pages of the job are done, and nothing else has happened. */
  ghost predicate OnTrack(job: Job, got: seq<nat>, fa: FrameAlloc, mem: FrameBytes, space: AddressSpace, boot: array<Option<(nat, nat)>>)
    reads fa, fa.bitmap, mem, space, boot
  {
    && fa.Valid() && |job.plan| <= boot.Length
    && Loaded(job.plan, got, job.was, space.pages, boot[..], mem.at, job.wasAvail, fa.avail)
    && space.spare + |got| == job.spare && |fa.avail| + |got| == |job.wasAvail|
  }

  /** The pages done stand recorded; `stray` is the frame a refused mapping left
      behind, if that is what went wrong. */
  ghost predicate Derailed(job: Job, got: seq<nat>, stray: set<nat>, e: LoadError, fa: FrameAlloc, space: AddressSpace, boot: array<Option<(nat, nat)>>)
    reads fa, fa.bitmap, space, boot
  {
    && fa.Valid() && |job.plan| <= boot.Length && |got| < |job.plan|
    && (exists at :: Loaded(job.plan, got, job.was, space.pages, boot[..], at, job.wasAvail, fa.avail + stray))
    && stray !! fa.avail && e in {OutOfFrames, MapFailed}
    && (e == OutOfFrames ==> stray == {} && |job.wasAvail| == |got|)
    && (e == MapFailed ==> |stray| == 1 && (job.spare == |got| || job.plan[|got|].va in Mapped(job.was, job.plan, got)))
  }

  /** One page: a frame, its bytes, its mapping, its record. */
  method LoadPage(fa: FrameAlloc, mem: FrameBytes, space: AddressSpace, boot: array<Option<(nat, nat)>>, data: seq<Byte>,
                  va: nat, writable: bool, executable: bool, next: nat, ghost job: Job, ghost got: seq<nat>)
    returns (r: Result<nat, LoadError>, ghost stray: set<nat>)
    requires OnTrack(job, got, fa, mem, space, boot) && |data| <= PAGE && next == |got| < |job.plan|
    requires job.plan[next] == PagePlan(va, writable, executable, Padded(data))
    modifies fa, fa.bitmap, mem, space, boot
    ensures r.Ok? ==> OnTrack(job, got + [r.value], fa, mem, space, boot)
    ensures r.Err? ==> Derailed(job, got, stray, r.error, fa, space, boot)
  {
    hide FrameAlloc.Valid, Loaded, Padded, Mapped, Derailed;
    stray := {};
    ghost var at0 := mem.at;
    LoadedFacts(job, got, space.pages, boot[..], mem.at, fa.avail);
    var got1 := fa.Alloc();
    if got1.Err? {
      assert fa.avail + stray == fa.avail;
      Derail(job, got, stray, OutOfFrames, fa, space, boot, at0);
      return Err(OutOfFrames), stray;
    }
    var phys := got1.value;
    TakenOut(old(fa.avail), phys / FRAME_SIZE);
    mem.Fill(phys, data);
    var ok := space.MapPage(va, Mapping(phys, writable, executable));
    if !ok {
      stray := {phys / FRAME_SIZE};
      assert fa.avail + stray == old(fa.avail);
      Derail(job, got, stray, MapFailed, fa, space, boot, at0);
      return Err(MapFailed), stray;
    }
    LoadedMore(job.plan, got, job.was, old(space.pages), boot[..], at0, job.wasAvail, old(fa.avail), phys);
    Note(boot, next, va, phys);
    return Ok(phys), stray;
  }

  lemma Derail(job: Job, got: seq<nat>, stray: set<nat>, e: LoadError, fa: FrameAlloc, space: AddressSpace,
               boot: array<Option<(nat, nat)>>, at: map<nat, seq<Byte>>)
    requires fa.Valid() && |got| < |job.plan| <= boot.Length && stray !! fa.avail && e in {OutOfFrames, MapFailed}
    requires Loaded(job.plan, got, job.was, space.pages, boot[..], at, job.wasAvail, fa.avail + stray)
    requires e == OutOfFrames ==> stray == {} && |job.wasAvail| == |got|
    requires e == MapFailed ==> |stray| == 1 && (job.spare == |got| || job.plan[|got|].va in Mapped(job.was, job.plan, got))
    ensures Derailed(job, got, stray, e, fa, space, boot)
  {
    hide FrameAlloc.Valid, Loaded, Mapped;
  }

  /** The record: within the array, because the page budget left room for the stack. */
  method Note(boot: array<Option<(nat, nat)>>, next: nat, va: nat, phys: nat)
    requires next < boot.Length
    modifies boot
    ensures boot[..] == old(boot[..])[next := Some((va, phys))]
  {
    boot[next] := Some((va, phys));
  }

  lemma LoadedFacts(job: Job, got: seq<nat>, pages: map<nat, Mapping>, boot: seq<Option<(nat, nat)>>, at: map<nat, seq<Byte>>, avail: set<nat>)
    requires Loaded(job.plan, got, job.was, pages, boot, at, job.wasAvail, avail)
    ensures |got| <= |job.plan| && pages == Mapped(job.was, job.plan, got)
  {
  }

  lemma TakenOut(s: set<nat>, x: nat)
    requires x in s
    ensures |s - {x}| == |s| - 1
  {
    assert s == (s - {x}) + {x};
  }

  /** The pages of one segment, after the `next` already done. */
  method LoadSegment(fa: FrameAlloc, mem: FrameBytes, space: AddressSpace, boot: array<Option<(nat, nat)>>, b: File, s: LoadSeg,
                     next: nat, ghost job: Job, ghost got0: seq<nat>)
    returns (r: Result<nat, LoadError>, ghost got: seq<nat>, ghost stray: set<nat>)
    requires OnTrack(job, got0, fa, mem, space, boot) && next == |got0| && s.offset + s.filesz <= |b|
    requires next + Pages(s) <= |job.plan| && forall i :: 0 <= i < Pages(s) ==> job.plan[next + i] == PageOf(b, s, i)
    modifies fa, fa.bitmap, mem, space, boot
    ensures r.Ok? ==> OnTrack(job, got, fa, mem, space, boot) && r.value == |got| == next + Pages(s)
    ensures r.Err? ==> Derailed(job, got, stray, r.error, fa, space, boot)
  {
    hide OnTrack, Derailed, Padded;
    got, stray := got0, {};
    for i := 0 to Pages(s)
      invariant OnTrack(job, got, fa, mem, space, boot) && |got| == next + i
    {
      assert job.plan[next + i] == PageOf(b, s, i);
      var one;
      one, stray := LoadPage(fa, mem, space, boot, FilePart(b, s, i), PageVa(s, i), Writable(s.flags), Executable(s.flags),
                             next + i, job, got);
      if one.Err? {
        return Err(one.error), got, stray;
      }
      got := got + [one.value];
    }
    return Ok(next + Pages(s)), got, stray;
  }

  /** The zeroed stack pages, from the top down. */
  method LoadStack(fa: FrameAlloc, mem: FrameBytes, space: AddressSpace, boot: array<Option<(nat, nat)>>,
                   next: nat, ghost job: Job, ghost got0: seq<nat>)
    returns (r: Result<nat, LoadError>, ghost got: seq<nat>, ghost stray: set<nat>)
    requires OnTrack(job, got0, fa, mem, space, boot) && next == |got0|
    requires next + USER_STACK_PAGES == |job.plan| && forall i :: 0 <= i < USER_STACK_PAGES ==> job.plan[next + i] == StackPage(i)
    modifies fa, fa.bitmap, mem, space, boot
    ensures r.Ok? ==> OnTrack(job, got, fa, mem, space, boot) && r.value == |got| == |job.plan|
    ensures r.Err? ==> Derailed(job, got, stray, r.error, fa, space, boot)
  {
    hide OnTrack, Derailed, Padded;
    got, stray := got0, {};
    for i := 0 to USER_STACK_PAGES
      invariant OnTrack(job, got, fa, mem, space, boot) && |got| == next + i
    {
      assert job.plan[next + i] == StackPage(i);
      var one;
      one, stray := LoadPage(fa, mem, space, boot, [], USER_STACK_TOP - (i + 1) * PAGE, true, false, next + i, job, got);
      if one.Err? {
        return Err(one.error), got, stray;
      }
      got := got + [one.value];
    }
    return Ok(next + USER_STACK_PAGES), got, stray;
  }

  // ----- rolling back -----

  lemma {:induction false} Unmapped(was: map<nat, Mapping>, plan: seq<PagePlan>, got: seq<nat>)
    requires |got| <= |plan| && forall k :: 0 <= k < |got| ==> plan[k].va !in was
    ensures Mapped(was, plan, got) - Vas(plan, |got|) == was
  {
    if got != [] {
      var n := |got| - 1;
      Unmapped(was, plan, got[..n]);
      assert Vas(plan, |got|) == Vas(plan, n) + {plan[n].va};
      assert Mapped(was, plan, got) - Vas(plan, |got|) == Mapped(was, plan, got[..n]) - Vas(plan, n) - {plan[n].va};
    } else {
      assert Vas(plan, 0) == {};
    }
  }

  ghost function Vas(plan: seq<PagePlan>, n: nat): set<nat>
    requires n <= |plan|
  {
    set k | 0 <= k < n :: plan[k].va
  }

  method UndoPage(fa: FrameAlloc, space: AddressSpace, va: nat, phys: nat)
    requires fa.Valid() && phys % FRAME_SIZE == 0 && phys / FRAME_SIZE < fa.frames && phys / FRAME_SIZE !in fa.avail
    modifies fa, fa.bitmap, space`pages
    ensures fa.Valid() && fa.avail == old(fa.avail) + {phys / FRAME_SIZE} && space.pages == old(space.pages) - {va}
  {
    hide FrameAlloc.Valid;
    space.Unmap(va);
    var _ := fa.Dealloc(phys);
  }

  /** Unmap and return everything recorded. What a refused mapping left behind was
      never recorded, and stays out of the pool. */
  method RollBack(fa: FrameAlloc, space: AddressSpace, boot: array<Option<(nat, nat)>>,
                  ghost job: Job, ghost got: seq<nat>, ghost stray: set<nat>, ghost e: LoadError)
    requires Derailed(job, got, stray, e, fa, space, boot) && forall f :: f in job.wasAvail ==> f < fa.frames
    modifies fa, fa.bitmap, space`pages
    ensures fa.Valid() && space.pages == job.was && fa.avail == job.wasAvail - stray && stray <= job.wasAvail
  {
    hide FrameAlloc.Valid, Derailed, Loaded, Mapped, Vas, FramesOf;
    ghost var pages0, avail0 := space.pages, fa.avail;
    DerailedFacts(job, got, stray, e, fa, space, boot);
    NoneYet(job, got);
    for n := 0 to boot.Length
      invariant fa.Valid()
      invariant space.pages == pages0 - Vas(job.plan, Min(n, |got|))
      invariant fa.avail == avail0 + FramesOf(got[..Min(n, |got|)])
    {
      assert n < |got| ==> boot[n] == Some((job.plan[n].va, got[n])) && got[n] % FRAME_SIZE == 0;
      if boot[n].Some? {
        var (va, phys) := boot[n].value;
        RollStep(job, got, n);
        UndoPage(fa, space, va, phys);
        assert pages0 - Vas(job.plan, n) - {va} == pages0 - Vas(job.plan, n + 1);
        assert avail0 + FramesOf(got[..n]) + {phys / FRAME_SIZE} == avail0 + FramesOf(got[..n + 1]);
      }
    }
    assert got[..|got|] == got;
    Unmapped(job.was, job.plan, got);
  }

  lemma NoneYet(job: Job, got: seq<nat>)
    ensures Vas(job.plan, 0) == {} && FramesOf(got[..0]) == {}
  {
  }

  lemma DerailedFacts(job: Job, got: seq<nat>, stray: set<nat>, e: LoadError, fa: FrameAlloc, space: AddressSpace, boot: array<Option<(nat, nat)>>)
    requires Derailed(job, got, stray, e, fa, space, boot)
    ensures fa.Valid() && |got| < |job.plan| <= boot.Length
    ensures space.pages == Mapped(job.was, job.plan, got) && fa.avail == job.wasAvail - FramesOf(got) - stray
    ensures stray <= job.wasAvail && stray !! FramesOf(got) && FramesOf(got) <= job.wasAvail
    ensures forall k {:trigger got[k]} :: 0 <= k < |got| ==>
      boot[k] == Some((job.plan[k].va, got[k])) && got[k] % FRAME_SIZE == 0
    ensures forall k :: 0 <= k < |got| ==> job.plan[k].va !in job.was
    ensures forall k :: |got| <= k < boot.Length ==> boot[k] == None
    ensures forall j, k :: 0 <= j < k < |got| ==> got[j] / FRAME_SIZE != got[k] / FRAME_SIZE
  {
    hide FrameAlloc.Valid;
    var at :| Loaded(job.plan, got, job.was, space.pages, boot[..], at, job.wasAvail, fa.avail + stray);
    forall f | f in FramesOf(got) ensures f in job.wasAvail {
      var k :| 0 <= k < |got| && got[k] / FRAME_SIZE == f;
    }
    forall k | 0 <= k < |got| ensures job.plan[k].va !in job.was {
      assert got[k] % FRAME_SIZE == 0;
    }
    assert fa.avail == (fa.avail + stray) - stray;
  }

  lemma RollStep(job: Job, got: seq<nat>, n: nat)
    requires n < |got| <= |job.plan| && forall j, k :: 0 <= j < k < |got| ==> got[j] / FRAME_SIZE != got[k] / FRAME_SIZE
    ensures Vas(job.plan, n + 1) == Vas(job.plan, n) + {job.plan[n].va}
    ensures FramesOf(got[..n + 1]) == FramesOf(got[..n]) + {got[n] / FRAME_SIZE}
    ensures got[n] / FRAME_SIZE !in FramesOf(got[..n]) && got[n] / FRAME_SIZE in FramesOf(got)
  {
    FramesMore(got[..n], got[n]);
    assert got[..n] + [got[n]] == got[..n + 1];
    assert got[n] in got;
    forall a | a in got[..n] ensures a / FRAME_SIZE != got[n] / FRAME_SIZE {
      var k :| 0 <= k < n && got[k] == a;
    }
  }

  // ----- the whole load -----

  /** `load_and_map`: validate first, then carry out the plan. On success the address
      space has gained exactly the plan's pages, in distinct frames holding their
      bytes, all recorded; it succeeds exactly when the image is good and nothing runs
      out. A failure leaves the address space as it was, and every frame is returned
      but the one a refused mapping had already taken. */
  method LoadAndMap(b: File, fa: FrameAlloc, mem: FrameBytes, space: AddressSpace, boot: array<Option<(nat, nat)>>)
    returns (r: Result<nat, LoadError>, ghost got: seq<nat>, ghost stray: set<nat>)
    requires fa.Valid() && |b| < U64 && boot.Length >= USER_STACK_PAGES && forall k :: 0 <= k < boot.Length ==> boot[k] == None
    modifies fa, fa.bitmap, mem, space, boot
    ensures fa.Valid()
    ensures var verdict := Verdict(b, LimitsFor(boot.Length));
      verdict.Err? ==>
        r == Err(BadImage(verdict.error)) && space.pages == old(space.pages) && fa.avail == old(fa.avail) && stray == {}
    ensures Verdict(b, LimitsFor(boot.Length)).Ok? ==> InFile(Verdict(b, LimitsFor(boot.Length)).value.segs, |b|)
    ensures Verdict(b, LimitsFor(boot.Length)).Ok? ==>
      var plan := FullPlan(b, Verdict(b, LimitsFor(boot.Length)).value.segs);
      r.Ok? <==> |old(fa.avail)| >= |plan| && old(space.spare) >= |plan| && Vas(plan, |plan|) !! old(space.pages).Keys
    ensures r.Ok? ==>
      && Verdict(b, LimitsFor(boot.Length)).Ok? && r.value == Verdict(b, LimitsFor(boot.Length)).value.entry
      && var plan := FullPlan(b, Verdict(b, LimitsFor(boot.Length)).value.segs);
         |got| == |plan| && Loaded(plan, got, old(space.pages), space.pages, boot[..], mem.at, old(fa.avail), fa.avail)
    ensures r.Err? ==>
      && space.pages == old(space.pages) && fa.avail == old(fa.avail) - stray && stray <= old(fa.avail)
      && |stray| == (if r.error == MapFailed then 1 else 0)
  {
    hide OnTrack, Derailed, FrameAlloc.Valid, FullPlan, Loaded, Verdict, GoodImage, Vas, EntryOk;
    var lim := LimitsFor(boot.Length);
    got, stray := [], {};
    ghost var was, wasAvail := space.pages, fa.avail;
    FramesInRange(fa);
    var parsed := Parse(b, lim);
    if parsed.Err? {
      return Err(BadImage(parsed.error)), got, stray;
    }
    AcceptedExactly(b, lim);
    var segs := parsed.value.segs;
    GoodIsInFile(segs, |b|, lim);
    ghost var plan := FullPlan(b, segs);
    ghost var job := Job(plan, was, wasAvail, space.spare);
    StartOfJob(job, fa, mem, space, boot);
    var setup;
    setup, got, stray := SetUp(fa, mem, space, boot, b, segs, lim, job);
    if setup.Err? {
      WhyDerailed(b, segs, lim, job, got, stray, setup.error, fa, space, boot);
      RollBack(fa, space, boot, job, got, stray, setup.error);
      return Err(setup.error), got, stray;
    }
    WhySucceeded(job, got, fa, mem, space, boot);
    return Ok(parsed.value.entry), got, stray;
  }

  /** The image window, and what the record array leaves for it beside the stack. */
  function LimitsFor(bootLen: nat): Limits {
    Limits(USER_IMAGE_BASE, USER_IMAGE_END, if bootLen < USER_STACK_PAGES then 0 else bootLen - USER_STACK_PAGES)
  }

  lemma FramesInRange(fa: FrameAlloc)
    requires fa.Valid()
    ensures forall f :: f in fa.avail ==> f < fa.frames
  {
  }

  lemma GoodIsInFile(segs: seq<LoadSeg>, fileLen: nat, lim: Limits)
    requires GoodImage(segs, fileLen, lim)
    ensures InFile(segs, fileLen) && TotalPages(segs) <= lim.maxPages
  {
    forall k | 0 <= k < |segs| ensures segs[k].offset + segs[k].filesz <= fileLen {
      assert Sound(segs[k], fileLen, lim);
    }
  }

  lemma StartOfJob(job: Job, fa: FrameAlloc, mem: FrameBytes, space: AddressSpace, boot: array<Option<(nat, nat)>>)
    requires fa.Valid() && job.was == space.pages && job.wasAvail == fa.avail && job.spare == space.spare
    requires |job.plan| <= boot.Length && forall k :: 0 <= k < boot.Length ==> boot[k] == None
    ensures OnTrack(job, [], fa, mem, space, boot)
  {
    LoadedNone(job.plan, job.was, boot[..], mem.at, fa.avail);
  }

  /** The closure `setup`: every segment in order, then the stack. */
  method SetUp(fa: FrameAlloc, mem: FrameBytes, space: AddressSpace, boot: array<Option<(nat, nat)>>, b: File, segs: seq<LoadSeg>,
               ghost lim: Limits, ghost job: Job)
    returns (r: Result<nat, LoadError>, ghost got: seq<nat>, ghost stray: set<nat>)
    requires OnTrack(job, [], fa, mem, space, boot) && InFile(segs, |b|) && job.plan == FullPlan(b, segs)
    modifies fa, fa.bitmap, mem, space, boot
    ensures r.Ok? ==> OnTrack(job, got, fa, mem, space, boot) && |got| == |job.plan|
    ensures r.Err? ==> Derailed(job, got, stray, r.error, fa, space, boot)
  {
    hide OnTrack, Derailed, Pages, PageOf, TotalPages, ImagePlan, StackPage;
    got, stray := [], {};
    var next := 0;
    assert TotalPages(segs[..0]) == 0 by { NoPages(segs); }
    for k := 0 to |segs|
      invariant OnTrack(job, got, fa, mem, space, boot) && next == |got| == TotalPages(segs[..k])
    {
      TotalSplit(segs, k);
      forall i | 0 <= i < Pages(segs[k]) ensures job.plan[next + i] == PageOf(b, segs[k], i) {
        PlanAt(b, segs, k, i);
      }
      var one;
      one, got, stray := LoadSegment(fa, mem, space, boot, b, segs[k], next, job, got);
      if one.Err? {
        return one, got, stray;
      }
      next := one.value;
    }
    assert segs[..|segs|] == segs;
    r, got, stray := LoadStack(fa, mem, space, boot, next, job, got);
  }

  lemma NoPages(segs: seq<LoadSeg>)
    ensures TotalPages(segs[..0]) == 0
  {
  }

  lemma InVas(plan: seq<PagePlan>, k: nat)
    requires k < |plan|
    ensures plan[k].va in Vas(plan, |plan|)
  {
  }

  lemma WhySucceeded(job: Job, got: seq<nat>, fa: FrameAlloc, mem: FrameBytes, space: AddressSpace, boot: array<Option<(nat, nat)>>)
    requires OnTrack(job, got, fa, mem, space, boot) && |got| == |job.plan|
    ensures |job.wasAvail| >= |job.plan| && job.spare >= |job.plan| && Vas(job.plan, |job.plan|) !! job.was.Keys
    ensures fa.Valid() && Loaded(job.plan, got, job.was, space.pages, boot[..], mem.at, job.wasAvail, fa.avail)
  {
    forall k | 0 <= k < |job.plan| ensures job.plan[k].va !in job.was {
      assert got[k] % FRAME_SIZE == 0;
    }
  }

  /** A derailed load really was short of something: frames, mappings, or a free
      address. */
  lemma WhyDerailed(b: File, segs: seq<LoadSeg>, lim: Limits, job: Job, got: seq<nat>, stray: set<nat>, e: LoadError,
                    fa: FrameAlloc, space: AddressSpace, boot: array<Option<(nat, nat)>>)
    requires Derailed(job, got, stray, e, fa, space, boot) && InFile(segs, |b|) && job.plan == FullPlan(b, segs)
    requires GoodImage(segs, |b|, lim) && lim.base == USER_IMAGE_BASE && lim.end == USER_IMAGE_END
    ensures !(|job.wasAvail| >= |job.plan| && job.spare >= |job.plan| && Vas(job.plan, |job.plan|) !! job.was.Keys)
    ensures e in {OutOfFrames, MapFailed} && |stray| == if e == MapFailed then 1 else 0
  {
    hide FullPlan, GoodImage, Loaded;
    var n := |got|;
    if e == MapFailed && job.spare != n {
      MappedKeys(job.was, job.plan, got, job.plan[n].va);
      forall k | 0 <= k < n ensures job.plan[k].va != job.plan[n].va {
        PlanIsInjective(b, segs, lim, k, n);
      }
      InVas(job.plan, n);
    }
  }

  /** What user code reads after a successful load: byte `off` of segment `k` is the
      file's byte below `filesz` and zero above it, through a mapping that is never
      both writable and executable. */
  lemma UserReads(b: File, segs: seq<LoadSeg>, lim: Limits, got: seq<nat>, was: map<nat, Mapping>, pages: map<nat, Mapping>,
                  boot: seq<Option<(nat, nat)>>, at: map<nat, seq<Byte>>, wasAvail: set<nat>, avail: set<nat>, k: nat, off: nat)
    requires GoodImage(segs, |b|, lim) && lim.base == USER_IMAGE_BASE && lim.end == USER_IMAGE_END && InFile(segs, |b|)
    requires k < |segs| && off < segs[k].memsz && |got| == |FullPlan(b, segs)|
    requires Loaded(FullPlan(b, segs), got, was, pages, boot, at, wasAvail, avail)
    ensures var va := segs[k].vaddr + off;
            && va - va % PAGE in pages
            && var m := pages[va - va % PAGE];
               && !(m.writable && m.executable) && m.writable == Writable(segs[k].flags) && m.executable == Executable(segs[k].flags)
               && m.phys / FRAME_SIZE in at && va % PAGE < |at[m.phys / FRAME_SIZE]|
               && at[m.phys / FRAME_SIZE][va % PAGE] == if off < segs[k].filesz then b[segs[k].offset + off] else 0
  {
    hide Loaded, GoodImage, Mapped, FullPlan, PlanIndex, FilePart, Padded;
    var i := off / PAGE;
    var s := segs[k];
    ByteOfSegment(b, s, off);
    PlannedAt(b, segs, k, i);
    var x := PlanIndex(segs, k, i);
    var plan := FullPlan(b, segs);
    PlanIsWx(b, segs, lim, x);
    SegmentAligned(segs, |b|, lim, k);
    PageStart(s.vaddr, off);
    PlacedAt(plan, got, was, pages, boot, at, wasAvail, avail, x);
  }

  /** And its stack: the sixteen kilobytes below 0xFF00000, every byte zero, to be
      written and never executed. */
  lemma StackReads(b: File, segs: seq<LoadSeg>, got: seq<nat>, was: map<nat, Mapping>, pages: map<nat, Mapping>,
                   boot: seq<Option<(nat, nat)>>, at: map<nat, seq<Byte>>, wasAvail: set<nat>, avail: set<nat>, va: nat)
    requires InFile(segs, |b|) && |got| == |FullPlan(b, segs)|
    requires Loaded(FullPlan(b, segs), got, was, pages, boot, at, wasAvail, avail)
    requires 0x0FF0_0000 - 0x4000 <= va < 0x0FF0_0000
    ensures va - va % PAGE in pages
            && var m := pages[va - va % PAGE];
               && m.writable && !m.executable && m.phys / FRAME_SIZE in at
               && va % PAGE < |at[m.phys / FRAME_SIZE]| && at[m.phys / FRAME_SIZE][va % PAGE] == 0
  {
    hide Loaded, Mapped, ImagePlan, TotalPages;
    var i := (USER_STACK_TOP - 1 - va) / PAGE;
    var x := TotalPages(segs) + i;
    assert FullPlan(b, segs)[x] == StackPage(i);
    assert StackPage(i).va == va - va % PAGE;
    PlacedAt(FullPlan(b, segs), got, was, pages, boot, at, wasAvail, avail, x);
  }

  lemma PlannedAt(b: File, segs: seq<LoadSeg>, k: nat, i: nat)
    requires InFile(segs, |b|) && k < |segs| && i < Pages(segs[k])
    ensures PlanIndex(segs, k, i) < |FullPlan(b, segs)|
    ensures FullPlan(b, segs)[PlanIndex(segs, k, i)] == PageOf(b, segs[k], i)
  {
    hide ImagePlan, PageOf, PlanIndex;
    PlanAt(b, segs, k, i);
  }

  lemma SegmentAligned(segs: seq<LoadSeg>, fileLen: nat, lim: Limits, k: nat)
    requires GoodImage(segs, fileLen, lim) && k < |segs|
    ensures segs[k].vaddr % PAGE == 0
  {
    assert Sound(segs[k], fileLen, lim);
  }

  lemma PageStart(base: nat, off: nat)
    requires base % PAGE == 0
    ensures (base + off) % PAGE == off % PAGE
    ensures base + off - (base + off) % PAGE == base + off / PAGE * PAGE
  {
  }

  lemma PlacedAt(plan: seq<PagePlan>, got: seq<nat>, was: map<nat, Mapping>, pages: map<nat, Mapping>,
                 boot: seq<Option<(nat, nat)>>, at: map<nat, seq<Byte>>, wasAvail: set<nat>, avail: set<nat>, x: nat)
    requires Loaded(plan, got, was, pages, boot, at, wasAvail, avail) && x < |got|
    ensures plan[x].va in pages && pages[plan[x].va] == Mapping(got[x], plan[x].writable, plan[x].executable)
    ensures got[x] / FRAME_SIZE in at && at[got[x] / FRAME_SIZE] == plan[x].content
  {
    assert got[x] % FRAME_SIZE == 0;
    MappedAt(was, plan, got, x);
  }

  lemma {:induction false} MappedAt(was: map<nat, Mapping>, plan: seq<PagePlan>, got: seq<nat>, x: nat)
    requires x < |got| <= |plan| && forall j, k :: 0 <= j < k < |got| ==> plan[j].va != plan[k].va
    ensures plan[x].va in Mapped(was, plan, got)
    ensures Mapped(was, plan, got)[plan[x].va] == Mapping(got[x], plan[x].writable, plan[x].executable)
  {
    if x < |got| - 1 { MappedAt(was, plan, got[..|got| - 1], x); }
  }
}
