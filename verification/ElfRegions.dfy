/** From the regions of a dump and the segments of the original file to the memory the rebuilt file loads as. */
module ElfRegions {
  import opened Bytes
  import opened Wrappers
  import opened ElfPages
  import opened ElfClassify
  import opened ElfFormat
  import opened ElfBuilder
  import opened ElfImage

  lemma {:induction false} MergedPages(regions: seq<Region>)
    ensures PageMap(Merged(regions))
    ensures forall p: nat :: p in Merged(regions) <==>
                               exists i :: 0 <= i < |regions| && Touches(p, regions[i].base, |regions[i].data|)
  {
    hide PageOf;
    if regions != [] {
      var n := |regions| - 1;
      MergedPages(regions[..n]);
      forall p: nat
        ensures p in Merged(regions) <==>
                  exists i :: 0 <= i < |regions| && Touches(p, regions[i].base, |regions[i].data|)
      {
        assert forall i | 0 <= i < n :: regions[..n][i] == regions[i];
      }
    }
  }

  /** The memory holds byte k of the region, or nothing at all when the page was taken for a library's. */
  ghost predicate DumpedByte(m: map<nat, Cell>, orig: Original, libraries: seq<Library>, region: Region, k: nat)
    requires k < |region.data|
  {
    var a := region.base + k;
    if AlignDown(a) !in orig.pages && IsLibrary(AlignDown(a), libraries) then a !in m
    else a in m && m[a].value == region.data[k]
  }

  /** When no two regions of a dump share a page, the rebuilt memory has each of their bytes, skipped libraries apart. */
  lemma {:induction false} DumpIsLoaded(m: map<nat, Cell>, orig: Original, dump: Dump, regions: seq<Region>, i: nat, k: nat)
    requires DenotesOverlay(m, orig, dump) && dump.pages == Merged(regions) && NoSharedPage(regions)
    requires i < |regions| && k < |regions[i].data|
    ensures DumpedByte(m, orig, dump.libraries, regions[i], k)
  {
    hide NoSharedPage, Merged, DenotesOverlay, IsLibrary, AlignDown;
    SurviveWithoutSharing(regions);
    assert ByteSurvives(regions, i, k);
    Overlaid(m, orig, dump, regions[i].base + k);
  }

  lemma {:induction false} Overlaid(m: map<nat, Cell>, orig: Original, dump: Dump, a: nat)
    requires DenotesOverlay(m, orig, dump)
    ensures OverlaidAt(m, orig, dump, a)
  {
  }

  /** The bytes of the original file that no dumped page replaces are loaded as they were. */
  lemma {:induction false} OriginalIsLoaded(m: map<nat, Cell>, orig: Original, dump: Dump, regions: seq<Region>, i: nat, k: nat)
    requires DenotesOverlay(m, orig, dump) && orig.pages == Merged(regions) && NoSharedPage(regions)
    requires i < |regions| && k < |regions[i].data| && AlignDown(regions[i].base + k) !in dump.pages
    ensures var a := regions[i].base + k; a in m && m[a].value == regions[i].data[k]
  {
    hide NoSharedPage, Merged, DenotesOverlay, IsLibrary, AlignDown;
    SurviveWithoutSharing(regions);
    assert ByteSurvives(regions, i, k);
    Overlaid(m, orig, dump, regions[i].base + k);
  }

  /** The cell has the rights of a protection: 1 to read, 2 to write, 4 to execute. */
  predicate HasRights(cell: Cell, prot: int) {
    && (cell.readable <==> prot % 2 == 1) && (cell.writable <==> prot / 2 % 2 == 1) && (cell.executable <==> prot / 4 % 2 == 1)
  }

  /** The page of the dump replaces whatever the file has there. */
  predicate Replaces(orig: Original, dump: Dump, p: nat) {
    p in dump.pages && (p !in orig.pages || orig.pages[p] != dump.pages[p])
  }

  /** A library whose base and size are known lies at p. */
  predicate Spans(l: Library, p: nat) {
    l.base != 0 && l.size != 0 && l.base <= p < l.base + l.size
  }

  lemma {:induction false} LibrarySpans(p: nat, libraries: seq<Library>)
    ensures IsLibrary(p, libraries) <==> exists l :: l in libraries && Spans(l, p)
  {
    if IsLibrary(p, libraries) {
      var i :| 0 <= i < |libraries| && Spans(libraries[i], p);
      assert libraries[i] in libraries;
    }
  }

  /** Which bytes and rights every address gets, page by page; a page without recorded rights can be read and executed. */
  lemma {:induction false} EveryAddress(m: map<nat, Cell>, orig: Original, dump: Dump, a: nat)
    requires DenotesOverlay(m, orig, dump) && PageMap(orig.pages) && PageMap(dump.pages)
    ensures var p := AlignDown(a);
            if Replaces(orig, dump, p) then
              if p !in orig.pages && exists l :: l in dump.libraries && Spans(l, p) then a !in m
              else
                && a in m && m[a].value == dump.pages[p][a - p]
                && HasRights(m[a], if p in dump.prots then dump.prots[p] else 5)
            else if p in orig.pages then
              && a in m && m[a].value == orig.pages[p][a - p]
              && HasRights(m[a], if p in orig.prots then orig.prots[p] else 5)
            else
              && (a in m <==> exists j :: 0 <= j < |orig.nobits| && AlignDown(orig.nobits[j].0) == p)
              && forall j | 0 <= j < |orig.nobits| && FirstNobits(orig.nobits, j, p) ::
                   a in m && m[a].value == 0 && HasRights(m[a], orig.nobits[j].1)
  {
    Overlaid(m, orig, dump, a);
    NobitsDecided(orig.nobits, AlignDown(a));
    LibrarySpans(AlignDown(a), dump.libraries);
    hide NobitsAt, DenotesOverlay, IsLibrary;
  }

  /** Entry j is the first that lies in the page at p. */
  predicate FirstNobits(nobits: seq<(nat, int)>, j: nat, p: nat)
    requires j < |nobits|
  {
    AlignDown(nobits[j].0) == p && forall i | 0 <= i < j :: AlignDown(nobits[i].0) != p
  }

  lemma {:induction false} NobitsDecided(nobits: seq<(nat, int)>, p: nat)
    ensures NobitsAt(nobits, p).Some? <==> exists j :: 0 <= j < |nobits| && AlignDown(nobits[j].0) == p
    ensures forall j | 0 <= j < |nobits| && FirstNobits(nobits, j, p) :: NobitsAt(nobits, p) == Some(nobits[j].1)
  {
    hide AlignDown;
    if nobits != [] {
      NobitsDecided(nobits[1..], p);
      assert forall j | 0 < j < |nobits| :: nobits[j] == nobits[1..][j - 1];
      forall j | 0 < j < |nobits| && FirstNobits(nobits, j, p) ensures FirstNobits(nobits[1..], j - 1, p) {
        assert forall i | 0 <= i < j - 1 :: nobits[1..][i] == nobits[i + 1];
      }
    }
  }

  /** Every page step of a NOBITS section is listed. */
  ghost predicate Steps(nobits: seq<(nat, int)>, vaddr: nat, size: nat) {
    forall n: nat | n < size && n % PAGE == 0 :: Lists(nobits, vaddr + n)
  }

  ghost predicate Lists(nobits: seq<(nat, int)>, addr: nat) {
    exists j :: 0 <= j < |nobits| && nobits[j].0 == addr
  }

  lemma {:induction false} ListedIsFound(nobits: seq<(nat, int)>, addr: nat)
    requires Lists(nobits, addr)
    ensures NobitsAt(nobits, AlignDown(addr)).Some?
  {
    var j :| 0 <= j < |nobits| && nobits[j].0 == addr;
    if j > 0 {
      assert nobits[1..][j - 1].0 == addr;
      ListedIsFound(nobits[1..], addr);
    }
  }

  /** A NOBITS section that does not spill into one more page is loaded as zeros wherever neither source has a page. */
  lemma {:induction false} NobitsAreLoaded(m: map<nat, Cell>, orig: Original, dump: Dump, vaddr: nat, size: nat, a: nat)
    requires DenotesOverlay(m, orig, dump) && Steps(orig.nobits, vaddr, size) && vaddr <= a < vaddr + size
    requires vaddr % PAGE + (size - 1) % PAGE < PAGE
    requires AlignDown(a) !in orig.pages && AlignDown(a) !in dump.pages
    ensures a in m && m[a].value == 0
  {
    var p := AlignDown(a);
    assert Touches(p, vaddr, size);
    NobitsCoverage(vaddr, size);
    StepReaches(vaddr, size, p);
    var n := p - AlignDown(vaddr);
    assert Lists(orig.nobits, vaddr + n);
    ListedIsFound(orig.nobits, vaddr + n);
    Overlaid(m, orig, dump, a);
  }

  lemma {:induction false} StepReaches(vaddr: nat, size: nat, p: nat)
    requires p % PAGE == 0 && AlignDown(vaddr) <= p < AlignDown(vaddr) + NobitsSpan(size)
    ensures var n := p - AlignDown(vaddr); n % PAGE == 0 && n < size && AlignDown(vaddr + n) == p
  {
    var n := p - AlignDown(vaddr);
    AlignStep(vaddr, n);
  }

  /** Splitting, merging, classifying and building: what the rebuilt file of regions puts in memory. */
  method RebuildRegions(
    segments: seq<Region>, segmentProts: map<nat, int>, nobits: seq<(nat, int)>,
    regions: seq<Region>, regionProts: map<nat, int>, libraries: seq<Library>,
    entry: int, arch: Arch, interp: seq<byte>, osabi: int)
    returns (r: Result<seq<byte>, BuildError>)
    ensures r.Ok? ==> Load(r.value).Some?
    ensures r.Ok? && NoSharedPage(regions) ==> forall i, k | 0 <= i < |regions| && 0 <= k < |regions[i].data| ::
              DumpedByte(Load(r.value).value, Original(Merged(segments), segmentProts, nobits), libraries, regions[i], k)
    ensures r.Ok? && NoSharedPage(segments) ==> forall i, k | 0 <= i < |segments| && 0 <= k < |segments[i].data| ::
              AlignDown(segments[i].base + k) in Merged(regions) || HoldsByte(Load(r.value).value, segments[i], k)
  {
    hide NoSharedPage, Merged, DenotesOverlay, IsLibrary, AlignDown, Load, DumpedByte;
    var filePages := MergeRegions(segments);
    var dumpPages := MergeRegions(regions);
    MergedPages(segments);
    MergedPages(regions);
    var orig, dump := Original(filePages, segmentProts, nobits), Dump(dumpPages, regionProts, libraries);
    r := Rebuild(orig, dump, entry, arch, interp, osabi);
    if r.Ok? {
      var m := Load(r.value).value;
      if NoSharedPage(regions) {
        forall i, k | 0 <= i < |regions| && 0 <= k < |regions[i].data| ensures DumpedByte(m, orig, libraries, regions[i], k) {
          DumpIsLoaded(m, orig, dump, regions, i, k);
        }
      }
      if NoSharedPage(segments) {
        forall i, k | 0 <= i < |segments| && 0 <= k < |segments[i].data|
          ensures AlignDown(segments[i].base + k) in Merged(regions) || HoldsByte(m, segments[i], k)
        {
          if AlignDown(segments[i].base + k) !in Merged(regions) {
            OriginalIsLoaded(m, orig, dump, segments, i, k);
          }
        }
      }
    }
  }

  ghost predicate HoldsByte(m: map<nat, Cell>, region: Region, k: nat)
    requires k < |region.data|
  {
    region.base + k in m && m[region.base + k].value == region.data[k]
  }
}
