/** Merging the pages of a memory dump over the pages of the original file. */
module ElfClassify {
  import opened Bytes
  import opened Wrappers
  import opened ElfPages

  datatype Library = Library(base: int, size: int)

  datatype Original = Original(pages: map<nat, seq<byte>>, prots: map<nat, int>, nobits: seq<(nat, int)>)

  datatype Dump = Dump(pages: map<nat, seq<byte>>, prots: map<nat, int>, libraries: seq<Library>)

  /** What splitting leaves: page-aligned keys and whole pages. */
  ghost predicate PageMap(pages: map<nat, seq<byte>>) {
    forall p | p in pages :: p % PAGE == 0 && |pages[p]| == PAGE
  }

  function ProtOf(prots: map<nat, int>, addr: nat): int {
    if addr in prots then prots[addr] else 5
  }

  predicate IsLibrary(addr: nat, libraries: seq<Library>) {
    exists i | 0 <= i < |libraries| ::
      libraries[i].base != 0 && libraries[i].size != 0
      && libraries[i].base <= addr < libraries[i].base + libraries[i].size
  }

  /** The protection of the first NOBITS entry lying in the page at addr. */
  function NobitsAt(nobits: seq<(nat, int)>, addr: nat): Option<int> {
    if nobits == [] then None
    else if AlignDown(nobits[0].0) == addr then Some(nobits[0].1)
    else NobitsAt(nobits[1..], addr)
  }

  /** The page the rebuilt image must have at addr, if it must have one. */
  function Overlay(orig: Original, dump: Dump, addr: nat): Option<Page> {
    if addr in dump.pages && (addr !in orig.pages || orig.pages[addr] != dump.pages[addr]) then
      if addr !in orig.pages && IsLibrary(addr, dump.libraries) then None
      else Some(Page(addr, dump.pages[addr], ProtOf(dump.prots, addr)))
    else if addr in orig.pages then
      Some(Page(addr, orig.pages[addr], ProtOf(orig.prots, addr)))
    else
      match NobitsAt(orig.nobits, addr)
      case Some(prot) => Some(Page(addr, Zeros(PAGE), prot))
      case None => None
  }

  /** pages lists, in address order, exactly the pages of the overlay. */
  ghost predicate Realizes(pages: seq<Page>, orig: Original, dump: Dump) {
    && Ascending(pages)
    && (forall i | 0 <= i < |pages| :: Overlay(orig, dump, pages[i].addr) == Some(pages[i]))
    && (forall a: nat | Overlay(orig, dump, a).Some? :: exists i | 0 <= i < |pages| :: pages[i].addr == a)
  }

  // ----- sorting by address -----

  ghost predicate SortedByAddr(pages: seq<Page>) {
    forall i, j | 0 <= i < j < |pages| :: pages[i].addr <= pages[j].addr
  }

  ghost predicate DistinctAddrs(pages: seq<Page>) {
    forall i, j | 0 <= i < j < |pages| :: pages[i].addr != pages[j].addr
  }

  function Insert(page: Page, pages: seq<Page>): (r: seq<Page>)
    requires SortedByAddr(pages)
    ensures SortedByAddr(r) && |r| == |pages| + 1
    ensures forall p :: p in r <==> p == page || p in pages
  {
    if pages == [] || page.addr < pages[0].addr then [page] + pages
    else
      var rest := Insert(page, pages[1..]);
      assert forall p | p in pages[1..] :: p in pages;
      assert forall p | p in pages :: pages[0].addr <= p.addr;
      assert forall j | 0 <= j < |rest| :: rest[j] in rest;
      [pages[0]] + rest
  }

  function SortPages(pages: seq<Page>): (r: seq<Page>)
    ensures SortedByAddr(r) && |r| == |pages|
    ensures forall p :: p in r <==> p in pages
  {
    if pages == [] then [] else Insert(pages[|pages| - 1], SortPages(pages[..|pages| - 1]))
  }

  lemma {:induction false} InsertDistinct(page: Page, pages: seq<Page>)
    requires SortedByAddr(pages) && DistinctAddrs(pages)
    requires forall p | p in pages :: p.addr != page.addr
    ensures DistinctAddrs(Insert(page, pages))
  {
    if pages != [] && page.addr >= pages[0].addr {
      InsertDistinct(page, pages[1..]);
      var rest := Insert(page, pages[1..]);
      forall j | 0 <= j < |rest| ensures rest[j].addr != pages[0].addr {
        assert rest[j] in rest;
        if rest[j] != page {
          var k :| 0 <= k < |pages[1..]| && pages[1..][k] == rest[j];
          assert pages[k + 1] == rest[j];
        }
      }
    }
  }

  lemma {:induction false} SortDistinct(pages: seq<Page>)
    requires DistinctAddrs(pages)
    ensures DistinctAddrs(SortPages(pages))
  {
    if pages != [] {
      var n := |pages| - 1;
      SortDistinct(pages[..n]);
      InsertDistinct(pages[n], SortPages(pages[..n]));
    }
  }

  // ----- classify_pages -----

  method Classify(orig: Original, dump: Dump) returns (pages: seq<Page>)
    requires PageMap(orig.pages) && PageMap(dump.pages)
    ensures Realizes(pages, orig, dump)
  {
    var result: seq<Page> := [];
    var todo := orig.pages.Keys + dump.pages.Keys;
    while todo != {}
      invariant todo <= orig.pages.Keys + dump.pages.Keys
      invariant forall i | 0 <= i < |result| ::
                  && Overlay(orig, dump, result[i].addr) == Some(result[i]) && WholePage(result[i])
                  && result[i].addr !in todo && result[i].addr in orig.pages.Keys + dump.pages.Keys
      invariant DistinctAddrs(result)
      invariant forall a | a in orig.pages.Keys + dump.pages.Keys && a !in todo && Overlay(orig, dump, a).Some? ::
                  exists i | 0 <= i < |result| :: result[i].addr == a
      decreases todo
    {
      var addr :| addr in todo;
      todo := todo - {addr};
      ghost var before := result;
      if addr in orig.pages && addr in dump.pages {
        if orig.pages[addr] == dump.pages[addr] {
          result := result + [Page(addr, orig.pages[addr], ProtOf(orig.prots, addr))];
        } else {
          result := result + [Page(addr, dump.pages[addr], ProtOf(dump.prots, addr))];
        }
      } else if addr in orig.pages {
        result := result + [Page(addr, orig.pages[addr], ProtOf(orig.prots, addr))];
      } else if !IsLibrary(addr, dump.libraries) {
        result := result + [Page(addr, dump.pages[addr], ProtOf(dump.prots, addr))];
      }
      assert forall i | 0 <= i < |before| :: before[i] == result[i];
      assert Overlay(orig, dump, addr).Some? ==> result[|result| - 1].addr == addr;
    }
    result := AddNobits(orig, dump, result);
    pages := SortPages(result);
    SortDistinct(result);
    forall i | 0 <= i < |pages| ensures WholePage(pages[i]) && Overlay(orig, dump, pages[i].addr) == Some(pages[i]) {
      assert pages[i] in result;
    }
    forall a: nat | Overlay(orig, dump, a).Some? ensures exists i | 0 <= i < |pages| :: pages[i].addr == a {
      var i :| 0 <= i < |result| && result[i].addr == a;
      assert result[i] in pages;
    }
  }

  /** Zero pages for the NOBITS entries whose page neither source supplied. */
  method AddNobits(orig: Original, dump: Dump, kept: seq<Page>) returns (result: seq<Page>)
    requires forall i | 0 <= i < |kept| :: Overlay(orig, dump, kept[i].addr) == Some(kept[i]) && WholePage(kept[i])
    requires DistinctAddrs(kept)
    requires forall i | 0 <= i < |kept| :: kept[i].addr in orig.pages.Keys + dump.pages.Keys
    requires forall a | a in orig.pages.Keys + dump.pages.Keys && Overlay(orig, dump, a).Some? ::
               exists i | 0 <= i < |kept| :: kept[i].addr == a
    ensures forall i | 0 <= i < |result| :: Overlay(orig, dump, result[i].addr) == Some(result[i]) && WholePage(result[i])
    ensures DistinctAddrs(result)
    ensures forall a: nat | Overlay(orig, dump, a).Some? :: exists i | 0 <= i < |result| :: result[i].addr == a
  {
    result := kept;
    var existing := set p | p in kept :: p.addr;
    for n := 0 to |orig.nobits|
      invariant Sound(orig, dump, result)
      invariant forall a: nat :: a in existing <==> Supplied(result, a)
      invariant forall a: nat :: a in existing <==> Supplied(kept, a) || Zeroed(orig, dump, n, a)
    {
      hide Sound, Supplied, Zeroed;
      var addr := AlignDown(orig.nobits[n].0);
      ZeroedNext(orig, dump, n);
      if addr !in existing && addr !in dump.pages {
        var page := Page(addr, Zeros(PAGE), orig.nobits[n].1);
        NobitsPage(orig, dump, kept, n);
        AppendPage(orig, dump, result, page);
        result := result + [page];
        existing := existing + {addr};
      }
    }
    Everything(orig, dump, kept, result);
  }

  predicate Supplied(pages: seq<Page>, a: nat) {
    exists i :: 0 <= i < |pages| && pages[i].addr == a
  }

  /** One of the first n NOBITS entries starts the page at a, which neither source has. */
  predicate Zeroed(orig: Original, dump: Dump, n: nat, a: nat)
    requires n <= |orig.nobits|
  {
    a !in orig.pages && a !in dump.pages && NobitsAt(orig.nobits[..n], a).Some?
  }

  /** Pages of the overlay, each once. */
  ghost predicate Sound(orig: Original, dump: Dump, pages: seq<Page>) {
    && (forall i | 0 <= i < |pages| :: Overlay(orig, dump, pages[i].addr) == Some(pages[i]) && WholePage(pages[i]))
    && DistinctAddrs(pages)
  }

  lemma {:induction false} ZeroedNext(orig: Original, dump: Dump, n: nat)
    requires n < |orig.nobits|
    ensures var addr := AlignDown(orig.nobits[n].0);
            forall a: nat :: Zeroed(orig, dump, n + 1, a) <==>
                               Zeroed(orig, dump, n, a) || (a == addr && a !in orig.pages && a !in dump.pages)
  {
    NobitsStep(orig.nobits, n);
    var addr := AlignDown(orig.nobits[n].0);
    forall a: nat
      ensures Zeroed(orig, dump, n + 1, a) <==> Zeroed(orig, dump, n, a) || (a == addr && a !in orig.pages && a !in dump.pages)
    {
      assert NobitsPrefix(orig.nobits, n, a);
    }
  }

  lemma {:induction false} AppendPage(orig: Original, dump: Dump, pages: seq<Page>, p: Page)
    requires Sound(orig, dump, pages) && !Supplied(pages, p.addr)
    requires Overlay(orig, dump, p.addr) == Some(p) && WholePage(p)
    ensures Sound(orig, dump, pages + [p])
    ensures forall a: nat :: Supplied(pages + [p], a) <==> Supplied(pages, a) || a == p.addr
  {
    hide Overlay, WholePage;
    AppendFresh(pages, p);
    forall a: nat | Supplied(pages, a) ensures Supplied(pages + [p], a) {
      var i :| 0 <= i < |pages| && pages[i].addr == a;
      assert (pages + [p])[i].addr == a;
    }
  }

  lemma {:induction false} Everything(orig: Original, dump: Dump, kept: seq<Page>, pages: seq<Page>)
    requires Sound(orig, dump, pages)
    requires forall a: nat :: Supplied(pages, a) <==> Supplied(kept, a) || Zeroed(orig, dump, |orig.nobits|, a)
    requires forall a | a in orig.pages.Keys + dump.pages.Keys && Overlay(orig, dump, a).Some? ::
               exists i | 0 <= i < |kept| :: kept[i].addr == a
    ensures forall a: nat | Overlay(orig, dump, a).Some? :: exists i | 0 <= i < |pages| :: pages[i].addr == a
  {
    assert orig.nobits[..|orig.nobits|] == orig.nobits;
    forall a: nat | Overlay(orig, dump, a).Some? ensures exists i | 0 <= i < |pages| :: pages[i].addr == a {
      assert Supplied(kept, a) || Zeroed(orig, dump, |orig.nobits|, a);
      assert Supplied(pages, a);
    }
  }

  lemma {:induction false} AppendFresh(pages: seq<Page>, p: Page)
    requires DistinctAddrs(pages) && forall i | 0 <= i < |pages| :: pages[i].addr != p.addr
    ensures DistinctAddrs(pages + [p])
    ensures (pages + [p])[|pages|] == p && forall i | 0 <= i < |pages| :: (pages + [p])[i] == pages[i]
  {
  }

  /** A NOBITS entry that starts a page nothing else supplies decides that page. */
  lemma {:induction false} NobitsPage(orig: Original, dump: Dump, kept: seq<Page>, n: nat)
    requires n < |orig.nobits| && AlignDown(orig.nobits[n].0) !in dump.pages
    requires !Supplied(kept, AlignDown(orig.nobits[n].0)) && !Zeroed(orig, dump, n, AlignDown(orig.nobits[n].0))
    requires forall a | a in orig.pages.Keys + dump.pages.Keys && Overlay(orig, dump, a).Some? ::
               exists i | 0 <= i < |kept| :: kept[i].addr == a
    ensures var p := Page(AlignDown(orig.nobits[n].0), Zeros(PAGE), orig.nobits[n].1);
            Overlay(orig, dump, p.addr) == Some(p) && WholePage(p) && p.addr !in orig.pages
  {
    var addr := AlignDown(orig.nobits[n].0);
    NobitsStep(orig.nobits, n);
    assert NobitsPrefix(orig.nobits, n, addr);
    assert addr in orig.pages ==> Overlay(orig, dump, addr).Some?;
  }

  lemma {:induction false} NobitsStep(nobits: seq<(nat, int)>, n: nat)
    requires n < |nobits|
    ensures forall a: nat :: NobitsPrefix(nobits, n, a)
  {
    forall a: nat ensures NobitsPrefix(nobits, n, a) {
      NobitsAppend(nobits[..n], [nobits[n]], a);
      NobitsAppend(nobits[..n + 1], nobits[n + 1..], a);
      assert nobits[..n] + [nobits[n]] == nobits[..n + 1];
      assert nobits == nobits[..n + 1] + nobits[n + 1..];
    }
  }

  /** How the answer at a changes with entry n, and that an answer found early is final. */
  ghost predicate NobitsPrefix(nobits: seq<(nat, int)>, n: nat, a: nat)
    requires n < |nobits|
  {
    && NobitsAt(nobits[..n + 1], a) == (if NobitsAt(nobits[..n], a).Some? then NobitsAt(nobits[..n], a)
                                        else if AlignDown(nobits[n].0) == a then Some(nobits[n].1) else None)
    && (NobitsAt(nobits[..n + 1], a).Some? ==> NobitsAt(nobits, a) == NobitsAt(nobits[..n + 1], a))
  }

  lemma {:induction false} NobitsAppend(xs: seq<(nat, int)>, ys: seq<(nat, int)>, a: nat)
    ensures NobitsAt(xs + ys, a) == if NobitsAt(xs, a).Some? then NobitsAt(xs, a) else NobitsAt(ys, a)
  {
    if xs == [] {
      assert xs + ys == ys;
    } else {
      assert (xs + ys)[1..] == xs[1..] + ys;
      NobitsAppend(xs[1..], ys, a);
    }
  }
}
