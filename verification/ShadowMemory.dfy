/** Taint shadow: one byte per guest byte, an index of dirty pages, and a page scan by words. */
module ShadowMemory {
  import opened Bytes

  const PAGE: nat := 4096
  const SIZE: nat := 0x1_0000_0000
  const WORD: nat := 8

  function Wrap(addr: nat): (a: nat)
    ensures a < SIZE
  {
    addr % SIZE
  }

  function PageOf(a: nat): (page: nat)
    ensures page <= a < page + PAGE && page % PAGE == 0
  {
    a - a % PAGE
  }

  /** The address lies in this page. */
  predicate OnPage(a: nat, page: nat) {
    page <= a < page + PAGE
  }

  lemma {:induction false} PageIsUnique(a: nat, page: nat)
    requires page % PAGE == 0 && OnPage(a, page)
    ensures PageOf(a) == page
  {
    assert a % PAGE == (a - page) % PAGE;
  }

  lemma {:induction false} SamePage(w: nat)
    ensures forall a: nat :: OnPage(a, PageOf(w)) <==> a / 4096 == w / 4096
  {
    forall a: nat ensures OnPage(a, PageOf(w)) <==> a / 4096 == w / 4096 {
      assert PageOf(w) == PAGE * (w / PAGE);
    }
  }

  lemma {:induction false} PageInside(a: nat)
    requires a < SIZE
    ensures PageOf(a) + PAGE <= SIZE
  {
    assert SIZE % PAGE == 0;
  }

  /** A word is zero exactly when its eight bytes are. */
  lemma {:induction false} ZeroWord(bytes: seq<byte>)
    ensures DecodeLittle(bytes) == 0 <==> forall k | 0 <= k < |bytes| :: bytes[k] == 0
  {
    if bytes != [] {
      ZeroWord(bytes[1..]);
      if forall k | 0 <= k < |bytes| - 1 :: bytes[1..][k] == 0 {
        forall k | 1 <= k < |bytes| ensures bytes[k] == 0 {
          assert bytes[1..][k - 1] == 0;
        }
      }
      if forall k | 0 <= k < |bytes| :: bytes[k] == 0 {
        assert forall k | 0 <= k < |bytes| - 1 :: bytes[1..][k] == bytes[k + 1];
      }
    }
  }

  class Shadow {
    const base: array<byte>
    var dirty: set<nat>
    var writable: set<nat>

    /** Mapped read-only and all zero; pages become writable one at a time. */
    constructor ()
      ensures Valid() && fresh(base) && Taints() == {} && dirty == {} && writable == {}
    {
      base := new byte[SIZE](_ => 0);
      dirty, writable := {}, {};
    }

    /** The tainted addresses. */
    ghost function Taints(): set<nat>
      reads this, base
    {
      set a: nat | a < base.Length && base[a] != 0
    }

    /** Every page with a tainted byte is dirty, and every dirty page is writable. */
    ghost predicate Valid()
      reads this, base
    {
      && base.Length == SIZE
      && (forall a: nat | a < SIZE && base[a] != 0 :: PageOf(a) in dirty)
      && dirty <= writable
    }

    /** A store faults unless its page is writable. */
    method Store(a: nat, value: byte)
      requires a < base.Length && PageOf(a) in writable
      modifies base
      ensures base[..] == old(base[..])[a := value]
    {
      base[a] := value;
    }

    method Protect(page: nat)
      modifies this`writable
      ensures writable == old(writable) + {page}
    {
      writable := writable + {page};
    }

    method TaintByte(addr: nat)
      requires Valid()
      modifies this, base
      ensures Valid()
      ensures Taints() == old(Taints()) + {Wrap(addr)}
      ensures dirty == old(dirty) + {PageOf(Wrap(addr))} && writable == old(writable) + {PageOf(Wrap(addr))}
    {
      var a := Wrap(addr);
      Protect(PageOf(a));
      ghost var before := base[..];
      Store(a, 1);
      Stored(before, base[..], a, 1);
      dirty := dirty + {PageOf(a)};
    }

    /** The page of a tainted byte is writable, so this store never faults. */
    method UntaintByte(addr: nat)
      requires Valid()
      modifies base
      ensures Valid()
      ensures Taints() == old(Taints()) - {Wrap(addr)}
    {
      var a := Wrap(addr);
      if base[a] == 0 {
        return;
      }
      ghost var before := base[..];
      Store(a, 0);
      Stored(before, base[..], a, 0);
    }

    method IsTainted(addr: nat) returns (r: bool)
      requires Valid()
      ensures r <==> Wrap(addr) in Taints()
    {
      r := base[Wrap(addr)] != 0;
    }

    /** The page scan: an index lookup, then 512 words; true exactly when some byte of the page is tainted. */
    method PageHasTaint(addr: nat) returns (r: bool)
      requires Valid()
      ensures r <==> exists a: nat :: a in Taints() && a / 4096 == addr % 0x1_0000_0000 / 4096
    {
      SamePage(Wrap(addr));
      var page := PageOf(Wrap(addr));
      PageInside(Wrap(addr));
      if page !in dirty {
        forall a: nat | a in Taints() ensures !OnPage(a, page) {
          if OnPage(a, page) {
            PageIsUnique(a, page);
          }
        }
        return false;
      }
      for i := 0 to PAGE / WORD
        invariant forall a: nat | page <= a < page + WORD * i :: base[a] == 0
      {
        var at := page + WORD * i;
        ghost var word := base[at..at + WORD];
        ZeroWord(word);
        if DecodeLittle(base[at..at + WORD]) != 0 {
          ghost var k :| 0 <= k < WORD && word[k] != 0;
          assert at + k in Taints() && OnPage(at + k, page);
          return true;
        }
        assert forall a: nat | at <= a < at + WORD :: word[a - at] == base[a];
      }
      r := false;
    }
  }

  /** What one store does to the bytes. */
  lemma {:induction false} Stored(before: seq<byte>, after: seq<byte>, a: nat, value: byte)
    requires a < |before| && after == before[a := value]
    ensures (set k: nat | k < |after| && after[k] != 0) ==
              if value != 0 then (set k: nat | k < |before| && before[k] != 0) + {a}
              else (set k: nat | k < |before| && before[k] != 0) - {a}
  {
  }

  // ----- sequences of calls -----

  datatype Op = Taint(addr: nat) | Untaint(addr: nat)

  function AfterOps(ops: seq<Op>): set<nat> {
    if ops == [] then {}
    else
      match ops[|ops| - 1]
      case Taint(addr) => AfterOps(ops[..|ops| - 1]) + {Wrap(addr)}
      case Untaint(addr) => AfterOps(ops[..|ops| - 1]) - {Wrap(addr)}
  }

  /** Call i taints a, and no later call is about it. */
  ghost predicate Decides(ops: seq<Op>, i: nat, a: nat)
    requires i < |ops|
  {
    && ops[i].Taint? && ops[i].addr % 0x1_0000_0000 == a
    && forall j | i < j < |ops| :: ops[j].addr % 0x1_0000_0000 != a
  }

  lemma {:induction false} OneMoreCall(ops: seq<Op>, i: nat, a: nat)
    requires i < |ops| - 1
    ensures Decides(ops, i, a) <==> Decides(ops[..|ops| - 1], i, a) && Wrap(ops[|ops| - 1].addr) != a
  {
    var init := ops[..|ops| - 1];
    assert init[i] == ops[i] && forall j | i < j < |init| :: init[j] == ops[j];
  }

  /** An address is tainted exactly when the last call about it, addresses taken modulo 2^32, tainted it. */
  lemma {:induction false} LastCallDecides(ops: seq<Op>, a: nat)
    ensures a in AfterOps(ops) <==> exists i :: 0 <= i < |ops| && Decides(ops, i, a)
  {
    if ops != [] {
      var n := |ops| - 1;
      LastCallDecides(ops[..n], a);
      forall i | 0 <= i < n ensures Decides(ops, i, a) <==> Decides(ops[..n], i, a) && Wrap(ops[n].addr) != a {
        OneMoreCall(ops, i, a);
      }
      assert Decides(ops, n, a) <==> ops[n].Taint? && Wrap(ops[n].addr) == a;
    }
  }

  /** A run of taint and untaint calls on a fresh shadow. */
  method Calls(ops: seq<Op>) returns (shadow: Shadow)
    ensures shadow.Valid() && shadow.Taints() == AfterOps(ops)
  {
    shadow := new Shadow();
    for i := 0 to |ops|
      invariant fresh(shadow) && fresh(shadow.base) && shadow.Valid() && shadow.Taints() == AfterOps(ops[..i])
    {
      assert ops[..i + 1][..i] == ops[..i];
      match ops[i] {
        case Taint(addr) => shadow.TaintByte(addr);
        case Untaint(addr) => shadow.UntaintByte(addr);
      }
    }
    assert ops[..|ops|] == ops;
  }
}
