/** Resolving a guest path inside a rootfs, with a budget of symbolic links. */
module GuestResolver {
  import opened Wrappers
  import opened Rootfs
  import PosixPath

  predicate Absolute(target: string) {
    target != "" && target[0] == '/'
  }

  const BUDGET: nat := 40

  /** Where a walk stands: the directory or file reached, and how many links may still be followed. */
  datatype Place = Place(at: Path, budget: nat)

  /**
    * Resolution in the manner of POSIX.1-2017, XBD section 4.13: a link met on the way is resolved completely,
    * from where it lies or from the root, before the components after it.
    */
  function Resolve(nodes: Nodes, start: Place, parts: seq<string>): (r: Option<Place>)
    ensures r.Some? ==> r.value.budget <= start.budget
    decreases start.budget, |parts|
  {
    if parts == [] then Some(start)
    else
      var part, rest := parts[0], parts[1..];
      if part == "" || part == "." then Resolve(nodes, start, rest)
      else if part == ".." then
        if start.at == [] then None else Resolve(nodes, Place(Parent(start.at), start.budget), rest)
      else
        var next := start.at + [part];
        if next !in nodes then None
        else if !nodes[next].Link? then Resolve(nodes, Place(next, start.budget), rest)
        else if start.budget == 0 then None
        else
          var target := nodes[next].target;
          var from := Place(if Absolute(target) then [] else start.at, start.budget - 1);
          var inner := Resolve(nodes, from, PosixPath.Components(target));
          if inner.None? then None else Resolve(nodes, inner.value, rest)
  }

  /** What is resolved is resolved part by part. */
  lemma {:induction false} ResolveConcat(nodes: Nodes, start: Place, a: seq<string>, b: seq<string>)
    ensures Resolve(nodes, start, a + b) ==
              var middle := Resolve(nodes, start, a); if middle.None? then None else Resolve(nodes, middle.value, b)
    decreases start.budget, |a|
  {
    if a == [] {
      assert a + b == b;
    } else {
      var part, rest := a[0], a[1..];
      assert (a + b)[0] == part && (a + b)[1..] == rest + b;
      var next := start.at + [part];
      if part == "" || part == "." {
        ResolveConcat(nodes, start, rest, b);
      } else if part == ".." {
        if start.at != [] {
          ResolveConcat(nodes, Place(Parent(start.at), start.budget), rest, b);
        }
      } else if next in nodes {
        if !nodes[next].Link? {
          ResolveConcat(nodes, Place(next, start.budget), rest, b);
        } else if start.budget > 0 {
          var target := nodes[next].target;
          var from := Place(if Absolute(target) then [] else start.at, start.budget - 1);
          var inner := Resolve(nodes, from, PosixPath.Components(target));
          if inner.Some? {
            ResolveConcat(nodes, inner.value, rest, b);
          }
        }
      }
    }
  }

  /** A chain of existing components, none of them a link, below the root. */
  ghost predicate Chain(nodes: Nodes, p: Path) {
    forall k | 1 <= k <= |p| :: p[..k] in nodes && !nodes[p[..k]].Link?
  }

  lemma {:induction false} ChainParent(nodes: Nodes, p: Path)
    requires Chain(nodes, p) && p != []
    ensures Chain(nodes, Parent(p))
  {
    forall k | 1 <= k <= |Parent(p)| ensures Parent(p)[..k] in nodes && !nodes[Parent(p)[..k]].Link? {
      assert Parent(p)[..k] == p[..k];
    }
  }

  lemma {:induction false} ChainNext(nodes: Nodes, p: Path, part: string)
    requires Chain(nodes, p) && p + [part] in nodes && !nodes[p + [part]].Link?
    ensures Chain(nodes, p + [part])
  {
    var q := p + [part];
    forall k | 1 <= k <= |q| ensures q[..k] in nodes && !nodes[q[..k]].Link? {
      assert if k <= |p| then q[..k] == p[..k] else q[..k] == q;
    }
  }

  /** Whatever is reached is inside the rootfs and reached without a link: no target leads out of it. */
  lemma {:induction false} ResolveStaysInside(nodes: Nodes, start: Place, parts: seq<string>)
    requires Chain(nodes, start.at)
    ensures Resolve(nodes, start, parts).Some? ==> Chain(nodes, Resolve(nodes, start, parts).value.at)
    decreases start.budget, |parts|
  {
    if parts != [] {
      var part, rest := parts[0], parts[1..];
      var next := start.at + [part];
      if part == "" || part == "." {
        ResolveStaysInside(nodes, start, rest);
      } else if part == ".." {
        if start.at != [] {
          ChainParent(nodes, start.at);
          ResolveStaysInside(nodes, Place(Parent(start.at), start.budget), rest);
        }
      } else if next in nodes {
        if !nodes[next].Link? {
          ChainNext(nodes, start.at, part);
          ResolveStaysInside(nodes, Place(next, start.budget), rest);
        } else if start.budget > 0 {
          var target := nodes[next].target;
          var from := Place(if Absolute(target) then [] else start.at, start.budget - 1);
          ResolveStaysInside(nodes, from, PosixPath.Components(target));
          var inner := Resolve(nodes, from, PosixPath.Components(target));
          if inner.Some? {
            ResolveStaysInside(nodes, inner.value, rest);
          }
        }
      }
    }
  }

  /** A larger budget resolves everything a smaller one does, to the same place, using as much of it. */
  lemma {:induction false} BudgetOnlyStops(nodes: Nodes, start: Place, parts: seq<string>, more: nat)
    requires Resolve(nodes, start, parts).Some?
    ensures var r := Resolve(nodes, start, parts).value;
            Resolve(nodes, start.(budget := start.budget + more), parts) == Some(r.(budget := r.budget + more))
    decreases start.budget, |parts|
  {
    if parts != [] {
      var part, rest := parts[0], parts[1..];
      var next := start.at + [part];
      if part == "" || part == "." {
        BudgetOnlyStops(nodes, start, rest, more);
      } else if part == ".." {
        BudgetOnlyStops(nodes, Place(Parent(start.at), start.budget), rest, more);
      } else if !nodes[next].Link? {
        BudgetOnlyStops(nodes, Place(next, start.budget), rest, more);
      } else {
        var target := nodes[next].target;
        var from := Place(if Absolute(target) then [] else start.at, start.budget - 1);
        BudgetOnlyStops(nodes, from, PosixPath.Components(target), more);
        BudgetOnlyStops(nodes, Resolve(nodes, from, PosixPath.Components(target)).value, rest, more);
        assert from.(budget := from.budget + more) ==
               Place(if Absolute(target) then [] else start.at, start.budget + more - 1);
      }
    }
  }

  /** Following a link first and then going on is the same as going on along the link's components and the rest. */
  lemma {:induction false} LinkSpliced(nodes: Nodes, start: Place, part: string, rest: seq<string>)
    requires part !in {"", ".", ".."} && start.at + [part] in nodes && nodes[start.at + [part]].Link? && start.budget > 0
    ensures var target := nodes[start.at + [part]].target;
            Resolve(nodes, start, [part] + rest) ==
              Resolve(nodes, Place(if Absolute(target) then [] else start.at, start.budget - 1),
                PosixPath.Components(target) + rest)
  {
    var target := nodes[start.at + [part]].target;
    var from := Place(if Absolute(target) then [] else start.at, start.budget - 1);
    ResolveConcat(nodes, from, PosixPath.Components(target), rest);
    assert ([part] + rest)[0] == part && ([part] + rest)[1..] == rest;
  }

  lemma {:induction false} ChainEnd(nodes: Nodes, p: Path)
    requires Chain(nodes, p) && IsDir(nodes, [])
    ensures p in nodes
  {
    assert p == p[..|p|];
  }

  lemma {:induction false} RootIsThere(nodes: Nodes)
    requires Rooted(nodes)
    ensures IsDir(nodes, []) && Chain(nodes, [])
  {
  }

  /** guest_path_exists: one loop over pending components, links spliced in where they are met. */
  method GuestPathExists(nodes: Nodes, guestPath: string) returns (r: bool)
    requires Rooted(nodes)
    ensures r <==> PosixPath.IsGuestPath(guestPath) && Resolve(nodes, Place([], 40), PosixPath.Components(guestPath)).Some?
  {
    hide PosixPath.IsGuestPath, PosixPath.Components, Chain, Rooted;
    RootIsThere(nodes);
    if !PosixPath.IsGuestPath(guestPath) {
      return false;
    }
    var pending := PosixPath.Components(guestPath);
    var resolved: Path := [];
    var budget := BUDGET;
    ghost var whole := Resolve(nodes, Place([], BUDGET), pending);
    while pending != []
      invariant Chain(nodes, resolved)
      invariant Resolve(nodes, Place(resolved, budget), pending) == whole
      decreases budget, |pending|
    {
      var part := pending[0];
      assert pending == [part] + pending[1..];
      pending := pending[1..];
      if part == "" || part == "." {
        continue;
      }
      if part == ".." {
        if resolved == [] {
          return false;
        }
        ChainParent(nodes, resolved);
        resolved := Parent(resolved);
        continue;
      }
      var candidate := resolved + [part];
      if candidate !in nodes {
        return false;
      }
      if !nodes[candidate].Link? {
        ChainNext(nodes, resolved, part);
        resolved := candidate;
        continue;
      }
      if budget == 0 {
        return false;
      }
      var link := nodes[candidate].target;
      LinkSpliced(nodes, Place(resolved, budget), part, pending);
      budget := budget - 1;
      if Absolute(link) {
        resolved := [];
      }
      pending := PosixPath.Components(link) + pending;
    }
    ChainEnd(nodes, resolved);
    r := resolved in nodes;
  }

  predicate PlainNames(parts: seq<string>) {
    forall i | 0 <= i < |parts| :: parts[i] !in {"", ".", ".."}
  }

  /** Where no link is met, names lead where they say, and cost nothing. */
  lemma {:induction false} DirectResolves(nodes: Nodes, start: Place, parts: seq<string>)
    requires PlainNames(parts) && Chain(nodes, start.at + parts)
    ensures Resolve(nodes, start, parts) == Some(Place(start.at + parts, start.budget))
    decreases |parts|
  {
    if parts == [] {
      assert start.at + parts == start.at;
    } else {
      var next := start.at + [parts[0]];
      assert next == (start.at + parts)[..|start.at| + 1];
      assert next + parts[1..] == start.at + parts;
      DirectResolves(nodes, Place(next, start.budget), parts[1..]);
    }
  }

  /** A name that is not there stops the walk. */
  lemma {:induction false} AbsentStops(nodes: Nodes, start: Place, parts: seq<string>, k: nat)
    requires k < |parts| && PlainNames(parts) && Chain(nodes, start.at + parts[..k])
    requires start.at + parts[..k + 1] !in nodes
    ensures Resolve(nodes, start, parts).None?
  {
    DirectResolves(nodes, start, parts[..k]);
    ResolveConcat(nodes, start, parts[..k], parts[k..]);
    assert parts == parts[..k] + parts[k..];
    assert start.at + parts[..k] + [parts[k]] == start.at + parts[..k + 1];
  }

  /** Two dots lead to the parent, and nowhere from the root. */
  lemma {:induction false} DotsLeadUp(nodes: Nodes, start: Place)
    ensures Resolve(nodes, start, [".."]) == if start.at == [] then None else Some(Place(Parent(start.at), start.budget))
  {
    assert [".."][1..] == [];
  }

  /** names[i] is a link to names[i + 1], all at the root, and the last name is there and no link. */
  predicate LinksInARow(nodes: Nodes, names: seq<string>) {
    && names != [] && PlainNames(names)
    && (forall i | 0 <= i < |names| - 1 :: LinksTo(nodes, names[i], names[i + 1]))
    && [names[|names| - 1]] in nodes && !nodes[[names[|names| - 1]]].Link?
  }

  predicate LinksTo(nodes: Nodes, name: string, target: string) {
    [name] in nodes && nodes[[name]].Link? && PosixPath.Components(nodes[[name]].target) == [target]
  }

  /** A row of n links takes a budget of n, exactly. */
  lemma {:induction false} RowTakesBudget(nodes: Nodes, names: seq<string>, budget: nat)
    requires LinksInARow(nodes, names)
    ensures Resolve(nodes, Place([], budget), [names[0]]) ==
              if |names| - 1 <= budget then Some(Place([names[|names| - 1]], budget - (|names| - 1))) else None
  {
    hide PosixPath.Components;
    assert |names| > 1 ==> LinksTo(nodes, names[0], names[1]);
    OneName(nodes, Place([], budget), names[0]);
    if |names| > 1 {
      RestInARow(nodes, names);
      if budget > 0 {
        RowTakesBudget(nodes, names[1..], budget - 1);
        assert names[1..][0] == names[1];
      }
    }
  }

  lemma {:induction false} RestInARow(nodes: Nodes, names: seq<string>)
    requires LinksInARow(nodes, names) && |names| > 1
    ensures LinksInARow(nodes, names[1..])
  {
    var rest := names[1..];
    forall i | 0 <= i < |rest| - 1 ensures LinksTo(nodes, rest[i], rest[i + 1]) {
      assert LinksTo(nodes, names[i + 1], names[i + 2]);
    }
  }

  /** One name at the root: a place, or wherever the link leads. */
  lemma {:induction false} OneName(nodes: Nodes, start: Place, name: string)
    requires start.at == [] && name !in {"", ".", ".."} && [name] in nodes
    ensures Resolve(nodes, start, [name]) ==
              if !nodes[[name]].Link? then Some(Place([name], start.budget))
              else if start.budget == 0 then None
              else Resolve(nodes, Place([], start.budget - 1), PosixPath.Components(nodes[[name]].target))
  {
    assert [] + [name] == [name] && [name][1..] == [];
    hide PosixPath.Components;
  }

  /** A link that leads to itself is never resolved, whatever the budget. */
  lemma {:induction false} SelfLinkFails(nodes: Nodes, start: Place, part: string, rest: seq<string>)
    requires part !in {"", ".", ".."} && start.at + [part] in nodes && nodes[start.at + [part]].Link?
    requires !Absolute(nodes[start.at + [part]].target) && PosixPath.Components(nodes[start.at + [part]].target) == [part]
    ensures Resolve(nodes, start, [part] + rest).None?
    decreases start.budget
  {
    assert ([part] + rest)[1..] == rest;
    if start.budget > 0 {
      SelfLinkFails(nodes, Place(start.at, start.budget - 1), part, []);
      assert [part] + [] == [part];
    }
  }
}
