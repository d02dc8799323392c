/** A root filesystem as a map from component paths to nodes. */
module Rootfs {

  type Path = seq<string>

  datatype Node = Dir(mode: nat) | File(ino: nat) | Link(target: string)

  type Nodes = map<Path, Node>

  function Parent(p: Path): Path
    requires p != []
  {
    p[..|p| - 1]
  }

  predicate IsDir(nodes: Nodes, p: Path) {
    p in nodes && nodes[p].Dir?
  }

  /** The root is a directory and every other node lies in one. */
  ghost predicate Rooted(nodes: Nodes) {
    && IsDir(nodes, [])
    && forall p | p in nodes && p != [] :: IsDir(nodes, Parent(p))
  }

  lemma {:induction false} AncestorIsDir(nodes: Nodes, p: Path, k: nat)
    requires Rooted(nodes) && p in nodes && k < |p|
    ensures IsDir(nodes, p[..k])
  {
    if k < |p| - 1 {
      AncestorIsDir(nodes, Parent(p), k);
      assert Parent(p)[..k] == p[..k];
    }
  }

  predicate HasChild(nodes: Nodes, p: Path) {
    exists q :: q in nodes && q != [] && Parent(q) == p
  }
}
