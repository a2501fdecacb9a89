/** A filesystem with symbolic links, as the file operations of the gateway see it
    through a transport (apps/gateway/src/protocols/sftp.ts). */
module FileSystem {
  import opened Common
  import opened Protocol

  type Path = seq<string>

  datatype Node = Dir | File(bytes: seq<Byte>) | Special | Link(target: Path)

  /** Every node under its canonical path, one that passes through no link. */
  type Tree = map<Path, Node>

  const MAX_LINKS: nat := 40

  function Parent(p: Path): Path
    requires p != []
  {
    p[..|p| - 1]
  }

  function Name(p: Path): string
    requires p != []
  {
    p[|p| - 1]
  }

  predicate IsDir(fs: Tree, p: Path) {
    p in fs && fs[p].Dir?
  }

  ghost predicate WellFormed(fs: Tree) {
    IsDir(fs, []) && forall p {:trigger Parent(p)} :: p in fs && p != [] ==> IsDir(fs, Parent(p))
  }

  /** Where a path leads once every link on it is followed; nothing when links
      are nested too deeply. What it leads to need not exist. */
  function Canonical(fs: Tree, p: Path, links: nat): Option<Path>
    decreases links, |p|
  {
    if p == [] then Some([])
    else
      match Canonical(fs, Parent(p), links)
      case None => None
      case Some(dir) =>
        var q := dir + [Name(p)];
        if q in fs && fs[q].Link? then if links == 0 then None else Canonical(fs, fs[q].target, links - 1)
        else Some(q)
  }

  function Locate(fs: Tree, p: Path): Option<Path> {
    Canonical(fs, p, MAX_LINKS)
  }

  /** Where a path leads when a link at its very end is not followed. */
  function LocateLink(fs: Tree, p: Path): Option<Path> {
    if p == [] then Some([])
    else
      match Locate(fs, Parent(p))
      case None => None
      case Some(dir) => Some(dir + [Name(p)])
  }

  function NodeAt(fs: Tree, at: Option<Path>): Option<Node> {
    if at.Some? && at.value in fs then Some(fs[at.value]) else None
  }

  function Stat(fs: Tree, p: Path): Option<Node> {
    NodeAt(fs, Locate(fs, p))
  }

  function LinkStat(fs: Tree, p: Path): Option<Node> {
    NodeAt(fs, LocateLink(fs, p))
  }

  /* ------------------------------- what never changes --------------------------- */

  predicate SameLinks(a: Tree, b: Tree) {
    (forall p <- a :: a[p].Link? ==> p in b && b[p] == a[p]) &&
    (forall p <- b :: b[p].Link? ==> p in a && a[p] == b[p])
  }

  /** Paths lead to the same places as long as no link comes or goes. */
  lemma {:induction false} LinksDecideCanonical(a: Tree, b: Tree, p: Path, links: nat)
    requires SameLinks(a, b)
    ensures Canonical(a, p, links) == Canonical(b, p, links)
    decreases links, |p|
  {
    if p != [] {
      LinksDecideCanonical(a, b, Parent(p), links);
      var dir := Canonical(a, Parent(p), links);
      if dir.Some? && links > 0 {
        var q := dir.value + [Name(p)];
        if q in a && a[q].Link? {
          LinksDecideCanonical(a, b, a[q].target, links - 1);
        }
      }
    }
  }

  /** Following links to the end leaves no link to follow. */
  lemma {:induction false} CanonicalIsNoLink(fs: Tree, p: Path, links: nat)
    requires WellFormed(fs)
    ensures var q := Canonical(fs, p, links); q.Some? && q.value in fs ==> !fs[q.value].Link?
    decreases links, |p|
  {
    if p != [] {
      var dir := Canonical(fs, Parent(p), links);
      if dir.Some? && links > 0 {
        var q := dir.value + [Name(p)];
        if q in fs && fs[q].Link? {
          CanonicalIsNoLink(fs, fs[q].target, links - 1);
        }
      }
    }
  }

  predicate NoLinkBelow(fs: Tree, at: Path) {
    forall p <- fs :: at <= p ==> !fs[p].Link?
  }

  /** Below a place without links, paths are what they seem. */
  lemma {:induction false} CanonicalBelow(fs: Tree, p: Path, at: Path, rel: Path, links: nat)
    requires Canonical(fs, p, links) == Some(at) && NoLinkBelow(fs, at)
    ensures Canonical(fs, p + rel, links) == Some(at + rel)
    decreases |rel|
  {
    if rel == [] {
      assert p + rel == p && at + rel == at;
    } else {
      CanonicalBelow(fs, p, at, Parent(rel), links);
      assert Parent(p + rel) == p + Parent(rel);
      assert at + Parent(rel) + [Name(rel)] == at + rel;
      assert at <= at + rel;
    }
  }

  lemma ParentOfChild(fs: Tree, dir: Path, name: string)
    requires WellFormed(fs) && dir + [name] in fs
    ensures IsDir(fs, dir)
  {
    assert Parent(dir + [name]) == dir;
  }

  predicate Within(less: Tree, fs: Tree) {
    forall q <- less :: q in fs && fs[q] == less[q]
  }

  /** What a path leads to, in a filesystem that only lost nodes, it led to before. */
  lemma {:induction false} LosingKeepsCanonical(fs: Tree, less: Tree, p: Path, links: nat)
    requires WellFormed(less) && Within(less, fs)
    requires Canonical(less, p, links).Some? && Canonical(less, p, links).value in less
    ensures Canonical(fs, p, links) == Canonical(less, p, links)
    decreases links, |p|
  {
    if p != [] {
      var dir := Canonical(less, Parent(p), links).value;
      var q := dir + [Name(p)];
      ParentOfChild(less, dir, Name(p));
      LosingKeepsCanonical(fs, less, Parent(p), links);
      if less[q].Link? {
        LosingKeepsCanonical(fs, less, less[q].target, links - 1);
      }
    }
  }

  /* ------------------------------------ changes --------------------------------- */

  /** The tree with one directory more; nothing when the parent is missing or the name taken. */
  function Mkdir(fs: Tree, p: Path): Option<Tree> {
    match LocateLink(fs, p)
    case None => None
    case Some(q) => if q != [] && IsDir(fs, Parent(q)) && q !in fs then Some(fs[q := Dir]) else None
  }

  /** Replaces or creates a file; links are followed, a device takes the bytes unchanged. */
  function Write(fs: Tree, p: Path, bytes: Bytes): Option<Tree> {
    match Locate(fs, p)
    case None => None
    case Some(q) =>
      if q in fs then
        match fs[q]
        case File(_) => Some(fs[q := File(bytes)])
        case Special => Some(fs)
        case _ => None
      else if q != [] && IsDir(fs, Parent(q)) then Some(fs[q := File(bytes)])
      else None
  }

  /** Nothing deleted and nothing replaced but the bytes of files. */
  ghost predicate OnlyAdds(a: Tree, b: Tree) {
    SameLinks(a, b) &&
    (forall p <- a :: p in b && (b[p] == a[p] || (a[p].File? && b[p].File?))) &&
    (forall p <- b :: b[p].Special? ==> p in a)
  }

  lemma MkdirOnlyAdds(fs: Tree, p: Path)
    requires WellFormed(fs) && Mkdir(fs, p).Some?
    ensures WellFormed(Mkdir(fs, p).value) && OnlyAdds(fs, Mkdir(fs, p).value)
  {
  }

  lemma WriteOnlyAdds(fs: Tree, p: Path, bytes: Bytes)
    requires WellFormed(fs) && Write(fs, p, bytes).Some?
    ensures WellFormed(Write(fs, p, bytes).value) && OnlyAdds(fs, Write(fs, p, bytes).value)
  {
  }

  class Disk {
    var nodes: Tree

    constructor ()
      ensures nodes == map[[] := Dir]
    {
      nodes := map[[] := Dir];
    }

    method MakeDirectory(p: Path) returns (ok: bool)
      modifies this
      ensures ok <==> Mkdir(old(nodes), p).Some?
      ensures nodes == if ok then Mkdir(old(nodes), p).value else old(nodes)
    {
      var at := LocateLink(nodes, p);
      ok := at.Some? && at.value != [] && IsDir(nodes, Parent(at.value)) && at.value !in nodes;
      if ok { nodes := nodes[at.value := Dir]; }
    }

    method WriteFile(p: Path, bytes: Bytes) returns (ok: bool)
      requires WellFormed(nodes)
      modifies this
      ensures ok <==> Write(old(nodes), p, bytes).Some?
      ensures nodes == if ok then Write(old(nodes), p, bytes).value else old(nodes)
    {
      var at := Locate(nodes, p);
      if at.None? { return false; }
      if at.value !in nodes {
        ok := IsDir(nodes, Parent(at.value));
      } else if nodes[at.value].Special? {
        return true;
      } else {
        ok := nodes[at.value].File?;
      }
      if ok { nodes := nodes[at.value := File(bytes)]; }
    }
  }
}
