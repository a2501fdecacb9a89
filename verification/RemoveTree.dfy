/** Removing a file or a directory tree (apps/gateway/src/protocols/sftp.ts,
    `removePath` and `removeTree`). */
module RemoveTree {
  import opened Common
  import opened FileSystem

  predicate StrictlyBelow(p: Path, at: Path) {
    at <= p && p != at
  }

  /** Everything but `at` and what is below it. */
  function Pruned(fs: Tree, at: Path): Tree {
    map p | p in fs && !(at <= p) :: fs[p]
  }

  /** Everything but what is below `at`. */
  function Hollow(fs: Tree, at: Path): Tree {
    map p | p in fs && !StrictlyBelow(p, at) :: fs[p]
  }

  function Subtree(fs: Tree, p: Path): set<Path> {
    match Locate(fs, p)
    case None => {}
    case Some(at) => set q | q in fs && at <= q
  }

  /** `p` leads to a directory, and not by way of anything below that directory. */
  predicate Reaches(fs: Tree, p: Path) {
    match Locate(fs, p)
    case None => false
    case Some(at) => IsDir(fs, at) && Locate(Hollow(fs, at), p) == Some(at)
  }

  /** Moreover it is not the root, and `p` does not end in a link to it. */
  predicate Removable(fs: Tree, p: Path) {
    Reaches(fs, p) && var at := Locate(fs, p).value; at != [] && LocateLink(Hollow(fs, at), p) == Some(at)
  }

  function Children(fs: Tree, at: Path): set<string> {
    set q | q in fs && q != [] && Parent(q) == at :: Name(q)
  }

  /** `p` leads to a directory that is not empty. */
  predicate HoldsEntries(fs: Tree, p: Path) {
    match Locate(fs, p)
    case None => false
    case Some(at) => IsDir(fs, at) && Children(fs, at) != {}
  }

  /* ------------------------------- one entry at a time -------------------------- */

  method ReadDirectory(disk: Disk, p: Path) returns (names: Option<set<string>>)
    ensures names.Some? <==> Stat(disk.nodes, p) == Some(Dir)
    ensures names.Some? ==> names.value == Children(disk.nodes, Locate(disk.nodes, p).value)
  {
    var at := Locate(disk.nodes, p);
    if at.None? || !IsDir(disk.nodes, at.value) { return None; }
    return Some(Children(disk.nodes, at.value));
  }

  function Without(fs: Tree, q: Path): Tree {
    map p | p in fs && p != q :: fs[p]
  }

  method Unlink(disk: Disk, p: Path) returns (ok: bool)
    modifies disk
    ensures ok <==> LinkStat(old(disk.nodes), p).Some? && !LinkStat(old(disk.nodes), p).value.Dir?
    ensures disk.nodes == if ok then Without(old(disk.nodes), LocateLink(old(disk.nodes), p).value) else old(disk.nodes)
  {
    var at := LocateLink(disk.nodes, p);
    ok := at.Some? && at.value in disk.nodes && !disk.nodes[at.value].Dir?;
    if ok { disk.nodes := Without(disk.nodes, at.value); }
  }

  /** Only an empty directory goes, never the root, and a link is not a directory. */
  method RemoveDirectory(disk: Disk, p: Path) returns (ok: bool)
    modifies disk
    ensures ok <==> LinkStat(old(disk.nodes), p) == Some(Dir) && LocateLink(old(disk.nodes), p).value != [] &&
                    Children(old(disk.nodes), LocateLink(old(disk.nodes), p).value) == {}
    ensures disk.nodes == if ok then Without(old(disk.nodes), LocateLink(old(disk.nodes), p).value) else old(disk.nodes)
  {
    var at := LocateLink(disk.nodes, p);
    ok := at.Some? && IsDir(disk.nodes, at.value) && at.value != [] && Children(disk.nodes, at.value) == {};
    if ok { disk.nodes := Without(disk.nodes, at.value); }
  }

  /** The way down to a node passes through listed entries. */
  lemma {:induction false} WayDown(fs: Tree, at: Path, q: Path)
    requires WellFormed(fs) && q in fs && StrictlyBelow(q, at)
    ensures IsDir(fs, at) && q[|at|] in Children(fs, at) && at + [q[|at|]] in fs
    decreases |q|
  {
    if Parent(q) == at {
      assert q == at + [q[|at|]];
      assert Parent(q) == at && Name(q) == q[|at|];
    } else {
      WayDown(fs, at, Parent(q));
    }
  }

  lemma WithoutLeaf(fs: Tree, q: Path)
    requires WellFormed(fs) && q in fs && q != [] && (!fs[q].Dir? || Children(fs, q) == {})
    ensures Without(fs, q) == Pruned(fs, q)
    ensures WellFormed(Without(fs, q))
  {
    forall p <- fs ensures q <= p ==> p == q {
      if StrictlyBelow(p, q) { WayDown(fs, q, p); }
    }
    PrunedIsWellFormed(fs, q);
  }

  lemma PrunedIsWellFormed(fs: Tree, at: Path)
    requires WellFormed(fs) && at != []
    ensures WellFormed(Pruned(fs, at))
  {
    forall p | p in Pruned(fs, at) && p != [] ensures IsDir(Pruned(fs, at), Parent(p)) {
      assert at <= Parent(p) ==> at <= p;
    }
  }

  lemma HollowIsWellFormed(fs: Tree, at: Path)
    requires WellFormed(fs)
    ensures WellFormed(Hollow(fs, at))
  {
    forall p | p in Hollow(fs, at) && p != [] ensures IsDir(Hollow(fs, at), Parent(p)) {
      assert at <= Parent(p) ==> at <= p;
    }
  }

  /* ---------------------------------- the walk ---------------------------------- */

  /** Nothing was added or changed, and what is gone was strictly below `at`. */
  ghost predicate OnlyBelowGone(before: Tree, after: Tree, at: Path) {
    WellFormed(after) && Within(after, before) && forall q <- before :: q !in after ==> StrictlyBelow(q, at)
  }

  /** The tree with only the entries `left` of the directory `at`. */
  function Remaining(fs: Tree, at: Path, left: set<string>): Tree {
    map q | q in fs && (StrictlyBelow(q, at) ==> q[|at|] in left) :: fs[q]
  }

  lemma RemainingIsWellFormed(fs: Tree, at: Path, left: set<string>)
    requires WellFormed(fs)
    ensures OnlyBelowGone(fs, Remaining(fs, at, left), at)
  {
    var less := Remaining(fs, at, left);
    forall q | q in less && q != [] ensures IsDir(less, Parent(q)) {
      if StrictlyBelow(Parent(q), at) {
        assert Parent(q)[|at|] == q[|at|];
      }
    }
  }

  lemma OneEntryLess(fs: Tree, at: Path, left: set<string>, name: string)
    requires name in left
    ensures Remaining(fs, at, left - {name}) == Pruned(Remaining(fs, at, left), at + [name])
  {
    forall q: Path ensures (at + [name] <= q) <==> (StrictlyBelow(q, at) && q[|at|] == name) {
      if StrictlyBelow(q, at) && q[|at|] == name {
        assert q[..|at| + 1] == at + [name];
      }
    }
  }

  /** While only things below `at` go, the path keeps leading to `at`. */
  lemma RouteHolds(before: Tree, now: Tree, p: Path, at: Path)
    requires WellFormed(before) && WellFormed(now) && Reaches(before, p) && Locate(before, p) == Some(at)
    requires Within(Hollow(before, at), now)
    ensures Locate(now, p) == Some(at)
  {
    HollowIsWellFormed(before, at);
    LosingKeepsCanonical(now, Hollow(before, at), p, MAX_LINKS);
  }

  /** An entry seen through `p` is an entry of `at`. */
  lemma EntryIsOurs(before: Tree, now: Tree, p: Path, at: Path, name: string)
    requires Locate(before, p) == Some(at) && OnlyBelowGone(before, now, at)
    requires LinkStat(now, p + [name]).Some?
    ensures LocateLink(now, p + [name]) == Some(at + [name])
  {
    assert Parent(p + [name]) == p;
    var dir := Locate(now, p).value;
    ParentOfChild(now, dir, name);
    LosingKeepsCanonical(before, now, p, MAX_LINKS);
  }

  /** What would go through for the whole goes through for each directory in it. */
  lemma EntryIsRemovable(before: Tree, now: Tree, p: Path, at: Path, name: string)
    requires WellFormed(before) && Locate(before, p) == Some(at) && OnlyBelowGone(before, now, at)
    requires Reaches(before, p) && IsDir(now, at + [name])
    ensures Removable(now, p + [name])
  {
    var q := at + [name];
    assert Parent(p + [name]) == p;
    RouteHolds(before, now, p, at);
    HollowIsWellFormed(now, q);
    forall r | r in Hollow(before, at) ensures r in Hollow(now, q) {
    }
    RouteHolds(before, Hollow(now, q), p, at);
  }

  lemma EntryIsSmaller(before: Tree, now: Tree, p: Path, at: Path, name: string)
    requires Locate(before, p) == Some(at) && at in before && Within(now, before)
    requires Locate(now, p + [name]) == Some(at + [name])
    ensures |Subtree(now, p + [name])| < |Subtree(before, p)|
  {
    SubsetIsNoLarger(Subtree(now, p + [name]), Subtree(before, p) - {at});
  }

  /** An empty directory can always be removed, so each entry gives something up. */
  lemma EntryTakesSomething(fs: Tree, p: Path, at: Path, name: string)
    requires WellFormed(fs) && IsDir(fs, at + [name]) && LocateLink(fs, p + [name]) == Some(at + [name])
    ensures Removable(fs, p + [name]) || HoldsEntries(fs, p + [name])
  {
    var q := at + [name];
    assert Parent(p + [name]) == p;
    if Children(fs, q) == {} {
      forall r <- fs ensures !StrictlyBelow(r, q) {
        if StrictlyBelow(r, q) { WayDown(fs, q, r); }
      }
      assert Hollow(fs, q) == fs;
    }
  }

  method RemoveTree(disk: Disk, p: Path) returns (ok: bool)
    requires WellFormed(disk.nodes)
    modifies disk
    ensures WellFormed(disk.nodes)
    ensures ok <==> Removable(old(disk.nodes), p)
    ensures ok ==> disk.nodes == Pruned(old(disk.nodes), Locate(old(disk.nodes), p).value)
    ensures !ok && Reaches(old(disk.nodes), p) ==>
              disk.nodes == Hollow(old(disk.nodes), Locate(old(disk.nodes), p).value)
    ensures !ok ==> disk.nodes == old(disk.nodes) ||
                    (Locate(old(disk.nodes), p).Some? &&
                     OnlyBelowGone(old(disk.nodes), disk.nodes, Locate(old(disk.nodes), p).value))
    ensures disk.nodes != old(disk.nodes) <==> Removable(old(disk.nodes), p) || HoldsEntries(old(disk.nodes), p)
    decreases |Subtree(disk.nodes, p)|, 1
  {
    var names := ReadDirectory(disk, p);
    if names.None? { return false; }
    ghost var at := Locate(disk.nodes, p).value;
    ghost var before := disk.nodes;
    var left := names.value;
    EverythingRemains(before, at);
    while left != {}
      invariant disk.nodes == Remaining(before, at, left)
      invariant left <= Children(before, at)
      decreases left
    {
      var name :| name in left;
      RemainingIsWellFormed(before, at, left);
      OneEntryLess(before, at, left, name);
      EntryRemains(before, at, left, name);
      ok := RemoveEntry(disk, p, name, before, at);
      if !ok { return; }
      left := left - {name};
    }
    EmptiedGoes(before, p, at);
    ok := RemoveDirectory(disk, p);
  }

  lemma EverythingRemains(fs: Tree, at: Path)
    requires WellFormed(fs)
    ensures Remaining(fs, at, Children(fs, at)) == fs
  {
    forall q <- fs ensures StrictlyBelow(q, at) ==> q[|at|] in Children(fs, at) {
      if StrictlyBelow(q, at) { WayDown(fs, at, q); }
    }
  }

  lemma EntryRemains(fs: Tree, at: Path, left: set<string>, name: string)
    requires name in left && left <= Children(fs, at)
    ensures at + [name] in Remaining(fs, at, left)
  {
    var q :| q in fs && q != [] && Parent(q) == at && Name(q) == name;
    assert q == at + [name];
  }

  /** Once empty, the directory itself goes exactly when its path still leads to it. */
  lemma EmptiedGoes(before: Tree, p: Path, at: Path)
    requires WellFormed(before) && Locate(before, p) == Some(at) && IsDir(before, at)
    ensures var now := Remaining(before, at, {});
            WellFormed(now) && OnlyBelowGone(before, now, at) &&
            (Removable(before, p) <==>
             LinkStat(now, p) == Some(Dir) && LocateLink(now, p).value != [] &&
             Children(now, LocateLink(now, p).value) == {}) &&
            now == Hollow(before, at) &&
            (Removable(before, p) ==> LocateLink(now, p) == Some(at) && Without(now, at) == Pruned(before, at) &&
                                      WellFormed(Pruned(before, at)))
  {
    var now := Remaining(before, at, {});
    RemainingIsWellFormed(before, at, {});
    assert now == Hollow(before, at);
    assert Children(now, at) == {};
    if Removable(before, p) {
      PrunedIsWellFormed(before, at);
    }
    if LinkStat(now, p) == Some(Dir) {
      LosingKeepsCanonical(before, now, p, MAX_LINKS);
    }
  }

  /** One turn of the walk: a directory is walked into, anything else unlinked. */
  method RemoveEntry(disk: Disk, p: Path, name: string, ghost before: Tree, ghost at: Path) returns (ok: bool)
    requires WellFormed(before) && Locate(before, p) == Some(at) && at in before
    requires OnlyBelowGone(before, disk.nodes, at) && at + [name] in disk.nodes
    modifies disk
    ensures OnlyBelowGone(before, disk.nodes, at)
    ensures ok ==> disk.nodes == Pruned(old(disk.nodes), at + [name])
    ensures !ok ==> !Reaches(before, p)
    ensures disk.nodes != before
    decreases |Subtree(before, p)|, 0
  {
    var child := p + [name];
    var info := LinkStat(disk.nodes, child);
    if info.None? {
      EntryIsThere(before, disk.nodes, p, at, name);
      return false;
    }
    EntryIsOurs(before, disk.nodes, p, at, name);
    if info == Some(Dir) {
      ghost var now := disk.nodes;
      EntryIsSmaller(before, now, p, at, name);
      ok := RemoveTree(disk, child);
      if !ok && Reaches(before, p) { EntryIsRemovable(before, now, p, at, name); }
      EntryTakesSomething(now, p, at, name);
    } else {
      WithoutLeaf(disk.nodes, at + [name]);
      ok := Unlink(disk, child);
    }
  }

  lemma EntryIsThere(before: Tree, now: Tree, p: Path, at: Path, name: string)
    requires WellFormed(before) && Locate(before, p) == Some(at) && OnlyBelowGone(before, now, at)
    requires at + [name] in now
    ensures Reaches(before, p) || now == before ==> LinkStat(now, p + [name]).Some?
  {
    assert Parent(p + [name]) == p;
    if Reaches(before, p) {
      RouteHolds(before, now, p, at);
    }
  }

  /* ---------------------------------- the request ------------------------------- */

  datatype Refusal = RefusingRoot | NotFound | RecursiveRequired | Failed

  /** What the walk starts from: the transport does not follow a link at the end of
      a path, unless the path ends in a slash and the link leads to a directory. */
  function Target(fs: Tree, p: Path, slash: bool): Option<Node> {
    if !slash then LinkStat(fs, p) else if Stat(fs, p) == Some(Dir) then Some(Dir) else None
  }

  lemma RemovedIsNamed(fs: Tree, p: Path)
    requires WellFormed(fs) && Removable(fs, p) && p != []
    ensures LocateLink(fs, p) == Locate(fs, p)
  {
    var at := Locate(fs, p).value;
    HollowIsWellFormed(fs, at);
    assert IsDir(Hollow(fs, at), at);
    var dir := Locate(Hollow(fs, at), Parent(p)).value;
    ParentOfChild(Hollow(fs, at), dir, Name(p));
    LosingKeepsCanonical(fs, Hollow(fs, at), Parent(p), MAX_LINKS);
  }

  predicate NamesLink(fs: Tree, p: Path) {
    LinkStat(fs, p).Some? && LinkStat(fs, p).value.Link?
  }

  /** The removal follows a link out of what it was told to remove. */
  predicate LeadsOut(fs: Tree, p: Path, slash: bool, recursive: bool) {
    slash && recursive && NamesLink(fs, p) && HoldsEntries(fs, p)
  }

  /** Something that is neither the node named nor below it is gone. */
  ghost predicate OutsideGone(before: Tree, after: Tree, p: Path) {
    exists q <- before :: q !in after && !(LocateLink(before, p).Some? && LocateLink(before, p).value <= q)
  }

  /** A link at the end of the path is never removed through: what it leads to is. */
  lemma LinkIsNotRemovable(fs: Tree, p: Path)
    requires WellFormed(fs) && NamesLink(fs, p)
    ensures p != [] && !Removable(fs, p)
  {
    if Removable(fs, p) { RemovedIsNamed(fs, p); }
  }

  lemma NamedIsReached(fs: Tree, p: Path)
    requires WellFormed(fs) && !NamesLink(fs, p) && Stat(fs, p) == Some(Dir)
    ensures LocateLink(fs, p) == Locate(fs, p)
  {
  }

  /** On the way to the directory below it lies the link itself, so that stays. */
  lemma LinkIsOutside(fs: Tree, p: Path)
    requires WellFormed(fs) && NamesLink(fs, p) && Reaches(fs, p)
    ensures var at := Locate(fs, p).value;
            !StrictlyBelow(LocateLink(fs, p).value, at) &&
            forall q <- fs :: LocateLink(fs, p).value <= q ==> q == LocateLink(fs, p).value
  {
    var at, link := Locate(fs, p).value, LocateLink(fs, p).value;
    HollowIsWellFormed(fs, at);
    var dir := Locate(Hollow(fs, at), Parent(p)).value;
    assert dir + [Name(p)] in Hollow(fs, at);
    ParentOfChild(Hollow(fs, at), dir, Name(p));
    LosingKeepsCanonical(fs, Hollow(fs, at), Parent(p), MAX_LINKS);
    assert link == dir + [Name(p)];
    forall q <- fs ensures link <= q ==> q == link {
      if StrictlyBelow(q, link) { WayDown(fs, link, q); }
    }
  }

  /** The node named goes, with everything below it, and nothing else, but for one
      case: a slash after a link to a directory, which is then emptied. */
  method RemovePath(disk: Disk, p: Path, slash: bool, recursive: bool) returns (refusal: Option<Refusal>)
    requires WellFormed(disk.nodes)
    modifies disk
    ensures WellFormed(disk.nodes)
    ensures refusal == Some(RefusingRoot) <==> p == []
    ensures refusal == Some(NotFound) <==> p != [] && Target(old(disk.nodes), p, slash).None?
    ensures refusal == Some(NotFound) <==>
              p != [] && if slash then Stat(old(disk.nodes), p) != Some(Dir) else LinkStat(old(disk.nodes), p).None?
    ensures refusal == Some(RecursiveRequired) <==> p != [] && !recursive && Target(old(disk.nodes), p, slash) == Some(Dir)
    ensures refusal.Some? && refusal != Some(Failed) ==> disk.nodes == old(disk.nodes)
    ensures refusal == Some(Failed) ==> !Removable(old(disk.nodes), p)
    ensures refusal.None? <==>
              p != [] && (if Target(old(disk.nodes), p, slash) == Some(Dir) then recursive && Removable(old(disk.nodes), p)
                          else Target(old(disk.nodes), p, slash).Some?)
    ensures refusal.None? ==> LocateLink(old(disk.nodes), p).Some? && LocateLink(old(disk.nodes), p).value in old(disk.nodes)
    ensures refusal.None? ==> disk.nodes == Pruned(old(disk.nodes), LocateLink(old(disk.nodes), p).value)
    ensures refusal == Some(Failed) ==>
              disk.nodes == old(disk.nodes) ||
              (Locate(old(disk.nodes), p).Some? &&
               OnlyBelowGone(old(disk.nodes), disk.nodes, Locate(old(disk.nodes), p).value))
    ensures LeadsOut(old(disk.nodes), p, slash, recursive) ==> refusal == Some(Failed) && disk.nodes != old(disk.nodes)
    ensures OutsideGone(old(disk.nodes), disk.nodes, p) ==> LeadsOut(old(disk.nodes), p, slash, recursive)
    ensures Reaches(old(disk.nodes), p) && LeadsOut(old(disk.nodes), p, slash, recursive) ==>
              disk.nodes == Hollow(old(disk.nodes), Locate(old(disk.nodes), p).value) &&
              OutsideGone(old(disk.nodes), disk.nodes, p)
  {
    if p == [] { return Some(RefusingRoot); }
    var info := Target(disk.nodes, p, slash);
    if info.None? { return Some(NotFound); }
    if info != Some(Dir) {
      WithoutLeaf(disk.nodes, LocateLink(disk.nodes, p).value);
      var gone := Unlink(disk, p);
      return None;
    }
    if !recursive { return Some(RecursiveRequired); }
    ghost var before := disk.nodes;
    var ok := RemoveTree(disk, p);
    WhatIsGone(before, disk.nodes, p, ok);
    return if ok then None else Some(Failed);
  }

  lemma WhatIsGone(before: Tree, after: Tree, p: Path, ok: bool)
    requires WellFormed(before) && p != [] && Stat(before, p) == Some(Dir)
    requires ok <==> Removable(before, p)
    requires after != before <==> Removable(before, p) || HoldsEntries(before, p)
    requires ok ==> after == Pruned(before, Locate(before, p).value)
    requires !ok && Reaches(before, p) ==> after == Hollow(before, Locate(before, p).value)
    requires after == before || ok || OnlyBelowGone(before, after, Locate(before, p).value)
    ensures ok ==> LocateLink(before, p) == Locate(before, p)
    ensures OutsideGone(before, after, p) ==> NamesLink(before, p) && HoldsEntries(before, p)
    ensures NamesLink(before, p) ==> !ok
    ensures Reaches(before, p) && NamesLink(before, p) && HoldsEntries(before, p) ==> OutsideGone(before, after, p)
  {
    if NamesLink(before, p) {
      LinkIsNotRemovable(before, p);
      if Reaches(before, p) && HoldsEntries(before, p) {
        LinkIsOutside(before, p);
        var at := Locate(before, p).value;
        var name :| name in Children(before, at);
        EverythingRemains(before, at);
        EntryRemains(before, at, Children(before, at), name);
        assert at + [name] !in after;
      }
    } else {
      NamedIsReached(before, p);
    }
  }

  const HOME: Tree := map[[] := Dir, ["d"] := Dir, ["d", "f"] := File([]), ["l"] := Link(["d"])]

  /** Removing "l/", where "l" is a link to the directory "d", empties "d". */
  lemma LinkLeadsOut()
    ensures WellFormed(HOME) && LeadsOut(HOME, ["l"], true, true) && Reaches(HOME, ["l"])
    ensures ["d", "f"] in HOME && ["d", "f"] !in Hollow(HOME, Locate(HOME, ["l"]).value)
  {
    var d, l: Path := [] + ["d"], [] + ["l"];
    var f := d + ["f"];
    assert d == ["d"] && l == ["l"] && f == ["d", "f"];
    assert Parent(d) == [] && Parent(f) == d && Parent(l) == [];
    assert Canonical(HOME, d, MAX_LINKS - 1) == Some(d);
    assert Locate(HOME, l) == Some(d);
    var h := Hollow(HOME, d);
    assert l in h && d in h;
    assert Canonical(h, d, MAX_LINKS - 1) == Some(d);
    assert Locate(h, l) == Some(d);
    assert Name(f) in Children(HOME, d);
  }

  /** Without the slash a link is unlinked, and what it leads to stays. */
  lemma LinksAreNotWalked(fs: Tree, p: Path, target: Path)
    requires WellFormed(fs) && p != [] && LinkStat(fs, p) == Some(Link(target))
    ensures var at := LocateLink(fs, p).value;
            forall q <- fs :: q != at ==> q in Pruned(fs, at) && Pruned(fs, at)[q] == fs[q]
  {
    var at := LocateLink(fs, p).value;
    forall q <- fs ensures q != at ==> !(at <= q) {
      if StrictlyBelow(q, at) { WayDown(fs, at, q); }
    }
  }
}
