/** The plan of a copy lists the source tree, links followed, each entry once. */
module SourceTree {
  import opened Common
  import opened Protocol
  import opened FileSystem
  import opened CopyTree

  /** The entry at `rel` below a source path, reached through listed names. */
  function Find(view: View, from: Path, info: Info, rel: Path): Option<Info>
    decreases |rel|
  {
    if rel == [] then Some(info)
    else if !info.Folder? || info.listing.None? || rel[0] !in info.listing.value then None
    else
      match view(from + [rel[0]])
      case None => None
      case Some(child) => Find(view, from + [rel[0]], child, rel[1..])
  }

  /** `rel` names something a listing mentions, readable or not. */
  predicate Listed(view: View, from: Path, info: Info, rel: Path)
    decreases |rel|
  {
    rel == [] ||
    (info.Folder? && info.listing.Some? && rel[0] in info.listing.value &&
     match view(from + [rel[0]])
     case None => |rel| == 1
     case Some(child) => Listed(view, from + [rel[0]], child, rel[1..]))
  }

  predicate Readable(info: Info) {
    match info
    case Folder(listing) => listing.Some?
    case Content(_, intact) => intact
    case Other => true
  }

  /** Everything below can be read and nothing is nested more than 64 deep. */
  ghost predicate Sound(view: View, from: Path, info: Info, depth: nat) {
    forall rel :: Listed(view, from, info, rel) ==> SoundAt(view, from, info, depth, rel)
  }

  predicate SoundAt(view: View, from: Path, info: Info, depth: nat, rel: Path) {
    depth + |rel| <= MAX_COPY_DEPTH && var entry := Find(view, from, info, rel); entry.Some? && Readable(entry.value)
  }

  predicate CleanOp(op: Op) {
    match op
    case Stop(_) => false
    case WriteTo(_, _, intact) => intact
    case MakeDir(_) => true
  }

  /** Nothing in the plan stops the copy by itself. */
  predicate Clean(ops: seq<Op>) {
    forall op <- ops :: CleanOp(op)
  }

  lemma CleanAt(ops: seq<Op>, i: nat)
    requires i < |ops| && Clean(ops)
    ensures CleanOp(ops[i])
  {
  }

  lemma CleanConcat(a: seq<Op>, b: seq<Op>)
    ensures Clean(a + b) <==> Clean(a) && Clean(b)
  {
    forall op <- a ensures op in a + b {
    }
    forall op <- b ensures op in a + b {
    }
  }

  /* --------------------------- when the source can be copied -------------------- */

  lemma SoundHere(view: View, from: Path, info: Info, depth: nat)
    requires Sound(view, from, info, depth)
    ensures depth <= MAX_COPY_DEPTH && Readable(info)
  {
    assert Listed(view, from, info, []);
    assert SoundAt(view, from, info, depth, []);
  }

  ghost predicate SoundChild(view: View, from: Path, name: string, depth: nat) {
    match view(from + [name])
    case None => false
    case Some(child) => Sound(view, from + [name], child, depth + 1)
  }

  lemma SoundBelow(view: View, from: Path, names: seq<string>, depth: nat, name: string)
    requires Sound(view, from, Folder(Some(names)), depth) && name in names
    ensures SoundChild(view, from, name, depth)
  {
    var info := Folder(Some(names));
    assert Listed(view, from, info, [name]) ==> SoundAt(view, from, info, depth, [name]);
    var child := view(from + [name]);
    assert [name][1..] == [];
    if child.Some? {
      forall rel | Listed(view, from + [name], child.value, rel)
        ensures SoundAt(view, from + [name], child.value, depth + 1, rel)
      {
        assert ([name] + rel)[1..] == rel;
        assert Listed(view, from, info, [name] + rel);
        assert SoundAt(view, from, info, depth, [name] + rel);
      }
    }
  }

  lemma SoundAbove(view: View, from: Path, names: seq<string>, depth: nat)
    requires depth <= MAX_COPY_DEPTH && forall name <- names :: SoundChild(view, from, name, depth)
    ensures Sound(view, from, Folder(Some(names)), depth)
  {
    var info := Folder(Some(names));
    forall rel | Listed(view, from, info, rel)
      ensures SoundAt(view, from, info, depth, rel)
    {
      if rel != [] {
        assert SoundChild(view, from, rel[0], depth);
        assert SoundAt(view, from + [rel[0]], view(from + [rel[0]]).value, depth + 1, rel[1..]);
      }
    }
  }

  lemma SoundLeaf(view: View, from: Path, info: Info, depth: nat)
    requires depth <= MAX_COPY_DEPTH && !info.Folder? && Readable(info)
    ensures Sound(view, from, info, depth)
  {
  }

  /** The copy gets through the source exactly when the whole tree below it can be
      read and is at most 64 deep; so a loop of links always ends in an error. */
  lemma {:induction false} PlanIsCleanIff(view: View, from: Path, to: Path, info: Info, depth: nat)
    requires depth <= MAX_COPY_DEPTH + 1
    ensures Clean(Plan(view, from, to, info, depth)) <==> Sound(view, from, info, depth)
    decreases MAX_COPY_DEPTH + 1 - depth, 1, 0
  {
    if Sound(view, from, info, depth) { SoundHere(view, from, info, depth); }
    if depth > MAX_COPY_DEPTH {
      assert Stop(TooDeep) in Plan(view, from, to, info, depth);
    } else if !info.Folder? {
      if Readable(info) {
        SoundLeaf(view, from, info, depth);
      } else {
        assert !CleanOp(Plan(view, from, to, info, depth)[0]);
      }
    } else if info.listing.None? {
      assert !CleanOp(Plan(view, from, to, info, depth)[1]);
    } else {
      var names := info.listing.value;
      CleanConcat([MakeDir(to)], PlanAll(view, from, to, names, depth));
      PlanAllIsCleanIff(view, from, to, names, depth);
      if Sound(view, from, info, depth) {
        forall name <- names ensures SoundChild(view, from, name, depth) {
          SoundBelow(view, from, names, depth, name);
        }
      } else if Clean(PlanAll(view, from, to, names, depth)) {
        SoundAbove(view, from, names, depth);
      }
    }
  }

  lemma {:induction false} PlanAllIsCleanIff(view: View, from: Path, to: Path, names: seq<string>, depth: nat)
    requires depth <= MAX_COPY_DEPTH
    ensures Clean(PlanAll(view, from, to, names, depth)) <==> forall name <- names :: SoundChild(view, from, name, depth)
    decreases MAX_COPY_DEPTH + 1 - depth, 0, |names|
  {
    if names != [] {
      var child, childTo := from + [names[0]], to + [names[0]];
      CleanConcat(PlanOne(view, child, childTo, depth + 1), PlanAll(view, from, to, names[1..], depth));
      PlanAllIsCleanIff(view, from, to, names[1..], depth);
      match view(child) {
        case None => assert Stop(SourceFailed) in PlanOne(view, child, childTo, depth + 1);
        case Some(info) => PlanIsCleanIff(view, child, childTo, info, depth + 1);
      }
      assert names == [names[0]] + names[1..];
      assert SoundChild(view, from, names[0], depth) <==> Clean(PlanOne(view, child, childTo, depth + 1));
    }
  }

  /* ------------------------------- the plan is the tree ------------------------- */

  predicate At(op: Op, p: Path) {
    !op.Stop? && op.at == p
  }

  predicate Below(op: Op, p: Path) {
    op.Stop? || p <= op.at
  }

  lemma {:induction false} PlanStaysBelow(view: View, from: Path, to: Path, info: Info, depth: nat)
    requires depth <= MAX_COPY_DEPTH + 1
    ensures forall op <- Plan(view, from, to, info, depth) :: Below(op, to)
    decreases MAX_COPY_DEPTH + 1 - depth, 1, 0
  {
    if depth <= MAX_COPY_DEPTH && info.Folder? && info.listing.Some? {
      PlanAllStaysBelow(view, from, to, info.listing.value, depth);
      forall op <- PlanAll(view, from, to, info.listing.value, depth) ensures Below(op, to) {
      }
    }
  }

  predicate BelowOneOf(op: Op, to: Path, names: seq<string>) {
    op.Stop? || (|to| < |op.at| && to <= op.at && op.at[|to|] in names)
  }

  lemma {:induction false} PlanOneStaysBelow(view: View, from: Path, to: Path, name: string, depth: nat)
    requires 1 <= depth <= MAX_COPY_DEPTH + 1
    ensures forall op <- PlanOne(view, from, to + [name], depth) :: BelowOneOf(op, to, [name])
    decreases MAX_COPY_DEPTH + 1 - depth, 2, 0
  {
    if view(from).Some? {
      PlanStaysBelow(view, from, to + [name], view(from).value, depth);
      forall op <- PlanOne(view, from, to + [name], depth) ensures BelowOneOf(op, to, [name]) {
        assert Below(op, to + [name]);
      }
    }
  }

  lemma {:induction false} PlanAllStaysBelow(view: View, from: Path, to: Path, names: seq<string>, depth: nat)
    requires depth <= MAX_COPY_DEPTH
    ensures forall op <- PlanAll(view, from, to, names, depth) :: BelowOneOf(op, to, names)
    decreases MAX_COPY_DEPTH + 1 - depth, 0, |names|
  {
    if names != [] {
      PlanOneStaysBelow(view, from + [names[0]], to, names[0], depth + 1);
      PlanAllStaysBelow(view, from, to, names[1..], depth);
    }
  }

  /** What the plan does for one entry of the source. */
  function OpFor(at: Path, entry: Option<Info>): Option<Op> {
    match entry
    case Some(Folder(_)) => Some(MakeDir(at))
    case Some(Content(bytes, intact)) => Some(WriteTo(at, bytes, intact))
    case _ => None
  }

  lemma CleanPlan(view: View, from: Path, to: Path, info: Info, depth: nat)
    requires depth <= MAX_COPY_DEPTH + 1 && Clean(Plan(view, from, to, info, depth))
    ensures depth <= MAX_COPY_DEPTH && (info.Folder? ==> info.listing.Some?)
  {
    if depth > MAX_COPY_DEPTH {
      CleanAt(Plan(view, from, to, info, depth), 0);
    } else if info.Folder? && info.listing.None? {
      CleanAt(Plan(view, from, to, info, depth), 1);
    }
  }

  lemma CleanOne(view: View, child: Path, to: Path, depth: nat)
    requires 1 <= depth <= MAX_COPY_DEPTH + 1 && Clean(PlanOne(view, child, to, depth))
    ensures view(child).Some?
  {
    if view(child).None? {
      CleanAt(PlanOne(view, child, to, depth), 0);
    }
  }

  /** The plan is the source tree: it makes a directory for every folder and writes
      every file with its bytes, and does nothing else. */
  lemma {:induction false} PlanIsTheTree(view: View, from: Path, to: Path, info: Info, depth: nat, rel: Path, op: Op)
    requires depth <= MAX_COPY_DEPTH + 1 && At(op, to + rel) && Clean(Plan(view, from, to, info, depth))
    ensures op in Plan(view, from, to, info, depth) <==> OpFor(to + rel, Find(view, from, info, rel)) == Some(op)
    decreases MAX_COPY_DEPTH + 1 - depth, 1, 0
  {
    CleanPlan(view, from, to, info, depth);
    if !info.Folder? {
      if rel == [] {
        assert to + rel == to;
      } else {
        assert to + rel != to;
      }
    } else {
      var names := info.listing.value;
      CleanConcat([MakeDir(to)], PlanAll(view, from, to, names, depth));
      if rel == [] {
        assert to + rel == to;
        PlanAllStaysBelow(view, from, to, names, depth);
      } else {
        PlanAllIsTheTree(view, from, to, names, depth, rel, op);
      }
    }
  }

  lemma {:induction false} PlanAllIsTheTree(view: View, from: Path, to: Path, names: seq<string>, depth: nat, rel: Path,
                                            op: Op)
    requires depth <= MAX_COPY_DEPTH && rel != [] && At(op, to + rel) && Clean(PlanAll(view, from, to, names, depth))
    ensures op in PlanAll(view, from, to, names, depth) <==>
            OpFor(to + rel, Find(view, from, Folder(Some(names)), rel)) == Some(op)
    decreases MAX_COPY_DEPTH + 1 - depth, 0, |names|
  {
    if names != [] {
      var child, childTo := from + [names[0]], to + [names[0]];
      var one, rest := PlanOne(view, child, childTo, depth + 1), PlanAll(view, from, to, names[1..], depth);
      CleanConcat(one, rest);
      PlanAllIsTheTree(view, from, to, names[1..], depth, rel, op);
      assert (to + rel)[|to|] == rel[0];
      if rel[0] == names[0] {
        PlanOneIsTheTree(view, child, to, names[0], depth + 1, rel, op);
      } else {
        PlanOneStaysBelow(view, child, to, names[0], depth + 1);
        assert op !in one;
      }
    }
  }

  lemma {:induction false} PlanOneIsTheTree(view: View, child: Path, to: Path, name: string, depth: nat, rel: Path,
                                            op: Op)
    requires 1 <= depth <= MAX_COPY_DEPTH + 1 && rel != [] && rel[0] == name && At(op, to + rel)
    requires Clean(PlanOne(view, child, to + [name], depth))
    ensures view(child).Some?
    ensures op in PlanOne(view, child, to + [name], depth) <==>
            OpFor(to + rel, Find(view, child, view(child).value, rel[1..])) == Some(op)
    decreases MAX_COPY_DEPTH + 1 - depth, 2, 0
  {
    CleanOne(view, child, to + [name], depth);
    assert to + [name] + rel[1..] == to + rel;
    PlanIsTheTree(view, child, to + [name], view(child).value, depth, rel[1..], op);
  }

  /* ------------------------------- each entry once ------------------------------ */

  /** No two operations name the same target path. */
  predicate Apart(ops: seq<Op>) {
    forall i, k :: 0 <= i < k < |ops| && !ops[i].Stop? && !ops[k].Stop? ==> ops[i].at != ops[k].at
  }

  predicate Distinct(names: seq<string>) {
    forall i, k :: 0 <= i < k < |names| ==> names[i] != names[k]
  }

  /** A directory lists each of its entries once. */
  ghost predicate DistinctListings(view: View) {
    forall p :: view(p).Some? ==> DistinctListing(view(p).value)
  }

  predicate DistinctListing(info: Info) {
    info.Folder? && info.listing.Some? ==> Distinct(info.listing.value)
  }

  lemma ApartConcat(a: seq<Op>, b: seq<Op>)
    requires Apart(a) && Apart(b)
    requires forall x <- a, y <- b :: !x.Stop? && !y.Stop? ==> x.at != y.at
    ensures Apart(a + b)
  {
    var ops := a + b;
    forall i, k | 0 <= i < k < |ops| && !ops[i].Stop? && !ops[k].Stop?
      ensures ops[i].at != ops[k].at
    {
      if i < |a| <= k {
        assert ops[i] in a && ops[k] in b;
      }
    }
  }

  lemma {:induction false} PlanIsApart(view: View, from: Path, to: Path, info: Info, depth: nat)
    requires depth <= MAX_COPY_DEPTH + 1 && DistinctListings(view) && DistinctListing(info)
    ensures Apart(Plan(view, from, to, info, depth))
    decreases MAX_COPY_DEPTH + 1 - depth, 1, 0
  {
    if depth <= MAX_COPY_DEPTH && info.Folder? && info.listing.Some? {
      PlanAllIsApart(view, from, to, info.listing.value, depth);
      PlanAllStaysBelow(view, from, to, info.listing.value, depth);
      ApartConcat([MakeDir(to)], PlanAll(view, from, to, info.listing.value, depth));
    }
  }

  lemma {:induction false} PlanAllIsApart(view: View, from: Path, to: Path, names: seq<string>, depth: nat)
    requires depth <= MAX_COPY_DEPTH && DistinctListings(view) && Distinct(names)
    ensures Apart(PlanAll(view, from, to, names, depth))
    decreases MAX_COPY_DEPTH + 1 - depth, 0, |names|
  {
    if names != [] {
      var child, childTo := from + [names[0]], to + [names[0]];
      var one, rest := PlanOne(view, child, childTo, depth + 1), PlanAll(view, from, to, names[1..], depth);
      if view(child).Some? {
        PlanIsApart(view, child, childTo, view(child).value, depth + 1);
      }
      PlanAllIsApart(view, from, to, names[1..], depth);
      PlanOneStaysBelow(view, child, to, names[0], depth + 1);
      PlanAllStaysBelow(view, from, to, names[1..], depth);
      assert names[0] !in names[1..];
      ApartConcat(one, rest);
    }
  }

  /* ---------------------------- parents before children ------------------------- */

  predicate MadeBefore(ops: seq<Op>, i: nat, dir: Path)
    requires i <= |ops|
  {
    exists k :: 0 <= k < i && ops[k] == MakeDir(dir)
  }

  /** Every operation strictly below `to` comes after the one making its parent,
      unless that parent is `to` itself. */
  predicate ParentsFirst(ops: seq<Op>, to: Path) {
    forall i :: 0 <= i < |ops| && !ops[i].Stop? && |to| < |ops[i].at| ==>
      Parent(ops[i].at) == to || MadeBefore(ops, i, Parent(ops[i].at))
  }

  /** The same of every operation not at `to`, with no exception. */
  predicate AllMade(ops: seq<Op>, to: Path) {
    forall i :: 0 <= i < |ops| && !ops[i].Stop? && ops[i].at != to ==>
      |to| < |ops[i].at| && MadeBefore(ops, i, Parent(ops[i].at))
  }

  lemma ParentsFirstConcat(a: seq<Op>, b: seq<Op>, to: Path)
    requires ParentsFirst(a, to) && ParentsFirst(b, to)
    ensures ParentsFirst(a + b, to)
  {
    var ops := a + b;
    forall i | 0 <= i < |ops| && !ops[i].Stop? && |to| < |ops[i].at|
      ensures Parent(ops[i].at) == to || MadeBefore(ops, i, Parent(ops[i].at))
    {
      var dir := Parent(ops[i].at);
      if i < |a| {
        if MadeBefore(a, i, dir) {
          var k :| 0 <= k < i && a[k] == MakeDir(dir);
          assert ops[k] == MakeDir(dir);
        }
      } else if MadeBefore(b, i - |a|, dir) {
        var k :| 0 <= k < i - |a| && b[k] == MakeDir(dir);
        assert ops[k + |a|] == MakeDir(dir);
      }
    }
  }

  lemma {:induction false} PlanAllMakesParents(view: View, from: Path, to: Path, names: seq<string>, depth: nat)
    requires depth <= MAX_COPY_DEPTH
    ensures ParentsFirst(PlanAll(view, from, to, names, depth), to)
    decreases MAX_COPY_DEPTH + 1 - depth, 0, |names|
  {
    if names != [] {
      var child, childTo := from + [names[0]], to + [names[0]];
      var one, rest := PlanOne(view, child, childTo, depth + 1), PlanAll(view, from, to, names[1..], depth);
      if view(child).Some? {
        PlanMakesParents(view, child, childTo, view(child).value, depth + 1);
        PlanStaysBelow(view, child, childTo, view(child).value, depth + 1);
        forall i | 0 <= i < |one| && !one[i].Stop? && |to| < |one[i].at|
          ensures Parent(one[i].at) == to || MadeBefore(one, i, Parent(one[i].at))
        {
          if one[i].at == childTo {
            assert Parent(childTo) == to;
          }
        }
      }
      PlanAllMakesParents(view, from, to, names[1..], depth);
      ParentsFirstConcat(one, rest, to);
    }
  }

  /** Below the destination, every directory is made before what goes into it. */
  lemma {:induction false} PlanMakesParents(view: View, from: Path, to: Path, info: Info, depth: nat)
    requires depth <= MAX_COPY_DEPTH + 1
    ensures AllMade(Plan(view, from, to, info, depth), to)
    decreases MAX_COPY_DEPTH + 1 - depth, 1, 0
  {
    if depth <= MAX_COPY_DEPTH && info.Folder? && info.listing.Some? {
      var ops, all := Plan(view, from, to, info, depth), PlanAll(view, from, to, info.listing.value, depth);
      PlanAllMakesParents(view, from, to, info.listing.value, depth);
      PlanAllStaysBelow(view, from, to, info.listing.value, depth);
      forall i | 0 <= i < |ops| && !ops[i].Stop? && ops[i].at != to
        ensures |to| < |ops[i].at| && MadeBefore(ops, i, Parent(ops[i].at))
      {
        assert ops[i] == all[i - 1] && BelowOneOf(all[i - 1], to, info.listing.value);
        var dir := Parent(ops[i].at);
        if dir == to {
          assert ops[0] == MakeDir(dir);
        } else {
          assert MadeBefore(all, i - 1, dir);
          var k :| 0 <= k < i - 1 && all[k] == MakeDir(dir);
          assert ops[k + 1] == MakeDir(dir);
        }
      }
    }
  }
}
