/** What a copy does to its target: it lays the source tree over it. */
module Overlay {
  import opened Common
  import opened Protocol
  import opened FileSystem
  import opened CopyTree
  import opened SourceTree

  /* ------------------------------ any run of operations ------------------------- */

  predicate Hits(fs: Tree, op: Op, p: Path) {
    !op.Stop? && Locate(fs, op.at) == Some(p)
  }

  predicate Same(a: Tree, b: Tree, p: Path) {
    (p in a <==> p in b) && (p in a ==> a[p] == b[p])
  }

  lemma ExecTouchesOnly(o: Outcome, op: Op, p: Path)
    requires !Hits(o.fs, op, p)
    ensures Same(o.fs, Exec(o, op).fs, p)
  {
  }

  lemma HitsLater(o: Outcome, op: Op, later: Op, p: Path)
    requires WellFormed(o.fs)
    ensures Hits(o.fs, later, p) <==> Hits(Exec(o, op).fs, later, p)
  {
    ExecOnlyAdds(o, op);
    if !later.Stop? {
      LinksDecideCanonical(o.fs, Exec(o, op).fs, later.at, MAX_LINKS);
    }
  }

  /** A copy touches nothing but the places its paths lead to, links included,
      whether or not it runs to the end. */
  lemma {:induction false} RunTouchesOnly(o: Outcome, ops: seq<Op>, p: Path)
    requires WellFormed(o.fs) && forall op <- ops :: !Hits(o.fs, op, p)
    ensures Same(o.fs, Run(o, ops).fs, p)
    decreases |ops|
  {
    if o.error.None? && ops != [] {
      ExecTouchesOnly(o, ops[0], p);
      ExecOnlyAdds(o, ops[0]);
      forall op <- ops[1..] ensures !Hits(Exec(o, ops[0]).fs, op, p) {
        HitsLater(o, ops[0], op, p);
      }
      RunTouchesOnly(Exec(o, ops[0]), ops[1..], p);
    }
  }

  /** What an operation that succeeded leaves at its place. */
  predicate Landed(before: Tree, after: Tree, op: Op, q: Path) {
    match op
    case Stop(_) => false
    case MakeDir(_) => IsDir(after, q)
    case WriteTo(_, bytes, intact) =>
      intact && q in after && (after[q] == File(bytes) || (q in before && before[q].Special?))
  }

  lemma ExecLands(o: Outcome, op: Op)
    requires WellFormed(o.fs) && o.error.None? && Exec(o, op).error.None?
    ensures !op.Stop? && Locate(o.fs, op.at).Some?
    ensures Landed(o.fs, Exec(o, op).fs, op, Locate(o.fs, op.at).value)
  {
  }

  /** After a success every directory is there, and every file that no later
      operation leads to holds its own bytes. */
  lemma {:induction false} RunLands(o: Outcome, ops: seq<Op>, i: nat)
    requires WellFormed(o.fs) && o.error.None? && Run(o, ops).error.None? && i < |ops|
    ensures !ops[i].Stop? && Locate(o.fs, ops[i].at).Some?
    ensures var q := Locate(o.fs, ops[i].at).value;
            (ops[i].WriteTo? ==> forall k :: i < k < |ops| ==> !Hits(o.fs, ops[k], q)) ==>
            Landed(o.fs, Run(o, ops).fs, ops[i], q)
    decreases |ops|
  {
    var next, rest := Exec(o, ops[0]), ops[1..];
    RunStopsAtError(next, rest);
    ExecLands(o, ops[0]);
    ExecOnlyAdds(o, ops[0]);
    if i == 0 {
      FirstLands(o, ops);
    } else {
      RunLands(next, rest, i - 1);
      LinksDecideCanonical(o.fs, next.fs, ops[i].at, MAX_LINKS);
      var q := Locate(o.fs, ops[i].at).value;
      if ops[i].WriteTo? && forall k :: i < k < |ops| ==> !Hits(o.fs, ops[k], q) {
        forall k | i - 1 < k < |rest| ensures !Hits(next.fs, rest[k], q) {
          assert rest[k] == ops[k + 1];
          HitsLater(o, ops[0], ops[k + 1], q);
        }
      }
    }
  }

  lemma RunStopsAtError(o: Outcome, ops: seq<Op>)
    ensures Run(o, ops).error.None? ==> o.error.None?
  {
  }

  lemma FirstLands(o: Outcome, ops: seq<Op>)
    requires WellFormed(o.fs) && o.error.None? && Run(o, ops).error.None? && 0 < |ops|
    requires !ops[0].Stop? && Locate(o.fs, ops[0].at).Some?
    ensures var q := Locate(o.fs, ops[0].at).value;
            (ops[0].WriteTo? ==> forall k :: 0 < k < |ops| ==> !Hits(o.fs, ops[k], q)) ==>
            Landed(o.fs, Run(o, ops).fs, ops[0], q)
  {
    var next, rest := Exec(o, ops[0]), ops[1..];
    var q := Locate(o.fs, ops[0].at).value;
    RunStopsAtError(next, rest);
    ExecLands(o, ops[0]);
    ExecOnlyAdds(o, ops[0]);
    RunOnlyAdds(next, rest);
    if ops[0].WriteTo? && forall k :: 0 < k < |ops| ==> !Hits(o.fs, ops[k], q) {
      forall op <- rest ensures !Hits(next.fs, op, q) {
        var k :| 0 <= k < |rest| && rest[k] == op;
        assert ops[k + 1] == op;
        HitsLater(o, ops[0], op, q);
      }
      RunTouchesOnly(next, rest, q);
    }
  }

  lemma {:induction false} RunIsClean(o: Outcome, ops: seq<Op>)
    requires Run(o, ops).error.None?
    ensures Clean(ops)
    decreases |ops|
  {
    RunStopsAtError(o, ops);
    if ops != [] {
      RunStopsAtError(Exec(o, ops[0]), ops[1..]);
      RunIsClean(Exec(o, ops[0]), ops[1..]);
      assert CleanOp(ops[0]);
    }
  }

  /* ---------------------------- a destination without links --------------------- */

  /** One copy: what it reads, where it goes, and where in the target that is. */
  datatype Copy = Copy(view: View, from: Path, info: Info, to: Path, at: Path, fs: Tree) {
    function Ops(): seq<Op> { Plan(view, from, to, info, 0) }
    function Result(): Outcome { Run(Outcome(fs, None, 0, 0), Ops()) }
    function Entry(rel: Path): Option<Info> { Find(view, from, info, rel) }
  }

  /** The destination leads to `at`, and nothing at `at` or below it is a link. */
  ghost predicate Plain(c: Copy) {
    WellFormed(c.fs) && Locate(c.fs, c.to) == Some(c.at) && NoLinkBelow(c.fs, c.at) &&
    DistinctListings(c.view) && DistinctListing(c.info)
  }

  lemma OpsArePlaced(c: Copy, op: Op)
    requires Plain(c) && op in c.Ops() && !op.Stop?
    ensures c.to <= op.at && Locate(c.fs, op.at) == Some(c.at + op.at[|c.to|..])
  {
    PlanStaysBelow(c.view, c.from, c.to, c.info, 0);
    assert Below(op, c.to);
    CanonicalBelow(c.fs, c.to, c.at, op.at[|c.to|..], MAX_LINKS);
    assert c.to + op.at[|c.to|..] == op.at;
  }

  lemma CopyStaysInside(c: Copy, p: Path)
    requires Plain(c) && !(c.at <= p)
    ensures Same(c.fs, c.Result().fs, p)
  {
    forall op <- c.Ops() ensures !Hits(c.fs, op, p) {
      if !op.Stop? { OpsArePlaced(c, op); }
    }
    RunTouchesOnly(Outcome(c.fs, None, 0, 0), c.Ops(), p);
  }

  /** Two operations lead to one place only if they name one path. */
  lemma PlacesAreApart(c: Copy, a: Op, b: Op)
    requires Plain(c) && a in c.Ops() && b in c.Ops() && !a.Stop? && !b.Stop?
    requires Locate(c.fs, a.at) == Locate(c.fs, b.at)
    ensures a.at == b.at
  {
    OpsArePlaced(c, a);
    OpsArePlaced(c, b);
    assert a.at[|c.to|..] == (c.at + a.at[|c.to|..])[|c.at|..];
    assert b.at[|c.to|..] == (c.at + b.at[|c.to|..])[|c.at|..];
    assert a.at == c.to + a.at[|c.to|..];
    assert b.at == c.to + b.at[|c.to|..];
  }

  /** The laid-over tree at one path below the destination. */
  predicate Overlaid(before: Tree, after: Tree, p: Path, entry: Option<Info>) {
    match entry
    case Some(Folder(_)) => IsDir(after, p)
    case Some(Content(bytes, _)) => p in after && (after[p] == File(bytes) || (p in before && before[p].Special?))
    case _ => Same(before, after, p)
  }

  lemma EntryLands(c: Copy, rel: Path, op: Op)
    requires Plain(c) && c.Result().error.None? && OpFor(c.to + rel, c.Entry(rel)) == Some(op)
    ensures Overlaid(c.fs, c.Result().fs, c.at + rel, c.Entry(rel))
  {
    var o := Outcome(c.fs, None, 0, 0);
    RunIsClean(o, c.Ops());
    PlanIsTheTree(c.view, c.from, c.to, c.info, 0, rel, op);
    var i :| 0 <= i < |c.Ops()| && c.Ops()[i] == op;
    OpsArePlaced(c, op);
    assert (c.to + rel)[|c.to|..] == rel;
    PlanIsApart(c.view, c.from, c.to, c.info, 0);
    forall k | i < k < |c.Ops()| ensures !Hits(c.fs, c.Ops()[k], c.at + rel) {
      if Hits(c.fs, c.Ops()[k], c.at + rel) {
        PlacesAreApart(c, op, c.Ops()[k]);
      }
    }
    RunLands(o, c.Ops(), i);
  }

  lemma OthersStay(c: Copy, rel: Path)
    requires Plain(c) && c.Result().error.None? && OpFor(c.to + rel, c.Entry(rel)).None?
    ensures Same(c.fs, c.Result().fs, c.at + rel)
  {
    var o := Outcome(c.fs, None, 0, 0);
    RunIsClean(o, c.Ops());
    forall op <- c.Ops() ensures !Hits(c.fs, op, c.at + rel) {
      if Hits(c.fs, op, c.at + rel) {
        OpsArePlaced(c, op);
        assert op.at[|c.to|..] == (c.at + op.at[|c.to|..])[|c.at|..] == rel;
        assert op.at == c.to + rel;
        PlanIsTheTree(c.view, c.from, c.to, c.info, 0, rel, op);
      }
    }
    RunTouchesOnly(o, c.Ops(), c.at + rel);
  }

  /** A copy that succeeds is an overlay: every folder of the source is a directory,
      every file has the source's bytes, and everything else, below the destination
      or outside it, is as before. */
  lemma CopyIsOverlay(c: Copy)
    requires Plain(c) && c.Result().error.None?
    ensures forall p :: !(c.at <= p) ==> Same(c.fs, c.Result().fs, p)
    ensures forall rel :: Overlaid(c.fs, c.Result().fs, c.at + rel, c.Entry(rel))
  {
    forall p | !(c.at <= p) ensures Same(c.fs, c.Result().fs, p) {
      CopyStaysInside(c, p);
    }
    forall rel ensures Overlaid(c.fs, c.Result().fs, c.at + rel, c.Entry(rel)) {
      var op := OpFor(c.to + rel, c.Entry(rel));
      if op.Some? { EntryLands(c, rel, op.value); } else { OthersStay(c, rel); }
    }
  }

  /* --------------------------- when a copy succeeds ----------------------------- */

  /** A directory can only go where nothing or a directory is, and a file not where
      a directory is. */
  predicate FitsAt(fs: Tree, p: Path, entry: Option<Info>) {
    match entry
    case Some(Folder(_)) => p in fs ==> fs[p].Dir?
    case Some(Content(_, _)) => !IsDir(fs, p)
    case _ => true
  }

  /** The destination exists, or can be created where its path says. */
  predicate Anchored(c: Copy) {
    c.at in c.fs ||
    (c.at != [] && IsDir(c.fs, Parent(c.at)) && (c.info.Folder? ==> LocateLink(c.fs, c.to) == Some(c.at)))
  }

  ghost predicate Fits(c: Copy) {
    (c.info.Other? || Anchored(c)) && forall rel :: FitsAt(c.fs, c.at + rel, c.Entry(rel))
  }

  lemma ExecNeeds(o: Outcome, op: Op, q: Path)
    requires WellFormed(o.fs) && o.error.None? && Hits(o.fs, op, q)
    ensures Exec(o, op).error.None? <==>
            CleanOp(op) &&
            if q in o.fs then (IsDir(o.fs, q) <==> op.MakeDir?)
            else q != [] && IsDir(o.fs, Parent(q)) && (op.MakeDir? ==> LocateLink(o.fs, op.at) == Some(q))
  {
    CanonicalIsNoLink(o.fs, op.at, MAX_LINKS);
  }

  function After(c: Copy, i: nat): Outcome
    requires i <= |c.Ops()|
  {
    Run(Outcome(c.fs, None, 0, 0), c.Ops()[..i])
  }

  /** Up to its turn, nothing has changed where an operation is going to work. */
  lemma UntouchedBefore(c: Copy, i: nat)
    requires Plain(c) && i < |c.Ops()| && !c.Ops()[i].Stop?
    ensures c.to <= c.Ops()[i].at
    ensures var q := c.at + c.Ops()[i].at[|c.to|..];
            Hits(c.fs, c.Ops()[i], q) && Hits(After(c, i).fs, c.Ops()[i], q) &&
            Same(c.fs, After(c, i).fs, q)
  {
    var o, op, before := Outcome(c.fs, None, 0, 0), c.Ops()[i], c.Ops()[..i];
    OpsArePlaced(c, op);
    PlanIsApart(c.view, c.from, c.to, c.info, 0);
    var q := c.at + op.at[|c.to|..];
    forall other <- before ensures !Hits(c.fs, other, q) {
      var k :| 0 <= k < i && c.Ops()[k] == other;
      if Hits(c.fs, other, q) { PlacesAreApart(c, other, op); }
    }
    RunTouchesOnly(o, before, q);
    RunOnlyAdds(o, before);
    LinksDecideCanonical(c.fs, After(c, i).fs, op.at, MAX_LINKS);
  }

  lemma EntryOf(c: Copy, op: Op) returns (rel: Path)
    requires Plain(c) && Clean(c.Ops()) && op in c.Ops() && !op.Stop?
    ensures c.to <= op.at && rel == op.at[|c.to|..] && OpFor(c.to + rel, c.Entry(rel)) == Some(op)
  {
    OpsArePlaced(c, op);
    rel := op.at[|c.to|..];
    assert c.to + rel == op.at;
    PlanIsTheTree(c.view, c.from, c.to, c.info, 0, rel, op);
  }

  /** What a directory's turn leaves is there for the operations after it. */
  lemma MadeIsThere(c: Copy, i: nat, dir: Path)
    requires Plain(c) && i <= |c.Ops()| && After(c, i).error.None? && c.to <= dir && MadeBefore(c.Ops(), i, dir)
    ensures Locate(After(c, i).fs, dir) == Some(c.at + dir[|c.to|..])
    ensures IsDir(After(c, i).fs, c.at + dir[|c.to|..])
  {
    var o, before := Outcome(c.fs, None, 0, 0), c.Ops()[..i];
    var k :| 0 <= k < i && c.Ops()[k] == MakeDir(dir);
    assert before[k] == MakeDir(dir);
    RunLands(o, before, k);
    OpsArePlaced(c, c.Ops()[k]);
    RunOnlyAdds(o, before);
    LinksDecideCanonical(c.fs, After(c, i).fs, dir, MAX_LINKS);
  }

  /** The directory an operation works in is there when its turn comes. */
  lemma ParentIsThere(c: Copy, i: nat)
    requires Plain(c) && i < |c.Ops()| && After(c, i).error.None?
    requires !c.Ops()[i].Stop? && c.to <= c.Ops()[i].at && c.Ops()[i].at != c.to
    ensures var q := c.at + c.Ops()[i].at[|c.to|..];
            q != [] && IsDir(After(c, i).fs, Parent(q)) && LocateLink(After(c, i).fs, c.Ops()[i].at) == Some(q)
  {
    var p := c.Ops()[i].at;
    PlanMakesParents(c.view, c.from, c.to, c.info, 0);
    assert MadeBefore(c.Ops(), i, Parent(p));
    MadeIsThere(c, i, Parent(p));
    ChildPlace(c.at, c.to, p);
  }

  lemma ChildPlace(at: Path, to: Path, p: Path)
    requires to <= p && p != to
    ensures var q := at + p[|to|..];
            to <= Parent(p) && q != [] && Parent(q) == at + Parent(p)[|to|..] && Parent(q) + [Name(p)] == q
  {
    var q := at + p[|to|..];
    assert Parent(q) == at + Parent(p)[|to|..];
    assert Name(q) == Name(p);
  }

  lemma {:induction false} PrefixSucceeds(c: Copy, i: nat)
    requires Plain(c) && Clean(c.Ops()) && Fits(c) && i <= |c.Ops()|
    ensures After(c, i).error.None?
  {
    if i != 0 {
      var k, op := i - 1, c.Ops()[i - 1];
      PrefixSucceeds(c, k);
      CleanAt(c.Ops(), k);
      UntouchedBefore(c, k);
      var rel := EntryOf(c, op);
      var o := Outcome(c.fs, None, 0, 0);
      assert FitsAt(c.fs, c.at + rel, c.Entry(rel));
      RunOnlyAdds(o, c.Ops()[..k]);
      if op.at != c.to {
        ParentIsThere(c, k);
      } else {
        StartIsThere(c, k);
      }
      ExecNeeds(After(c, k), op, c.at + rel);
      assert c.Ops()[..i] == c.Ops()[..k] + [op];
      RunConcat(o, c.Ops()[..k], [op]);
      assert Run(After(c, k), [op]) == Exec(After(c, k), op);
    }
  }

  lemma StartIsThere(c: Copy, i: nat)
    requires Plain(c) && Clean(c.Ops()) && Fits(c) && i < |c.Ops()|
    requires !c.Ops()[i].Stop? && c.Ops()[i].at == c.to
    ensures var fs := After(c, i).fs;
            c.at in fs ||
            (c.at != [] && IsDir(fs, Parent(c.at)) && (c.Ops()[i].MakeDir? ==> LocateLink(fs, c.to) == Some(c.at)))
  {
    var rel := EntryOf(c, c.Ops()[i]);
    assert rel == [];
    assert c.Entry(rel) == Some(c.info);
    RunOnlyAdds(Outcome(c.fs, None, 0, 0), c.Ops()[..i]);
    if c.to != [] {
      LinksDecideCanonical(c.fs, After(c, i).fs, Parent(c.to), MAX_LINKS);
    }
  }

  lemma StepSucceeded(c: Copy, i: nat)
    requires c.Result().error.None? && i < |c.Ops()|
    ensures After(c, i).error.None? && Exec(After(c, i), c.Ops()[i]).error.None?
  {
    var o, op := Outcome(c.fs, None, 0, 0), c.Ops()[i];
    assert c.Ops() == c.Ops()[..i] + c.Ops()[i..];
    RunConcat(o, c.Ops()[..i], c.Ops()[i..]);
    RunStopsAtError(After(c, i), c.Ops()[i..]);
    RunStopsAtError(Exec(After(c, i), op), c.Ops()[i..][1..]);
  }

  lemma SuccessFits(c: Copy, rel: Path)
    requires Plain(c) && c.Result().error.None?
    ensures FitsAt(c.fs, c.at + rel, c.Entry(rel))
  {
    var o := Outcome(c.fs, None, 0, 0);
    RunIsClean(o, c.Ops());
    var op := OpFor(c.to + rel, c.Entry(rel));
    if op.Some? {
      PlanIsTheTree(c.view, c.from, c.to, c.info, 0, rel, op.value);
      var i :| 0 <= i < |c.Ops()| && c.Ops()[i] == op.value;
      StepSucceeded(c, i);
      UntouchedBefore(c, i);
      RunOnlyAdds(o, c.Ops()[..i]);
      assert (c.to + rel)[|c.to|..] == rel;
      ExecNeeds(After(c, i), op.value, c.at + rel);
    }
  }

  lemma SuccessIsAnchored(c: Copy)
    requires Plain(c) && c.Result().error.None? && !c.info.Other?
    ensures Anchored(c)
  {
    var o := Outcome(c.fs, None, 0, 0);
    assert c.Ops()[0].at == c.to;
    StepSucceeded(c, 0);
    assert c.Ops()[..0] == [];
    ExecNeeds(o, c.Ops()[0], c.at);
  }

  lemma WholeSucceeds(c: Copy)
    requires Plain(c) && Clean(c.Ops()) && Fits(c)
    ensures c.Result().error.None?
  {
    assert c.Ops()[..|c.Ops()|] == c.Ops();
    PrefixSucceeds(c, |c.Ops()|);
  }

  /** A copy succeeds exactly when the source can be read to its end, at most 64
      deep, and the target has nothing of the wrong kind in its way. */
  lemma CopySucceedsIff(c: Copy)
    requires Plain(c)
    ensures c.Result().error.None? <==> Sound(c.view, c.from, c.info, 0) && Fits(c)
  {
    var o := Outcome(c.fs, None, 0, 0);
    PlanIsCleanIff(c.view, c.from, c.to, c.info, 0);
    if c.Result().error.None? {
      RunIsClean(o, c.Ops());
      forall rel ensures FitsAt(c.fs, c.at + rel, c.Entry(rel)) {
        SuccessFits(c, rel);
      }
      if !c.info.Other? { SuccessIsAnchored(c); }
    } else if Sound(c.view, c.from, c.info, 0) && Fits(c) {
      WholeSucceeds(c);
    }
  }

  /** A loop of links shows as folders without end: such a copy never succeeds. */
  lemma EndlessSourceFails(c: Copy, rel: Path)
    requires Plain(c) && |rel| > MAX_COPY_DEPTH && Listed(c.view, c.from, c.info, rel)
    ensures c.Result().error.Some?
  {
    assert !SoundAt(c.view, c.from, c.info, 0, rel);
    CopySucceedsIff(c);
  }

  /* --------------------------------- the totals --------------------------------- */

  /** The bytes of all files together. */
  ghost function TotalBytes(files: map<Path, Bytes>): nat
    decreases |files|
  {
    if files == map[] then 0 else var p :| p in files; |files[p]| + TotalBytes(files - {p})
  }

  /** The order in which they are added up does not matter. */
  lemma {:induction false} TotalSplit(files: map<Path, Bytes>, p: Path)
    requires p in files
    ensures TotalBytes(files) == |files[p]| + TotalBytes(files - {p})
    decreases |files|
  {
    var q :| q in files && TotalBytes(files) == |files[q]| + TotalBytes(files - {q});
    if p != q {
      TotalSplit(files - {q}, p);
      TotalSplit(files - {p}, q);
      assert files - {q} - {p} == files - {p} - {q};
    }
  }

  /** The files a run writes, by their paths below `to`. */
  function FilesOf(ops: seq<Op>, to: Path): map<Path, Bytes> {
    if ops == [] then map[]
    else
      var rest := FilesOf(ops[1..], to);
      if ops[0].WriteTo? && to <= ops[0].at then rest[ops[0].at[|to|..] := ops[0].bytes] else rest
  }

  ghost predicate Tidy(ops: seq<Op>, to: Path) {
    Clean(ops) && Apart(ops) && forall op <- ops :: Below(op, to)
  }

  lemma TidyRest(ops: seq<Op>, to: Path)
    requires Tidy(ops, to) && ops != []
    ensures Tidy(ops[1..], to) && CleanOp(ops[0]) && Below(ops[0], to)
    ensures forall op <- ops[1..] :: !op.Stop? ==> op.at != ops[0].at
  {
    assert ops == [ops[0]] + ops[1..];
    CleanConcat([ops[0]], ops[1..]);
    assert CleanOp(ops[0]);
    forall op <- ops[1..] ensures op in ops && (!op.Stop? ==> op.at != ops[0].at) {
    }
  }

  lemma {:induction false} FileIsWritten(ops: seq<Op>, to: Path, rel: Path, bytes: Bytes)
    requires Tidy(ops, to)
    ensures rel in FilesOf(ops, to) && FilesOf(ops, to)[rel] == bytes <==> WriteTo(to + rel, bytes, true) in ops
  {
    if ops != [] {
      TidyRest(ops, to);
      FileIsWritten(ops[1..], to, rel, bytes);
      if ops[0].WriteTo? {
        var first := ops[0].at[|to|..];
        assert ops[0].at == to + first;
        FileIsWritten(ops[1..], to, first, if first in FilesOf(ops[1..], to) then FilesOf(ops[1..], to)[first] else []);
        assert rel != first ==> to + rel != to + first by { assert (to + rel)[|to|..] == rel; }
      }
    }
  }

  lemma ExecCounts(o: Outcome, op: Op)
    requires o.error.None? && Exec(o, op).error.None?
    ensures Exec(o, op).files == o.files + if op.WriteTo? then 1 else 0
    ensures Exec(o, op).bytes == o.bytes + if op.WriteTo? then |op.bytes| else 0
  {
  }

  lemma FilesOfFirst(ops: seq<Op>, to: Path)
    requires Tidy(ops, to) && ops != []
    ensures var files, rest := FilesOf(ops, to), FilesOf(ops[1..], to);
            |files| == |rest| + (if ops[0].WriteTo? then 1 else 0) &&
            TotalBytes(files) == TotalBytes(rest) + if ops[0].WriteTo? then |ops[0].bytes| else 0
  {
    TidyRest(ops, to);
    if ops[0].WriteTo? {
      var rest, first := FilesOf(ops[1..], to), ops[0].at[|to|..];
      assert ops[0].at == to + first;
      if first in rest { FileIsWritten(ops[1..], to, first, rest[first]); }
      TotalSplit(FilesOf(ops, to), first);
      assert FilesOf(ops, to) - {first} == rest;
    }
  }

  lemma {:induction false} TotalsAreExact(o: Outcome, ops: seq<Op>, to: Path)
    requires o.error.None? && Run(o, ops).error.None? && Tidy(ops, to)
    ensures Run(o, ops).files == o.files + |FilesOf(ops, to)|
    ensures Run(o, ops).bytes == o.bytes + TotalBytes(FilesOf(ops, to))
    decreases |ops|
  {
    if ops != [] {
      RunStopsAtError(Exec(o, ops[0]), ops[1..]);
      TidyRest(ops, to);
      FilesOfFirst(ops, to);
      ExecCounts(o, ops[0]);
      TotalsAreExact(Exec(o, ops[0]), ops[1..], to);
    }
  }

  function WholeFiles(ops: seq<Op>): nat {
    if ops == [] then 0 else (if ops[0].WriteTo? && ops[0].intact then 1 else 0) + WholeFiles(ops[1..])
  }

  /** A file that breaks off while it is read is never counted. */
  lemma {:induction false} BrokenFilesDoNotCount(o: Outcome, ops: seq<Op>)
    ensures Run(o, ops).files <= o.files + WholeFiles(ops)
    decreases |ops|
  {
    if o.error.None? && ops != [] { BrokenFilesDoNotCount(Exec(o, ops[0]), ops[1..]); }
  }

  /** `files` are the files of the source tree, with their contents. */
  ghost predicate FilesBelow(c: Copy, files: map<Path, Bytes>) {
    forall rel :: match c.Entry(rel)
                  case Some(Content(bytes, _)) => rel in files && files[rel] == bytes
                  case _ => rel !in files
  }

  /** The files of the source tree are those written. */
  lemma FilesAreWritten(c: Copy)
    requires DistinctListings(c.view) && DistinctListing(c.info) && Clean(c.Ops())
    ensures Tidy(c.Ops(), c.to) && FilesBelow(c, FilesOf(c.Ops(), c.to))
  {
    PlanIsApart(c.view, c.from, c.to, c.info, 0);
    PlanStaysBelow(c.view, c.from, c.to, c.info, 0);
    var written := FilesOf(c.Ops(), c.to);
    forall rel ensures match c.Entry(rel)
                       case Some(Content(bytes, _)) => rel in written && written[rel] == bytes
                       case _ => rel !in written {
      var op := OpFor(c.to + rel, c.Entry(rel));
      if op.Some? && op.value.WriteTo? {
        PlanIsTheTree(c.view, c.from, c.to, c.info, 0, rel, op.value);
        assert CleanOp(op.value);
        FileIsWritten(c.Ops(), c.to, rel, op.value.bytes);
      } else if rel in written {
        FileIsWritten(c.Ops(), c.to, rel, written[rel]);
        PlanIsTheTree(c.view, c.from, c.to, c.info, 0, rel, WriteTo(c.to + rel, written[rel], true));
      }
    }
  }

  lemma OneFileMap(c: Copy, a: map<Path, Bytes>, b: map<Path, Bytes>)
    requires FilesBelow(c, a) && FilesBelow(c, b)
    ensures a == b
  {
    forall rel ensures (rel in a <==> rel in b) && (rel in a ==> a[rel] == b[rel]) {
      var entry := c.Entry(rel);
    }
  }

  /** What a successful copy reports is the number of the files in the source tree
      and the sum of their sizes, whatever the target. */
  lemma CountsTheFiles(c: Copy)
    requires DistinctListings(c.view) && DistinctListing(c.info) && c.Result().error.None?
    ensures exists files :: FilesBelow(c, files)
    ensures forall files :: FilesBelow(c, files) ==> c.Result().files == |files| && c.Result().bytes == TotalBytes(files)
  {
    var o, written := Outcome(c.fs, None, 0, 0), FilesOf(c.Ops(), c.to);
    RunIsClean(o, c.Ops());
    FilesAreWritten(c);
    TotalsAreExact(o, c.Ops(), c.to);
    forall files | FilesBelow(c, files) ensures files == written {
      OneFileMap(c, files, written);
    }
  }
}
