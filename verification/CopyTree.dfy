/** Copying a file or a directory tree between two filesystems
    (apps/gateway/src/protocols/sftp.ts, `copyPath` and `copyInto`). */
module CopyTree {
  import opened Common
  import opened Protocol
  import opened FileSystem

  const MAX_COPY_DEPTH: nat := 64

  /** What the source reports for a path with every link followed. A directory may
      refuse to be listed and a file may break off while it is read; whatever else
      can fail makes `stat` fail. */
  datatype Info =
    | Folder(listing: Option<seq<string>>)
    | Content(bytes: Bytes, intact: bool)
    | Other

  /** `stat` on the source: nothing for a path that cannot be read. A loop of links
      is an endless chain of folders. */
  type View = Path -> Option<Info>

  datatype Error = TooDeep | SourceFailed | DestinationIsAFile | TargetFailed

  /* ------------------------------- what is to be done --------------------------- */

  datatype Op =
    | MakeDir(at: Path)
    | WriteTo(at: Path, bytes: Bytes, intact: bool)
    | Stop(error: Error)

  /** What a copy asks of the target, in order; it does not depend on the target. */
  function Plan(view: View, from: Path, to: Path, info: Info, depth: nat): seq<Op>
    requires depth <= MAX_COPY_DEPTH + 1
    decreases MAX_COPY_DEPTH + 1 - depth, 1, 0
  {
    if depth > MAX_COPY_DEPTH then [Stop(TooDeep)]
    else
      match info
      case Folder(listing) =>
        [MakeDir(to)] +
        (if listing.None? then [Stop(SourceFailed)] else PlanAll(view, from, to, listing.value, depth))
      case Content(bytes, intact) => [WriteTo(to, bytes, intact)]
      case Other => []
  }

  function PlanAll(view: View, from: Path, to: Path, names: seq<string>, depth: nat): seq<Op>
    requires depth <= MAX_COPY_DEPTH
    decreases MAX_COPY_DEPTH + 1 - depth, 0, |names|
  {
    if names == [] then []
    else PlanOne(view, from + [names[0]], to + [names[0]], depth + 1) + PlanAll(view, from, to, names[1..], depth)
  }

  function PlanOne(view: View, from: Path, to: Path, depth: nat): seq<Op>
    requires 1 <= depth <= MAX_COPY_DEPTH + 1
    decreases MAX_COPY_DEPTH + 1 - depth, 2, 0
  {
    match view(from)
    case None => [Stop(SourceFailed)]
    case Some(info) => Plan(view, from, to, info, depth)
  }

  /* --------------------------------- doing it ----------------------------------- */

  /** `ensureDirectory`: an existing directory will do, anything else will not. */
  function Ensure(fs: Tree, p: Path): (Option<Tree>, Option<Error>) {
    match Stat(fs, p)
    case Some(Dir) => (Some(fs), None)
    case Some(_) => (None, Some(DestinationIsAFile))
    case None =>
      var made := Mkdir(fs, p);
      (made, if made.Some? then None else Some(TargetFailed))
  }

  datatype Outcome = Outcome(fs: Tree, error: Option<Error>, bytes: nat, files: nat)

  function Exec(o: Outcome, op: Op): Outcome {
    match op
    case Stop(error) => o.(error := Some(error))
    case MakeDir(at) =>
      var (made, error) := Ensure(o.fs, at);
      o.(fs := if made.Some? then made.value else o.fs, error := error)
    case WriteTo(at, bytes, intact) =>
      var written := Write(o.fs, at, bytes);
      if written.None? then o.(error := Some(TargetFailed))
      else if !intact then o.(fs := written.value, bytes := o.bytes + |bytes|, error := Some(SourceFailed))
      else o.(fs := written.value, bytes := o.bytes + |bytes|, files := o.files + 1)
  }

  /** The first error ends the run. */
  function Run(o: Outcome, ops: seq<Op>): Outcome
    decreases |ops|
  {
    if o.error.Some? || ops == [] then o else Run(Exec(o, ops[0]), ops[1..])
  }

  lemma {:induction false} RunConcat(o: Outcome, a: seq<Op>, b: seq<Op>)
    ensures Run(o, a + b) == Run(Run(o, a), b)
    decreases |a|
  {
    if o.error.Some? {
    } else if a == [] {
      assert a + b == b;
    } else {
      assert (a + b)[1..] == a[1..] + b;
      RunConcat(Exec(o, a[0]), a[1..], b);
    }
  }

  lemma ExecOnlyAdds(o: Outcome, op: Op)
    requires WellFormed(o.fs)
    ensures WellFormed(Exec(o, op).fs) && OnlyAdds(o.fs, Exec(o, op).fs)
  {
    match op {
      case Stop(_) =>
      case MakeDir(at) => if Mkdir(o.fs, at).Some? { MkdirOnlyAdds(o.fs, at); }
      case WriteTo(at, bytes, _) => if Write(o.fs, at, bytes).Some? { WriteOnlyAdds(o.fs, at, bytes); }
    }
  }

  /** However far it gets, a copy deletes nothing and turns nothing into something
      else; only the bytes of files change. */
  lemma {:induction false} RunOnlyAdds(o: Outcome, ops: seq<Op>)
    requires WellFormed(o.fs)
    ensures WellFormed(Run(o, ops).fs) && OnlyAdds(o.fs, Run(o, ops).fs)
    decreases |ops|
  {
    if o.error.None? && ops != [] {
      ExecOnlyAdds(o, ops[0]);
      RunOnlyAdds(Exec(o, ops[0]), ops[1..]);
    }
  }

  /* ----------------------------------- the code --------------------------------- */

  class Totals {
    var bytes: nat
    var files: nat

    constructor ()
      ensures bytes == 0 && files == 0
    {
      bytes, files := 0, 0;
    }
  }

  method EnsureDirectory(target: Disk, path: Path) returns (error: Option<Error>)
    modifies target
    ensures error == Ensure(old(target.nodes), path).1
    ensures target.nodes == if error.None? then Ensure(old(target.nodes), path).0.value else old(target.nodes)
  {
    var existing := Stat(target.nodes, path);
    if existing == Some(Dir) { return None; }
    if existing.Some? { return Some(DestinationIsAFile); }
    var ok := target.MakeDirectory(path);
    return if ok then None else Some(TargetFailed);
  }

  ghost function Now(target: Disk, totals: Totals, error: Option<Error>): Outcome
    reads target, totals
  {
    Outcome(target.nodes, error, totals.bytes, totals.files)
  }

  method CopyInto(view: View, from: Path, target: Disk, to: Path, info: Info, totals: Totals, depth: nat)
    returns (error: Option<Error>)
    requires WellFormed(target.nodes) && depth <= MAX_COPY_DEPTH + 1
    modifies target, totals
    ensures WellFormed(target.nodes)
    ensures Now(target, totals, error) ==
            Run(old(Now(target, totals, None)), Plan(view, from, to, info, depth))
    decreases MAX_COPY_DEPTH + 1 - depth, 2
  {
    if depth > MAX_COPY_DEPTH { return Some(TooDeep); }
    if info.Folder? {
      error := CopyFolder(view, from, target, to, info.listing, totals, depth);
      return;
    }
    if !info.Content? { return None; }
    ExecOnlyAdds(Now(target, totals, None), WriteTo(to, info.bytes, info.intact));
    error := CopyFile(target, to, info.bytes, info.intact, totals);
  }

  method CopyFile(target: Disk, to: Path, bytes: Bytes, intact: bool, totals: Totals)
    returns (error: Option<Error>)
    requires WellFormed(target.nodes)
    modifies target, totals
    ensures Now(target, totals, error) == Exec(old(Now(target, totals, None)), WriteTo(to, bytes, intact))
  {
    var ok := target.WriteFile(to, bytes);
    if !ok { return Some(TargetFailed); }
    totals.bytes := totals.bytes + |bytes|;
    if !intact { return Some(SourceFailed); }
    totals.files := totals.files + 1;
    return None;
  }

  method CopyFolder(view: View, from: Path, target: Disk, to: Path, listing: Option<seq<string>>, totals: Totals,
                    depth: nat)
    returns (error: Option<Error>)
    requires WellFormed(target.nodes) && depth <= MAX_COPY_DEPTH
    modifies target, totals
    ensures WellFormed(target.nodes)
    ensures Now(target, totals, error) ==
            Run(old(Now(target, totals, None)), Plan(view, from, to, Folder(listing), depth))
    decreases MAX_COPY_DEPTH + 1 - depth, 1
  {
    ghost var start := Now(target, totals, None);
    error := EnsureDirectory(target, to);
    ExecOnlyAdds(start, MakeDir(to));
    assert Now(target, totals, error) == Exec(start, MakeDir(to));
    assert Run(start, [MakeDir(to)]) == Exec(start, MakeDir(to));
    RunConcat(start, [MakeDir(to)], Plan(view, from, to, Folder(listing), depth)[1..]);
    if error.Some? { return; }
    if listing.None? { return Some(SourceFailed); }
    error := CopyEntries(view, from, target, to, listing.value, totals, depth);
  }

  lemma EntryThenRest(o: Outcome, view: View, from: Path, to: Path, names: seq<string>, i: nat, depth: nat)
    requires i < |names| && depth <= MAX_COPY_DEPTH
    ensures Run(o, PlanAll(view, from, to, names[i..], depth)) ==
            Run(Run(o, PlanOne(view, from + [names[i]], to + [names[i]], depth + 1)),
                PlanAll(view, from, to, names[i + 1..], depth))
  {
    assert names[i..][0] == names[i] && names[i..][1..] == names[i + 1..];
    RunConcat(o, PlanOne(view, from + [names[i]], to + [names[i]], depth + 1),
              PlanAll(view, from, to, names[i + 1..], depth));
  }

  method CopyEntries(view: View, from: Path, target: Disk, to: Path, names: seq<string>, totals: Totals, depth: nat)
    returns (error: Option<Error>)
    requires WellFormed(target.nodes) && depth <= MAX_COPY_DEPTH
    modifies target, totals
    ensures WellFormed(target.nodes)
    ensures Now(target, totals, error) ==
            Run(old(Now(target, totals, None)), PlanAll(view, from, to, names, depth))
    decreases MAX_COPY_DEPTH + 1 - depth, 0
  {
    ghost var start := Now(target, totals, None);
    error := None;
    var i := 0;
    while i < |names|
      invariant i <= |names| && WellFormed(target.nodes)
      invariant error.None?
      invariant Run(start, PlanAll(view, from, to, names, depth)) ==
                Run(Now(target, totals, None), PlanAll(view, from, to, names[i..], depth))
    {
      var child := from + [names[i]];
      var childInfo := view(child);
      ghost var here := Now(target, totals, None);
      EntryThenRest(here, view, from, to, names, i, depth);
      if childInfo.None? { return Some(SourceFailed); }
      error := CopyInto(view, child, target, to + [names[i]], childInfo.value, totals, depth + 1);
      if error.Some? { return; }
      i := i + 1;
    }
  }

  /** Pasting a file onto a directory drops it inside; a directory merges. */
  function Destination(target: Tree, from: Path, info: Info, requested: Path): Path {
    if Stat(target, requested) == Some(Dir) && !info.Folder? && from != [] then requested + [Name(from)] else requested
  }

  /** What a request to copy `from` to `requested` comes to. */
  function Pasted(view: View, from: Path, fs: Tree, requested: Path): Outcome {
    match view(from)
    case None => Outcome(fs, Some(SourceFailed), 0, 0)
    case Some(info) => Run(Outcome(fs, None, 0, 0), Plan(view, from, Destination(fs, from, info, requested), info, 0))
  }

  /** The whole copy between two different filesystems. */
  method CopyPath(view: View, from: Path, target: Disk, requested: Path)
    returns (error: Option<Error>, to: Path, totals: Totals)
    requires WellFormed(target.nodes)
    modifies target
    ensures fresh(totals)
    ensures Now(target, totals, error) == Pasted(view, from, old(target.nodes), requested)
    ensures view(from).Some? ==> to == Destination(old(target.nodes), from, view(from).value, requested)
  {
    totals := new Totals();
    to := requested;
    var info := view(from);
    if info.None? { return Some(SourceFailed), to, totals; }
    var existing := Stat(target.nodes, requested);
    if existing == Some(Dir) && !info.value.Folder? && from != [] { to := requested + [Name(from)]; }
    error := CopyInto(view, from, target, to, info.value, totals, 0);
  }
}
