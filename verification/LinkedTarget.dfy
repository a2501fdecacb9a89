/** What a copy does to a target with links in it, told from the source and the
    target as they were: how far it gets, and what is at each place then. */
module LinkedTarget {
  import opened Common
  import opened Protocol
  import opened FileSystem
  import opened CopyTree
  import opened SourceTree
  import opened Overlay

  function NodeOf(fs: Tree, q: Path): Option<Node> {
    NodeAt(fs, Some(q))
  }

  /** What an operation leaves at its place. */
  function Left(here: Option<Node>, op: Op): Option<Node> {
    match op
    case Stop(_) => here
    case MakeDir(_) => Some(Dir)
    case WriteTo(_, bytes, _) => if here == Some(Special) then here else Some(File(bytes))
  }

  /** Whether an operation can be carried out, given what is at the place its path
      leads to and what is above that place. */
  predicate CanDo(fs: Tree, op: Op, here: Option<Node>, above: Option<Node>) {
    !op.Stop? && Locate(fs, op.at).Some? &&
    match here
    case Some(Dir) => op.MakeDir?
    case Some(_) => op.WriteTo?
    case None => above == Some(Dir) && (op.MakeDir? ==> LocateLink(fs, op.at) == Locate(fs, op.at))
  }

  /** What is at `q` once the first `n` operations are carried out. */
  function NodeNow(fs: Tree, ops: seq<Op>, n: nat, q: Path): Option<Node>
    requires n <= |ops|
  {
    if n == 0 then NodeOf(fs, q)
    else if Hits(fs, ops[n - 1], q) then Left(NodeNow(fs, ops, n - 1, q), ops[n - 1])
    else NodeNow(fs, ops, n - 1, q)
  }

  /** The operation can be carried out when its turn comes. */
  predicate Works(fs: Tree, ops: seq<Op>, i: nat)
    requires i < |ops|
  {
    match if ops[i].Stop? then None else Locate(fs, ops[i].at)
    case None => false
    case Some(q) =>
      CanDo(fs, ops[i], NodeNow(fs, ops, i, q), if q == [] then None else NodeNow(fs, ops, i, Parent(q)))
  }

  /** How many operations are carried out: all up to the first that cannot be, or
      that runs into the end of what can be read of its file. */
  function Reach(fs: Tree, ops: seq<Op>, i: nat): nat
    requires i <= |ops|
    decreases |ops| - i
  {
    if i == |ops| || !Works(fs, ops, i) then i
    else if !CleanOp(ops[i]) then i + 1
    else Reach(fs, ops, i + 1)
  }

  /* ---------------------------------- it is so ---------------------------------- */

  function At(o: Outcome, op: Op): Option<Node> {
    if op.Stop? then None else NodeAt(o.fs, Locate(o.fs, op.at))
  }

  function Above(o: Outcome, op: Op): Option<Node> {
    match if op.Stop? then None else Locate(o.fs, op.at)
    case None => None
    case Some(q) => if q == [] then None else NodeOf(o.fs, Parent(q))
  }

  lemma ExecIs(o: Outcome, op: Op, q: Path)
    requires WellFormed(o.fs) && o.error.None?
    ensures var can := CanDo(o.fs, op, At(o, op), Above(o, op));
            (Exec(o, op).error.None? <==> can && CleanOp(op)) &&
            NodeOf(Exec(o, op).fs, q) == if can && Hits(o.fs, op, q) then Left(NodeOf(o.fs, q), op) else NodeOf(o.fs, q)
  {
    if !op.Stop? { CanonicalIsNoLink(o.fs, op.at, MAX_LINKS); }
  }

  /** The run after the first `n` operations. */
  function Before(fs: Tree, ops: seq<Op>, n: nat): Outcome
    requires n <= |ops|
  {
    Run(Outcome(fs, None, 0, 0), ops[..n])
  }

  lemma BeforeNext(fs: Tree, ops: seq<Op>, n: nat)
    requires n < |ops| && Before(fs, ops, n).error.None?
    ensures Before(fs, ops, n + 1) == Exec(Before(fs, ops, n), ops[n])
  {
    var o := Outcome(fs, None, 0, 0);
    assert ops[..n + 1] == ops[..n] + [ops[n]];
    RunConcat(o, ops[..n], [ops[n]]);
    assert Run(Before(fs, ops, n), [ops[n]]) == Exec(Before(fs, ops, n), ops[n]);
  }

  /** Paths lead where they led at the start. */
  lemma SamePlaces(fs: Tree, ops: seq<Op>, n: nat, p: Path)
    requires WellFormed(fs) && n <= |ops|
    ensures WellFormed(Before(fs, ops, n).fs)
    ensures Locate(Before(fs, ops, n).fs, p) == Locate(fs, p)
    ensures LocateLink(Before(fs, ops, n).fs, p) == LocateLink(fs, p)
  {
    RunOnlyAdds(Outcome(fs, None, 0, 0), ops[..n]);
    LinksDecideCanonical(fs, Before(fs, ops, n).fs, p, MAX_LINKS);
    if p != [] { LinksDecideCanonical(fs, Before(fs, ops, n).fs, Parent(p), MAX_LINKS); }
  }

  /** The first `n` operations went through, and the target is what they made it. */
  ghost predicate GoneThrough(fs: Tree, ops: seq<Op>, n: nat)
    requires n <= |ops|
  {
    Before(fs, ops, n).error.None? && forall q :: NodeOf(Before(fs, ops, n).fs, q) == NodeNow(fs, ops, n, q)
  }

  lemma TurnIs(fs: Tree, ops: seq<Op>, n: nat)
    requires WellFormed(fs) && n < |ops| && GoneThrough(fs, ops, n)
    ensures Before(fs, ops, n + 1).error.None? <==> Works(fs, ops, n) && CleanOp(ops[n])
    ensures forall q :: NodeOf(Before(fs, ops, n + 1).fs, q) ==
                        if Works(fs, ops, n) then NodeNow(fs, ops, n + 1, q) else NodeNow(fs, ops, n, q)
  {
    var o, op := Before(fs, ops, n), ops[n];
    BeforeNext(fs, ops, n);
    SamePlaces(fs, ops, n, []);
    if !op.Stop? { SamePlaces(fs, ops, n, op.at); }
    assert Works(fs, ops, n) <==> CanDo(o.fs, op, At(o, op), Above(o, op));
    forall q ensures NodeOf(Exec(o, op).fs, q) ==
                     if Works(fs, ops, n) then NodeNow(fs, ops, n + 1, q) else NodeNow(fs, ops, n, q) {
      ExecIs(o, op, q);
    }
    ExecIs(o, op, []);
  }

  /** However far a run gets is told by `Reach`, and what it leaves by `NodeNow`. */
  lemma {:induction false} RunFrom(fs: Tree, ops: seq<Op>, i: nat)
    requires WellFormed(fs) && i <= |ops| && GoneThrough(fs, ops, i)
    ensures var n, o := Reach(fs, ops, i), Run(Before(fs, ops, i), ops[i..]);
            (o.error.None? <==> n == |ops| && Clean(ops[i..])) && i <= n <= |ops| &&
            forall q :: NodeOf(o.fs, q) == NodeNow(fs, ops, n, q)
    decreases |ops| - i
  {
    if i < |ops| {
      TurnIs(fs, ops, i);
      BeforeNext(fs, ops, i);
      assert ops[i..] == [ops[i]] + ops[i + 1..];
      CleanConcat([ops[i]], ops[i + 1..]);
      if Works(fs, ops, i) && CleanOp(ops[i]) { RunFrom(fs, ops, i + 1); }
    }
  }

  /** A copy into any target, links or not: whether it succeeds and what it leaves,
      told from the source and the target it began with. */
  lemma CopyIs(c: Copy)
    requires WellFormed(c.fs)
    ensures var n := Reach(c.fs, c.Ops(), 0);
            n <= |c.Ops()| && (c.Result().error.None? <==> n == |c.Ops()| && Sound(c.view, c.from, c.info, 0)) &&
            forall q :: NodeOf(c.Result().fs, q) == NodeNow(c.fs, c.Ops(), n, q)
  {
    assert c.Ops()[..0] == [] && c.Ops()[0..] == c.Ops();
    RunFrom(c.fs, c.Ops(), 0);
    PlanIsCleanIff(c.view, c.from, c.to, c.info, 0);
  }

  /* ------------------------------ outside the destination ----------------------- */

  /** Of the first `n` operations, `i` is the last whose path leads to `q`. */
  predicate LastAt(fs: Tree, ops: seq<Op>, n: nat, i: nat, q: Path)
    requires n <= |ops|
  {
    i < n && Hits(fs, ops[i], q) && forall k :: i < k < n ==> !Hits(fs, ops[k], q)
  }

  /** What the operation would put at `q` is there already. */
  predicate Done(fs: Tree, op: Op, q: Path) {
    match op
    case Stop(_) => true
    case MakeDir(_) => NodeOf(fs, q) == Some(Dir)
    case WriteTo(_, bytes, _) => NodeOf(fs, q) == Some(Special) || NodeOf(fs, q) == Some(File(bytes))
  }

  lemma {:induction false} AllWork(fs: Tree, ops: seq<Op>, i: nat, k: nat)
    requires i <= |ops| && i <= k < Reach(fs, ops, i)
    ensures k < |ops| && Works(fs, ops, k)
    decreases |ops| - i
  {
    if i < k { AllWork(fs, ops, i + 1, k); }
  }

  /** A device stays what it is, and nothing becomes one. */
  lemma {:induction false} DevicesStay(fs: Tree, ops: seq<Op>, n: nat, q: Path)
    requires n <= |ops| && forall k :: 0 <= k < n ==> Works(fs, ops, k)
    ensures NodeNow(fs, ops, n, q) == Some(Special) <==> NodeOf(fs, q) == Some(Special)
  {
    if n > 0 {
      DevicesStay(fs, ops, n - 1, q);
      assert Works(fs, ops, n - 1);
    }
  }

  lemma {:induction false} LastDecides(fs: Tree, ops: seq<Op>, n: nat, i: nat, q: Path)
    requires n <= |ops| && LastAt(fs, ops, n, i, q)
    ensures NodeNow(fs, ops, n, q) == Left(NodeNow(fs, ops, i, q), ops[i])
  {
    if i < n - 1 { LastDecides(fs, ops, n - 1, i, q); }
  }

  lemma {:induction false} LastOrNone(fs: Tree, ops: seq<Op>, n: nat, q: Path) returns (last: Option<nat>)
    requires n <= |ops|
    ensures match last
            case None => NodeNow(fs, ops, n, q) == NodeOf(fs, q) && forall k :: 0 <= k < n ==> !Hits(fs, ops[k], q)
            case Some(i) => LastAt(fs, ops, n, i, q)
  {
    if n == 0 {
      last := None;
    } else if Hits(fs, ops[n - 1], q) {
      last := Some(n - 1);
    } else {
      last := LastOrNone(fs, ops, n - 1, q);
    }
  }

  /** A place is as it was exactly when the last operation carried out there had
      nothing to do. */
  lemma UnchangedIff(fs: Tree, ops: seq<Op>, n: nat, i: nat, q: Path)
    requires n <= |ops| && LastAt(fs, ops, n, i, q) && forall k :: 0 <= k < n ==> Works(fs, ops, k)
    ensures NodeNow(fs, ops, n, q) == NodeOf(fs, q) <==> Done(fs, ops[i], q)
  {
    LastDecides(fs, ops, n, i, q);
    DevicesStay(fs, ops, i, q);
  }

  /** The copy carries out operation `i`, its path leads outside the destination, no
      later one goes there, and there is something for it to do. */
  ghost predicate Escapes(c: Copy, i: nat) {
    var n := Reach(c.fs, c.Ops(), 0);
    n <= |c.Ops()| && i < n && exists q :: !(c.at <= q) && LastAt(c.fs, c.Ops(), n, i, q) && !Done(c.fs, c.Ops()[i], q)
  }

  /** With links in the target a copy can reach outside its destination. It leaves
      the outside alone, whether or not it succeeds, exactly when none of its
      operations escapes. */
  lemma OutsideIsUntouchedIff(c: Copy)
    requires WellFormed(c.fs)
    ensures (forall p :: !(c.at <= p) ==> Same(c.fs, c.Result().fs, p)) <==> forall i :: !Escapes(c, i)
  {
    var n := Reach(c.fs, c.Ops(), 0);
    CopyIs(c);
    forall k | 0 <= k < n ensures Works(c.fs, c.Ops(), k) {
      AllWork(c.fs, c.Ops(), 0, k);
    }
    if i: nat :| Escapes(c, i) {
      var q :| !(c.at <= q) && LastAt(c.fs, c.Ops(), n, i, q) && !Done(c.fs, c.Ops()[i], q);
      UnchangedIff(c.fs, c.Ops(), n, i, q);
      SameNode(c.fs, c.Result().fs, q);
    } else {
      forall p | !(c.at <= p) ensures Same(c.fs, c.Result().fs, p) {
        var last := LastOrNone(c.fs, c.Ops(), n, p);
        SameNode(c.fs, c.Result().fs, p);
        if last.Some? {
          assert !Escapes(c, last.value);
          UnchangedIff(c.fs, c.Ops(), n, last.value, p);
        }
      }
    }
  }

  lemma SameNode(a: Tree, b: Tree, p: Path)
    ensures Same(a, b, p) <==> NodeOf(a, p) == NodeOf(b, p)
  {
  }

  /* --------------------------------- it happens --------------------------------- */

  const LINKED: Tree := map[[] := Dir, ["x"] := File([]), ["d"] := Dir, ["d", "l"] := Link(["x"])]
  const FOLDER: Info := Folder(Some(["l"]))

  /** A folder with one file "l" that holds `bytes`, to be copied over "d". */
  function Pasted(bytes: Bytes): Copy {
    Copy(p => Some(Content(bytes, true)), ["s"], FOLDER, ["d"], ["d"], LINKED)
  }

  lemma LinkedPlaces()
    ensures WellFormed(LINKED)
    ensures Locate(LINKED, ["d"]) == Some(["d"]) && Locate(LINKED, ["d", "l"]) == Some(["x"])
  {
    var x, d: Path := [] + ["x"], [] + ["d"];
    var l := d + ["l"];
    assert x == ["x"] && d == ["d"] && l == ["d", "l"];
    assert Parent(x) == [] && Parent(d) == [] && Parent(l) == d;
    assert Canonical(LINKED, x, MAX_LINKS - 1) == Some(x);
  }

  lemma PastedOps(bytes: Bytes)
    ensures Pasted(bytes).Ops() == [MakeDir(["d"]), WriteTo(["d", "l"], bytes, true)]
  {
    var c := Pasted(bytes);
    assert ["d"] + ["l"] == ["d", "l"] && ["l"][1..] == [];
    assert PlanOne(c.view, c.from + ["l"], c.to + ["l"], 1) == [WriteTo(["d", "l"], bytes, true)];
    assert PlanAll(c.view, c.from, c.to, [], 0) == [];
    assert PlanAll(c.view, c.from, c.to, ["l"], 0) == [WriteTo(["d", "l"], bytes, true)];
  }

  /** Where "d" holds a link of that name to the file "x" beside it, the copy
      succeeds and replaces "x". */
  lemma CopyEscapes(bytes: Bytes)
    requires bytes != []
    ensures var c := Pasted(bytes);
            c.Result().error.None? && c.Result().fs == c.fs[["x"] := File(bytes)] && exists i :: Escapes(c, i)
  {
    var c, o := Pasted(bytes), Outcome(LINKED, None, 0, 0);
    LinkedPlaces();
    PastedOps(bytes);
    var first, second := MakeDir(["d"]), WriteTo(["d", "l"], bytes, true);
    assert Exec(o, first) == o;
    assert Run(o, [second]) == Exec(o, second);
    assert [first, second][1..] == [second];
    var x: Path := ["x"];
    assert x != [] && !(c.at <= x) && !Same(c.fs, c.Result().fs, x);
    OutsideIsUntouchedIff(c);
  }
}
