/** Where a pasted file or folder ends up (apps/gateway/src/protocols/sftp.ts,
    `copyPath`), in a target without links in the way. */
module Paste {
  import opened Common
  import opened Protocol
  import opened FileSystem
  import opened CopyTree
  import opened SourceTree
  import opened Overlay

  /* ------------------------------------ a file ---------------------------------- */

  /** The target with a file at `spot`; a device there swallows the bytes. */
  function WithFile(fs: Tree, spot: Path, bytes: Bytes): Tree {
    if spot in fs && fs[spot].Special? then fs else fs[spot := File(bytes)]
  }

  predicate NoLinkAt(fs: Tree, spot: Path) {
    spot in fs ==> !fs[spot].Link?
  }

  lemma OneFile(view: View, from: Path, fs: Tree, to: Path, bytes: Bytes)
    requires view(from) == Some(Content(bytes, true))
    ensures var done := Write(fs, to, bytes);
            Run(Outcome(fs, None, 0, 0), Plan(view, from, to, Content(bytes, true), 0)) ==
            if done.Some? then Outcome(done.value, None, |bytes|, 1) else Outcome(fs, Some(TargetFailed), 0, 0)
  {
    var o, op := Outcome(fs, None, 0, 0), WriteTo(to, bytes, true);
    assert Plan(view, from, to, Content(bytes, true), 0) == [op];
    assert [op][1..] == [];
    assert Run(o, [op]) == Exec(o, op);
  }

  lemma EntryPlace(fs: Tree, dir: Path, at: Path, name: string)
    requires Locate(fs, dir) == Some(at) && NoLinkAt(fs, at + [name])
    ensures Locate(fs, dir + [name]) == Some(at + [name]) && Parent(at + [name]) == at
  {
    assert Parent(dir + [name]) == dir;
  }

  lemma Written(fs: Tree, to: Path, spot: Path, bytes: Bytes)
    requires Locate(fs, to) == Some(spot) && NoLinkAt(fs, spot) && spot != []
    ensures Write(fs, to, bytes) ==
            if IsDir(fs, spot) || (spot !in fs && !IsDir(fs, Parent(spot))) then None
            else Some(WithFile(fs, spot, bytes))
  {
  }

  /** A file pasted onto a directory is dropped inside, under its own name; that
      goes through exactly when no directory of that name is there. */
  lemma FileGoesInside(view: View, from: Path, fs: Tree, requested: Path, at: Path, bytes: Bytes)
    requires WellFormed(fs) && from != [] && view(from) == Some(Content(bytes, true))
    requires Locate(fs, requested) == Some(at) && IsDir(fs, at) && NoLinkAt(fs, at + [Name(from)])
    ensures var spot := at + [Name(from)];
            Pasted(view, from, fs, requested) ==
            if IsDir(fs, spot) then Outcome(fs, Some(TargetFailed), 0, 0)
            else Outcome(WithFile(fs, spot, bytes), None, |bytes|, 1)
  {
    var to := requested + [Name(from)];
    OneFile(view, from, fs, to, bytes);
    EntryPlace(fs, requested, at, Name(from));
    Written(fs, to, at + [Name(from)], bytes);
  }

  /** Anywhere else it goes exactly where it was asked to: over a file, or to a new
      name in an existing directory. */
  lemma FileGoesThere(view: View, from: Path, fs: Tree, requested: Path, at: Path, bytes: Bytes)
    requires WellFormed(fs) && view(from) == Some(Content(bytes, true))
    requires Locate(fs, requested) == Some(at) && !IsDir(fs, at)
    ensures Pasted(view, from, fs, requested) ==
            if at in fs || IsDir(fs, Parent(at)) then Outcome(WithFile(fs, at, bytes), None, |bytes|, 1)
            else Outcome(fs, Some(TargetFailed), 0, 0)
  {
    OneFile(view, from, fs, requested, bytes);
    CanonicalIsNoLink(fs, requested, MAX_LINKS);
    Written(fs, requested, at, bytes);
  }

  /* ----------------------------------- a folder --------------------------------- */

  /** The request that pastes onto the place `at`. */
  function Onto(view: View, from: Path, fs: Tree, requested: Path, at: Path): Copy
    requires view(from).Some?
  {
    Copy(view, from, view(from).value, requested, at, fs)
  }

  /** A folder merges: its entries go directly into the directory it is pasted onto,
      or make one under the name asked for. */
  lemma FolderMerges(view: View, from: Path, fs: Tree, requested: Path, at: Path)
    requires view(from).Some? && view(from).value.Folder? && Plain(Onto(view, from, fs, requested, at))
    ensures var done := Pasted(view, from, fs, requested);
            (done.error.None? <==>
               Sound(view, from, view(from).value, 0) && Fits(Onto(view, from, fs, requested, at))) &&
            (done.error.None? ==>
               (forall rel :: Overlaid(fs, done.fs, at + rel, Find(view, from, view(from).value, rel))) &&
               forall p :: !(at <= p) ==> Same(fs, done.fs, p))
  {
    var c := Onto(view, from, fs, requested, at);
    assert Pasted(view, from, fs, requested) == c.Result();
    CopySucceedsIff(c);
    if c.Result().error.None? { CopyIsOverlay(c); }
  }

  /** A folder does not replace a file, nor a device. */
  lemma FolderIsRefused(view: View, from: Path, fs: Tree, requested: Path)
    requires view(from).Some? && view(from).value.Folder?
    requires Stat(fs, requested).Some? && Stat(fs, requested) != Some(Dir)
    ensures Pasted(view, from, fs, requested) == Outcome(fs, Some(DestinationIsAFile), 0, 0)
  {
    var o, info := Outcome(fs, None, 0, 0), view(from).value;
    var ops := Plan(view, from, requested, info, 0);
    assert ops[0] == MakeDir(requested);
    assert Exec(o, ops[0]) == Outcome(fs, Some(DestinationIsAFile), 0, 0);
    assert Run(Exec(o, ops[0]), ops[1..]) == Exec(o, ops[0]);
    assert Pasted(view, from, fs, requested) == Run(o, ops);
  }

  lemma PlainAgain(c: Copy)
    requires Plain(c)
    ensures Plain(c.(fs := c.Result().fs)) && OnlyAdds(c.fs, c.Result().fs)
  {
    RunOnlyAdds(Outcome(c.fs, None, 0, 0), c.Ops());
    LinksDecideCanonical(c.fs, c.Result().fs, c.to, MAX_LINKS);
  }

  lemma FitsAgain(c: Copy)
    requires Plain(c) && c.info.Folder? && c.Result().error.None?
    ensures Fits(c.(fs := c.Result().fs))
  {
    var fs := c.Result().fs;
    PlainAgain(c);
    CopyIsOverlay(c);
    assert c.at + [] == c.at && c.Entry([]) == Some(c.info);
    assert Overlaid(c.fs, fs, c.at + [], c.Entry([]));
    forall rel ensures FitsAt(fs, c.at + rel, c.Entry(rel)) {
      assert Overlaid(c.fs, fs, c.at + rel, c.Entry(rel));
    }
  }

  lemma SameAgain(c: Copy, p: Path)
    requires Plain(c) && c.info.Folder? && c.Result().error.None?
    requires var again := c.(fs := c.Result().fs); Plain(again) && again.Result().error.None?
    ensures Same(c.Result().fs, c.(fs := c.Result().fs).Result().fs, p)
  {
    var again := c.(fs := c.Result().fs);
    PlainAgain(c);
    PlainAgain(again);
    CopyIsOverlay(c);
    CopyIsOverlay(again);
    if c.at <= p {
      var rel := p[|c.at|..];
      assert c.at + rel == p;
      assert Overlaid(c.fs, again.fs, c.at + rel, c.Entry(rel));
      assert Overlaid(again.fs, again.Result().fs, c.at + rel, c.Entry(rel));
    }
  }

  lemma SameTrees(a: Tree, b: Tree)
    requires forall p :: Same(b, a, p)
    ensures a == b
  {
    forall p ensures (p in a <==> p in b) && (p in a ==> a[p] == b[p]) {
      assert Same(b, a, p);
    }
  }

  /** Pasting a folder a second time succeeds, and changes nothing. */
  lemma FolderTwiceIsOnce(view: View, from: Path, fs: Tree, requested: Path, at: Path)
    requires view(from).Some? && view(from).value.Folder? && Plain(Onto(view, from, fs, requested, at))
    requires Pasted(view, from, fs, requested).error.None?
    ensures var once := Pasted(view, from, fs, requested);
            Pasted(view, from, once.fs, requested).error.None? && Pasted(view, from, once.fs, requested).fs == once.fs
  {
    var c := Onto(view, from, fs, requested, at);
    var again := c.(fs := c.Result().fs);
    PlainAgain(c);
    CopySucceedsIff(c);
    FitsAgain(c);
    CopySucceedsIff(again);
    forall p ensures Same(again.fs, again.Result().fs, p) {
      SameAgain(c, p);
    }
    SameTrees(again.Result().fs, again.fs);
  }
}
