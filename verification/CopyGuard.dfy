/** The check that keeps a directory from being copied into itself
    (apps/gateway/src/protocols/sftp.ts, `copyPath`). It compares path texts. */
module CopyGuard {
  import opened FileSystem

  predicate PlainName(name: string) {
    name != "" && '/' !in name
  }

  predicate PlainPath(p: Path) {
    forall i :: 0 <= i < |p| ==> PlainName(p[i])
  }

  function Text(p: Path): string {
    if p == [] then "" else "/" + p[0] + Text(p[1..])
  }

  /** A normalised absolute path without a slash at its end, but for the root. */
  function Render(p: Path): string {
    if p == [] then "/" else Text(p)
  }

  predicate IntoItself(from: string, to: string) {
    to == from || (|to| > |from| && from <= to && (to[|from|] == '/' || to[|from|] == '\\'))
  }

  lemma SameName(a: string, x: string, b: string, y: string)
    requires '/' !in a && '/' !in b
    requires x != [] && y != [] && x[0] == '/' && y[0] == '/'
    ensures a + x <= b + y <==> a == b && x <= y
  {
    if a + x <= b + y {
      assert (a + x)[|a|] == '/';
      assert (b + y)[|b|] == '/';
      assert (a + x)[..|a|] == a && (b + y)[..|b|] == b;
      assert (a + x)[|a|..] == x && (b + y)[|b|..] == y;
    }
  }

  lemma FirstThenRest(from: Path, to: Path)
    requires from != [] && to != []
    ensures from <= to <==> from[0] == to[0] && from[1..] <= to[1..]
  {
    assert from == [from[0]] + from[1..] && to == [to[0]] + to[1..];
  }

  lemma Regroup(a: string, b: string, c: string, d: string)
    ensures a + b + c + d == a + (b + (c + d))
  {
  }

  lemma SamePrefix(start: string, x: string, y: string)
    ensures start + x <= start + y <==> x <= y
  {
    assert (start + x)[|start|..] == x && (start + y)[|start|..] == y;
  }

  lemma FirstNames(from: Path, to: Path, x: string, y: string)
    requires from != [] && to != []
    ensures Text(from) + x <= Text(to) + y <==> from[0] + (Text(from[1..]) + x) <= to[0] + (Text(to[1..]) + y)
  {
    Regroup("/", from[0], Text(from[1..]), x);
    Regroup("/", to[0], Text(to[1..]), y);
    SamePrefix("/", from[0] + (Text(from[1..]) + x), to[0] + (Text(to[1..]) + y));
  }

  lemma {:induction false} TextPrefix(from: Path, to: Path)
    requires PlainPath(from) && PlainPath(to)
    ensures Text(from) + "/" <= Text(to) + "/" <==> from <= to
    decreases |from|
  {
    if from == [] {
      assert (Text(to) + "/")[0] == '/';
    } else if to == [] {
      assert |Text(from) + "/"| > 1;
    } else {
      FirstNames(from, to, "/", "/");
      SameName(from[0], Text(from[1..]) + "/", to[0], Text(to[1..]) + "/");
      TextPrefix(from[1..], to[1..]);
      FirstThenRest(from, to);
    }
  }

  /** `to` is at or below a place beside `from` whose name begins with that of
      `from` and a backslash. */
  predicate BackslashBeside(from: Path, to: Path)
    requires from != []
  {
    |from| <= |to| && Parent(from) <= to && Name(from) + "\\" <= to[|from| - 1]
  }

  lemma NameGoesOn(x: string, b: string, y: string)
    requires '/' !in x && (y == "" || y[0] == '/')
    ensures x <= b + y <==> x <= b
  {
    if |b| < |x| <= |b| + |y| {
      assert (b + y)[|b|] == '/' && x[|b|] != '/';
    }
  }

  lemma LastName(from: Path, to: Path)
    requires PlainPath(from) && PlainPath(to) && |from| == 1 && to != []
    ensures Text(from) + "\\" <= Text(to) <==> BackslashBeside(from, to)
  {
    FirstNames(from, to, "\\", "");
    assert Text(from[1..]) + "\\" == "\\" && Text(to) + "" == Text(to) && Text(to[1..]) + "" == Text(to[1..]);
    NameGoesOn(from[0] + "\\", to[0], Text(to[1..]));
    assert Parent(from) == [];
  }

  lemma BesideBelow(from: Path, to: Path)
    requires |from| > 1 && to != []
    ensures BackslashBeside(from, to) <==> from[0] == to[0] && BackslashBeside(from[1..], to[1..])
  {
    assert Parent(from) == [from[0]] + Parent(from[1..]);
    assert to == [to[0]] + to[1..];
  }

  lemma {:induction false} TextGoesOn(from: Path, to: Path)
    requires PlainPath(from) && PlainPath(to) && from != []
    ensures Text(from) + "\\" <= Text(to) <==> BackslashBeside(from, to)
    decreases |from|
  {
    if to != [] {
      if |from| == 1 {
        LastName(from, to);
      } else {
        FirstNames(from, to, "\\", "");
        assert Text(to) + "" == Text(to) && Text(to[1..]) + "" == Text(to[1..]);
        MoreNames(from, to, Text(from[1..]) + "\\", Text(to[1..]));
        TextGoesOn(from[1..], to[1..]);
        BesideBelow(from, to);
      }
    }
  }

  lemma MoreNames(from: Path, to: Path, x: string, y: string)
    requires PlainPath(from) && PlainPath(to) && |from| > 1 && to != []
    requires x == Text(from[1..]) + "\\" && y == Text(to[1..])
    ensures from[0] + x <= to[0] + y <==> from[0] == to[0] && x <= y
  {
    if from[0] + x <= to[0] + y {
      assert (from[0] + x)[|from[0]|] == '/';
      if y != "" { SameName(from[0], x, to[0], y); }
    }
  }

  /** One text is refused below another when it goes on with either separator. */
  lemma GuardIsPrefix(from: string, to: string)
    ensures IntoItself(from, to) <==> from + "/" <= to + "/" || from + "\\" <= to
  {
    var f, t := from + "/", to + "/";
    if f <= t {
      assert forall i :: 0 <= i < |f| ==> f[i] == t[i];
      assert forall i :: 0 <= i < |from| ==> from[i] == f[i] == t[i];
      assert f[|from|] == '/';
      if |to| == |from| {
        assert to == from;
      } else {
        assert t[|from|] == to[|from|];
      }
    }
    if from + "\\" <= to {
      assert (from + "\\")[|from|] == '\\' && from == (from + "\\")[..|from|];
    }
    if IntoItself(from, to) && to != from {
      assert to[..|from| + 1] == from + [to[|from|]];
    }
  }

  /** For every source but the root, the check refuses the source itself, the places
      below it, and those beside it named like it up to a backslash. */
  lemma GuardIsExact(from: Path, to: Path)
    requires PlainPath(from) && PlainPath(to) && from != []
    ensures IntoItself(Render(from), Render(to)) <==> from <= to || BackslashBeside(from, to)
  {
    if to == [] {
      assert |Text(from)| >= |from[0]| + 1;
    } else {
      TextPrefix(from, to);
      TextGoesOn(from, to);
      GuardIsPrefix(Text(from), Text(to));
    }
  }

  lemma {:induction false} NoDoubleSlash(p: Path, i: nat)
    requires PlainPath(p) && i + 1 < |Text(p)|
    ensures !(Text(p)[i] == '/' && Text(p)[i + 1] == '/')
    decreases |p|
  {
    var n := |p[0]| + 1;
    assert Text(p) == ("/" + p[0]) + Text(p[1..]);
    if i + 1 < n {
      assert Text(p)[i + 1] == p[0][i];
    } else if n <= i {
      NoDoubleSlash(p[1..], i - n);
    } else {
      assert Text(p)[i] == p[0][i - 1];
    }
  }

  /** A source text that ends in a slash, as the root's does, slips through: no
      place below it is refused, unless its name begins with a backslash, and the
      copy goes on into its own result. */
  lemma SlashedSourceIsNeverRefused(from: string, to: Path)
    requires PlainPath(to) && from != "" && from[|from| - 1] == '/'
    ensures IntoItself(from, Render(to)) <==> Render(to) == from || from + "\\" <= Render(to)
  {
    var text := Render(to);
    if |text| > |from| && from <= text {
      NoDoubleSlash(to, |from| - 1);
      assert text[..|from| + 1] == from + [text[|from|]];
    }
    if from + "\\" <= text {
      assert (from + "\\")[|from|] == '\\' && from == (from + "\\")[..|from|];
    }
  }
}
