/** The instruction codec of the remote-desktop tunnel
    (apps/gateway/src/protocols/rdp-connections.ts). */
module Guacamole {
  import opened Common

  /* ------------------------------------ writing --------------------------------- */

  function Element(value: string): string {
    Digits(|value|) + "." + value
  }

  function Elements(values: seq<string>): string {
    if values == [] then "" else if |values| == 1 then Element(values[0]) else Element(values[0]) + "," + Elements(values[1..])
  }

  function Instruction(opcode: string, params: seq<string>): string {
    Elements([opcode] + params) + ";"
  }

  /* ------------------------------------ reading --------------------------------- */

  function FirstDot(text: string): Option<nat> {
    if text == "" then None
    else if text[0] == '.' then Some(0)
    else
      match FirstDot(text[1..])
      case None => None
      case Some(i) => Some(i + 1)
  }

  lemma {:induction false} FirstDotIsFirst(text: string)
    ensures FirstDot(text).Some? ==> FirstDot(text).value < |text| && text[FirstDot(text).value] == '.'
    ensures FirstDot(text).None? ==> '.' !in text
  {
    if text != "" { FirstDotIsFirst(text[1..]); }
  }

  function SkipSpace(text: string): string {
    if text != "" && WhiteSpace(text[0]) then SkipSpace(text[1..]) else text
  }

  /** Leading blanks, a sign, digits, and whatever follows is ignored; nothing when
      there is no digit. */
  function ParseInt(text: string): Option<int> {
    var t := SkipSpace(text);
    var signed := t != "" && (t[0] == '-' || t[0] == '+');
    var digits := if signed then t[1..] else t;
    if digits == "" || !Digit(digits[0]) then None
    else Some(if signed && t[0] == '-' then -(Spelled(digits, 0) as int) else Spelled(digits, 0))
  }

  /** One turn of the reading loop at `cursor`: it stops, or goes on further along. */
  datatype Turn = Stop | Last(value: string) | More(value: string, cursor: int)

  function Clip(buffer: string, i: int): (k: nat)
    ensures k <= |buffer|
  {
    if i < 0 then (if |buffer| + i < 0 then 0 else |buffer| + i) else if i > |buffer| then |buffer| else i
  }

  /** A slice with negative ends counted from the back, empty when they cross. */
  function Slice(buffer: string, from: int, to: int): string {
    if Clip(buffer, from) <= Clip(buffer, to) then buffer[Clip(buffer, from)..Clip(buffer, to)] else ""
  }

  function ReadTurn(buffer: string, cursor: int): Turn
    requires cursor < |buffer|
  {
    var begin := if cursor < 0 then 0 else cursor;
    match FirstDot(buffer[begin..])
    case None => Stop
    case Some(i) =>
      var dot := begin + i;
      match ParseInt(Slice(buffer, cursor, dot))
      case None => Stop
      case Some(length) =>
        var end := dot + 1 + length;
        var value := Slice(buffer, dot + 1, end);
        if 0 <= end < |buffer| && buffer[end] == ';' then Last(value) else More(value, end + 1)
  }

  datatype Reading = Done(elements: seq<string>) | Going(cursor: int, elements: seq<string>)

  function Next(buffer: string, r: Reading): Reading {
    if r.Done? then r
    else if r.cursor >= |buffer| then Done(r.elements)
    else
      match ReadTurn(buffer, r.cursor)
      case Stop => Done(r.elements)
      case Last(value) => Done(r.elements + [value])
      case More(value, cursor) => Going(cursor, r.elements + [value])
  }

  function After(buffer: string, r: Reading, turns: nat): Reading
    decreases turns
  {
    if turns == 0 then r else After(buffer, Next(buffer, r), turns - 1)
  }

  const BEGIN := Going(0, [])

  /** The reading loop comes to an end. */
  ghost predicate Ends(buffer: string) {
    exists turns: nat :: After(buffer, BEGIN, turns).Done?
  }

  /** The loop ends and leaves `elements`. */
  ghost predicate ReadsAs(buffer: string, elements: seq<string>) {
    exists turns: nat :: After(buffer, BEGIN, turns) == Done(elements)
  }

  lemma {:induction false} DoneStaysDone(buffer: string, r: Reading, turns: nat)
    requires r.Done?
    ensures After(buffer, r, turns) == r
    decreases turns
  {
    if turns > 0 { DoneStaysDone(buffer, r, turns - 1); }
  }

  lemma {:induction false} LaterIsTheSame(buffer: string, r: Reading, a: nat, b: nat)
    requires a <= b && After(buffer, r, a).Done?
    ensures After(buffer, r, b) == After(buffer, r, a)
    decreases a
  {
    if a == 0 {
      DoneStaysDone(buffer, r, b);
    } else {
      LaterIsTheSame(buffer, Next(buffer, r), a - 1, b - 1);
    }
  }

  lemma {:induction false} AfterMore(buffer: string, r: Reading, a: nat, b: nat)
    ensures After(buffer, r, a + b) == After(buffer, After(buffer, r, a), b)
    decreases a
  {
    if a > 0 { AfterMore(buffer, Next(buffer, r), a - 1, b); }
  }

  lemma OneTurnMore(buffer: string, r: Reading, turns: nat)
    ensures After(buffer, r, turns + 1) == Next(buffer, After(buffer, r, turns))
  {
    AfterMore(buffer, r, turns, 1);
  }

  /** The code's loop, given up after `turns` turns: it can go on for ever. */
  method ParseInstruction(buffer: string, turns: nat) returns (ended: bool, elements: seq<string>)
    ensures ended ==> ReadsAs(buffer, elements)
    ensures !ended ==> !After(buffer, BEGIN, turns).Done?
  {
    elements := [];
    var cursor: int, done: nat := 0, 0;
    while cursor < |buffer|
      invariant After(buffer, BEGIN, done) == Going(cursor, elements) && done <= turns
      decreases turns - done
    {
      if done == turns {
        return false, elements;
      }
      OneTurnMore(buffer, BEGIN, done);
      done := done + 1;
      match ReadTurn(buffer, cursor) {
        case Stop =>
          return true, elements;
        case Last(value) =>
          elements := elements + [value];
          return true, elements;
        case More(value, further) =>
          cursor, elements := further, elements + [value];
      }
    }
    OneTurnMore(buffer, BEGIN, done);
    ended := true;
  }

  /* ---------------------------------- there and back ---------------------------- */

  lemma {:induction false} FirstDotAfter(digits: string, rest: string)
    requires '.' !in digits
    ensures FirstDot(digits + ("." + rest)) == Some(|digits|)
    decreases |digits|
  {
    var text := digits + ("." + rest);
    if digits != "" {
      assert text[0] == digits[0];
      assert text[1..] == digits[1..] + ("." + rest);
      FirstDotAfter(digits[1..], rest);
    }
  }

  lemma Cut(buffer: string, cursor: nat, a: string, b: string)
    requires cursor <= |buffer| && buffer[cursor..] == a + b
    ensures cursor + |a| <= |buffer| && buffer[cursor..cursor + |a|] == a && buffer[cursor + |a|..] == b
  {
    assert buffer[cursor..][..|a|] == a && buffer[cursor..][|a|..] == b;
  }

  predicate AllDigits(text: string) {
    text != "" && forall i :: 0 <= i < |text| ==> Digit(text[i])
  }

  lemma ParseDigits(digits: string)
    requires AllDigits(digits)
    ensures ParseInt(digits) == Some(Spelled(digits, 0)) && '.' !in digits
  {
    assert Digit(digits[0]);
  }

  lemma ReadTurnAt(buffer: string, cursor: nat, n: nat, length: nat)
    requires cursor + n + 1 + length < |buffer|
    requires FirstDot(buffer[cursor..]) == Some(n) && ParseInt(buffer[cursor..cursor + n]) == Some(length)
    ensures var end := cursor + n + 1 + length;
            var value := buffer[cursor + n + 1..end];
            ReadTurn(buffer, cursor) == if buffer[end] == ';' then Last(value) else More(value, end + 1)
  {
  }

  lemma CutCounted(buffer: string, cursor: nat, digits: string, value: string, rest: string)
    requires cursor < |buffer| && rest != "" && buffer[cursor..] == digits + ("." + (value + rest))
    ensures var dot := cursor + |digits|;
            dot + 1 + |value| < |buffer| && buffer[cursor..dot] == digits &&
            buffer[dot + 1..dot + 1 + |value|] == value && buffer[dot + 1 + |value|..] == rest
  {
    Cut(buffer, cursor, digits, "." + (value + rest));
    Cut(buffer, cursor + |digits|, ".", value + rest);
    Cut(buffer, cursor + |digits| + 1, value, rest);
  }

  lemma ReadCounted(buffer: string, cursor: nat, digits: string, value: string, rest: string)
    requires cursor < |buffer| && rest != ""
    requires ParseInt(digits) == Some(|value|) && FirstDot(buffer[cursor..]) == Some(|digits|)
    requires var dot := cursor + |digits|;
             dot + 1 + |value| < |buffer| && buffer[cursor..dot] == digits &&
             buffer[dot + 1..dot + 1 + |value|] == value && buffer[dot + 1 + |value|] == rest[0]
    ensures ReadTurn(buffer, cursor) ==
            var end := cursor + |digits| + 1 + |value|; if rest[0] == ';' then Last(value) else More(value, end + 1)
  {
    ReadTurnAt(buffer, cursor, |digits|, |value|);
  }

  /** Reading an element takes exactly its value, whatever the value contains. */
  lemma ReadElement(buffer: string, cursor: nat, value: string, rest: string)
    requires cursor < |buffer| && rest != "" && buffer[cursor..] == Element(value) + rest
    ensures var end := cursor + |Element(value)|;
            end < |buffer| && buffer[end..] == rest &&
            ReadTurn(buffer, cursor) == if rest[0] == ';' then Last(value) else More(value, end + 1)
  {
    DigitsSpell(|value|);
    ReadDigits(buffer, cursor, Digits(|value|), value, rest);
  }

  lemma ReadDigits(buffer: string, cursor: nat, digits: string, value: string, rest: string)
    requires AllDigits(digits) && Spelled(digits, 0) == |value|
    requires cursor < |buffer| && rest != "" && buffer[cursor..] == digits + "." + value + rest
    ensures var end := cursor + |digits| + 1 + |value|;
            end < |buffer| && buffer[end..] == rest &&
            ReadTurn(buffer, cursor) == if rest[0] == ';' then Last(value) else More(value, end + 1)
  {
    RegroupElement(digits, value, rest);
    CutCounted(buffer, cursor, digits, value, rest);
    FirstDotAfter(digits, value + rest);
    ParseDigits(digits);
    assert buffer[cursor + |digits| + 1 + |value|] == buffer[cursor + |digits| + 1 + |value|..][0];
    ReadCounted(buffer, cursor, digits, value, rest);
  }

  lemma RegroupElement(digits: string, value: string, rest: string)
    ensures digits + "." + value + rest == digits + ("." + (value + rest))
  {
  }

  lemma Regroup(a: string, b: string, rest: string)
    ensures a + "," + b + ";" + rest == a + ("," + (b + ";" + rest))
  {
  }

  /** From `cursor` on, the turns of the loop take `values` and then it stops. */
  predicate Takes(buffer: string, cursor: int, values: seq<string>)
    decreases |values|
  {
    cursor < |buffer| && values != [] &&
    match ReadTurn(buffer, cursor)
    case Stop => false
    case Last(value) => values == [value]
    case More(value, next) => values[0] == value && Takes(buffer, next, values[1..])
  }

  lemma {:induction false} TakesIsRead(buffer: string, cursor: int, done: seq<string>, values: seq<string>)
    requires Takes(buffer, cursor, values)
    ensures After(buffer, Going(cursor, done), |values|) == Done(done + values)
    decreases |values|
  {
    match ReadTurn(buffer, cursor) {
      case Last(value) => DoneStaysDone(buffer, Done(done + values), |values| - 1);
      case More(value, next) =>
        FirstAndMore(done, values);
        TakesIsRead(buffer, next, done + [value], values[1..]);
    }
  }

  lemma FirstAndMore(done: seq<string>, values: seq<string>)
    requires values != []
    ensures done + [values[0]] + values[1..] == done + values
  {
  }

  lemma {:induction false} ElementsAreTaken(buffer: string, cursor: nat, values: seq<string>, rest: string)
    requires values != [] && cursor < |buffer| && buffer[cursor..] == Elements(values) + ";" + rest
    ensures Takes(buffer, cursor, values)
    decreases |values|
  {
    var first, more := values[0], values[1..];
    if more == [] {
      RegroupLast(Element(first), rest);
      ReadElement(buffer, cursor, first, ";" + rest);
    } else {
      var tail := Elements(more) + ";" + rest;
      Regroup(Element(first), Elements(more), rest);
      var next := ReadOn(buffer, cursor, first, tail);
      ElementsAreTaken(buffer, next, more, rest);
    }
  }

  lemma ReadOn(buffer: string, cursor: nat, first: string, tail: string) returns (next: nat)
    requires cursor < |buffer| && tail != "" && buffer[cursor..] == Element(first) + ("," + tail)
    ensures next < |buffer| && buffer[next..] == tail && ReadTurn(buffer, cursor) == More(first, next)
  {
    ReadElement(buffer, cursor, first, "," + tail);
    next := cursor + |Element(first)| + 1;
    assert buffer[next..] == buffer[next - 1..][1..] == tail;
  }

  lemma RegroupLast(a: string, rest: string)
    ensures a + ";" + rest == a + (";" + rest)
  {
  }

  lemma OneResult(buffer: string, x: seq<string>, y: seq<string>)
    requires ReadsAs(buffer, x) && ReadsAs(buffer, y)
    ensures x == y
  {
    var a: nat :| After(buffer, BEGIN, a) == Done(x);
    var b: nat :| After(buffer, BEGIN, b) == Done(y);
    if a <= b { LaterIsTheSame(buffer, BEGIN, a, b); } else { LaterIsTheSame(buffer, BEGIN, b, a); }
  }

  /** Reading a written instruction ends and gives back its opcode and parameters,
      whatever characters they contain and whatever follows. */
  lemma RoundTrip(opcode: string, params: seq<string>, rest: string)
    ensures var buffer := Instruction(opcode, params) + rest;
            Ends(buffer) && forall elements :: ReadsAs(buffer, elements) <==> elements == [opcode] + params
  {
    var buffer := Instruction(opcode, params) + rest;
    var sent := [opcode] + params;
    assert buffer[0..] == buffer == Elements(sent) + ";" + rest;
    ElementsAreTaken(buffer, 0, sent, rest);
    TakesIsRead(buffer, 0, [], sent);
    assert [] + sent == sent;
    assert ReadsAs(buffer, sent);
    assert After(buffer, BEGIN, |sent|).Done?;
    forall elements | ReadsAs(buffer, elements) ensures elements == sent {
      OneResult(buffer, elements, sent);
    }
  }

  /* ------------------------------- lengths and ends ----------------------------- */

  lemma {:induction false} SkipsWhite(white: string, text: string)
    requires (forall i :: 0 <= i < |white| ==> WhiteSpace(white[i])) && (text != "" ==> !WhiteSpace(text[0]))
    ensures SkipSpace(white + text) == text
    decreases |white|
  {
    if white == "" {
      assert white + text == text;
    } else {
      assert (white + text)[1..] == white[1..] + text;
      SkipsWhite(white[1..], text);
    }
  }

  lemma {:induction false} SpelledStops(digits: string, rest: string, acc: nat)
    requires (forall i :: 0 <= i < |digits| ==> Digit(digits[i])) && (rest != "" ==> !Digit(rest[0]))
    ensures Spelled(digits + rest, acc) == Spelled(digits, acc)
    decreases |digits|
  {
    if digits == "" {
      assert digits + rest == rest;
    } else {
      assert (digits + rest)[1..] == digits[1..] + rest;
      SpelledStops(digits[1..], rest, 10 * acc + (digits[0] as int - '0' as int));
    }
  }

  /** A length is read after any white space and a sign of either kind, up to the first
      character that is no digit. */
  lemma LengthIsReadLeniently(white: string, sign: string, digits: string, rest: string)
    requires forall i :: 0 <= i < |white| ==> WhiteSpace(white[i])
    requires sign == "" || sign == "+" || sign == "-"
    requires AllDigits(digits) && (rest != "" ==> !Digit(rest[0]))
    ensures var length := ParseInt(white + (sign + (digits + rest)));
            length.Some? && length.value == if sign == "-" then -(Spelled(digits, 0) as int) else Spelled(digits, 0)
  {
    var t := sign + (digits + rest);
    assert t[0] == if sign == "" then digits[0] else sign[0];
    SkipsWhite(white, t);
    SpelledStops(digits, rest, 0);
    assert sign != "" ==> t[1..] == digits + rest;
    assert sign == "" ==> t == digits + rest;
    assert Digit((digits + rest)[0]);
  }

  /** Nothing else is a length: after white space and a sign there must be a digit. */
  lemma NoLengthWithoutDigit(white: string, sign: string, rest: string)
    requires forall i :: 0 <= i < |white| ==> WhiteSpace(white[i])
    requires sign == "" || sign == "+" || sign == "-"
    requires rest != "" ==> !Digit(rest[0]) && !WhiteSpace(rest[0]) && (sign == "" ==> rest[0] != '+' && rest[0] != '-')
    ensures ParseInt(white + (sign + rest)) == None
  {
    var t := sign + rest;
    SkipsWhite(white, t);
    assert sign != "" ==> t[0] == sign[0] && t[1..] == rest;
    assert sign == "" ==> t == rest;
  }

  /** There is no further element: no dot, or no length before it. */
  predicate NoElement(text: string) {
    match FirstDot(text)
    case None => true
    case Some(i) => i > |text| || ParseInt(text[..i]).None?
  }

  lemma {:induction false} ReadSoFar(buffer: string, cursor: nat, done: seq<string>, values: seq<string>, rest: string)
    returns (next: nat)
    requires values != [] && cursor < |buffer| && buffer[cursor..] == Elements(values) + ("," + rest)
    ensures next <= |buffer| && buffer[next..] == rest
    ensures After(buffer, Going(cursor, done), |values|) == Going(next, done + values)
    decreases |values|
  {
    if |values| == 1 {
      next := ReadOver(buffer, cursor, values[0], rest);
      OneTurn(buffer, cursor, done, values[0], next, 0);
      assert values == [values[0]];
    } else {
      var here := ReadFirstSoFar(buffer, cursor, values, rest);
      next := ReadSoFar(buffer, here, done + [values[0]], values[1..], rest);
      OneTurn(buffer, cursor, done, values[0], here, |values| - 1);
      FirstAndMore(done, values);
    }
  }

  lemma ReadFirstSoFar(buffer: string, cursor: nat, values: seq<string>, rest: string) returns (here: nat)
    requires |values| > 1 && cursor < |buffer| && buffer[cursor..] == Elements(values) + ("," + rest)
    ensures here < |buffer| && buffer[here..] == Elements(values[1..]) + ("," + rest)
    ensures ReadTurn(buffer, cursor) == More(values[0], here)
  {
    TailOfElements(values, rest);
    here := ReadOver(buffer, cursor, values[0], Elements(values[1..]) + ("," + rest));
  }

  lemma OneTurn(buffer: string, cursor: nat, done: seq<string>, value: string, next: nat, turns: nat)
    requires cursor < |buffer| && ReadTurn(buffer, cursor) == More(value, next)
    ensures After(buffer, Going(cursor, done), turns + 1) == After(buffer, Going(next, done + [value]), turns)
  {
  }

  lemma TailOfElements(values: seq<string>, rest: string)
    requires |values| > 1
    ensures Elements(values) + ("," + rest) == Element(values[0]) + ("," + (Elements(values[1..]) + ("," + rest)))
  {
    var a, b, c := Element(values[0]), Elements(values[1..]), "," + rest;
    Associative(a + ",", b, c);
    Associative(a, ",", b + c);
  }

  /** One element and the comma after it. */
  lemma ReadOver(buffer: string, cursor: nat, first: string, tail: string) returns (next: nat)
    requires cursor < |buffer| && buffer[cursor..] == Element(first) + ("," + tail)
    ensures next <= |buffer| && buffer[next..] == tail && ReadTurn(buffer, cursor) == More(first, next)
  {
    ReadElement(buffer, cursor, first, "," + tail);
    next := cursor + |Element(first)| + 1;
    assert buffer[next..] == buffer[next - 1..][1..] == tail;
  }

  /** An instruction that breaks off, or goes on with something that is no element, is
      read as the elements it has; a text without any is read as none. */
  lemma WhatIsThereIsRead(values: seq<string>, rest: string)
    requires values != [] && NoElement(rest)
    ensures ReadsAs(Elements(values) + ("," + rest), values)
    ensures ReadsAs(rest, [])
  {
    var buffer := Elements(values) + ("," + rest);
    assert buffer[0..] == buffer;
    var next := ReadSoFar(buffer, 0, [], values, rest);
    assert [] + values == values;
    EndsThere(buffer, next, |values|, values);
    assert rest[0..] == rest;
    EndsThere(rest, 0, 0, []);
  }

  lemma EndsThere(buffer: string, cursor: nat, turns: nat, values: seq<string>)
    requires cursor <= |buffer| && NoElement(buffer[cursor..]) && After(buffer, BEGIN, turns) == Going(cursor, values)
    ensures ReadsAs(buffer, values)
  {
    OneTurnMore(buffer, BEGIN, turns);
    if cursor < |buffer| { StopsThere(buffer, cursor); }
    assert After(buffer, BEGIN, turns + 1) == Done(values);
  }

  lemma StopsThere(buffer: string, cursor: nat)
    requires cursor < |buffer| && NoElement(buffer[cursor..])
    ensures ReadTurn(buffer, cursor).Stop?
  {
    FirstDotIsFirst(buffer[cursor..]);
    var dot := FirstDot(buffer[cursor..]);
    if dot.Some? { assert Slice(buffer, cursor, cursor + dot.value) == buffer[cursor..][..dot.value]; }
  }

  /* --------------------------------- does it end? ------------------------------- */

  /** The loop is at the same place after `i` turns as after `j`. */
  predicate ComesBack(buffer: string, i: nat, j: nat) {
    var a, b := After(buffer, BEGIN, i), After(buffer, BEGIN, j);
    i < j && a.Going? && b.Going? && a.cursor == b.cursor
  }

  /** Where the loop goes depends on its place only, not on what it has read. */
  lemma {:induction false} PlaceDecides(buffer: string, x: Reading, y: Reading, turns: nat)
    requires x.Going? && y.Going? && x.cursor == y.cursor
    ensures After(buffer, x, turns).Done? <==> After(buffer, y, turns).Done?
    decreases turns
  {
    if turns > 0 {
      var p, q := Next(buffer, x), Next(buffer, y);
      if p.Done? {
        DoneStaysDone(buffer, p, turns - 1);
        DoneStaysDone(buffer, q, turns - 1);
      } else {
        PlaceDecides(buffer, p, q, turns - 1);
      }
    }
  }

  lemma EndsSooner(buffer: string, i: nat, j: nat, total: nat)
    requires ComesBack(buffer, i, j) && After(buffer, BEGIN, total).Done?
    ensures total > j && After(buffer, BEGIN, i + total - j).Done?
  {
    if total <= j { LaterIsTheSame(buffer, BEGIN, total, j); }
    var turns := total - j;
    AfterMore(buffer, BEGIN, j, turns);
    AfterMore(buffer, BEGIN, i, turns);
    PlaceDecides(buffer, After(buffer, BEGIN, i), After(buffer, BEGIN, j), turns);
  }

  /** Coming back to a place, the loop would have to end sooner each time. */
  lemma {:induction false} ComingBackNeverEnds(buffer: string, i: nat, j: nat, total: nat)
    requires ComesBack(buffer, i, j)
    ensures After(buffer, BEGIN, total).Going?
    decreases total
  {
    if After(buffer, BEGIN, total).Done? {
      EndsSooner(buffer, i, j, total);
      ComingBackNeverEnds(buffer, i, j, i + total - j);
    }
  }

  function Between(lo: int, hi: int): (numbers: set<int>)
    requires lo <= hi
    ensures |numbers| == hi - lo && forall k :: k in numbers <==> lo <= k < hi
    decreases hi - lo
  {
    if lo == hi then {} else Between(lo, hi - 1) + {hi - 1}
  }

  function Items(xs: seq<int>): set<int> {
    set x <- xs
  }

  lemma {:induction false} DistinctCount(xs: seq<int>)
    requires forall i, j :: 0 <= i < j < |xs| ==> xs[i] != xs[j]
    ensures |Items(xs)| == |xs|
  {
    if xs != [] {
      DistinctCount(xs[1..]);
      assert Items(xs) == Items(xs[1..]) + {xs[0]};
    }
  }

  /** More numbers than there is room for: two are the same. */
  lemma Pigeonhole(xs: seq<int>, lo: int, hi: int) returns (i: nat, j: nat)
    requires lo <= hi && |xs| > hi - lo && forall x <- xs :: lo <= x < hi
    ensures i < j < |xs| && xs[i] == xs[j]
  {
    if p, q :| 0 <= p < q < |xs| && xs[p] == xs[q] {
      i, j := p, q;
    } else {
      DistinctCount(xs);
      SubsetIsNoLarger(Items(xs), Between(lo, hi));
    }
  }

  /** The part of a place that a turn looks at. */
  function Place(buffer: string, cursor: int): int {
    if cursor < -|buffer| then -|buffer| else cursor
  }

  lemma SameSlice(buffer: string, a: int, b: int, to: int)
    requires a <= -|buffer| && b <= -|buffer|
    ensures Slice(buffer, a, to) == Slice(buffer, b, to)
  {
  }

  lemma PlaceDecidesTurn(buffer: string, a: int, b: int)
    requires a < |buffer| && b < |buffer| && Place(buffer, a) == Place(buffer, b)
    ensures ReadTurn(buffer, a) == ReadTurn(buffer, b)
  {
    var begin := if a < 0 then 0 else a;
    var dot := FirstDot(buffer[begin..]);
    if a != b && dot.Some? { SameSlice(buffer, a, b, dot.value); }
  }

  lemma GoesOn(buffer: string, turns: nat, i: nat)
    requires After(buffer, BEGIN, turns).Going? && i < turns
    ensures var r := After(buffer, BEGIN, i);
            r.Going? && r.cursor < |buffer| && ReadTurn(buffer, r.cursor).More? &&
            After(buffer, BEGIN, i + 1) == Next(buffer, r)
  {
    if After(buffer, BEGIN, i).Done? { LaterIsTheSame(buffer, BEGIN, i, turns); }
    if After(buffer, BEGIN, i + 1).Done? { LaterIsTheSame(buffer, BEGIN, i + 1, turns); }
    OneTurnMore(buffer, BEGIN, i);
  }

  function PlaceAfter(buffer: string, i: nat): int {
    match After(buffer, BEGIN, i)
    case Done(_) => 0
    case Going(cursor, _) => Place(buffer, cursor)
  }

  function Places(buffer: string, turns: nat): (places: seq<int>)
    ensures |places| == turns && forall k :: 0 <= k < turns ==> places[k] == PlaceAfter(buffer, k)
  {
    seq(turns, k requires 0 <= k < turns => PlaceAfter(buffer, k))
  }

  lemma PlacesAreIn(buffer: string, turns: nat)
    requires After(buffer, BEGIN, turns).Going?
    ensures forall x <- Places(buffer, turns) :: -|buffer| <= x < |buffer|
  {
    forall k | 0 <= k < turns ensures -|buffer| <= PlaceAfter(buffer, k) < |buffer| {
      GoesOn(buffer, turns, k);
    }
  }

  lemma SamePlaceSameNext(buffer: string, turns: nat, i: nat, j: nat)
    requires After(buffer, BEGIN, turns).Going? && i < j < turns && PlaceAfter(buffer, i) == PlaceAfter(buffer, j)
    ensures ComesBack(buffer, i + 1, j + 1)
  {
    GoesOn(buffer, turns, i);
    GoesOn(buffer, turns, j);
    PlaceDecidesTurn(buffer, After(buffer, BEGIN, i).cursor, After(buffer, BEGIN, j).cursor);
  }

  /** A loop that goes on for long enough comes back to a place. */
  lemma LongComesBack(buffer: string) returns (i: nat, j: nat)
    requires After(buffer, BEGIN, 2 * |buffer| + 1).Going?
    ensures ComesBack(buffer, i, j)
  {
    var turns := 2 * |buffer| + 1;
    PlacesAreIn(buffer, turns);
    i, j := Pigeonhole(Places(buffer, turns), -|buffer|, |buffer|);
    SamePlaceSameNext(buffer, turns, i, j);
    i, j := i + 1, j + 1;
  }

  /** The loop never ends exactly when it comes back to a place it has been at, and
      that shows within twice as many turns as there are characters. */
  lemma NeverEndsIff(buffer: string)
    ensures !Ends(buffer) <==> exists i, j :: ComesBack(buffer, i, j)
    ensures Ends(buffer) <==> After(buffer, BEGIN, 2 * |buffer| + 1).Done?
  {
    if i, j :| ComesBack(buffer, i, j) {
      forall turns: nat ensures After(buffer, BEGIN, turns).Going? {
        ComingBackNeverEnds(buffer, i, j, turns);
      }
    } else if After(buffer, BEGIN, 2 * |buffer| + 1).Going? {
      var i, j := LongComesBack(buffer);
    }
  }

  /** A turn goes back exactly when the length it reads is negative enough, and that
      takes a minus sign. */
  lemma TurnGoesBackIff(buffer: string, cursor: nat)
    requires cursor < |buffer| && ReadTurn(buffer, cursor).More?
    ensures var dot := cursor + FirstDot(buffer[cursor..]).value;
            var length := ParseInt(Slice(buffer, cursor, dot)).value;
            var further := ReadTurn(buffer, cursor).cursor;
            (further <= cursor <==> length <= cursor - dot - 2) && (further <= cursor ==> '-' in buffer)
  {
    FirstDotIsFirst(buffer[cursor..]);
    if '-' !in buffer { NoMinusNoNegative(Slice(buffer, cursor, cursor + FirstDot(buffer[cursor..]).value)); }
  }

  predicate GoesForward(buffer: string, i: nat) {
    After(buffer, BEGIN, i + 1).Going? ==> PlaceAfter(buffer, i) < PlaceAfter(buffer, i + 1)
  }

  /** Every turn the loop takes leads further along. */
  ghost predicate AllForward(buffer: string) {
    forall i: nat :: GoesForward(buffer, i)
  }

  lemma {:induction false} Climbs(xs: seq<int>, i: nat, j: nat)
    requires i < j < |xs| && forall k :: 0 < k < |xs| ==> xs[k - 1] < xs[k]
    ensures xs[i] < xs[j]
    decreases j
  {
    if i < j - 1 { Climbs(xs, i, j - 1); }
  }

  lemma PlacesClimb(buffer: string, turns: nat)
    requires AllForward(buffer) && After(buffer, BEGIN, turns).Going?
    ensures var xs := Places(buffer, turns + 1); forall k :: 0 < k < |xs| ==> xs[k - 1] < xs[k]
  {
    forall k | 0 < k <= turns ensures PlaceAfter(buffer, k - 1) < PlaceAfter(buffer, k) {
      assert GoesForward(buffer, k - 1);
      GoesOn(buffer, turns, k - 1);
      if k < turns { GoesOn(buffer, turns, k); }
    }
  }

  /** A buffer whose turns all lead further along is read to an end. */
  lemma ForwardEnds(buffer: string)
    requires AllForward(buffer)
    ensures Ends(buffer)
  {
    if After(buffer, BEGIN, 2 * |buffer| + 1).Going? {
      var i, j := LongComesBack(buffer);
      PlacesClimb(buffer, j);
      Climbs(Places(buffer, j + 1), i, j);
    }
  }

  lemma {:induction false} NoMinusNoNegative(text: string)
    requires '-' !in text
    ensures ParseInt(text).Some? ==> ParseInt(text).value >= 0
    decreases |text|
  {
    if text != "" && SkipSpace(text) != text { NoMinusNoNegative(text[1..]); }
  }

  lemma {:induction false} NoMinusGoesForward(buffer: string, i: nat)
    requires '-' !in buffer && After(buffer, BEGIN, i + 1).Going?
    ensures After(buffer, BEGIN, i).Going?
    ensures 0 <= After(buffer, BEGIN, i).cursor < After(buffer, BEGIN, i + 1).cursor
    decreases i
  {
    GoesOn(buffer, i + 1, i);
    if i > 0 { NoMinusGoesForward(buffer, i - 1); }
    TurnGoesBackIff(buffer, After(buffer, BEGIN, i).cursor);
  }

  /** So without a minus sign in it every buffer is. */
  lemma EndsWithoutMinus(buffer: string)
    requires '-' !in buffer
    ensures Ends(buffer)
  {
    forall i: nat ensures GoesForward(buffer, i) {
      if After(buffer, BEGIN, i + 1).Going? { NoMinusGoesForward(buffer, i); }
    }
    ForwardEnds(buffer);
  }

  /* ------------------------------- negative lengths ----------------------------- */

  function Negative(n: nat): string {
    "-" + Digits(n) + "."
  }

  lemma NegativeParts(n: nat)
    ensures var b, d := Negative(n), |Digits(n)|;
            |b| == d + 2 && b[..d + 1] == "-" + Digits(n) && FirstDot(b[0..]) == Some(d + 1) &&
            ParseInt(b[..d + 1]).Some? && ParseInt(b[..d + 1]).value == -(n as int)
  {
    var signed := "-" + Digits(n);
    assert Negative(n)[0..] == signed + ("." + "");
    FirstDotAfter(signed, "");
    DigitsSpell(n);
    assert signed[1..] == Digits(n);
  }

  lemma WholeLength(buffer: string, cursor: int, dot: nat, length: int)
    requires buffer != "" && (cursor == 0 || cursor <= -|buffer|) && ';' !in buffer
    requires dot < |buffer| && FirstDot(buffer[0..]) == Some(dot) && ParseInt(buffer[..dot]) == Some(length)
    ensures ReadTurn(buffer, cursor) == More(Slice(buffer, dot + 1, dot + 1 + length), dot + 2 + length)
  {
    WholeSlice(buffer, cursor, dot);
  }

  lemma WholeSlice(buffer: string, cursor: int, dot: nat)
    requires (cursor == 0 || cursor <= -|buffer|) && dot <= |buffer|
    ensures Slice(buffer, cursor, dot) == buffer[..dot]
  {
  }

  /** From the start of the text, or from before it, the whole length is read. */
  lemma NegativeTurn(n: nat, cursor: int, r: Reading)
    requires cursor == 0 || cursor <= -|Negative(n)|
    requires r.Going? && r.cursor == cursor
    ensures var next := Next(Negative(n), r); next.Going? && next.cursor == |Digits(n)| + 3 - n
  {
    NegativeParts(n);
    assert ';' !in Negative(n);
    WholeLength(Negative(n), cursor, |Digits(n)| + 1, -(n as int));
  }

  lemma {:induction false} DigitsAreFew(n: nat)
    requires n >= 7
    ensures n >= 2 * |Digits(n)| + 5
  {
    if n >= 100 {
      DigitsAreFew(n / 10);
    } else if n >= 10 {
      assert |Digits(n / 10)| == 1;
    }
  }

  lemma OneDigit(n: nat)
    requires n < 10
    ensures var b, digit := Negative(n), Digits(n);
            |digit| == 1 && |b| == 3 && b[0..2] == "-" + digit && b[1..2] == digit && b[2..2] == "" &&
            ParseInt(digit).Some? && ParseInt(digit).value == n &&
            FirstDot(b[0..]) == Some(2) && FirstDot(b[1..]) == Some(1) && FirstDot(b[2..]) == Some(0)
  {
    NegativeParts(n);
    DigitsSpell(n);
    assert Negative(n)[1..] == Digits(n) + ("." + "");
    FirstDotAfter(Digits(n), "");
  }

  /** The second turn of a one-digit length that did not lead back to the start. */
  lemma SecondTurn(n: nat, r: Reading)
    requires n < 7 && n != 4 && r.Going? && r.cursor == 4 - n
    ensures After(Negative(n), r, 2).Done?
  {
    OneDigit(n);
    var b := Negative(n);
    var next := Next(b, r);
    assert next.Done? || (next.Going? && next.cursor >= 3);
    assert Next(b, next).Done?;
    assert After(b, next, 1) == After(b, Next(b, next), 0);
  }

  /** The text "-n." is read for ever for every n but 0, 1, 2, 3, 5 and 6. */
  lemma NegativeNeverEndsIff(n: nat)
    ensures !Ends(Negative(n)) <==> n == 4 || n >= 7
  {
    var b := Negative(n);
    var first := After(b, BEGIN, 1);
    NegativeTurn(n, 0, BEGIN);
    if n >= 7 {
      DigitsAreFew(n);
      NegativeTurn(n, first.cursor, first);
      OneTurnMore(b, BEGIN, 1);
      assert ComesBack(b, 1, 2);
    } else if n == 4 {
      assert ComesBack(b, 0, 1);
    } else {
      SecondTurn(n, first);
      AfterMore(b, BEGIN, 1, 2);
    }
    NeverEndsIff(b);
  }
}
