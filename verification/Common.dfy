/** Small general-purpose definitions. */
module Common {

  datatype Option<+T> = None | Some(value: T)

  /** A sequence of chunks read as one byte sequence. */
  function Flat<T>(chunks: seq<seq<T>>): seq<T> {
    if chunks == [] then [] else chunks[0] + Flat(chunks[1..])
  }

  function Size<T>(chunks: seq<seq<T>>): nat {
    |Flat(chunks)|
  }

  lemma Associative<T>(a: seq<T>, b: seq<T>, c: seq<T>)
    ensures a + b + c == a + (b + c)
  {
  }

  lemma {:induction false} FlatConcat<T>(a: seq<seq<T>>, b: seq<seq<T>>)
    ensures Flat(a + b) == Flat(a) + Flat(b)
  {
    if a == [] {
      assert a + b == b;
    } else {
      assert (a + b)[1..] == a[1..] + b;
      FlatConcat(a[1..], b);
      Associative(a[0], Flat(a[1..]), Flat(b));
    }
  }

  lemma FlatAppend<T>(chunks: seq<seq<T>>, chunk: seq<T>)
    ensures Flat(chunks + [chunk]) == Flat(chunks) + chunk
  {
    FlatConcat(chunks, [chunk]);
    assert Flat([chunk]) == chunk + Flat<T>([]);
  }

  /** The items addressed to one channel. */
  function Tagged<T>(channelId: nat, items: seq<T>): (tagged: seq<(nat, T)>)
    ensures |tagged| == |items|
  {
    seq(|items|, i requires 0 <= i < |items| => (channelId, items[i]))
  }

  lemma SubsetIsNoLarger<T>(a: set<T>, b: set<T>)
    requires a <= b
    ensures |a| <= |b|
  {
    assert b == a + (b - a);
  }

  /** A number in decimal. */
  function Digits(n: nat): (text: string)
    ensures text != ""
    ensures forall i :: 0 <= i < |text| ==> '0' <= text[i] <= '9'
  {
    (if n < 10 then "" else Digits(n / 10)) + [('0' as int + n % 10) as char]
  }

  predicate Digit(c: char) {
    '0' <= c <= '9'
  }

  /** The number the leading digits spell, continuing from `acc`. */
  function Spelled(text: string, acc: nat): nat {
    if text == "" || !Digit(text[0]) then acc else Spelled(text[1..], 10 * acc + (text[0] as int - '0' as int))
  }

  lemma {:induction false} SpelledAppend(text: string, c: char, acc: nat)
    requires Digit(c) && forall i :: 0 <= i < |text| ==> Digit(text[i])
    ensures Spelled(text + [c], acc) == 10 * Spelled(text, acc) + (c as int - '0' as int)
    decreases |text|
  {
    if text == "" {
      assert text + [c] == [c] && [c][1..] == "";
    } else {
      assert (text + [c])[1..] == text[1..] + [c];
      SpelledAppend(text[1..], c, 10 * acc + (text[0] as int - '0' as int));
    }
  }

  lemma {:induction false} DigitsSpell(n: nat)
    ensures Spelled(Digits(n), 0) == n
  {
    var c := ('0' as int + n % 10) as char;
    if n < 10 {
      assert Digits(n) == "" + [c];
      SpelledAppend("", c, 0);
    } else {
      DigitsSpell(n / 10);
      SpelledAppend(Digits(n / 10), c, 0);
    }
  }

  /** White space as the language's `trim` and `parseInt` take it. */
  predicate WhiteSpace(c: char) {
    c == ' ' || '\t' <= c <= '\r' || c == '\U{a0}' || c == '\U{1680}' || '\U{2000}' <= c <= '\U{200a}' ||
    c == '\U{2028}' || c == '\U{2029}' || c == '\U{202f}' || c == '\U{205f}' || c == '\U{3000}' || c == '\U{feff}'
  }
}
