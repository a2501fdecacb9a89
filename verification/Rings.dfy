/** The two ring buffers of a detached terminal: the gateway's backlog
    (apps/gateway/src/terminals.ts) and the agent's replay buffer
    (apps/agent/src/channels.ts). Both keep whole chunks and drop the oldest. */
module Rings {
  import opened Common

  const MAX_BACKLOG_BYTES: nat := 256 * 1024
  const CHANNEL_REPLAY_BUFFER_BYTES: nat := 256 * 1024

  /** Drops chunks from the front until the rest fits or one is left. */
  function Evict<T>(chunks: seq<seq<T>>, cap: nat): (kept: seq<seq<T>>)
    ensures |kept| <= |chunks| && (chunks != [] ==> kept != [])
    ensures kept == chunks[|chunks| - |kept|..]
  {
    if Size(chunks) > cap && |chunks| > 1 then Evict(chunks[1..], cap) else chunks
  }

  function Remember<T>(backlog: seq<seq<T>>, chunk: seq<T>): seq<seq<T>> {
    Evict(backlog + [chunk], MAX_BACKLOG_BYTES)
  }

  /** A write larger than the whole buffer is cut to its tail first. */
  function Piece<T>(chunk: seq<T>): seq<T> {
    if |chunk| > CHANNEL_REPLAY_BUFFER_BYTES then chunk[|chunk| - CHANNEL_REPLAY_BUFFER_BYTES..] else chunk
  }

  function Buffer<T>(replay: seq<seq<T>>, chunk: seq<T>): seq<seq<T>> {
    Evict(replay + [Piece(chunk)], CHANNEL_REPLAY_BUFFER_BYTES)
  }

  /* --------------------------- what the rings are for --------------------------- */

  /** The longest suffix of whole chunks within `cap`, or the newest chunk alone
      when even that is too large. */
  ghost predicate IsWindow<T>(kept: seq<seq<T>>, all: seq<seq<T>>, cap: nat) {
    |kept| <= |all| && kept == all[|all| - |kept|..] &&
    (all != [] ==> kept != []) &&
    (Size(kept) <= cap || |kept| == 1) &&
    (|kept| < |all| ==> Size(all[|all| - |kept| - 1..]) > cap)
  }

  lemma {:induction false} SizeOfSuffix<T>(chunks: seq<seq<T>>, n: nat)
    requires n <= |chunks|
    ensures Size(chunks[n..]) <= Size(chunks)
  {
    if n > 0 {
      SizeOfSuffix(chunks[1..], n - 1);
      assert chunks[1..][n - 1..] == chunks[n..];
    }
  }

  /** There is only one such window. */
  lemma WindowIsUnique<T>(a: seq<seq<T>>, b: seq<seq<T>>, all: seq<seq<T>>, cap: nat)
    requires IsWindow(a, all, cap) && IsWindow(b, all, cap)
    ensures a == b
  {
    WindowIsLongest(a, b, all, cap);
    WindowIsLongest(b, a, all, cap);
  }

  lemma WindowIsLongest<T>(a: seq<seq<T>>, b: seq<seq<T>>, all: seq<seq<T>>, cap: nat)
    requires IsWindow(a, all, cap) && IsWindow(b, all, cap)
    ensures |a| >= |b|
  {
    if |a| < |b| {
      assert b[|b| - |a| - 1..] == all[|all| - |a| - 1..];
      SizeOfSuffix(b, |b| - |a| - 1);
    }
  }

  lemma {:induction false} EvictIsWindow<T>(all: seq<seq<T>>, cap: nat)
    ensures IsWindow(Evict(all, cap), all, cap)
  {
    if Size(all) > cap && |all| > 1 {
      EvictIsWindow(all[1..], cap);
      var kept := Evict(all, cap);
      if |kept| < |all| - 1 {
        assert all[1..][|all| - 1 - |kept| - 1..] == all[|all| - |kept| - 1..];
      } else {
        assert all[|all| - |kept| - 1..] == all;
      }
    } else {
      assert all[0..] == all;
    }
  }

  /** Evicting as chunks arrive keeps what evicting once at the end would. */
  lemma {:induction false} EvictAsYouGo<T>(all: seq<seq<T>>, chunk: seq<T>, cap: nat)
    ensures Evict(Evict(all, cap) + [chunk], cap) == Evict(all + [chunk], cap)
  {
    if Size(all) > cap && |all| > 1 {
      FlatAppend(all, chunk);
      assert (all + [chunk])[1..] == all[1..] + [chunk];
      EvictAsYouGo(all[1..], chunk, cap);
    }
  }

  /** The backlog after a run of writes with nothing attached. */
  function RememberAll<T>(writes: seq<seq<T>>): seq<seq<T>> {
    if writes == [] then [] else Remember(RememberAll(writes[..|writes| - 1]), writes[|writes| - 1])
  }

  lemma {:induction false} RememberAllEvictsOnce<T>(writes: seq<seq<T>>)
    ensures RememberAll(writes) == Evict(writes, MAX_BACKLOG_BYTES)
  {
    if writes != [] {
      var before, last := writes[..|writes| - 1], writes[|writes| - 1];
      RememberAllEvictsOnce(before);
      assert before + [last] == writes;
      EvictAsYouGo(before, last, MAX_BACKLOG_BYTES);
    }
  }

  /** However many writes arrive detached, the backlog is the one window of them. */
  lemma BacklogIsWindow<T>(writes: seq<seq<T>>)
    ensures IsWindow(RememberAll(writes), writes, MAX_BACKLOG_BYTES)
  {
    RememberAllEvictsOnce(writes);
    EvictIsWindow(writes, MAX_BACKLOG_BYTES);
  }

  /* ------------------------------ the agent's replay ---------------------------- */

  ghost predicate IsSuffix<T>(tail: seq<T>, all: seq<T>) {
    |tail| <= |all| && all[|all| - |tail|..] == tail
  }

  function BufferAll<T>(writes: seq<seq<T>>): seq<seq<T>> {
    if writes == [] then [] else Buffer(BufferAll(writes[..|writes| - 1]), writes[|writes| - 1])
  }

  lemma EvictedBytesAreASuffix<T>(chunks: seq<seq<T>>, cap: nat)
    ensures IsSuffix(Flat(Evict(chunks, cap)), Flat(chunks))
  {
    var kept := Evict(chunks, cap);
    var n := |chunks| - |kept|;
    assert chunks == chunks[..n] + kept;
    FlatConcat(chunks[..n], kept);
    SuffixOfConcat(Flat(chunks[..n]), Flat(kept));
  }

  lemma SuffixOfConcat<T>(a: seq<T>, b: seq<T>)
    ensures IsSuffix(b, a + b)
  {
  }

  lemma SuffixTransitive<T>(a: seq<T>, b: seq<T>, c: seq<T>)
    requires IsSuffix(a, b) && IsSuffix(b, c)
    ensures IsSuffix(a, c)
  {
    assert c[|c| - |b|..][|b| - |a|..] == c[|c| - |a|..];
  }

  lemma SuffixAppend<T>(a: seq<T>, b: seq<T>, more: seq<T>)
    requires IsSuffix(a, b)
    ensures IsSuffix(a + more, b + more)
  {
    var k := |b| - |a|;
    assert (b + more)[k..] == b[k..] + more;
  }

  /** One buffered write keeps the bound and the newest bytes. */
  lemma BufferStep<T>(replay: seq<seq<T>>, chunk: seq<T>)
    requires Size(replay) <= CHANNEL_REPLAY_BUFFER_BYTES
    ensures Size(Buffer(replay, chunk)) <= CHANNEL_REPLAY_BUFFER_BYTES
    ensures IsSuffix(Flat(Buffer(replay, chunk)), Flat(replay) + chunk)
  {
    var cap := CHANNEL_REPLAY_BUFFER_BYTES;
    var pushed := replay + [Piece(chunk)];
    var kept := Buffer(replay, chunk);
    FlatAppend(replay, Piece(chunk));
    EvictIsWindow(pushed, cap);
    EvictedBytesAreASuffix(pushed, cap);
    if |kept| == 1 {
      assert kept == [Piece(chunk)];
      assert Flat(kept) == Piece(chunk) + Flat<T>([]);
    }
    if |chunk| > cap {
      NewestIsLast(kept, pushed);
      OnlyThePiece(Flat(kept[..|kept| - 1]), Piece(chunk), cap);
      PieceIsSuffix(Flat(replay), chunk);
    }
  }

  /** A piece that fills the cap leaves no room for anything before it. */
  lemma OnlyThePiece<T>(front: seq<T>, piece: seq<T>, cap: nat)
    requires |front + piece| <= cap && |piece| == cap
    ensures front + piece == piece
  {
  }

  lemma PieceIsSuffix<T>(front: seq<T>, chunk: seq<T>)
    ensures IsSuffix(Piece(chunk), front + chunk)
  {
    SuffixOfConcat(chunk[..|chunk| - |Piece(chunk)|], Piece(chunk));
    assert chunk == chunk[..|chunk| - |Piece(chunk)|] + Piece(chunk);
    SuffixOfConcat(front, chunk);
    SuffixTransitive(Piece(chunk), chunk, front + chunk);
  }

  lemma NewestIsLast<T>(kept: seq<seq<T>>, pushed: seq<seq<T>>)
    requires pushed != [] && kept != [] && |kept| <= |pushed| && kept == pushed[|pushed| - |kept|..]
    ensures Flat(kept) == Flat(kept[..|kept| - 1]) + pushed[|pushed| - 1]
  {
    assert kept == kept[..|kept| - 1] + [pushed[|pushed| - 1]];
    FlatAppend(kept[..|kept| - 1], pushed[|pushed| - 1]);
  }

  /** However much a detached pty writes, the replay is its newest bytes and
      never more than the cap. */
  lemma {:induction false} ReplayIsSuffix<T>(writes: seq<seq<T>>)
    ensures IsSuffix(Flat(BufferAll(writes)), Flat(writes))
    ensures Size(BufferAll(writes)) <= CHANNEL_REPLAY_BUFFER_BYTES
  {
    if writes != [] {
      var before, last := writes[..|writes| - 1], writes[|writes| - 1];
      ReplayIsSuffix(before);
      BufferStep(BufferAll(before), last);
      assert before + [last] == writes;
      FlatAppend(before, last);
      SuffixAppend(Flat(BufferAll(before)), Flat(before), last);
      SuffixTransitive(Flat(BufferAll(writes)), Flat(BufferAll(before)) + last, Flat(writes));
    }
  }

  function Pieces<T>(writes: seq<seq<T>>): seq<seq<T>> {
    if writes == [] then [] else Pieces(writes[..|writes| - 1]) + [Piece(writes[|writes| - 1])]
  }

  lemma {:induction false} BufferAllEvictsOnce<T>(writes: seq<seq<T>>)
    ensures BufferAll(writes) == Evict(Pieces(writes), CHANNEL_REPLAY_BUFFER_BYTES)
  {
    if writes != [] {
      var before, last := writes[..|writes| - 1], writes[|writes| - 1];
      BufferAllEvictsOnce(before);
      EvictAsYouGo(Pieces(before), Piece(last), CHANNEL_REPLAY_BUFFER_BYTES);
    }
  }

  /** And nothing is dropped that would have fitted. */
  lemma ReplayIsWindow<T>(writes: seq<seq<T>>)
    ensures IsWindow(BufferAll(writes), Pieces(writes), CHANNEL_REPLAY_BUFFER_BYTES)
  {
    BufferAllEvictsOnce(writes);
    EvictIsWindow(Pieces(writes), CHANNEL_REPLAY_BUFFER_BYTES);
  }

  /* ------------------------------ when bytes are lost --------------------------- */

  /** Evicting loses bytes exactly when it has to, and there is an older one. */
  lemma {:induction false} EvictLosesIff<T>(chunks: seq<seq<T>>, chunk: seq<T>, cap: nat)
    ensures Size(Evict(chunks + [chunk], cap)) <= Size(chunks) + |chunk|
    ensures Size(Evict(chunks + [chunk], cap)) == Size(chunks) + |chunk| <==>
              Size(chunks) == 0 || Size(chunks) + |chunk| <= cap
    decreases |chunks|
  {
    FlatAppend(chunks, chunk);
    if Size(chunks) + |chunk| > cap && |chunks| > 0 {
      assert (chunks + [chunk])[1..] == chunks[1..] + [chunk];
      EvictLosesIff(chunks[1..], chunk, cap);
    }
  }

  lemma BufferLosesIff<T>(replay: seq<seq<T>>, chunk: seq<T>)
    requires Size(replay) <= CHANNEL_REPLAY_BUFFER_BYTES
    ensures Size(Buffer(replay, chunk)) == Size(replay) + |chunk| <==>
            chunk == [] || Size(replay) + |chunk| <= CHANNEL_REPLAY_BUFFER_BYTES
  {
    EvictLosesIff(replay, Piece(chunk), CHANNEL_REPLAY_BUFFER_BYTES);
  }
}
