/**
 The ring buffer between a codec and its reader (src/libgrace/ringbuffer.cpp): as a value, and
 as an array with two cursors.
 */
module Rings {
  type Byte = bv8

  /** cap is the size of the buffer, held what is between the cursors. The last line only
      records what happened: the bytes that were read, and those overwritten unread. */
  datatype Ring = Ring(
    cap: nat, held: seq<Byte>,
    read: seq<Byte>, lost: seq<Byte>)

  /** What room keeps free. */
  const MARGIN := 256

  /** The cursors are equal when nothing is held, so that a full buffer cannot be told from an
      empty one. */
  predicate Sound(r: Ring) {
    r.cap >= MARGIN && |r.held| < r.cap
  }

  function Empty(cap: nat): Ring {
    Ring(cap, [], [], [])
  }

  function Room(r: Ring): (n: nat)
    requires Sound(r)
    ensures n + MARGIN <= r.cap && (n > 0 ==> |r.held| + n + MARGIN <= r.cap)
  {
    if r.cap - |r.held| < MARGIN then 0 else r.cap - |r.held| - MARGIN
  }

  /** The write cursor comes round to the read cursor, or passes it. */
  predicate Spills(r: Ring, data: seq<Byte>) {
    |r.held| + |data| >= r.cap
  }

  /** add, which throws when there are more bytes than the buffer is long. A write cursor that
      comes round makes a whole buffer's worth of unread bytes disappear. */
  function Added(r: Ring, data: seq<Byte>): (t: Ring)
    requires Sound(r) && |data| <= r.cap
    ensures Sound(t)
  {
    var all := r.held + data;
    if Spills(r, data) then r.(held := all[r.cap..], lost := r.lost + all[..r.cap]) else r.(held := all)
  }

  function Taken(r: Ring, n: nat): (t: Ring)
    requires Sound(r)
    ensures Sound(t)
  {
    var k := if n < |r.held| then n else |r.held|;
    r.(held := r.held[k..], read := r.read + r.held[..k])
  }

  /** Every byte that was ever added is read, held or lost, once; while nothing is lost they
      are read in the order they were added. */
  ghost predicate Keeps(r: Ring, added: seq<Byte>) {
    && multiset(r.read) + multiset(r.held) + multiset(r.lost) == multiset(added)
    && (r.lost == [] ==> r.read + r.held == added)
  }

  lemma AddedKeeps(r: Ring, added: seq<Byte>, data: seq<Byte>)
    requires Sound(r) && |data| <= r.cap && Keeps(r, added)
    ensures Keeps(Added(r, data), added + data)
    ensures Added(r, data).lost == [] <==> r.lost == [] && |r.held| + |data| < r.cap
    ensures |Added(r, data).held| == if |r.held| + |data| < r.cap then |r.held| + |data| else |r.held| + |data| - r.cap
  {
    var all := r.held + data;
    assert r.read + all == (r.read + r.held) + data;
    assert multiset(all) == multiset(r.held) + multiset(data);
    assert multiset(added + data) == multiset(added) + multiset(data);
    if Spills(r, data) {
      var front, rest := all[..r.cap], all[r.cap..];
      assert all == front + rest;
      assert multiset(front + rest) == multiset(front) + multiset(rest);
      assert multiset(r.lost + front) == multiset(r.lost) + multiset(front);
      Regroup(multiset(r.read), multiset(r.held), multiset(r.lost), multiset(data), multiset(front), multiset(rest));
    }
  }

  lemma Regroup<T>(read: multiset<T>, held: multiset<T>, lost: multiset<T>, data: multiset<T>, front: multiset<T>, rest: multiset<T>)
    requires front + rest == held + data
    ensures read + rest + (lost + front) == (read + held + lost) + data
  {
    assert read + rest + (lost + front) == read + lost + (front + rest);
    assert (read + held + lost) + data == read + lost + (held + data);
  }

  lemma TakenKeeps(r: Ring, added: seq<Byte>, n: nat)
    requires Sound(r) && Keeps(r, added)
    ensures Keeps(Taken(r, n), added) && Taken(r, n).lost == r.lost
    ensures |Taken(r, n).read| == |r.read| + if n < |r.held| then n else |r.held|
    ensures Taken(r, n).read + Taken(r, n).held == r.read + r.held && |Taken(r, n).held| <= |r.held|
  {
    var k := if n < |r.held| then n else |r.held|;
    assert r.held == r.held[..k] + r.held[k..];
    assert (r.read + r.held[..k]) + r.held[k..] == r.read + r.held;
  }

  /** room is what is free but for the margin; what fits in it never spills. */
  lemma RoomIsSafe(r: Ring, data: seq<Byte>)
    requires Sound(r)
    ensures |data| <= Room(r) ==> |data| <= r.cap && |r.held| + |data| < r.cap && !Spills(r, data)
    ensures |r.held| + 256 <= r.cap ==> |r.held| + Room(r) + 256 == r.cap
    ensures |r.held| + 256 > r.cap ==> Room(r) == 0
  {
  }
}

/** The buffer in memory. */
module RingBuffers {
  import opened Rings

  /** A cursor that may have come round once. */
  function Wrapped(x: nat, cap: nat): nat {
    if x < cap then x else x - cap
  }

  lemma WrapsOnce(x: nat, cap: nat)
    requires x < 2 * cap
    ensures x % cap == Wrapped(x, cap)
  {
    var q := x / cap;
    TwiceOrMore(cap, q);
    if q == 1 { assert cap * q == cap; }
  }

  lemma TwiceOrMore(c: nat, q: nat)
    ensures q >= 2 ==> c * q >= c * 2
  {
  }

  /** What is between the cursors. */
  function Unrolled(cells: seq<Byte>, rc: nat, wc: nat): (s: seq<Byte>)
    requires rc < |cells| && wc < |cells|
    ensures |s| == Wrapped(wc + |cells| - rc, |cells|)
    ensures forall i :: 0 <= i < |s| ==> s[i] == cells[Wrapped(rc + i, |cells|)]
  {
    seq(Wrapped(wc + |cells| - rc, |cells|), i requires 0 <= i < |cells| => cells[Wrapped(rc + i, |cells|)])
  }

  /** The cells with data in place of those from at on. */
  function Over(cells: seq<Byte>, at: nat, data: seq<Byte>): (s: seq<Byte>)
    requires at + |data| <= |cells|
    ensures |s| == |cells|
  {
    cells[..at] + data + cells[at + |data|..]
  }

  /** The cells after data was written from wc on, the part that goes over the end at the
      beginning. */
  ghost predicate IsWritten(cells: seq<Byte>, wc: nat, data: seq<Byte>, after: seq<Byte>) {
    && wc < |cells| == |after| && |data| <= |cells|
    && (forall k :: 0 <= k < |data| ==> after[Wrapped(wc + k, |cells|)] == data[k])
    && (forall j :: 0 <= j < |cells| && !(wc <= j < wc + |data| || j + |cells| < wc + |data|) ==> after[j] == cells[j])
  }

  lemma WrittenInPieces(cells: seq<Byte>, wc: nat, data: seq<Byte>)
    requires wc < |cells| && |data| <= |cells|
    ensures var toend := |cells| - wc;
      if |data| > toend then IsWritten(cells, wc, data, Over(Over(cells, wc, data[..toend]), 0, data[toend..]))
      else IsWritten(cells, wc, data, Over(cells, wc, data))
  {
  }

  /** What read copies from the cells, in one part or two. */
  function Copied(cells: seq<Byte>, rc: nat, n: nat): (s: seq<Byte>)
    requires rc < |cells| && n <= |cells|
    ensures |s| == n && forall i :: 0 <= i < n ==> s[i] == cells[Wrapped(rc + i, |cells|)]
  {
    var toend := |cells| - rc;
    if n > toend then cells[rc..] + cells[..n - toend] else cells[rc..rc + n]
  }

  lemma CopiedIsTaken(cells: seq<Byte>, rc: nat, wc: nat, n: nat)
    requires rc < |cells| && wc < |cells| && n <= |Unrolled(cells, rc, wc)|
    ensures n <= |cells| && Copied(cells, rc, n) == Unrolled(cells, rc, wc)[..n]
  {
    var all := Unrolled(cells, rc, wc);
    forall i | 0 <= i < n ensures Copied(cells, rc, n)[i] == all[..n][i] {
      assert all[i] == cells[Wrapped(rc + i, |cells|)];
    }
  }

  lemma RestIsLeft(cells: seq<Byte>, rc: nat, wc: nat, n: nat)
    requires rc < |cells| && wc < |cells| && n <= |Unrolled(cells, rc, wc)|
    ensures Wrapped(rc + n, |cells|) < |cells|
    ensures Unrolled(cells, Wrapped(rc + n, |cells|), wc) == Unrolled(cells, rc, wc)[n..]
  {
    var all, rest := Unrolled(cells, rc, wc), Unrolled(cells, Wrapped(rc + n, |cells|), wc);
    assert |rest| == |all| - n;
    forall i | 0 <= i < |rest| ensures rest[i] == all[n..][i] {
      assert all[n + i] == cells[Wrapped(rc + (n + i), |cells|)];
    }
  }

  /** A byte that was added, in its place between the cursors. */
  lemma AddedAt(cells: seq<Byte>, rc: nat, wc: nat, data: seq<Byte>, after: seq<Byte>, i: nat)
    requires rc < |cells| && IsWritten(cells, wc, data, after)
    ensures var all := Unrolled(cells, rc, wc) + data;
      && (i < |all| < |cells| ==> after[Wrapped(rc + i, |cells|)] == all[i])
      && (|cells| + i < |all| ==> i < |cells| && after[Wrapped(rc + i, |cells|)] == all[|cells| + i])
  {
    var cap, held := |cells|, Unrolled(cells, rc, wc);
    var b := |held|;
    if b <= i < b + |data| < cap { assert Wrapped(rc + i, cap) == Wrapped(wc + (i - b), cap); }
    if cap + i < b + |data| { assert Wrapped(rc + i, cap) == Wrapped(wc + (cap + i - b), cap); }
  }

  lemma WrittenIsAdded(cells: seq<Byte>, rc: nat, wc: nat, data: seq<Byte>, after: seq<Byte>)
    requires rc < |cells| && IsWritten(cells, wc, data, after)
    ensures var all := Unrolled(cells, rc, wc) + data;
      Unrolled(after, rc, Wrapped(wc + |data|, |cells|)) == if |all| < |cells| then all else all[|cells|..]
  {
    var all, now := Unrolled(cells, rc, wc) + data, Unrolled(after, rc, Wrapped(wc + |data|, |cells|));
    var due := if |all| < |cells| then all else all[|cells|..];
    forall i | 0 <= i < |now| ensures i < |due| && now[i] == due[i] {
      AddedAt(cells, rc, wc, data, after, i);
    }
  }

  class RingBuffer {
    const buffer: array<Byte>
    var readcursor: nat
    var writecursor: nat
    ghost var read: seq<Byte>
    ghost var lost: seq<Byte>

    ghost predicate Valid()
      reads this
    {
      buffer.Length >= MARGIN && readcursor < buffer.Length && writecursor < buffer.Length
    }

    ghost function Value(): (r: Ring)
      requires Valid()
      reads this, buffer
      ensures Sound(r)
    {
      Ring(buffer.Length, Unrolled(buffer[..], readcursor, writecursor), read, lost)
    }

    constructor (size: nat)
      requires size >= MARGIN
      ensures Valid() && Value() == Empty(size) && fresh(buffer)
    {
      buffer := new Byte[size];
      readcursor, writecursor, read, lost := 0, 0, [], [];
    }

    method Backlog() returns (n: nat)
      requires Valid()
      ensures n == |Value().held|
    {
      WrapsOnce(writecursor + buffer.Length - readcursor, buffer.Length);
      n := (writecursor + buffer.Length - readcursor) % buffer.Length;
    }

    method Room() returns (n: nat)
      requires Valid()
      ensures n == Rings.Room(Value())
    {
      if readcursor == writecursor { return buffer.Length - 256; }
      WrapsOnce(readcursor + buffer.Length - writecursor, buffer.Length);
      var res := (readcursor + buffer.Length - writecursor) % buffer.Length;
      if res < 256 { return 0; }
      WrapsOnce(res - 256, buffer.Length);
      n := (res - 256) % buffer.Length;
    }

    /** memmove of data to the cells from at on. */
    method Put(at: nat, data: seq<Byte>)
      requires at + |data| <= buffer.Length
      modifies buffer
      ensures buffer[..] == Over(old(buffer[..]), at, data)
    {
      var i := 0;
      while i < |data|
        invariant i <= |data| && buffer[..at] == old(buffer[..at]) && buffer[at..at + i] == data[..i]
        invariant buffer[at + |data|..] == old(buffer[at + |data|..])
      {
        buffer[at + i] := data[i];
        i := i + 1;
      }
      assert buffer[..] == buffer[..at] + buffer[at..at + |data|] + buffer[at + |data|..];
    }

    /** The memmoves of add. */
    method Spread(data: seq<Byte>)
      requires Valid() && |data| <= buffer.Length
      modifies buffer
      ensures IsWritten(old(buffer[..]), writecursor, data, buffer[..])
    {
      hide IsWritten;
      WrittenInPieces(buffer[..], writecursor, data);
      var toend := buffer.Length - writecursor;
      if |data| > toend {
        Put(writecursor, data[..toend]);
        Put(0, data[toend..]);
      } else {
        Put(writecursor, data);
      }
    }

    /** False stands for bufferOverflowException. */
    method Add(data: seq<Byte>) returns (ok: bool)
      requires Valid()
      modifies this`writecursor, this`lost, buffer
      ensures Valid() && ok == (|data| <= buffer.Length)
      ensures Value() == if ok then Added(old(Value()), data) else old(Value())
    {
      if |data| > buffer.Length { return false; }
      hide IsWritten;
      ghost var r, cells := Value(), buffer[..];
      Spread(data);
      WrittenIsAdded(cells, readcursor, writecursor, data, buffer[..]);
      WrapsOnce(writecursor + |data|, buffer.Length);
      writecursor := (writecursor + |data|) % buffer.Length;
      lost := Added(r, data).lost;
      ok := true;
    }

    method Read(sz: nat) returns (res: seq<Byte>)
      requires Valid()
      modifies this`readcursor, this`read
      ensures Valid() && Value() == Rings.Taken(old(Value()), sz) && read == old(read) + res
    {
      ghost var r, cells := Value(), buffer[..];
      var rsz := if sz > buffer.Length then buffer.Length else sz;
      var toend := buffer.Length - readcursor;
      var backlog := Backlog();
      if rsz > backlog { rsz := backlog; }
      CopiedIsTaken(cells, readcursor, writecursor, rsz);
      RestIsLeft(cells, readcursor, writecursor, rsz);
      hide Unrolled;
      if rsz > toend {
        res := buffer[readcursor..] + buffer[..rsz - toend];
      } else {
        res := buffer[readcursor..readcursor + rsz];
      }
      assert res == Copied(cells, readcursor, rsz);
      WrapsOnce(readcursor + rsz, buffer.Length);
      readcursor := (readcursor + rsz) % buffer.Length;
      read := read + res;
    }
  }
}
