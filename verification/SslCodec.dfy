/**
 The buffer windows of src/libgrace-ssl/sslsocket.cpp and the fall back to plain text. The
 decoder is whatever a list of answers says.
 */
module Windows {
  import opened Rings

  lemma JoinedSlices(b: seq<Byte>, start: nat, n: nat, m: nat)
    requires start + n + m <= |b|
    ensures b[start..start + n + m] == b[start..start + n] + b[start + n..][..m]
  {
  }

  /** A buffer of which the bytes from start to end are in use. */
  class Window {
    var buf: array<Byte>
    var start: nat
    var end: nat

    ghost predicate Valid()
      reads this
    {
      start <= end <= buf.Length
    }

    /** What is in use, and that with what was used before it. */
    ghost function Pending(): seq<Byte>
      requires Valid()
      reads this, buf
    {
      buf[start..end]
    }

    ghost function Raw(): seq<Byte>
      requires Valid()
      reads this, buf
    {
      buf[..end]
    }

    constructor (size: nat)
      ensures Valid() && fresh(buf) && buf.Length == size && start == end == 0
    {
      buf, start, end := new Byte[size], 0, 0;
    }

    method Rewind()
      modifies this`start, this`end
      ensures Valid() && start == end == 0
    {
      start, end := 0, 0;
    }

    method Advance(n: nat)
      requires Valid() && start + n <= end
      modifies this`start
      ensures Valid() && Pending() == old(Pending())[n..] && Raw() == old(Raw())
    {
      start := start + n;
    }

    method Append(data: seq<Byte>)
      requires Valid() && end + |data| <= buf.Length
      modifies this`end, buf
      ensures Valid() && Pending() == old(Pending()) + data && Raw() == old(Raw()) + data
    {
      var i := 0;
      while i < |data|
        invariant end == old(end) && i <= |data| && buf[..end] == old(buf[..end]) && buf[end..end + i] == data[..i]
      {
        buf[end + i] := data[i];
        i := i + 1;
      }
      assert buf[end..end + |data|] == data;
      assert buf[..end + |data|] == buf[..end] + buf[end..end + |data|];
      assert buf[..end + |data|][start..] == buf[start..end + |data|] && buf[..end][start..] == buf[start..end];
      end := end + |data|;
    }

    /** What is in use moves to the front of the buffer. */
    method Compact()
      requires Valid()
      modifies this`start, this`end, buf
      ensures Valid() && Pending() == old(Pending()) && start == 0
    {
      var n := end - start;
      var i := 0;
      while i < n
        invariant start == old(start) && end == old(end)
        invariant i <= n && forall k :: 0 <= k < i ==> buf[k] == old(buf[start + k])
        invariant forall k :: start + i <= k < buf.Length ==> buf[k] == old(buf[k])
      {
        buf[i] := buf[start + i];
        i := i + 1;
      }
      start, end := 0, n;
    }

    /** realloc to twice the size */
    method Grow()
      requires Valid()
      modifies this`buf
      ensures Valid() && fresh(buf) && buf.Length == 2 * old(buf.Length) && Pending() == old(Pending()) && Raw() == old(Raw())
    {
      var bigger := new Byte[2 * buf.Length];
      var i := 0;
      while i < end
        invariant end == old(end) && buf == old(buf) && i <= end && bigger[..i] == buf[..i]
      {
        bigger[i] := buf[i];
        i := i + 1;
      }
      assert bigger[..end] == buf[..end];
      assert bigger[..end][start..] == bigger[start..end] && buf[..end][start..] == buf[start..end];
      buf := bigger;
    }

    /** All but the first n bytes move to the front; the window is not made shorter. */
    method Squeeze(n: nat)
      requires Valid() && start == 0 && n <= end
      modifies buf
      ensures Valid() && Pending() == old(Pending())[n..] + old(Pending())[end - n..]
    {
      var i := 0;
      while i < end - n
        invariant i <= end - n && forall k :: 0 <= k < i ==> buf[k] == old(buf[n + k])
        invariant forall k :: i <= k < buf.Length ==> buf[k] == old(buf[k])
      {
        buf[i] := buf[n + i];
        i := i + 1;
      }
      assert buf[start..end] == buf[..end - n] + buf[end - n..end];
      assert buf[..end - n] == old(buf[start..end])[n..];
      assert buf[end - n..end] == old(buf[start..end])[end - n..];
    }

    /** What is in use moves up by n bytes. */
    method MoveUp(n: nat)
      requires Valid() && end + n <= buf.Length
      modifies buf
      ensures buf[start + n..][..end - start] == old(buf[start..end])
    {
      var i := end;
      while i > start
        invariant start <= i <= end && forall k :: i <= k < end ==> buf[n + k] == old(buf[k])
        invariant forall k :: start <= k < i ==> buf[k] == old(buf[k])
      {
        i := i - 1;
        buf[n + i] := buf[i];
      }
      forall k | 0 <= k < end - start
        ensures buf[start + n..][..end - start][k] == old(buf[start..end])[k]
      {
        assert buf[n + (start + k)] == old(buf[start + k]);
      }
    }

    /** data overwrites what is from start on. */
    method PutAtStart(data: seq<Byte>)
      requires start + |data| <= buf.Length
      modifies buf
      ensures buf[start..start + |data|] == data && buf[start + |data|..] == old(buf[start + |data|..])
    {
      var i := 0;
      while i < |data|
        invariant i <= |data| && buf[start..start + i] == data[..i]
        invariant buf[start + |data|..] == old(buf[start + |data|..])
      {
        buf[start + i] := data[i];
        i := i + 1;
      }
    }

    /** data is put before what is in use. */
    method Prepend(data: seq<Byte>)
      requires Valid() && end + |data| <= buf.Length
      modifies this`end, buf
      ensures Valid() && Pending() == data + old(Pending())
    {
      MoveUp(|data|);
      PutAtStart(data);
      JoinedSlices(buf[..], start, |data|, end - start);
      end := end + |data|;
    }

    /** What is in use moves to the front, and then the buffer is made larger once, if need be
        and while it is smaller than max. */
    method MakeRoom(n: nat, max: nat) returns (ok: bool)
      requires Valid()
      modifies this, buf
      ensures Valid() && start == 0 && Raw() == Pending() == old(Pending()) && (fresh(buf) || buf == old(buf))
      ensures ok == (|Pending()| + n <= old(buf.Length) || old(buf.Length) < max)
      ensures buf.Length == if |Pending()| + n > old(buf.Length) && ok then 2 * old(buf.Length) else old(buf.Length)
    {
      if start == end { Rewind(); } else { Compact(); }
      if end + n > buf.Length {
        if buf.Length >= max { return false; }
        Grow();
      }
      ok := true;
    }
  }
}

/** The codec as a value: what every method does to it. */
module Passthrough {
  import opened Wrappers
  import opened Rings

  datatype Rc = Success | Partial | ProcessData | SendResponse | Error | Alert(closeNotify: bool) | Full

  /** One call of the decoder: how much of the input it uses up, what it puts in the other
      buffer, and whether the handshake is complete after it. */
  datatype Answer = Answer(rc: Rc, used: nat, made: seq<Byte>, complete: bool)

  datatype Outcome = Returned(b: bool) | Thrown

  const BUFFER := 16384
  const BUFFER_MAX := 262144

  /** raw are the bytes of insock up to its end, of which start are used; plain is what is in
      inbuf, out what is in outsock from outstart on. The last line only records what happened:
      the input accepted, what was added to the ring buffer in all and before the fall back to
      plain text, and the output given in plain text and taken. */
  datatype Codec = Codec(
    server: bool, handshakedone: bool, allow: bool, pass: bool,
    raw: seq<Byte>, start: nat, insize: nat,
    plain: seq<Byte>, plainsize: nat,
    outstart: nat, out: seq<Byte>, outsize: nat,
    accepted: seq<Byte>, delivered: seq<Byte>, early: seq<Byte>, given: seq<Byte>, taken: seq<Byte>)

  /** setup: a client starts with its hello, and counts as having shaken hands. */
  function Setup(server: bool, hello: seq<Byte>): Codec {
    Codec(server, !server, true, false, [], 0, BUFFER, [], BUFFER, 0, if server then [] else hello, BUFFER, [], [], [], [], [])
  }

  function Left(s: Codec): seq<Byte>
    requires s.start <= |s.raw|
  {
    s.raw[s.start..]
  }

  predicate Fits(s: Codec) {
    s.start <= |s.raw| <= s.insize && |s.plain| <= s.plainsize && s.outstart + |s.out| <= s.outsize
  }

  /** The input fits after at most one doubling of the buffer, or is refused. */
  predicate Accepts(s: Codec, data: seq<Byte>)
    requires Fits(s)
  {
    |Left(s)| + |data| <= 2 * s.insize || s.insize >= BUFFER_MAX
  }

  function Appended(s: Codec, data: seq<Byte>): Codec {
    s.(raw := s.raw + data, accepted := s.accepted + data)
  }

  /** Input that does not fit: the part in use moves to the front, over bytes that could have
      been handed over. */
  function Shifted(s: Codec, n: nat): (r: (Codec, bool))
    requires Fits(s)
    ensures Fits(r.0)
  {
    var t := s.(allow := false, raw := Left(s), start := 0);
    if |t.raw| + n <= t.insize then (t, true)
    else if t.insize < BUFFER_MAX then (t.(insize := 2 * t.insize), true)
    else (t, false)
  }

  function AddInput(s: Codec, data: seq<Byte>): (r: (Codec, bool))
    requires Fits(s) && Accepts(s, data)
    ensures Fits(r.0)
  {
    if |s.raw| + |data| <= s.insize then (Appended(s, data), true)
    else
      var (t, ok) := Shifted(s, |data|);
      if ok then (Appended(t, data), true) else (t, false)
  }

  function Used(s: Codec, n: nat): Codec {
    s.(start := if s.start + n <= |s.raw| then s.start + n else |s.raw|)
  }

  /** The call of the decoder; what it makes must fit. */
  function Decoded(s: Codec, a: Answer): (r: (Codec, Rc))
    requires Fits(s)
    ensures Fits(r.0)
  {
    var t := Used(s, a.used);
    if |s.plain| + |a.made| > s.plainsize then (t, Full) else (t.(plain := s.plain + a.made), a.rc)
  }

  function Greeted(s: Codec, a: Answer): Codec {
    if s.server && !s.handshakedone && a.complete then s.(handshakedone := true) else s
  }

  /** Too little room: the window keeps its length, so that its last bytes are in it again. */
  function Squeezed(s: Codec, room: nat): Codec
    requires room < |s.plain|
  {
    s.(delivered := s.delivered + s.plain[..room], plain := s.plain[room..] + s.plain[|s.plain| - room..])
  }

  function Delivered(s: Codec): Codec {
    if s.plain == [] then s else s.(delivered := s.delivered + s.plain, plain := [], allow := false)
  }

  /** SSL_ERROR on the first bytes: all that was received so far is plain text. */
  function FallenBack(s: Codec): Codec {
    s.(early := s.delivered, delivered := s.delivered + s.raw, raw := [], start := 0, pass := true)
  }

  function PassedOn(s: Codec): Codec
    requires Fits(s)
  {
    s.(delivered := s.delivered + Left(s), raw := [], start := 0)
  }

  function Responded(s: Codec): Codec {
    s.(allow := false, out := s.plain + s.out, plain := [])
  }

  /** Whether to go on after the answer a, and else with what outcome; into is the ring buffer. */
  datatype Turn = Again(s: Codec, into: Ring) | Stop(s: Codec, into: Ring, o: Outcome)

  function Process(s: Codec, into: Ring, a: Answer): (t: Turn)
    requires Fits(s) && Sound(into)
    ensures Fits(t.s) && Sound(t.into)
  {
    var room := Room(into);
    if room < |s.plain| then Stop(Squeezed(s, room), Added(into, s.plain[..room]), Returned(false))
    else
      var t := Delivered(Greeted(s, a));
      if t.start < |t.raw| then Again(t, Added(into, s.plain)) else Stop(t, Added(into, s.plain), Returned(false))
  }

  /** SSL_SEND_RESPONSE, SSL_ERROR and SSL_FULL */
  function Respond(s: Codec, into: Ring, a: Answer): (t: Turn)
    requires Fits(s) && Sound(into)
    ensures Fits(t.s) && Sound(t.into)
  {
    if s.outsize - (s.outstart + |s.out|) < |s.plain| then Stop(s, into, Thrown)
    else Stop(Responded(Greeted(s, a)), into, Returned(true))
  }

  /** More bytes than the ring buffer is long make its add throw. */
  function Fail(s: Codec, into: Ring): (t: Turn)
    requires Fits(s) && Sound(into)
    ensures Fits(t.s) && Sound(t.into)
  {
    if !s.allow || s.handshakedone then Stop(s.(plain := []), into, Thrown)
    else if |s.raw| > into.cap then Stop(s, into, Thrown)
    else Stop(FallenBack(s), Added(into, s.raw), Returned(false))
  }

  function Enlarge(s: Codec, into: Ring): (t: Turn)
    requires Fits(s) && Sound(into)
    ensures Fits(t.s) && Sound(t.into)
  {
    if s.plainsize < BUFFER_MAX then Again(s.(plainsize := 2 * s.plainsize), into) else Stop(s, into, Thrown)
  }

  /** The switch over what the decoder returned. */
  function Act(s: Codec, into: Ring, rc: Rc, a: Answer): (t: Turn)
    requires Fits(s) && Sound(into)
    ensures Fits(t.s) && Sound(t.into)
  {
    match rc
    case Success => if s.start < |s.raw| then Again(s, into) else Stop(s, into, Returned(false))
    case Partial =>
      if s.plain == [] then Stop(Greeted(s, a), into, Returned(into.held == [])) else Process(Greeted(s, a), into, a)
    case ProcessData => Process(s, into, a)
    case SendResponse => Respond(s, into, a)
    case Error => Fail(s, into)
    case Alert(closeNotify) => Stop(s.(plain := []), into, if closeNotify then Returned(false) else Thrown)
    case Full => Enlarge(s, into)
  }

  function Handle(s: Codec, into: Ring, a: Answer): (t: Turn)
    requires Fits(s) && Sound(into)
    ensures Fits(t.s) && Sound(t.into)
  {
    var (d, rc) := Decoded(s, a);
    Act(d, into, rc, a)
  }

  /** fetchinput */
  function FetchFrom(s: Codec, into: Ring, answers: seq<Answer>): (t: Turn)
    requires Fits(s) && Sound(into)
    ensures t.Stop? && Fits(t.s) && Sound(t.into)
    decreases |answers|
  {
    if answers == [] then Stop(s, into, Returned(false))
    else
      var turn := Handle(s, into, answers[0]);
      if turn.Stop? then turn else FetchFrom(turn.s, turn.into, answers[1..])
  }

  function Fetch(s: Codec, into: Ring, answers: seq<Answer>): (t: Turn)
    requires Fits(s) && Sound(into)
    ensures t.Stop? && Fits(t.s) && Sound(t.into)
  {
    if !s.pass then FetchFrom(s, into, answers)
    else if |Left(s)| > into.cap then Stop(s, into, Thrown)
    else Stop(PassedOn(s), Added(into, Left(s)), Returned(false))
  }

  /** What the encoder makes of an output; None when it fails. */
  function AddOutput(s: Codec, data: seq<Byte>, coded: Option<seq<Byte>>): (r: (Codec, Outcome))
    requires Fits(s)
    ensures Fits(r.0)
  {
    var t := s.(outstart := 0);
    if s.pass then
      if |t.out| + |data| > t.outsize then (t, Thrown)
      else (t.(out := t.out + data, given := t.given + data), Returned(true))
    else if !s.handshakedone then (t, Thrown)
    else if coded == None then (t, Returned(false))
    else if |t.out| + |coded.value| > t.outsize then (t, Thrown)
    else (t.(out := t.out + coded.value), Returned(true))
  }

  function DoneOutput(s: Codec, n: nat): (r: (Codec, Outcome))
    requires Fits(s)
    ensures Fits(r.0)
  {
    if n > |s.out| then (s, Thrown)
    else
      (s.(outstart := if n == |s.out| then 0 else s.outstart + n, out := s.out[n..], taken := s.taken + s.out[..n]), Returned(true))
  }

  /** The codec, and the ring buffer it fetches into. */
  datatype Link = Link(s: Codec, into: Ring)

  function Start(server: bool, hello: seq<Byte>, size: nat): Link {
    Link(Setup(server, hello), Empty(size))
  }

  predicate Fit(l: Link) {
    Fits(l.s) && Sound(l.into)
  }

  datatype Op =
    | Input(data: seq<Byte>)
    | Fetching(answers: seq<Answer>)
    | Output(data: seq<Byte>, coded: Option<seq<Byte>>)
    | Done(n: nat)
    | Reading(n: nat)

  predicate Can(l: Link, op: Op)
    requires Fit(l)
  {
    op.Input? ==> Accepts(l.s, op.data)
  }

  function Do(l: Link, op: Op): (m: Link)
    requires Fit(l) && Can(l, op)
    ensures Fit(m)
  {
    match op
    case Input(data) => l.(s := AddInput(l.s, data).0)
    case Fetching(answers) =>
      var t := Fetch(l.s, l.into, answers);
      Link(t.s, t.into)
    case Output(data, coded) => l.(s := AddOutput(l.s, data, coded).0)
    case Done(n) => l.(s := DoneOutput(l.s, n).0)
    case Reading(n) => l.(into := Taken(l.into, n))
  }

  /** While falling back is possible all the input is there to be handed over, and once it was
      done nothing is lost or doubled, in either direction. */
  ghost predicate Good(s: Codec) {
    && Fits(s)
    && (!s.server ==> s.handshakedone && !s.pass)
    && (s.allow && !s.pass ==> s.raw == s.accepted)
    && (s.allow && !s.pass && !s.handshakedone ==> s.out == s.given == s.taken == [])
    && (s.pass ==> s.early <= s.delivered && s.delivered[|s.early|..] + Left(s) == s.accepted && s.taken + s.out == s.given)
  }

  lemma InputKeepsGood(s: Codec, data: seq<Byte>)
    requires Good(s) && Accepts(s, data)
    ensures Good(AddInput(s, data).0)
  {
    if s.pass {
      assert s.delivered[|s.early|..] + (Left(s) + data) == s.accepted + data;
      assert (s.raw + data)[s.start..] == Left(s) + data;
    }
  }

  lemma DecodingKeepsGood(s: Codec, a: Answer)
    requires Good(s) && !s.pass
    ensures Fits(s) && Good(Decoded(s, a).0) && !Decoded(s, a).0.pass
    ensures Decoded(s, a).0.delivered == s.delivered
  {
  }

  lemma SmallChangesKeepGood(s: Codec)
    requires Good(s)
    ensures Fits(s) && Good(s.(plain := [])) && Good(s.(plainsize := 2 * s.plainsize))
  {
  }

  /** The ring buffer has what was delivered, but for what it lost. */
  ghost predicate Linked(s: Codec, into: Ring) {
    Good(s) && Sound(into) && Keeps(into, s.delivered)
  }

  lemma ProcessKeepsGood(s: Codec, into: Ring, a: Answer)
    requires Linked(s, into) && !s.pass
    ensures var t := Process(s, into, a);
      Linked(t.s, t.into) && !t.s.pass && (t.into.lost == [] <==> into.lost == [])
  {
    hide Keeps;
    var data := if Room(into) < |s.plain| then s.plain[..Room(into)] else s.plain;
    RoomIsSafe(into, data);
    AddedKeeps(into, s.delivered, data);
    assert s.delivered + [] == s.delivered;
  }

  lemma FailKeepsGood(s: Codec, into: Ring)
    requires Linked(s, into) && !s.pass
    ensures var t := Fail(s, into);
      && Linked(t.s, t.into) && t.Stop?
      && (t.into.lost == [] <==> into.lost == [] && !(FallsBack(s, into) && Spills(into, s.raw)))
  {
    hide Keeps;
    if FallsBack(s, into) {
      AddedKeeps(into, s.delivered, s.raw);
      assert FallenBack(s).delivered[|s.delivered|..] == s.accepted;
    }
  }

  /** An error makes the codec fall back. */
  predicate FallsBack(s: Codec, into: Ring) {
    s.allow && !s.handshakedone && |s.raw| <= into.cap
  }

  lemma RespondKeepsGood(s: Codec, into: Ring, a: Answer)
    requires Linked(s, into) && !s.pass
    ensures var t := Respond(s, into, a); Linked(t.s, t.into) && t.Stop? && t.into == into
  {
  }

  lemma GreetingKeepsGood(s: Codec, a: Answer)
    requires Good(s) && !s.pass
    ensures Good(Greeted(s, a)) && !Greeted(s, a).pass
    ensures Greeted(s, a).delivered == s.delivered
  {
  }

  /** The answer makes the codec fall back, and all that was received reaches the read cursor
      of the ring buffer. */
  predicate TurnSpills(s: Codec, into: Ring, a: Answer)
    requires Fits(s)
  {
    var (d, rc) := Decoded(s, a);
    rc == Error && FallsBack(d, into) && Spills(into, d.raw)
  }

  lemma HandleKeepsGood(s: Codec, into: Ring, a: Answer)
    requires Linked(s, into) && !s.pass
    ensures var t := Handle(s, into, a);
      && Linked(t.s, t.into) && (t.Again? ==> !t.s.pass)
      && (t.into.lost == [] <==> into.lost == [] && !TurnSpills(s, into, a))
  {
    hide Greeted, Decoded, Process, Fail, Respond, Keeps, FallsBack, Spills, Good;
    DecodingKeepsGood(s, a);
    var (d, rc) := Decoded(s, a);
    GreetingKeepsGood(d, a);
    SmallChangesKeepGood(d);
    match rc
    case Success =>
    case Partial => ProcessKeepsGood(Greeted(d, a), into, a);
    case ProcessData => ProcessKeepsGood(d, into, a);
    case SendResponse => RespondKeepsGood(d, into, a);
    case Error => FailKeepsGood(d, into);
    case Alert(_) =>
    case Full =>
  }

  predicate FetchSpills(s: Codec, into: Ring, answers: seq<Answer>)
    requires Fits(s) && Sound(into)
    decreases |answers|
  {
    answers != [] &&
    (TurnSpills(s, into, answers[0]) ||
     var turn := Handle(s, into, answers[0]);
     turn.Again? && FetchSpills(turn.s, turn.into, answers[1..]))
  }

  lemma {:induction false} FetchFromKeepsGood(s: Codec, into: Ring, answers: seq<Answer>)
    requires Linked(s, into) && !s.pass
    ensures var t := FetchFrom(s, into, answers);
      Linked(t.s, t.into) && (t.into.lost == [] <==> into.lost == [] && !FetchSpills(s, into, answers))
    decreases |answers|
  {
    if answers != [] {
      HandleKeepsGood(s, into, answers[0]);
      var turn := Handle(s, into, answers[0]);
      hide Handle, Linked, TurnSpills;
      if turn.Again? { FetchFromKeepsGood(turn.s, turn.into, answers[1..]); }
    }
  }

  /** Some bytes are added to the ring buffer that reach its read cursor. */
  predicate OpSpills(l: Link, op: Op)
    requires Fit(l)
  {
    op.Fetching? &&
    if l.s.pass then |Left(l.s)| <= l.into.cap && Spills(l.into, Left(l.s)) else FetchSpills(l.s, l.into, op.answers)
  }

  lemma FetchKeepsGood(s: Codec, into: Ring, answers: seq<Answer>)
    requires Linked(s, into)
    ensures var t := Fetch(s, into, answers);
      Linked(t.s, t.into) && (t.into.lost == [] <==> into.lost == [] && !OpSpills(Link(s, into), Fetching(answers)))
  {
    hide Keeps;
    if !s.pass {
      FetchFromKeepsGood(s, into, answers);
    } else if |Left(s)| <= into.cap {
      assert (s.delivered + Left(s))[|s.early|..] == s.delivered[|s.early|..] + Left(s);
      AddedKeeps(into, s.delivered, Left(s));
    }
  }

  lemma OutputKeepsGood(s: Codec, data: seq<Byte>, coded: Option<seq<Byte>>, n: nat)
    requires Good(s)
    ensures Good(AddOutput(s, data, coded).0) && Good(DoneOutput(s, n).0)
  {
    assert s.taken + (s.out + data) == (s.taken + s.out) + data;
    if n <= |s.out| { assert (s.taken + s.out[..n]) + s.out[n..] == s.taken + s.out; }
  }

  /** Every operation keeps codec and ring buffer in step, and the ring buffer loses bytes
      only when the operation spills. */
  lemma DoKeepsGood(l: Link, op: Op)
    requires Linked(l.s, l.into) && Can(l, op)
    ensures var m := Do(l, op);
      Linked(m.s, m.into) && (m.into.lost == [] <==> l.into.lost == [] && !OpSpills(l, op))
  {
    hide Good, Keeps;
    assert Fit(l) by { GoodFits(l.s); }
    match op
    case Input(data) => InputKeepsGood(l.s, data);
    case Fetching(answers) => FetchKeepsGood(l.s, l.into, answers);
    case Output(data, coded) => OutputKeepsGood(l.s, data, coded, 0);
    case Done(n) => OutputKeepsGood(l.s, [], None, n);
    case Reading(n) => TakenKeeps(l.into, l.s.delivered, n);
  }

  lemma GoodFits(s: Codec)
    requires Good(s)
    ensures Fits(s)
  {
  }

  predicate CanAll(l: Link, ops: seq<Op>)
    requires Fit(l)
    decreases |ops|
  {
    ops == [] || (Can(l, ops[0]) && CanAll(Do(l, ops[0]), ops[1..]))
  }

  function Run(l: Link, ops: seq<Op>): (m: Link)
    requires Fit(l) && CanAll(l, ops)
    ensures Fit(m)
    decreases |ops|
  {
    if ops == [] then l else Run(Do(l, ops[0]), ops[1..])
  }

  /** The decoder made more than there is room for, and there is some. */
  predicate Short(s: Codec, into: Ring, a: Answer)
    requires Fits(s) && Sound(into)
  {
    var (t, rc) := Decoded(s, a);
    0 < Room(into) < |t.plain| && (rc == ProcessData || rc == Partial)
  }

  predicate FetchIsShort(s: Codec, into: Ring, answers: seq<Answer>)
    requires Fits(s) && Sound(into)
    decreases |answers|
  {
    answers != [] &&
    (Short(s, into, answers[0]) ||
     var turn := Handle(s, into, answers[0]);
     turn.Again? && FetchIsShort(turn.s, turn.into, answers[1..]))
  }

  predicate OpIsShort(l: Link, op: Op)
    requires Fit(l)
  {
    op.Fetching? && !l.s.pass && FetchIsShort(l.s, l.into, op.answers)
  }

  predicate RunIsShort(l: Link, ops: seq<Op>)
    requires Fit(l) && CanAll(l, ops)
    decreases |ops|
  {
    ops != [] && (OpIsShort(l, ops[0]) || RunIsShort(Do(l, ops[0]), ops[1..]))
  }

  predicate RunSpills(l: Link, ops: seq<Op>)
    requires Fit(l) && CanAll(l, ops)
    decreases |ops|
  {
    ops != [] && (OpSpills(l, ops[0]) || RunSpills(Do(l, ops[0]), ops[1..]))
  }

  /** short: some fetch so far was short of room. */
  ghost predicate Early(s: Codec, short: bool) {
    && (s.allow && !s.pass ==> (s.delivered != [] <==> short))
    && (s.pass ==> (s.early != [] <==> short))
  }

  lemma SqueezedIsEarly(s: Codec, room: nat, short: bool)
    requires room < |s.plain| && !s.pass && Early(s, short)
    ensures Early(Squeezed(s, room), short || 0 < room) && !Squeezed(s, room).pass
  {
    assert |Squeezed(s, room).delivered| == |s.delivered| + room;
  }

  lemma DeliveredIsEarly(s: Codec, a: Answer, short: bool)
    requires !s.pass && Early(s, short)
    ensures Early(Delivered(Greeted(s, a)), short) && !Delivered(Greeted(s, a)).pass
  {
  }

  lemma ProcessIsEarly(s: Codec, into: Ring, a: Answer, short: bool)
    requires Fits(s) && Sound(into) && !s.pass && Early(s, short)
    ensures var t := Process(s, into, a);
      Early(t.s, short || 0 < Room(into) < |s.plain|) && !t.s.pass
  {
    hide Added, Room, Early, Fits, Sound, Squeezed, Delivered, Greeted;
    if Room(into) < |s.plain| {
      SqueezedIsEarly(s, Room(into), short);
    } else {
      DeliveredIsEarly(s, a, short);
    }
  }

  lemma HandleIsEarly(s: Codec, into: Ring, a: Answer, short: bool)
    requires Fits(s) && Sound(into) && !s.pass && Early(s, short)
    ensures Early(Handle(s, into, a).s, short || Short(s, into, a))
  {
    var (t, rc) := Decoded(s, a);
    assert (t.allow, t.pass, t.delivered) == (s.allow, s.pass, s.delivered);
    hide Decoded, Process, Added, Room;
    match rc
    case Partial =>
      if t.plain != [] { ProcessIsEarly(Greeted(t, a), into, a, short); }
    case ProcessData => ProcessIsEarly(t, into, a, short);
    case _ =>
  }

  lemma HandleStaysPlain(s: Codec, into: Ring, a: Answer)
    requires Fits(s) && Sound(into) && !s.pass
    ensures Handle(s, into, a).Again? ==> !Handle(s, into, a).s.pass
  {
    hide Added, Room;
  }

  lemma {:induction false} FetchIsEarly(s: Codec, into: Ring, answers: seq<Answer>, short: bool)
    requires Fits(s) && Sound(into) && !s.pass && Early(s, short)
    ensures Early(FetchFrom(s, into, answers).s, short || FetchIsShort(s, into, answers))
    decreases |answers|
  {
    if answers != [] {
      HandleIsEarly(s, into, answers[0], short);
      HandleStaysPlain(s, into, answers[0]);
      var turn := Handle(s, into, answers[0]);
      var short' := short || Short(s, into, answers[0]);
      hide Handle, Early, Short;
      if turn.Again? { FetchIsEarly(turn.s, turn.into, answers[1..], short'); }
    }
  }

  lemma BytesAreEarly(l: Link, op: Op, short: bool)
    requires Fit(l) && Can(l, op) && Early(l.s, short) && !op.Fetching?
    ensures Early(Do(l, op).s, short)
  {
  }

  lemma DoIsEarly(l: Link, op: Op, short: bool)
    requires Fit(l) && Can(l, op) && Early(l.s, short)
    ensures Early(Do(l, op).s, short || OpIsShort(l, op))
  {
    if op.Fetching? {
      if !l.s.pass { FetchIsEarly(l.s, l.into, op.answers, short); }
    } else {
      hide Early, Do;
      BytesAreEarly(l, op, short);
    }
  }

  lemma {:induction false} RunIsGood(l: Link, ops: seq<Op>, short: bool)
    requires Fit(l) && Linked(l.s, l.into) && CanAll(l, ops) && Early(l.s, short)
    ensures var m := Run(l, ops);
      && Linked(m.s, m.into) && Early(m.s, short || RunIsShort(l, ops))
      && (m.into.lost == [] <==> l.into.lost == [] && !RunSpills(l, ops))
    decreases |ops|
  {
    if ops != [] {
      DoKeepsGood(l, ops[0]);
      DoIsEarly(l, ops[0], short);
      var short' := short || OpIsShort(l, ops[0]);
      hide Linked, Early, Do, OpIsShort, OpSpills;
      RunIsGood(Do(l, ops[0]), ops[1..], short');
    }
  }

  lemma StartIsGood(server: bool, hello: seq<Byte>, size: nat)
    requires |hello| <= BUFFER && size >= MARGIN
    ensures var l := Start(server, hello, size);
      Fit(l) && Linked(l.s, l.into) && Early(l.s, false) && l.into.lost == [] && l.s.server == server
  {
  }

  /** All bytes that the reader got or may still get. */
  function Reachable(l: Link): seq<Byte>
    requires Fit(l)
  {
    l.into.read + l.into.held + Left(l.s)
  }

  /** Whatever the decoder answers, in whatever pieces the input comes, however it is read:
      once the codec has fallen back to plain text, what was read, what can be read and what
      is left are all bytes accepted, if no fetch was short of room and none spilled; with exactly one
      of the two they are not. A short fetch adds bytes, and a spill takes some away. The
      output is passed on byte for byte. */
  lemma {:induction false} FallBackHandsOverEverything(server: bool, hello: seq<Byte>, size: nat, ops: seq<Op>)
    requires |hello| <= BUFFER && size >= MARGIN && CanAll(Start(server, hello, size), ops)
    requires Run(Start(server, hello, size), ops).s.pass
    ensures var start := Start(server, hello, size);
      var l, short, spills := Run(start, ops), RunIsShort(start, ops), RunSpills(start, ops);
      && (!spills ==> (Reachable(l) == l.s.accepted <==> !short))
      && (!short ==> (Reachable(l) == l.s.accepted <==> !spills))
      && (short <==> l.s.early != []) && (spills <==> l.into.lost != [])
      && |Reachable(l)| + |l.into.lost| == |l.s.early| + |l.s.accepted|
      && (!spills ==> Reachable(l) == l.s.early + l.s.accepted)
      && l.s.taken + l.s.out == l.s.given && server
  {
    var start := Start(server, hello, size);
    StartIsGood(server, hello, size);
    RunIsGood(start, ops, false);
    ServerStays(start, ops);
    var l := Run(start, ops);
    hide Fits, CanAll;
    LinkedCounts(l.s, l.into);
  }

  lemma LinkedCounts(s: Codec, into: Ring)
    requires Fit(Link(s, into)) && Linked(s, into) && s.pass
    ensures var l := Link(s, into);
      && |Reachable(l)| + |into.lost| == |s.early| + |s.accepted|
      && (into.lost == [] ==> Reachable(l) == s.early + s.accepted)
      && (into.lost == [] ==> (Reachable(l) == s.accepted <==> s.early == []))
      && s.taken + s.out == s.given && s.server
  {
    assert s.delivered == s.early + s.delivered[|s.early|..];
    assert s.delivered + Left(s) == s.early + s.accepted;
    assert |into.read| + |into.held| + |into.lost| == |s.delivered| by {
      assert |multiset(into.read) + multiset(into.held) + multiset(into.lost)| == |multiset(s.delivered)|;
    }
    if s.early != [] { assert |s.early + s.accepted| != |s.accepted|; }
  }

  lemma {:induction false} ServerStays(l: Link, ops: seq<Op>)
    requires Fit(l) && CanAll(l, ops)
    ensures Run(l, ops).s.server == l.s.server
    decreases |ops|
  {
    if ops != [] {
      DoIsOnSide(l, ops[0]);
      hide Do, Fit;
      ServerStays(Do(l, ops[0]), ops[1..]);
    }
  }

  lemma DoIsOnSide(l: Link, op: Op)
    requires Fit(l) && Can(l, op)
    ensures Do(l, op).s.server == l.s.server
  {
    hide Added, Taken;
    if op.Fetching? { FetchIsOnSide(l.s, l.into, op.answers); }
  }

  lemma ProcessIsOnSide(s: Codec, into: Ring, a: Answer)
    requires Fits(s) && Sound(into)
    ensures Process(s, into, a).s.server == s.server
  {
    hide Added, Room;
  }

  /** Client or server for good. */
  lemma HandleIsOnSide(s: Codec, into: Ring, a: Answer)
    requires Fits(s) && Sound(into)
    ensures Handle(s, into, a).s.server == s.server
  {
    var (t, rc) := Decoded(s, a);
    assert t.server == s.server && Greeted(t, a).server == t.server;
    hide Decoded, Added, Fits, Process;
    match rc
    case Partial =>
      if t.plain != [] { ProcessIsOnSide(Greeted(t, a), into, a); }
    case ProcessData => ProcessIsOnSide(t, into, a);
    case _ =>
  }

  lemma {:induction false} FetchIsOnSide(s: Codec, into: Ring, answers: seq<Answer>)
    requires Fits(s) && Sound(into)
    ensures FetchFrom(s, into, answers).s.server == s.server
    decreases |answers|
  {
    if answers != [] {
      var turn := Handle(s, into, answers[0]);
      HandleIsOnSide(s, into, answers[0]);
      hide Handle, Fits;
      if turn.Again? { FetchIsOnSide(turn.s, turn.into, answers[1..]); }
    }
  }

  /** The answer delivers plain text that there is room for, or queues a response. */
  predicate TurnClears(s: Codec, into: Ring, a: Answer)
    requires Fits(s) && Sound(into)
  {
    var (t, rc) := Decoded(s, a);
    || ((rc == ProcessData || rc == Partial) && 0 < |t.plain| <= Room(into))
    || (rc == SendResponse && |t.plain| <= t.outsize - (t.outstart + |t.out|))
  }

  predicate FetchClears(s: Codec, into: Ring, answers: seq<Answer>)
    requires Fits(s) && Sound(into)
    decreases |answers|
  {
    answers != [] &&
    (TurnClears(s, into, answers[0]) ||
     var turn := Handle(s, into, answers[0]);
     turn.Again? && FetchClears(turn.s, turn.into, answers[1..]))
  }

  /** The operation moves the input in its buffer, delivers plain text that there is room
      for, or queues a response. */
  predicate Clears(l: Link, op: Op)
    requires Fit(l)
  {
    !l.s.pass &&
    match op
    case Input(data) => |l.s.raw| + |data| > l.s.insize
    case Fetching(answers) => FetchClears(l.s, l.into, answers)
    case _ => false
  }

  predicate RunClears(l: Link, ops: seq<Op>)
    requires Fit(l) && CanAll(l, ops)
    decreases |ops|
  {
    ops != [] && (Clears(l, ops[0]) || RunClears(Do(l, ops[0]), ops[1..]))
  }

  /** From s to t the flag was cleared or not, and with it cleared there was no fall back. */
  predicate FlagGoes(s: Codec, t: Codec, cleared: bool) {
    if t.pass then s.allow && !cleared else t.allow <==> s.allow && !cleared
  }

  lemma ProcessClears(s: Codec, t: Codec, into: Ring, a: Answer)
    requires Fits(t) && Sound(into) && !t.pass && t.allow == s.allow
    ensures var turn := Process(t, into, a);
      FlagGoes(s, turn.s, 0 < |t.plain| <= Room(into)) && !turn.s.pass
  {
    hide Added, Room;
  }

  lemma HandleClears(s: Codec, into: Ring, a: Answer)
    requires Fits(s) && Sound(into) && !s.pass
    ensures var turn := Handle(s, into, a);
      FlagGoes(s, turn.s, TurnClears(s, into, a)) && (turn.Again? ==> !turn.s.pass)
  {
    var (t, rc) := Decoded(s, a);
    assert (t.allow, t.pass) == (s.allow, s.pass);
    hide Decoded, Process, Added, Room;
    match rc
    case Partial =>
      if t.plain != [] { ProcessClears(s, Greeted(t, a), into, a); }
    case ProcessData => ProcessClears(s, t, into, a);
    case _ =>
  }

  lemma {:induction false} FetchGoes(s: Codec, into: Ring, answers: seq<Answer>)
    requires Fits(s) && Sound(into) && !s.pass
    ensures FlagGoes(s, FetchFrom(s, into, answers).s, FetchClears(s, into, answers))
    decreases |answers|
  {
    if answers != [] {
      HandleClears(s, into, answers[0]);
      var turn := Handle(s, into, answers[0]);
      hide Handle, Fits, TurnClears;
      if turn.Again? { FetchGoes(turn.s, turn.into, answers[1..]); }
    }
  }

  lemma DoGoes(l: Link, op: Op)
    requires Fit(l) && Can(l, op) && !l.s.pass
    ensures FlagGoes(l.s, Do(l, op).s, Clears(l, op))
  {
    match op
    case Fetching(answers) => FetchGoes(l.s, l.into, answers);
    case _ =>
  }

  /** Having fallen back, a codec stays so, and there is no flag left to clear. */
  lemma {:induction false} PassStays(l: Link, ops: seq<Op>)
    requires Fit(l) && CanAll(l, ops) && l.s.pass
    ensures Run(l, ops).s.pass && !RunClears(l, ops)
    decreases |ops|
  {
    hide Added, Taken;
    if ops != [] { PassStays(Do(l, ops[0]), ops[1..]); }
  }

  /** In every run that has not fallen back, the flag is still set exactly when no operation
      moved the input, delivered with room or queued a response; after one that did there is
      no fall back for the rest of the run. */
  lemma {:induction false} NoWayBack(l: Link, ops: seq<Op>)
    requires Fit(l) && CanAll(l, ops) && !l.s.pass
    ensures RunClears(l, ops) || !l.s.allow ==> !Run(l, ops).s.pass
    ensures !Run(l, ops).s.pass ==> (Run(l, ops).s.allow <==> l.s.allow && !RunClears(l, ops))
    decreases |ops|
  {
    if ops != [] {
      DoGoes(l, ops[0]);
      var m := Do(l, ops[0]);
      hide Do, Clears, Fit, Can;
      if m.s.pass {
        PassStays(m, ops[1..]);
      } else {
        NoWayBack(m, ops[1..]);
      }
    }
  }

  lemma {:induction false} TwoOps(l: Link, a: Op, b: Op)
    requires Fit(l) && Can(l, a) && Can(Do(l, a), b)
    ensures CanAll(l, [a, b]) && Run(l, [a, b]) == Do(Do(l, a), b)
    ensures RunIsShort(l, [a, b]) <==> OpIsShort(l, a) || OpIsShort(Do(l, a), b)
  {
    hide Do, Fit, OpIsShort;
    var m, n := Do(l, a), Do(Do(l, a), b);
    assert [a, b][1..] == [b] && [b][1..] == [];
    assert CanAll(n, []) && Run(n, []) == n && !RunIsShort(n, []);
    assert CanAll(m, [b]) && Run(m, [b]) == n && (RunIsShort(m, [b]) <==> OpIsShort(m, b));
  }

  lemma {:induction false} ThreeOps(l: Link, a: Op, b: Op, c: Op)
    requires Fit(l) && Can(l, a) && Can(Do(l, a), b) && Can(Do(Do(l, a), b), c)
    ensures CanAll(l, [a, b, c]) && Run(l, [a, b, c]) == Do(Do(Do(l, a), b), c)
  {
    hide Do, Fit;
    assert [a, b, c][1..] == [b, c];
    TwoOps(Do(l, a), b, c);
  }

  /** A fetch of more plain text than an empty ring buffer has room for, and then an error: the
      codec falls back although plain text was delivered, and what had no room stays, with the
      last bytes twice. */
  lemma ShortRoomBreaksTheFallBack(size: nat, data: seq<Byte>, made: seq<Byte>)
    requires MARGIN < size && size - MARGIN < |made| <= BUFFER && |data| < MARGIN
    ensures var start, room := Start(true, [], size), size - MARGIN;
      var ops := [Input(data), Fetching([Answer(ProcessData, 0, made, false)]), Fetching([Answer(Error, 0, [], false)])];
      && CanAll(start, ops)
      && var l := Run(start, ops);
      && l.s.pass && l.s.accepted == data && Reachable(l) == made[..room] + data
      && l.s.plain == made[room..] + made[|made| - room..]
  {
    var l, a, b := Start(true, [], size), Answer(ProcessData, 0, made, false), Answer(Error, 0, [], false);
    FirstInput(size, data);
    SecondFetch(size, data, made);
    ThirdFetch(size, data, made);
    hide Do;
    ThreeOps(l, Input(data), Fetching([a]), Fetching([b]));
  }

  /** The codec with its first input. */
  function Fed(data: seq<Byte>): Codec {
    Setup(true, []).(raw := data, accepted := data)
  }

  lemma FirstInput(size: nat, data: seq<Byte>)
    requires MARGIN <= size && |data| <= BUFFER
    ensures Fit(Start(true, [], size)) && Can(Start(true, [], size), Input(data))
    ensures Do(Start(true, [], size), Input(data)) == Link(Fed(data), Empty(size))
  {
    assert [] + data == data;
  }

  /** After a delivery of the first room bytes of made. */
  function Squeezing(size: nat, data: seq<Byte>, made: seq<Byte>): Link
    requires MARGIN < size && size - MARGIN < |made|
  {
    var room := size - MARGIN;
    Link(Fed(data).(delivered := made[..room], plain := made[room..] + made[|made| - room..]), Empty(size).(held := made[..room]))
  }

  lemma SecondFetch(size: nat, data: seq<Byte>, made: seq<Byte>)
    requires MARGIN < size && size - MARGIN < |made| <= BUFFER && |data| < MARGIN
    ensures Fit(Link(Fed(data), Empty(size))) && Fit(Squeezing(size, data, made))
    ensures Do(Link(Fed(data), Empty(size)), Fetching([Answer(ProcessData, 0, made, false)])) == Squeezing(size, data, made)
  {
    ShortFetch(Fed(data), Empty(size), Answer(ProcessData, 0, made, false));
    var room := size - MARGIN;
    assert [] + made[..room] == made[..room];
  }

  lemma ThirdFetch(size: nat, data: seq<Byte>, made: seq<Byte>)
    requires MARGIN < size && size - MARGIN < |made| <= BUFFER && |data| < MARGIN
    ensures var l := Squeezing(size, data, made);
      && Fit(l) && var n := Do(l, Fetching([Answer(Error, 0, [], false)]));
      && n.s.pass && n.s.accepted == data && Reachable(n) == made[..size - MARGIN] + data && n.s.plain == l.s.plain
  {
    var l := Squeezing(size, data, made);
    assert Fit(l);
    ErrorFetch(l.s, l.into, Answer(Error, 0, [], false));
    assert [] + (made[..size - MARGIN] + data) + [] == made[..size - MARGIN] + data;
  }

  lemma ShortFetch(s: Codec, into: Ring, a: Answer)
    requires Fits(s) && Sound(into) && !s.pass && s.plain == [] && a.rc == ProcessData && a.used == 0
    requires Room(into) < |a.made| <= s.plainsize
    ensures Fetch(s, into, [a]) ==
      Stop(Squeezed(s.(plain := a.made), Room(into)), Added(into, a.made[..Room(into)]), Returned(false))
  {
    assert [] + a.made == a.made;
    assert Handle(s, into, a) == Process(s.(plain := a.made), into, a);
    assert FetchFrom(s, into, [a]) == Handle(s, into, a);
  }

  lemma {:induction false} ErrorFetch(s: Codec, into: Ring, a: Answer)
    requires Fits(s) && Sound(into) && !s.pass && FallsBack(s, into) && a == Answer(Error, 0, [], false)
    ensures Fetch(s, into, [a]) == Stop(FallenBack(s), Added(into, s.raw), Returned(false))
    ensures !FetchIsShort(s, into, [a])
  {
    assert s.plain + [] == s.plain;
    assert Handle(s, into, a) == Fail(s, into);
    assert FetchFrom(s, into, [a]) == Handle(s, into, a);
  }

  /** A fall back with as many bytes as an empty ring buffer is long: none can be read. */
  lemma SpilledFallBack(data: seq<Byte>)
    requires MARGIN <= |data| <= BUFFER
    ensures var start, ops := Start(true, [], |data|), [Input(data), Fetching([Answer(Error, 0, [], false)])];
      && CanAll(start, ops) && !RunIsShort(start, ops)
      && var l := Run(start, ops); l.s.pass && l.s.accepted == data && Reachable(l) == [] && l.into.lost == data
  {
    var l, a := Start(true, [], |data|), Answer(Error, 0, [], false);
    FirstInput(|data|, data);
    ErrorFetch(Fed(data), Empty(|data|), a);
    assert [] + data == data && data[|data|..] == [] && data[..|data|] == data;
    TwoOps(l, Input(data), Fetching([a]));
  }
}

/** The codec object, over its three buffers. */
module SslCodecs {
  import opened Wrappers
  import opened Rings
  import opened RingBuffers
  import opened Windows
  import opened Passthrough

  class SslCodec {
    const server: bool
    const insock: Window
    const inbuf: Window
    const outsock: Window
    var handshakedone: bool
    var allowpassthrough: bool
    var passthrough: bool
    /** The codec as a value. */
    ghost var now: Codec

    ghost predicate Apart()
      reads insock`buf, inbuf`buf, outsock`buf
    {
      && insock != inbuf && insock != outsock && inbuf != outsock
      && insock.buf != inbuf.buf && insock.buf != outsock.buf && inbuf.buf != outsock.buf
    }

    ghost predicate InShows(raw: seq<Byte>, start: nat, size: nat)
      reads insock, insock.buf
    {
      insock.Valid() && insock.Raw() == raw && insock.start == start && insock.buf.Length == size
    }

    ghost predicate PlainShows(plain: seq<Byte>, size: nat)
      reads inbuf, inbuf.buf
    {
      inbuf.Valid() && inbuf.Pending() == plain && inbuf.start == 0 && inbuf.buf.Length == size
    }

    ghost predicate OutShows(start: nat, out: seq<Byte>, size: nat)
      reads outsock, outsock.buf
    {
      outsock.Valid() && outsock.Pending() == out && outsock.start == start && outsock.buf.Length == size
    }

    ghost predicate Valid()
      reads this, insock, inbuf, outsock, insock.buf, inbuf.buf, outsock.buf
    {
      && Apart() && InShows(now.raw, now.start, now.insize)
      && PlainShows(now.plain, now.plainsize) && OutShows(now.outstart, now.out, now.outsize)
      && (server, handshakedone, allowpassthrough, passthrough) == (now.server, now.handshakedone, now.allow, now.pass)
    }

    /** The constructor and setup. */
    constructor (server: bool, hello: seq<Byte>)
      requires |hello| <= BUFFER
      ensures Valid() && now == Setup(server, hello) && this.server == server
      ensures fresh(insock) && fresh(inbuf) && fresh(outsock) && fresh(insock.buf) && fresh(inbuf.buf) && fresh(outsock.buf)
    {
      this.server := server;
      insock := new Window(BUFFER);
      inbuf := new Window(BUFFER);
      outsock := new Window(BUFFER);
      handshakedone, allowpassthrough, passthrough := !server, true, false;
      now := Setup(server, hello);
      new;
      if !server { outsock.Append(hello); }
    }

    method Take(data: seq<Byte>)
      requires Valid() && |now.raw| + |data| <= now.insize
      modifies this`now, insock`end, insock.buf
      ensures Valid() && now == Appended(old(now), data)
    {
      insock.Append(data);
      now := Appended(now, data);
      assert insock.Raw() == now.raw;
    }

    method Shift(n: nat) returns (ok: bool)
      requires Valid() && (|Left(now)| + n <= 2 * now.insize || now.insize >= BUFFER_MAX)
      modifies this`allowpassthrough, this`now, insock, insock.buf
      ensures Valid() && (now, ok) == Shifted(old(now), n)
      ensures fresh(insock.buf) || insock.buf == old(insock.buf)
    {
      allowpassthrough := false;
      assert insock.Pending() == Left(now) by {
        assert insock.buf[..insock.end][insock.start..] == insock.buf[insock.start..insock.end];
      }
      ok := insock.MakeRoom(n, BUFFER_MAX);
      now := Shifted(now, n).0;
    }

    method AddInput(data: seq<Byte>) returns (ok: bool)
      requires Valid() && Accepts(now, data)
      modifies this`allowpassthrough, this`now, insock, insock.buf
      ensures Valid() && (now, ok) == Passthrough.AddInput(old(now), data)
      ensures fresh(insock.buf) || insock.buf == old(insock.buf)
    {
      if insock.end + |data| > insock.buf.Length {
        ok := Shift(|data|);
        if !ok { return; }
      }
      Take(data);
      ok := true;
    }

    method UseUp(n: nat)
      requires Valid()
      modifies this`now, insock`start
      ensures Valid() && now == Used(old(now), n)
    {
      var left := insock.end - insock.start;
      now := Used(now, n);
      insock.Advance(if n <= left then n else left);
    }

    /** matrixSslDecode */
    method Decode(a: Answer) returns (rc: Rc)
      requires Valid()
      modifies this`now, insock`start, inbuf`end, inbuf.buf
      ensures Valid() && (now, rc) == Decoded(old(now), a)
    {
      UseUp(a.used);
      if inbuf.end + |a.made| > inbuf.buf.Length { return Full; }
      inbuf.Append(a.made);
      now := now.(plain := now.plain + a.made);
      rc := a.rc;
    }

    method Greet(a: Answer)
      requires Valid()
      modifies this`now, this`handshakedone
      ensures Valid() && now == Greeted(old(now), a)
    {
      if server && !handshakedone && a.complete { handshakedone := true; }
      now := Greeted(now, a);
    }

    method EmptyPlain()
      requires Valid()
      modifies this`now, inbuf`start, inbuf`end
      ensures Valid() && now == old(now).(plain := [])
    {
      inbuf.Rewind();
      now := now.(plain := []);
    }

    /** The ring buffer is none of the three. */
    ghost predicate Free(into: RingBuffer)
      reads insock`buf, inbuf`buf, outsock`buf, into
    {
      into.Valid() && into.buffer != insock.buf && into.buffer != inbuf.buf && into.buffer != outsock.buf
    }

    method Pour(into: RingBuffer, data: seq<Byte>) returns (ok: bool)
      requires Valid() && Free(into)
      modifies into`writecursor, into`lost, into.buffer
      ensures Valid() && Free(into) && ok == (|data| <= into.buffer.Length)
      ensures into.Value() == if ok then Added(old(into.Value()), data) else old(into.Value())
    {
      hide InShows, PlainShows, OutShows;
      ok := into.Add(data);
    }

    /** Decoded text goes to the ring buffer, as far as there is room. */
    method DeliverPart(into: RingBuffer, room: nat)
      requires Valid() && Free(into) && room == Room(into.Value()) && room < |now.plain|
      modifies this`now, inbuf.buf, into`writecursor, into`lost, into.buffer
      ensures Valid() && Free(into) && now == Squeezed(old(now), room)
      ensures into.Value() == Added(old(into.Value()), old(now).plain[..room])
    {
      assert inbuf.buf[..room] == now.plain[..room];
      var ok := Pour(into, inbuf.buf[..room]);
      now := Squeezed(now, room);
      inbuf.Squeeze(room);
    }

    method DeliverAll(into: RingBuffer)
      requires Valid() && Free(into) && |now.plain| <= Room(into.Value())
      modifies this`now, this`allowpassthrough, inbuf`start, inbuf`end, into`writecursor, into`lost, into.buffer
      ensures Valid() && Free(into) && now == Delivered(old(now)) && into.Value() == Added(old(into.Value()), old(now).plain)
    {
      NothingAdded(into.Value());
      if inbuf.end > inbuf.start {
        var ok := Pour(into, inbuf.buf[inbuf.start..inbuf.end]);
        inbuf.Rewind();
        allowpassthrough := false;
        now := Delivered(now);
      }
    }

    /** SSL_PROCESS_DATA */
    method Deliver(a: Answer, into: RingBuffer) returns (again: bool)
      requires Valid() && Free(into)
      modifies this`now, this`handshakedone, this`allowpassthrough, inbuf`start, inbuf`end, inbuf.buf
      modifies into`writecursor, into`lost, into.buffer
      ensures Valid() && Free(into)
      ensures Process(old(now), old(into.Value()), a) ==
        if again then Again(now, into.Value()) else Stop(now, into.Value(), Returned(false))
    {
      hide Added, Greeted, Delivered, Squeezed;
      var room := into.Room();
      if room < inbuf.end - inbuf.start {
        DeliverPart(into, room);
        again := false;
      } else {
        Greet(a);
        DeliverAll(into);
        again := insock.start < insock.end;
      }
    }

    method SendBack(a: Answer, ghost into: Ring) returns (o: Outcome)
      requires Valid() && Sound(into)
      modifies this`now, this`handshakedone, this`allowpassthrough, inbuf`start, inbuf`end, outsock`end, outsock.buf
      ensures Valid() && Stop(now, into, o) == Respond(old(now), into, a)
    {
      if outsock.buf.Length - outsock.end < inbuf.end - inbuf.start { return Thrown; }
      Greet(a);
      allowpassthrough := false;
      outsock.Prepend(inbuf.buf[inbuf.start..inbuf.end]);
      inbuf.Rewind();
      now := Responded(now);
      o := Returned(true);
    }

    /** SSL_ERROR */
    method FallBack(into: RingBuffer) returns (o: Outcome)
      requires Valid() && Free(into)
      modifies this`now, this`passthrough, insock`start, insock`end, inbuf`start, inbuf`end
      modifies into`writecursor, into`lost, into.buffer
      ensures Valid() && Free(into) && Stop(now, into.Value(), o) == Fail(old(now), old(into.Value()))
    {
      if allowpassthrough && !handshakedone {
        var ok := Pour(into, insock.buf[..insock.end]);
        if !ok { return Thrown; }
        insock.Rewind();
        passthrough := true;
        now := FallenBack(now);
        o := Returned(false);
      } else {
        EmptyPlain();
        o := Thrown;
      }
    }

    /** passthrough: what is in the input buffer goes to the ring buffer as it is. */
    method PassOn(into: RingBuffer) returns (o: Outcome)
      requires Valid() && Free(into) && passthrough
      modifies this`now, insock`start, insock`end, into`writecursor, into`lost, into.buffer
      ensures Valid() && Free(into) && Stop(now, into.Value(), o) == Fetch(old(now), old(into.Value()), [])
    {
      assert insock.buf[insock.start..insock.end] == Left(now) by {
        assert insock.buf[..insock.end][insock.start..] == insock.buf[insock.start..insock.end];
      }
      var ok := Pour(into, insock.buf[insock.start..insock.end]);
      if !ok { return Thrown; }
      insock.Rewind();
      now := PassedOn(now);
      o := Returned(false);
    }

    lemma WindowsDiffer()
      requires Apart()
      ensures insock != inbuf && outsock != inbuf
    {
    }

    method GrowPlain(ghost plain: seq<Byte>, ghost size: nat)
      requires Apart() && PlainShows(plain, size)
      modifies inbuf`buf
      ensures Apart() && PlainShows(plain, 2 * size) && fresh(inbuf.buf)
    {
      inbuf.Grow();
    }

    method EnlargePlain(ghost into: Ring) returns (again: bool)
      requires Valid() && Sound(into)
      modifies this`now, inbuf`buf
      ensures Valid() && Enlarge(old(now), into) == if again then Again(now, into) else Stop(now, into, Thrown)
      ensures fresh(inbuf.buf) || inbuf.buf == old(inbuf.buf)
    {
      hide Apart, InShows, OutShows;
      again := inbuf.buf.Length < BUFFER_MAX;
      if again {
        hide PlainShows;
        WindowsDiffer();
        GrowPlain(now.plain, now.plainsize);
        now := now.(plainsize := 2 * now.plainsize);
      }
    }

    /** The switch over what the decoder returned; again stands for the jump back. */
    method Switch(rc: Rc, a: Answer, into: RingBuffer) returns (again: bool, o: Outcome)
      requires Valid() && Free(into)
      modifies this`now, this`handshakedone, this`allowpassthrough, this`passthrough
      modifies insock`start, insock`end, inbuf, inbuf.buf, outsock`end, outsock.buf
      modifies into`writecursor, into`lost, into.buffer
      ensures Valid() && Free(into)
      ensures Act(old(now), old(into.Value()), rc, a) == if again then Again(now, into.Value()) else Stop(now, into.Value(), o)
      ensures fresh(inbuf.buf) || inbuf.buf == old(inbuf.buf)
    {
      hide Process, Respond, Fail, Enlarge, Greeted;
      o := Returned(false);
      match rc
      case Success =>
        again := insock.start < insock.end;
      case Partial =>
        Greet(a);
        if inbuf.start == inbuf.end {
          var backlog := into.Backlog();
          return false, Returned(backlog == 0);
        }
        again := Deliver(a, into);
      case ProcessData =>
        again := Deliver(a, into);
      case SendResponse =>
        o := SendBack(a, into.Value());
        again := false;
      case Error =>
        o := FallBack(into);
        again := false;
      case Alert(closeNotify) =>
        EmptyPlain();
        return false, if closeNotify then Returned(false) else Thrown;
      case Full =>
        again := EnlargePlain(into.Value());
        o := Thrown;
    }

    /** fetchinput */
    method FetchInput(answers: seq<Answer>, into: RingBuffer) returns (o: Outcome)
      requires Valid() && Free(into)
      modifies this, insock, inbuf, outsock, inbuf.buf, insock.buf, outsock.buf
      modifies into`writecursor, into`lost, into.buffer
      ensures Valid() && Free(into) && Stop(now, into.Value(), o) == Fetch(old(now), old(into.Value()), answers)
    {
      if passthrough {
        o := PassOn(into);
        return;
      }
      ghost var end := StillToFetch(now, into.Value(), answers);
      assert end == Fetch(now, into.Value(), answers);
      hide Valid, Fetch, Free;
      for k := 0 to |answers|
        invariant Valid() && Free(into) && Fits(now)
        invariant fresh(inbuf.buf) || inbuf.buf == old(inbuf.buf)
        invariant insock.buf == old(insock.buf) && outsock.buf == old(outsock.buf)
        invariant into.Valid() && StillToFetch(now, into.Value(), answers[k..]) == end
      {
        assert answers[k..][1..] == answers[k + 1..];
        var again;
        again, o := FetchStep(answers[k], into, answers[k..]);
        if !again { return; }
      }
      o := Returned(false);
    }

    /** One round of the loop. */
    method FetchStep(a: Answer, into: RingBuffer, ghost answers: seq<Answer>) returns (again: bool, o: Outcome)
      requires Valid() && Free(into) && into.Valid() && Fits(now) && answers != [] && a == answers[0]
      modifies this`now, this`handshakedone, this`allowpassthrough, this`passthrough
      modifies insock`start, insock`end, inbuf, inbuf.buf, outsock`end, outsock.buf
      modifies into`writecursor, into`lost, into.buffer
      ensures Valid() && Free(into) && into.Valid() && Fits(now)
      ensures StillToFetch(old(now), old(into.Value()), answers) ==
        if again then StillToFetch(now, into.Value(), answers[1..]) else Stop(now, into.Value(), o)
      ensures fresh(inbuf.buf) || inbuf.buf == old(inbuf.buf)
    {
      hide Act, Fits;
      FetchOnce(now, into.Value(), answers);
      var rc := Decode(a);
      again, o := Switch(rc, a, into);
    }

    method CleanOutput()
      requires Valid()
      modifies this`now, outsock`start, outsock`end, outsock.buf
      ensures Valid() && now == old(now).(outstart := 0)
    {
      now := now.(outstart := 0);
      if 0 < outsock.start {
        if outsock.start == outsock.end { outsock.Rewind(); } else { outsock.Compact(); }
      }
    }

    method Put(data: seq<Byte>)
      requires Valid() && outsock.end + |data| <= outsock.buf.Length
      modifies this`now, outsock`end, outsock.buf
      ensures Valid() && now == old(now).(out := old(now.out) + data)
    {
      now := now.(out := now.out + data);
      outsock.Append(data);
    }

    /** coded is what the encoder makes of data. */
    method AddOutput(data: seq<Byte>, coded: Option<seq<Byte>>) returns (o: Outcome)
      requires Valid()
      modifies this`now, outsock`start, outsock`end, outsock.buf
      ensures Valid() && (now, o) == Passthrough.AddOutput(old(now), data, coded)
    {
      CleanOutput();
      if !passthrough {
        if !handshakedone { return Thrown; }
        if coded == None { return Returned(false); }
        if outsock.end + |coded.value| > outsock.buf.Length { return Thrown; }
        Put(coded.value);
      } else {
        if outsock.end + |data| > outsock.buf.Length { return Thrown; }
        Put(data);
        now := now.(given := now.given + data);
      }
      o := Returned(true);
    }

    /** peekoutput leaves into as it is when there is no output. */
    method PeekOutput(into: seq<Byte>) returns (r: seq<Byte>)
      requires Valid()
      ensures r == if now.out == [] then into else now.out
    {
      r := into;
      if outsock.end > outsock.start { r := outsock.buf[outsock.start..outsock.end]; }
    }

    method DoneOutput(n: nat) returns (o: Outcome)
      requires Valid()
      modifies this`now, outsock`start, outsock`end
      ensures Valid() && (now, o) == Passthrough.DoneOutput(old(now), n)
    {
      if outsock.start + n > outsock.end { return Thrown; }
      now := Passthrough.DoneOutput(now, n).0;
      outsock.Advance(n);
      if outsock.start == outsock.end { outsock.Rewind(); }
      o := Returned(true);
    }
  }

  lemma NothingAdded(into: Ring)
    requires Sound(into)
    ensures Added(into, []) == into
  {
    assert into.held + [] == into.held;
  }

  ghost function StillToFetch(s: Codec, into: Ring, answers: seq<Answer>): Turn
    requires Fits(s) && Sound(into)
  {
    FetchFrom(s, into, answers)
  }

  lemma FetchOnce(s: Codec, into: Ring, answers: seq<Answer>)
    requires Fits(s) && Sound(into) && answers != []
    ensures var turn := Handle(s, into, answers[0]);
      StillToFetch(s, into, answers) == if turn.Stop? then turn else StillToFetch(turn.s, turn.into, answers[1..])
  {
  }
}
