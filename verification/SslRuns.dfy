/**
 What goes through the codec of src/libgrace-ssl/sslsocket.cpp in a run, told from the
 operations and the decoder's answers alone.
 */
module Conversations {
  import opened Wrappers
  import opened Rings
  import opened Passthrough

  /** What happens in a run. */
  datatype Note =
    | Gets(data: seq<Byte>)     // input that is taken in
    | Uses(n: nat)              // the decoder is done with n bytes of it
    | Makes(data: seq<Byte>)    // the decoder makes bytes
    | Greets(complete: bool)    // the handshake is asked for
    | Delivers                  // what was made goes to the reader
    | Squeezes(room: nat)       // its first part does, and its last bytes are there twice
    | Drops                     // what was made is dropped
    | Responds                  // what was made goes before the output that is waiting
    | Encodes(data: seq<Byte>)  // the encoder makes an output
    | Speaks(data: seq<Byte>)   // an output is passed on as it is
    | Takes(n: nat)             // n bytes of the output are taken

  /** What they come to: wire is all output ever, of which the first bytes were taken. */
  datatype Tally = Tally(
    input: seq<Byte>, unused: seq<Byte>, waiting: seq<Byte>, text: seq<Byte>,
    wire: seq<Byte>, taken: nat, spoken: seq<Byte>, shaken: bool)

  function Noted(t: Tally, n: Note): Tally {
    match n
    case Gets(data) => t.(input := t.input + data, unused := t.unused + data)
    case Uses(k) => t.(unused := if k <= |t.unused| then t.unused[k..] else [])
    case Makes(data) => t.(waiting := t.waiting + data)
    case Greets(complete) => t.(shaken := t.shaken || complete)
    case Delivers => t.(text := t.text + t.waiting, waiting := [])
    case Squeezes(k) =>
      if k > |t.waiting| then t
      else t.(text := t.text + t.waiting[..k], waiting := t.waiting[k..] + t.waiting[|t.waiting| - k..])
    case Drops => t.(waiting := [])
    case Responds =>
      if t.taken > |t.wire| then t
      else t.(wire := t.wire[..t.taken] + t.waiting + t.wire[t.taken..], waiting := [])
    case Encodes(data) => t.(wire := t.wire + data)
    case Speaks(data) => t.(wire := t.wire + data, spoken := t.spoken + data)
    case Takes(k) => t.(taken := t.taken + k)
  }

  function Total(t: Tally, notes: seq<Note>): Tally
    decreases |notes|
  {
    if notes == [] then t else Total(Noted(t, notes[0]), notes[1..])
  }

  /** A client starts with its hello on the wire. */
  function First(server: bool, hello: seq<Byte>): Tally {
    Tally([], [], [], [], if server then [] else hello, 0, [], !server)
  }

  lemma {:induction false} TotalInTwo(t: Tally, a: seq<Note>, b: seq<Note>)
    ensures Total(t, a + b) == Total(Total(t, a), b)
    decreases |a|
  {
    hide Noted;
    if a == [] {
      assert a + b == b;
    } else {
      assert (a + b)[1..] == a[1..] + b;
      TotalInTwo(Noted(t, a[0]), a[1..], b);
    }
  }

  lemma {:induction false} TwoNotes(t: Tally, m: Note, n: Note)
    ensures Total(t, []) == t && Total(t, [m]) == Noted(t, m) && Total(t, [m, n]) == Noted(Noted(t, m), n)
  {
    hide Noted;
    var u := Noted(t, m);
    assert [m][1..] == [] && [m, n][1..] == [n] && [n][1..] == [];
    assert Total(u, [n]) == Total(Noted(u, n), []);
  }

  /** What n bytes that were made come to, where the reader has so much room. */
  function DeliveryNotes(n: nat, room: nat): seq<Note> {
    if room < n then [Squeezes(room)] else [Delivers]
  }

  /** One answer, when n bytes are made, so many bytes of output fit, and falling back is or is
      not allowed. */
  function ActNotes(a: Answer, n: nat, room: nat, space: int, fallback: bool): seq<Note> {
    match a.rc
    case Success => []
    case Full => []
    case Partial => [Greets(a.complete)] + DeliveryNotes(n, room)
    case ProcessData => if room < n then [Squeezes(room)] else [Greets(a.complete), Delivers]
    case SendResponse => if n <= space then [Greets(a.complete), Responds] else []
    case Error => if fallback then [] else [Drops]
    case Alert(_) => [Drops]
  }

  /** A decoder whose bytes do not fit makes none. */
  function AnswerNotes(s: Codec, into: Ring, a: Answer): seq<Note>
    requires Fits(s) && Sound(into)
  {
    var n := |s.plain| + |a.made|;
    if n > s.plainsize then [Uses(a.used)]
    else
      [Uses(a.used), Makes(a.made)]
      + ActNotes(a, n, Room(into), s.outsize - (s.outstart + |s.out|), s.allow && !s.handshakedone)
  }

  function FetchNotes(s: Codec, into: Ring, answers: seq<Answer>): seq<Note>
    requires Fits(s) && Sound(into)
    decreases |answers|
  {
    if answers == [] then []
    else
      var turn := Handle(s, into, answers[0]);
      AnswerNotes(s, into, answers[0]) + if turn.Again? then FetchNotes(turn.s, turn.into, answers[1..]) else []
  }

  function OpNotes(l: Link, op: Op): seq<Note>
    requires Fit(l)
  {
    match op
    case Input(data) =>
      if |l.s.raw| + |data| <= l.s.insize || |Left(l.s)| + |data| <= l.s.insize || l.s.insize < BUFFER_MAX then [Gets(data)] else []
    case Fetching(answers) => if l.s.pass then [] else FetchNotes(l.s, l.into, answers)
    case Output(data, coded) =>
      if l.s.pass then (if |l.s.out| + |data| <= l.s.outsize then [Speaks(data)] else [])
      else if l.s.handshakedone && coded.Some? && |l.s.out| + |coded.value| <= l.s.outsize then [Encodes(coded.value)]
      else []
    case Done(n) => if n <= |l.s.out| then [Takes(n)] else []
    case Reading(_) => []
  }

  function RunNotes(l: Link, ops: seq<Op>): seq<Note>
    requires Fit(l) && CanAll(l, ops)
    decreases |ops|
  {
    if ops == [] then [] else OpNotes(l, ops[0]) + RunNotes(Do(l, ops[0]), ops[1..])
  }

  /** The codec is as the tally says; the first five hold after a fall back too. */
  ghost predicate Agrees(s: Codec, t: Tally) {
    && s.start <= |s.raw| && t.input == s.accepted && t.spoken == s.given
    && t.wire == s.taken + s.out && t.taken == |s.taken|
    && (!s.pass ==> t.unused == Left(s) && t.waiting == s.plain && t.text == s.delivered && t.shaken == s.handshakedone)
  }

  lemma {:induction false} DecodedAgrees(s: Codec, a: Answer, t: Tally)
    requires Fits(s) && !s.pass && Agrees(s, t)
    ensures var (d, _) := Decoded(s, a);
      Agrees(d, Total(t, if |s.plain| + |a.made| > s.plainsize then [Uses(a.used)] else [Uses(a.used), Makes(a.made)]))
  {
    TwoNotes(t, Uses(a.used), Makes(a.made));
  }

  lemma GreetedAgrees(s: Codec, a: Answer, t: Tally)
    requires !s.pass && Agrees(s, t) && (!s.server ==> s.handshakedone)
    ensures Agrees(Greeted(s, a), Noted(t, Greets(a.complete)))
  {
  }

  lemma SqueezedAgrees(s: Codec, room: nat, t: Tally)
    requires !s.pass && Agrees(s, t) && room < |s.plain|
    ensures Agrees(Squeezed(s, room), Noted(t, Squeezes(room)))
  {
  }

  lemma {:induction false} ProcessAgrees(s: Codec, into: Ring, a: Answer, t: Tally)
    requires Fits(s) && Sound(into) && !s.pass && Agrees(s, t) && (!s.server ==> s.handshakedone)
    ensures Agrees(Process(s, into, a).s,
                   Total(t, if Room(into) < |s.plain| then [Squeezes(Room(into))] else [Greets(a.complete), Delivers]))
  {
    hide Added, Room, Agrees, Noted, Squeezed, Delivered, Greeted, Fits, Sound;
    var room := Room(into);
    TwoNotes(t, Squeezes(room), Delivers);
    TwoNotes(t, Greets(a.complete), Delivers);
    if room < |s.plain| {
      SqueezedAgrees(s, room, t);
    } else {
      GreetedAgrees(s, a, t);
      GreetedGoesOn(s, a);
      DeliveredAgrees(Greeted(s, a), Noted(t, Greets(a.complete)));
    }
  }

  lemma GreetedGoesOn(s: Codec, a: Answer)
    ensures Greeted(s, a).pass == s.pass
  {
  }

  lemma DeliveredAgrees(s: Codec, t: Tally)
    requires !s.pass && Agrees(s, t)
    ensures Agrees(Delivered(s), Noted(t, Delivers))
  {
    assert s.delivered + [] == s.delivered;
  }

  lemma {:induction false} RespondAgrees(s: Codec, into: Ring, a: Answer, t: Tally)
    requires Fits(s) && Sound(into) && !s.pass && Agrees(s, t) && (!s.server ==> s.handshakedone)
    ensures Agrees(Respond(s, into, a).s,
                   Total(t, if |s.plain| <= s.outsize - (s.outstart + |s.out|) then [Greets(a.complete), Responds] else []))
  {
    TwoNotes(t, Greets(a.complete), Responds);
    assert t.wire[..t.taken] == s.taken && t.wire[t.taken..] == s.out;
    assert s.taken + s.plain + s.out == s.taken + (s.plain + s.out);
  }

  /** The record of an answer agrees with what the switch does. */
  lemma {:induction false} ActAgrees(s: Codec, into: Ring, a: Answer, t: Tally)
    requires Fits(s) && Sound(into) && !s.pass && Agrees(s, t) && (!s.server ==> s.handshakedone)
    ensures Agrees(Act(s, into, a.rc, a).s,
                   Total(t, ActNotes(a, |s.plain|, Room(into), s.outsize - (s.outstart + |s.out|), s.allow && !s.handshakedone)))
  {
    hide Room, Process, Respond;
    TwoNotes(t, Drops, Drops);
    match a.rc
    case Partial => PartialAgrees(s, into, a, t);
    case ProcessData => ProcessAgrees(s, into, a, t);
    case SendResponse => RespondAgrees(s, into, a, t);
    case _ =>
  }

  lemma {:induction false} PartialAgrees(s: Codec, into: Ring, a: Answer, t: Tally)
    requires Fits(s) && Sound(into) && !s.pass && Agrees(s, t) && (!s.server ==> s.handshakedone) && a.rc == Partial
    ensures Agrees(Act(s, into, Partial, a).s, Total(t, [Greets(a.complete)] + DeliveryNotes(|s.plain|, Room(into))))
  {
    hide Room, Process, Noted;
    var g, u := Greeted(s, a), Noted(t, Greets(a.complete));
    GreetedAgrees(s, a, t);
    TwoNotes(t, Greets(a.complete), Delivers);
    TwoNotes(t, Greets(a.complete), Squeezes(Room(into)));
    TotalInTwo(t, [Greets(a.complete)], DeliveryNotes(|s.plain|, Room(into)));
    TwoNotes(u, Delivers, Delivers);
    TwoNotes(u, Squeezes(Room(into)), Delivers);
    if s.plain == [] {
      DeliveredAgrees(g, u);
    } else {
      assert g.plain == s.plain;
      ProcessAgrees(g, into, a, u);
      GreetsTwice(t, a);
    }
  }

  /** Asking again changes nothing. */
  lemma GreetsTwice(t: Tally, a: Answer)
    ensures Total(Noted(t, Greets(a.complete)), [Greets(a.complete), Delivers]) == Total(Noted(t, Greets(a.complete)), [Delivers])
  {
    var u := Noted(t, Greets(a.complete));
    TwoNotes(u, Greets(a.complete), Delivers);
    TwoNotes(u, Delivers, Delivers);
  }

  lemma {:induction false} HandleAgrees(s: Codec, into: Ring, a: Answer, t: Tally)
    requires Linked(s, into) && !s.pass && Agrees(s, t)
    ensures Fits(s) && Agrees(Handle(s, into, a).s, Total(t, AnswerNotes(s, into, a)))
  {
    hide Agrees, Act, Room, Keeps, ActNotes;
    DecodedAgrees(s, a, t);
    DecodedKeeps(s, a);
    var (d, rc) := Decoded(s, a);
    if |s.plain| + |a.made| > s.plainsize {
      var u := Total(t, [Uses(a.used)]);
      FullAgrees(d, into, a, u);
    } else {
      var decoding := [Uses(a.used), Makes(a.made)];
      var u := Total(t, decoding);
      var acting := ActNotes(a, |d.plain|, Room(into), d.outsize - (d.outstart + |d.out|), d.allow && !d.handshakedone);
      ActAgrees(d, into, a, u);
      TotalInTwo(t, decoding, acting);
    }
  }

  lemma DecodedKeeps(s: Codec, a: Answer)
    requires Good(s) && !s.pass
    ensures Fits(s)
    ensures var d := Decoded(s, a).0;
      && !d.pass && (!d.server ==> d.handshakedone)
      && (d.outsize, d.outstart, d.out, d.allow, d.handshakedone) == (s.outsize, s.outstart, s.out, s.allow, s.handshakedone)
  {
  }

  lemma FullAgrees(s: Codec, into: Ring, a: Answer, t: Tally)
    requires Fits(s) && Sound(into) && !s.pass && Agrees(s, t)
    ensures Agrees(Act(s, into, Full, a).s, t)
  {
  }

  lemma {:induction false} FetchAgrees(s: Codec, into: Ring, answers: seq<Answer>, t: Tally)
    requires Linked(s, into) && !s.pass && Agrees(s, t)
    ensures Fits(s) && Agrees(FetchFrom(s, into, answers).s, Total(t, FetchNotes(s, into, answers)))
    decreases |answers|
  {
    LinkedFits(s, into);
    if answers != [] {
      HandleAgrees(s, into, answers[0], t);
      HandleKeepsGood(s, into, answers[0]);
      var turn, notes := Handle(s, into, answers[0]), AnswerNotes(s, into, answers[0]);
      hide Handle, Linked, Agrees, TurnSpills, AnswerNotes;
      if turn.Again? {
        FetchAgrees(turn.s, turn.into, answers[1..], Total(t, notes));
        TotalInTwo(t, notes, FetchNotes(turn.s, turn.into, answers[1..]));
      } else {
        assert notes + [] == notes;
      }
    }
  }

  lemma LinkedFits(s: Codec, into: Ring)
    requires Linked(s, into)
    ensures Fits(s) && Sound(into)
  {
  }

  lemma AppendedAgrees(s: Codec, data: seq<Byte>, t: Tally)
    requires Agrees(s, t)
    ensures Agrees(Appended(s, data), Noted(t, Gets(data)))
  {
    assert (s.raw + data)[s.start..] == Left(s) + data;
  }

  lemma ShiftedAgrees(s: Codec, n: nat, t: Tally)
    requires Fits(s) && Agrees(s, t)
    ensures Agrees(Shifted(s, n).0, t)
  {
  }

  lemma {:induction false} InputAgrees(l: Link, data: seq<Byte>, t: Tally)
    requires Fit(l) && Can(l, Input(data)) && Agrees(l.s, t)
    ensures Agrees(Do(l, Input(data)).s, Total(t, OpNotes(l, Input(data))))
  {
    hide Agrees, Appended, Noted;
    TwoNotes(t, Gets(data), Drops);
    AppendedAgrees(l.s, data, t);
    ShiftedAgrees(l.s, |data|, t);
    AppendedAgrees(Shifted(l.s, |data|).0, data, t);
  }

  lemma {:induction false} OutputAgrees(l: Link, data: seq<Byte>, coded: Option<seq<Byte>>, t: Tally)
    requires Fit(l) && Agrees(l.s, t)
    ensures Agrees(Do(l, Output(data, coded)).s, Total(t, OpNotes(l, Output(data, coded))))
  {
    TwoNotes(t, Speaks(data), Drops);
    if coded.Some? {
      TwoNotes(t, Encodes(coded.value), Drops);
      assert (l.s.taken + l.s.out) + coded.value == l.s.taken + (l.s.out + coded.value);
    }
    assert (l.s.taken + l.s.out) + data == l.s.taken + (l.s.out + data);
  }

  lemma {:induction false} DoneAgrees(l: Link, n: nat, t: Tally)
    requires Fit(l) && Agrees(l.s, t)
    ensures Agrees(Do(l, Done(n)).s, Total(t, OpNotes(l, Done(n))))
  {
    TwoNotes(t, Takes(n), Drops);
    if n <= |l.s.out| { assert (l.s.taken + l.s.out[..n]) + l.s.out[n..] == l.s.taken + l.s.out; }
  }

  lemma {:induction false} DoAgrees(l: Link, op: Op, t: Tally)
    requires Fit(l) && Linked(l.s, l.into) && Can(l, op) && Agrees(l.s, t)
    ensures Agrees(Do(l, op).s, Total(t, OpNotes(l, op)))
  {
    match op
    case Input(data) =>
      hide Do, OpNotes, Agrees;
      InputAgrees(l, data, t);
    case Fetching(answers) =>
      if l.s.pass {
        PassedOnAgrees(l, answers, t);
      } else {
        hide Agrees, Linked;
        FetchAgrees(l.s, l.into, answers, t);
      }
    case Output(data, coded) =>
      hide Do, OpNotes, Agrees;
      OutputAgrees(l, data, coded, t);
    case Done(n) =>
      hide Do, OpNotes, Agrees;
      DoneAgrees(l, n, t);
    case Reading(_) =>
  }

  lemma {:induction false} PassedOnAgrees(l: Link, answers: seq<Answer>, t: Tally)
    requires Fit(l) && l.s.pass && Agrees(l.s, t)
    ensures Agrees(Do(l, Fetching(answers)).s, Total(t, OpNotes(l, Fetching(answers))))
  {
    hide Added;
  }

  lemma {:induction false} RunAgrees(l: Link, ops: seq<Op>, t: Tally)
    requires Fit(l) && Linked(l.s, l.into) && CanAll(l, ops) && Agrees(l.s, t)
    ensures Agrees(Run(l, ops).s, Total(t, RunNotes(l, ops)))
    decreases |ops|
  {
    hide Linked, Agrees, Do, OpNotes, OpSpills, Fit;
    if ops != [] {
      DoAgrees(l, ops[0], t);
      DoKeepsGood(l, ops[0]);
      RunAgrees(Do(l, ops[0]), ops[1..], Total(t, OpNotes(l, ops[0])));
      TotalInTwo(t, OpNotes(l, ops[0]), RunNotes(Do(l, ops[0]), ops[1..]));
    }
  }

  /** Nothing spills before a fall back. */
  lemma {:induction false} FetchSpillsBack(s: Codec, into: Ring, answers: seq<Answer>)
    requires Fits(s) && Sound(into) && FetchSpills(s, into, answers)
    ensures FetchFrom(s, into, answers).s.pass
    decreases |answers|
  {
    var turn := Handle(s, into, answers[0]);
    if TurnSpills(s, into, answers[0]) {
      assert turn.s.pass && turn.Stop?;
    } else {
      hide Handle, Fits;
      FetchSpillsBack(turn.s, turn.into, answers[1..]);
    }
  }

  lemma {:induction false} NoSpillBeforeFallBack(l: Link, ops: seq<Op>)
    requires Fit(l) && CanAll(l, ops) && RunSpills(l, ops)
    ensures Run(l, ops).s.pass
    decreases |ops|
  {
    var m := Do(l, ops[0]);
    if OpSpills(l, ops[0]) {
      if !l.s.pass { FetchSpillsBack(l.s, l.into, ops[0].answers); }
      assert m.s.pass;
      hide Do;
      PassStays(m, ops[1..]);
    } else {
      hide Do;
      NoSpillBeforeFallBack(m, ops[1..]);
    }
  }

  /** Whatever the decoder answers, in whatever pieces the input comes, and however output is
      taken: the input accepted, the input the decoder is not done with, the text the reader got
      or may get, and all output are what the operations and answers come to. On the wire are the
      hello, what the encoder made, and the responses, each in front of what was waiting then. */
  lemma {:induction false} WhatGoesThrough(server: bool, hello: seq<Byte>, size: nat, ops: seq<Op>)
    requires |hello| <= BUFFER && size >= MARGIN && CanAll(Start(server, hello, size), ops)
    ensures var l := Run(Start(server, hello, size), ops);
      var t := Total(First(server, hello), RunNotes(Start(server, hello, size), ops));
      && l.s.taken + l.s.out == t.wire && |l.s.taken| == t.taken
      && l.s.accepted == t.input && l.s.given == t.spoken
      && (!l.s.pass ==>
          l.into.read + l.into.held == t.text && l.s.plain == t.waiting && Left(l.s) == t.unused && l.s.handshakedone == t.shaken)
  {
    var start := Start(server, hello, size);
    StartIsGood(server, hello, size);
    assert Agrees(start.s, First(server, hello));
    RunAgrees(start, ops, First(server, hello));
    RunIsGood(start, ops, false);
    if RunSpills(start, ops) { NoSpillBeforeFallBack(start, ops); }
    hide Good, Fits, RunSpills, RunIsShort, Early;
  }

  function MadeBy(notes: seq<Note>): seq<Byte> {
    if notes == [] then [] else (if notes[0].Makes? then notes[0].data else []) + MadeBy(notes[1..])
  }

  lemma OneMakes(t: Tally, n: Note)
    requires !n.Squeezes? && n != Drops && n != Responds
    ensures Noted(t, n).text + Noted(t, n).waiting == (t.text + t.waiting) + if n.Makes? then n.data else []
  {
  }

  lemma Regroup(a: seq<Byte>, b: seq<Byte>, c: seq<Byte>)
    ensures (a + b) + c == a + (b + c)
  {
  }

  /** Where no delivery is short, and nothing is dropped or answered, the text and what still
      waits are all that the decoder made, in order. */
  lemma {:induction false} TextIsAllMade(t: Tally, notes: seq<Note>)
    requires forall n <- notes :: !n.Squeezes? && n != Drops && n != Responds
    ensures Total(t, notes).text + Total(t, notes).waiting == (t.text + t.waiting) + MadeBy(notes)
    decreases |notes|
  {
    hide Noted;
    if notes != [] {
      var n := notes[0];
      assert n in notes && forall m <- notes[1..] :: m in notes;
      OneMakes(t, n);
      TextIsAllMade(Noted(t, n), notes[1..]);
      Regroup(t.text + t.waiting, if n.Makes? then n.data else [], MadeBy(notes[1..]));
    }
  }

  function EncodedBy(notes: seq<Note>): seq<Byte> {
    if notes == [] then [] else (if notes[0].Encodes? then notes[0].data else []) + EncodedBy(notes[1..])
  }

  lemma OneEncodes(t: Tally, n: Note)
    requires n != Responds && !n.Speaks?
    ensures Noted(t, n).wire == t.wire + if n.Encodes? then n.data else []
  {
  }

  /** Without responses and plain outputs, what the encoder made follows what was there. */
  lemma {:induction false} WireIsEncoded(t: Tally, notes: seq<Note>)
    requires forall n <- notes :: n != Responds && !n.Speaks?
    ensures Total(t, notes).wire == t.wire + EncodedBy(notes)
    decreases |notes|
  {
    hide Noted;
    if notes != [] {
      var n := notes[0];
      assert n in notes && forall m <- notes[1..] :: m in notes;
      OneEncodes(t, n);
      WireIsEncoded(Noted(t, n), notes[1..]);
      Regroup(t.wire, if n.Encodes? then n.data else [], EncodedBy(notes[1..]));
    }
  }

  /** What an answer comes to for the caller of fetchinput: true asks it to send the output. */
  lemma AnswerReturns(s: Codec, into: Ring, a: Answer)
    requires Fits(s) && Sound(into) && !s.pass
    ensures var turn, n := Handle(s, into, a), |s.plain| + |a.made|;
      var full, space, fallback := n > s.plainsize, s.outsize - (s.outstart + |s.out|), s.allow && !s.handshakedone && |s.raw| <= into.cap;
      && (turn.Stop? && turn.o == Returned(true) <==>
        !full && ((a.rc == SendResponse && n <= space) || (a.rc == Partial && n == 0 && into.held == [])))
      && (turn.Stop? && turn.o == Thrown <==>
        if full || a.rc == Full then s.plainsize >= BUFFER_MAX
        else (a.rc == SendResponse && n > space) || (a.rc == Error && !fallback) || a.rc == Alert(false))
  {
    hide Added, Room;
  }

  lemma ActGoesOn(d: Codec, into: Ring, rc: Rc, a: Answer)
    requires Fits(d) && Sound(into) && !d.pass
    ensures var turn, n := Act(d, into, rc, a), |d.plain|;
      && (turn.Again? <==>
        if rc == Full then d.plainsize < BUFFER_MAX
        else d.start < |d.raw| && (rc == Success || ((rc == ProcessData || (rc == Partial && n > 0)) && n <= Room(into))))
      && (rc == Full && turn.Again? ==> turn.s.plainsize == 2 * d.plainsize)
      && (turn.s.pass <==> rc == Error && d.allow && !d.handshakedone && |d.raw| <= into.cap)
  {
    hide Added, Room;
  }

  /** When the decoder is called again, with what buffer, and when its error is taken for plain
      text. */
  lemma AnswerGoesOn(s: Codec, into: Ring, a: Answer)
    requires Fits(s) && Sound(into) && !s.pass
    ensures var turn, n := Handle(s, into, a), |s.plain| + |a.made|;
      var full, fallback := n > s.plainsize, s.allow && !s.handshakedone && |s.raw| <= into.cap;
      && (turn.Again? <==>
        if full || a.rc == Full then s.plainsize < BUFFER_MAX
        else s.start + a.used < |s.raw| && (a.rc == Success || ((a.rc == ProcessData || (a.rc == Partial && n > 0)) && n <= Room(into))))
      && ((full || a.rc == Full) && turn.Again? ==> turn.s.plainsize == 2 * s.plainsize)
      && (turn.s.pass <==> !full && a.rc == Error && fallback)
  {
    hide Act, Room;
    var (d, rc) := Decoded(s, a);
    ActGoesOn(d, into, rc, a);
  }

  /** What the calls return. */
  lemma CallsReturn(l: Link, data: seq<Byte>, coded: Option<seq<Byte>>, n: nat)
    requires Fit(l)
    ensures Can(l, Input(data)) ==> (AddInput(l.s, data).1 <==> OpNotes(l, Input(data)) == [Gets(data)])
    ensures AddOutput(l.s, data, coded).1 == Returned(true) <==> OpNotes(l, Output(data, coded)) != []
    ensures AddOutput(l.s, data, coded).1 == Returned(false) <==> !l.s.pass && l.s.handshakedone && coded == None
    ensures DoneOutput(l.s, n).1 == if n <= |l.s.out| then Returned(true) else Thrown
  {
  }
}
