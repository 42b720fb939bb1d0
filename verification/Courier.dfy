/**
 The courier encoding of a flat record, key=value fields between bars
 (src/libdbfile/dbfile.cpp).
 */
module Courier {
  import opened Wrappers
  import opened Text

  /** A child of the record, which are kept in order. */
  datatype Field = Field(key: string, text: string)

  /** v[key] = text: in place, where the key keeps its first spelling, or at the end. */
  function Assign(fields: seq<Field>, key: string, text: string): (r: seq<Field>)
    ensures r != []
  {
    if fields == [] then [Field(key, text)]
    else if Fold(fields[0].key) == Fold(key) then [Field(fields[0].key, text)] + fields[1..]
    else [fields[0]] + Assign(fields[1..], key, text)
  }

  function Word(f: Field): string {
    f.key + "=" + f.text
  }

  function Words(fields: seq<Field>): (r: seq<string>)
    ensures |r| == |fields|
  {
    if fields == [] then [] else [Word(fields[0])] + Words(fields[1..])
  }

  /** encode */
  function Encoded(fields: seq<Field>): string {
    if fields == [] then "" else Join(Words(fields), '|')
  }

  function DecodedInto(fields: seq<Field>, words: seq<string>): (r: seq<Field>)
    ensures fields != [] || words != [] ==> r != []
    decreases |words|
  {
    if words == [] then fields
    else
      var (l, r) := CutAt(words[0], '=');
      DecodedInto(Assign(fields, l, r), words[1..])
  }

  /** decode */
  function Decoded(s: string): seq<Field> {
    DecodedInto([], Split(s, '|'))
  }

  predicate Plain(f: Field) {
    '=' !in f.key && '|' !in f.key && '|' !in f.text
  }

  ghost predicate Distinct(fields: seq<Field>) {
    forall i, j :: 0 <= i < j < |fields| ==> Fold(fields[i].key) != Fold(fields[j].key)
  }

  /** What the encoding can carry: at least one field, every key once, whatever its case, and
      without separators, and texts without bars. */
  ghost predicate Encodable(fields: seq<Field>) {
    fields != [] && Distinct(fields) && forall f <- fields :: Plain(f)
  }

  lemma {:induction false} AssignKeepsKeys(fields: seq<Field>, key: string, text: string, x: string)
    requires Fold(x) != Fold(key) && forall f <- fields :: Fold(f.key) != Fold(x)
    ensures forall f <- Assign(fields, key, text) :: Fold(f.key) != Fold(x)
  {
    if fields != [] {
      assert fields[0] in fields;
      AssignKeepsKeys(fields[1..], key, text, x);
    }
  }

  /** v[key] */
  function TextOf(fields: seq<Field>, key: string): Option<string> {
    if fields == [] then None
    else if Fold(fields[0].key) == Fold(key) then Some(fields[0].text)
    else TextOf(fields[1..], key)
  }

  /** An assignment sets the text of its key and of no other, and moves no key. */
  lemma {:induction false} AssignSets(fields: seq<Field>, key: string, text: string, x: string)
    ensures TextOf(Assign(fields, key, text), x) == if Fold(x) == Fold(key) then Some(text) else TextOf(fields, x)
    ensures |Assign(fields, key, text)| == if TextOf(fields, key) == None then |fields| + 1 else |fields|
    ensures forall i :: 0 <= i < |fields| ==> Assign(fields, key, text)[i].key == fields[i].key
  {
    if fields != [] && Fold(fields[0].key) != Fold(key) { AssignSets(fields[1..], key, text, x); }
  }

  lemma {:induction false} AssignKeepsDistinct(fields: seq<Field>, key: string, text: string)
    requires Distinct(fields)
    ensures Distinct(Assign(fields, key, text))
  {
    if fields != [] && Fold(fields[0].key) != Fold(key) {
      AssignKeepsDistinct(fields[1..], key, text);
      AssignKeepsKeys(fields[1..], key, text, fields[0].key);
    }
  }

  lemma {:induction false} AssignKeepsPlain(fields: seq<Field>, key: string, text: string)
    requires (forall f <- fields :: Plain(f)) && Plain(Field(key, text))
    ensures forall f <- Assign(fields, key, text) :: Plain(f)
  {
    if fields != [] {
      assert fields[0] in fields;
      AssignKeepsPlain(fields[1..], key, text);
    }
  }

  lemma {:induction false} DecodingIsPlain(fields: seq<Field>, words: seq<string>)
    requires Distinct(fields) && (forall f <- fields :: Plain(f)) && forall w <- words :: '|' !in w
    ensures Distinct(DecodedInto(fields, words)) && forall f <- DecodedInto(fields, words) :: Plain(f)
    decreases |words|
  {
    if words != [] {
      var (l, r) := CutAt(words[0], '=');
      assert words[0] in words && '|' !in words[0];
      AssignKeepsDistinct(fields, l, r);
      AssignKeepsPlain(fields, l, r);
      DecodingIsPlain(Assign(fields, l, r), words[1..]);
    }
  }

  lemma {:induction false} AssignAppends(fields: seq<Field>, key: string, text: string)
    requires forall f <- fields :: Fold(f.key) != Fold(key)
    ensures Assign(fields, key, text) == fields + [Field(key, text)]
  {
    if fields != [] {
      assert fields[0] in fields;
      AssignAppends(fields[1..], key, text);
    }
  }

  /** Only the first = is cut at, so that the text may hold others. */
  lemma WordIsCut(f: Field)
    requires '=' !in f.key
    ensures CutAt(Word(f), '=') == (f.key, f.text)
  {
    FirstIndex(f.key, '=', f.text);
    assert Word(f) == f.key + ['='] + f.text;
    assert Word(f)[..|f.key|] == f.key && Word(f)[|f.key| + 1..] == f.text;
  }

  lemma {:induction false} WordsAreRead(done: seq<Field>, fields: seq<Field>)
    requires Distinct(done + fields) && forall f <- fields :: Plain(f)
    ensures DecodedInto(done, Words(fields)) == done + fields
    decreases |fields|
  {
    if fields == [] {
      assert done + fields == done;
    } else {
      var f := fields[0];
      assert f in fields;
      WordIsCut(f);
      forall d | d in done
        ensures Fold(d.key) != Fold(f.key)
      {
        var i :| 0 <= i < |done| && done[i] == d;
        assert (done + fields)[i] == d && (done + fields)[|done|] == f;
      }
      AssignAppends(done, f.key, f.text);
      assert done + fields == (done + [f]) + fields[1..];
      WordsAreRead(done + [f], fields[1..]);
    }
  }

  lemma {:induction false} WordsHaveNoBars(fields: seq<Field>)
    requires forall f <- fields :: Plain(f)
    ensures forall w <- Words(fields) :: '|' !in w
  {
    if fields != [] {
      assert fields[0] in fields;
      WordsHaveNoBars(fields[1..]);
    }
  }

  /** A record is read back as it was, with its order, exactly when it is encodable. */
  lemma DecodeEncode(fields: seq<Field>)
    ensures Decoded(Encoded(fields)) == fields <==> Encodable(fields)
  {
    DecodingIsPlain([], Split(Encoded(fields), '|'));
    if Encodable(fields) {
      WordsHaveNoBars(fields);
      SplitJoin(Words(fields), '|');
      assert [] + fields == fields;
      WordsAreRead([], fields);
    }
  }

  /** What into becomes. */
  ghost function StillToEncode(into: string, fields: seq<Field>): string {
    if fields == [] then into else if into == "" then Encoded(fields) else into + ['|'] + Encoded(fields)
  }

  lemma EncodeOne(into: string, fields: seq<Field>)
    requires fields != []
    ensures StillToEncode(into, fields) == StillToEncode((if into != "" then into + ['|'] else into) + Word(fields[0]), fields[1..])
  {
    hide Encoded, Word;
    EncodedOfMore(fields);
    var w := Word(fields[0]);
    if |fields| > 1 { Regroup(into + ['|'], w, ['|'], Encoded(fields[1..])); }
  }

  lemma Regroup(a: string, b: string, c: string, d: string)
    ensures a + (b + c + d) == (a + b) + c + d
  {
  }

  lemma EncodedOfMore(fields: seq<Field>)
    requires fields != []
    ensures Word(fields[0]) != ""
    ensures Encoded(fields) == if |fields| == 1 then Word(fields[0]) else Word(fields[0]) + ['|'] + Encoded(fields[1..])
  {
  }

  /** encode as the loop that it is: the bar goes before every field but the first, because
      the text is not empty any more. */
  method Encode(v: seq<Field>) returns (into: string)
    ensures into == Encoded(v)
  {
    into := "";
    var i := 0;
    assert v[0..] == v;
    while i < |v|
      invariant i <= |v| && StillToEncode(into, v[i..]) == Encoded(v)
    {
      EncodeOne(into, v[i..]);
      assert v[i..][1..] == v[i + 1..];
      hide StillToEncode;
      if into != "" { into := into + ['|']; }
      into := into + Word(v[i]);
      i := i + 1;
    }
  }

  /** decode */
  method Decode(outof: string) returns (v: seq<Field>)
    ensures v == Decoded(outof)
  {
    v := [];
    var tmp := Split(outof, '|');
    var i := 0;
    while i < |tmp|
      invariant i <= |tmp| && DecodedInto(v, tmp[i..]) == Decoded(outof)
    {
      var (l, r) := CutAt(tmp[i], '=');
      assert tmp[i..][1..] == tmp[i + 1..];
      v := Assign(v, l, r);
      i := i + 1;
    }
  }
}
