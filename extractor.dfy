/**
 * The lenient JSON extractor `extrair_objetos_json`: a cursor walks the
 * stripped text, skips whitespace, `,` and `]`, asks the JSON decoder for one
 * value at the cursor, and either keeps that value and jumps past it or moves
 * on by one character.
 */
module Extractor {
  import opened Wrappers
  import opened PyJson
  import opened PyText

  /** Every value `raw_decode` reports ends after the cursor and inside the text. */
  ghost predicate AdvancesCursor(d: (string, nat) -> Option<(Json, nat)>) {
    forall t: string, pos: nat :: d(t, pos).Some? ==> pos < d(t, pos).value.1 <= |t|
  }

  /** `JSONDecoder().raw_decode(text, pos)`, an oracle: `None` when it raises,
      else the decoded value and the index just past it. */
  type Decoder = d: (string, nat) -> Option<(Json, nat)> | AdvancesCursor(d)
    witness (t: string, pos: nat) => None

  /** The characters the cursor skips before each decode attempt. */
  predicate IsNoise(c: char) {
    IsSpace(c) || c == ',' || c == ']'
  }

  /** One recovered value and the text span `[start, end)` it was decoded from. */
  datatype Span = Span(value: Json, start: nat, end: nat)

  /** What the cursor loop recovers from position `pos` on: a noise
      character is stepped over; elsewhere a decoded value is kept and the
      cursor jumps past it, and a failed decode moves the cursor by one. */
  function Spans(d: Decoder, t: string, pos: nat): seq<Span>
    decreases |t| - pos
  {
    if pos >= |t| then []
    else if IsNoise(t[pos]) then Spans(d, t, pos + 1)
    else match d(t, pos)
      case Some((v, e)) => [Span(v, pos, e)] + Spans(d, t, e)
      case None => Spans(d, t, pos + 1)
  }

  /** The values of the spans, in order. */
  function Values(spans: seq<Span>): (r: seq<Json>)
    ensures |r| == |spans|
  {
    if spans == [] then [] else [spans[0].value] + Values(spans[1..])
  }

  /** Where the cursor starts: past a leading `[` of the stripped text. */
  function StartCursor(t: string): nat {
    if t != [] && t[0] == '[' then 1 else 0
  }

  /** The spans `extrair_objetos_json(texto)` recovers, in the stripped text. */
  function ExtractSpans(d: Decoder, texto: string): seq<Span> {
    var t := Strip(texto);
    Spans(d, t, StartCursor(t))
  }

  /** The values `extrair_objetos_json(texto)` returns. */
  function Extract(d: Decoder, texto: string): seq<Json> {
    Values(ExtractSpans(d, texto))
  }

  /** One step of the cursor over a noise character. */
  lemma SpansSkipNoise(d: Decoder, t: string, pos: nat)
    requires pos < |t| && IsNoise(t[pos])
    ensures Spans(d, t, pos) == Spans(d, t, pos + 1)
  {
  }

  /** One step of the cursor over a character where no value decodes. */
  lemma SpansMiss(d: Decoder, t: string, pos: nat)
    requires pos < |t| && !IsNoise(t[pos]) && d(t, pos).None?
    ensures Spans(d, t, pos) == Spans(d, t, pos + 1)
  {
  }

  /** One step of the cursor over a decoded value. */
  lemma SpansHit(d: Decoder, t: string, pos: nat, v: Json, e: nat)
    requires pos < |t| && !IsNoise(t[pos]) && d(t, pos) == Some((v, e))
    ensures Values(Spans(d, t, pos)) == [v] + Values(Spans(d, t, e))
  {
    var rest := Spans(d, t, e);
    assert Spans(d, t, pos) == [Span(v, pos, e)] + rest;
    assert ([Span(v, pos, e)] + rest)[1..] == rest;
  }

  /** The cursor loop itself. It terminates on every text and never fails. */
  method ExtractObjects(d: Decoder, texto: string) returns (objetos: seq<Json>)
    ensures objetos == Extract(d, texto)
  {
    objetos := [];
    var t := Strip(texto);
    var pos: nat := 0;
    if t != [] && t[0] == '[' {
      pos := 1;
    }
    ghost var goal := Values(Spans(d, t, pos));
    assert goal == Extract(d, texto);
    while pos < |t|
      invariant pos <= |t|
      invariant objetos + Values(Spans(d, t, pos)) == goal
      decreases |t| - pos
    {
      while pos < |t| && IsNoise(t[pos])
        invariant pos <= |t|
        invariant objetos + Values(Spans(d, t, pos)) == goal
        decreases |t| - pos
      {
        SpansSkipNoise(d, t, pos);
        pos := pos + 1;
      }
      if pos >= |t| {
        break;
      }
      var decoded := d(t, pos);
      if decoded.Some? {
        var obj, novaPos := decoded.value.0, decoded.value.1;
        SpansHit(d, t, pos, obj, novaPos);
        objetos := objetos + [obj];
        pos := novaPos;
      } else {
        if pos + 1 < |t| && t[pos + 1] == '[' && t[pos] == ']' {
          // The `][` branch of the source cannot be taken: the skip loop
          // above only stops on a character that is not `]`.
          assert false;
        }
        SpansMiss(d, t, pos);
        pos := pos + 1;
      }
    }
  }

  // ---------------------------------------------------------------------
  // What the extractor recovers

  /** Position `q` lies inside one of the recovered spans. */
  predicate Covered(spans: seq<Span>, q: int) {
    exists i :: 0 <= i < |spans| && spans[i].start <= q < spans[i].end
  }

  lemma CoveredCons(sp: Span, rest: seq<Span>)
    ensures forall q :: Covered(rest, q) ==> Covered([sp] + rest, q)
  {
    forall q | Covered(rest, q) ensures Covered([sp] + rest, q) {
      var i :| 0 <= i < |rest| && rest[i].start <= q < rest[i].end;
      assert ([sp] + rest)[i + 1] == rest[i];
    }
  }

  /** Spans found from `lo` on are well placed: each is what the decoder
      returns at a non-noise position at or after `lo`, and each starts at
      or after the end of the previous one. */
  predicate WellPlaced(d: Decoder, t: string, lo: nat, r: seq<Span>) {
    (forall i :: 0 <= i < |r| ==>
      lo <= r[i].start < r[i].end <= |t| && !IsNoise(t[r[i].start])
      && d(t, r[i].start) == Some((r[i].value, r[i].end)))
    && (forall i, j :: 0 <= i < j < |r| ==> r[i].end <= r[j].start)
  }

  /** Every recovered value is what the decoder returns at a non-noise
      position at or after the cursor, and the values come in text order. */
  lemma {:induction false} SpansOrdered(d: Decoder, t: string, pos: nat)
    decreases |t| - pos
    ensures WellPlaced(d, t, pos, Spans(d, t, pos))
  {
    if pos < |t| {
      if IsNoise(t[pos]) || d(t, pos).None? {
        SpansOrdered(d, t, pos + 1);
        assert Spans(d, t, pos) == Spans(d, t, pos + 1);
      } else {
        var v, e := d(t, pos).value.0, d(t, pos).value.1;
        SpansOrdered(d, t, e);
        var rest := Spans(d, t, e);
        var r := Spans(d, t, pos);
        assert r == [Span(v, pos, e)] + rest;
        assert r[0] == Span(v, pos, e) && d(t, pos) == Some((v, e));
        forall i | 0 < i < |r| ensures r[i] == rest[i - 1] {
        }
      }
    }
  }

  /** Nothing decodable is skipped: at every non-noise position at or after
      the cursor that no recovered value covers, the decoder fails. */
  lemma {:induction false} SpansSkipOnlyFailures(d: Decoder, t: string, pos: nat)
    decreases |t| - pos
    ensures forall q ::
      (pos <= q < |t| && !IsNoise(t[q]) && !Covered(Spans(d, t, pos), q)) ==> d(t, q).None?
  {
    if pos < |t| {
      if IsNoise(t[pos]) || d(t, pos).None? {
        SpansSkipOnlyFailures(d, t, pos + 1);
        assert Spans(d, t, pos) == Spans(d, t, pos + 1);
      } else {
        var e := d(t, pos).value.1;
        var rest := Spans(d, t, e);
        var r := Spans(d, t, pos);
        assert r == [Span(d(t, pos).value.0, pos, e)] + rest;
        SpansSkipOnlyFailures(d, t, e);
        CoveredCons(r[0], rest);
        forall q | pos <= q < |t| && !IsNoise(t[q]) && !Covered(r, q)
          ensures d(t, q).None?
        {
          assert r[0].start == pos && r[0].end == e;
        }
      }
    }
  }

  /** The extractor's promise on the stripped text `t`: it keeps, in text
      order and without overlap, values the decoder returns at positions
      past the optional leading `[`, and it passes over a non-noise position
      only where the decoder fails. */
  lemma ExtractRecovers(d: Decoder, texto: string)
    ensures var t := Strip(texto);
      var r := ExtractSpans(d, texto);
      Extract(d, texto) == Values(r)
      && (forall i :: 0 <= i < |r| ==>
        StartCursor(t) <= r[i].start < r[i].end <= |t| && !IsNoise(t[r[i].start])
        && d(t, r[i].start) == Some((r[i].value, r[i].end)))
      && (forall i, j :: 0 <= i < j < |r| ==> r[i].end <= r[j].start)
      && (forall q ::
        (StartCursor(t) <= q < |t| && !IsNoise(t[q]) && !Covered(r, q)) ==> d(t, q).None?)
  {
    var t := Strip(texto);
    assert ExtractSpans(d, texto) == Spans(d, t, StartCursor(t));
    SpansOrdered(d, t, StartCursor(t));
    SpansSkipOnlyFailures(d, t, StartCursor(t));
  }

  // ---------------------------------------------------------------------
  // Concatenated serialised objects are recovered exactly

  predicate AllNoise(s: string) {
    forall i :: 0 <= i < |s| ==> IsNoise(s[i])
  }

  /** The text of each of `vs` starts with `{` and ends with `}`, as
      `json.dumps` writes an object. */
  ghost predicate Braced(enc: Json -> string, vs: seq<Json>) {
    forall v | v in vs :: |enc(v)| > 0 && enc(v)[0] == '{' && enc(v)[|enc(v)| - 1] == '}'
  }

  /** The decoder reads the text of each of `vs` back wherever it occurs,
      whatever follows it, as `raw_decode` does with a serialised object. */
  ghost predicate ReadsBack(d: Decoder, enc: Json -> string, vs: seq<Json>) {
    forall v, t: string, p: nat | v in vs && OccursAt(t, p, enc(v))
      :: d(t, p) == Some((v, p + |enc(v)|))
  }

  /** The serialised objects, each followed by its separator. */
  function Join(enc: Json -> string, vs: seq<Json>, seps: seq<string>): string
    requires |seps| == |vs|
  {
    if vs == [] then "" else enc(vs[0]) + seps[0] + Join(enc, vs[1..], seps[1..])
  }

  /** The layout of the concatenation lemmas: serialised objects, each read
      back by the decoder, separated only by whitespace, `,` and `]`. */
  ghost predicate Layout(d: Decoder, enc: Json -> string, vs: seq<Json>, seps: seq<string>) {
    ReadsBack(d, enc, vs) && Braced(enc, vs) && |seps| == |vs|
    && (forall s | s in seps :: AllNoise(s))
  }

  /** The cursor passes a run of noise characters without recovering anything. */
  lemma {:induction false} SpansSkipRun(d: Decoder, t: string, p: nat, s: string)
    requires OccursAt(t, p, s) && AllNoise(s)
    decreases |s|
    ensures Spans(d, t, p) == Spans(d, t, p + |s|)
  {
    if s != [] {
      assert t[p] == s[0];
      assert OccursAt(t, p + 1, s[1..]) by {
        assert t[p + 1..p + 1 + |s[1..]|] == t[p..p + |s|][1..];
      }
      SpansSkipRun(d, t, p + 1, s[1..]);
    }
  }

  /** Where the pieces of `w + s0 + rest` lie when that text starts at `p`. */
  lemma Pieces(t: string, p: nat, w: string, s0: string, rest: string)
    requires p <= |t| && t[p..] == w + s0 + rest
    ensures OccursAt(t, p, w) && OccursAt(t, p + |w|, s0)
    ensures p + |w| + |s0| <= |t| && t[p + |w| + |s0|..] == rest
    ensures w != [] ==> t[p] == w[0]
  {
    assert t[p..p + |w|] == t[p..][..|w|];
    assert t[p + |w|..p + |w| + |s0|] == t[p..][|w|..|w| + |s0|];
    assert t[p + |w| + |s0|..] == t[p..][|w| + |s0|..];
  }

  /** The first object of a layout and its separator: the decoder reads the
      object back at `p`, noise follows it, and the rest of the layout starts
      at `q`. */
  lemma JoinHead(d: Decoder, enc: Json -> string, vs: seq<Json>,
                 seps: seq<string>, t: string, p: nat) returns (e: nat, q: nat)
    requires Layout(d, enc, vs, seps) && vs != []
    requires p <= |t| && t[p..] == Join(enc, vs, seps)
    ensures p < |t| && t[p] == '{' && d(t, p) == Some((vs[0], e))
    ensures OccursAt(t, e, seps[0]) && AllNoise(seps[0]) && q == e + |seps[0]|
    ensures q <= |t| && t[q..] == Join(enc, vs[1..], seps[1..])
    ensures Layout(d, enc, vs[1..], seps[1..])
  {
    var w, s0 := enc(vs[0]), seps[0];
    Pieces(t, p, w, s0, Join(enc, vs[1..], seps[1..]));
    e := p + |w|;
    q := e + |s0|;
    assert vs[0] in vs && s0 in seps;
  }

  /** The cursor recovers a decoded value and then passes the noise run
      that follows it. */
  lemma HitThenRun(d: Decoder, t: string, p: nat, v: Json, e: nat, s: string, q: nat)
    requires p < |t| && t[p] == '{' && d(t, p) == Some((v, e))
    requires OccursAt(t, e, s) && AllNoise(s) && q == e + |s|
    ensures Values(Spans(d, t, p)) == [v] + Values(Spans(d, t, q))
  {
    SpansHit(d, t, p, v, e);
    SpansSkipRun(d, t, e, s);
  }

  /** The cursor recovers exactly the objects of a layout, in order. */
  lemma {:induction false} SpansOfJoin(d: Decoder, enc: Json -> string, vs: seq<Json>,
                                       seps: seq<string>, t: string, p: nat)
    requires Layout(d, enc, vs, seps)
    requires p <= |t| && t[p..] == Join(enc, vs, seps)
    decreases |vs|
    ensures Values(Spans(d, t, p)) == vs
  {
    if vs == [] {
      assert |t[p..]| == 0;
      assert Spans(d, t, p) == [];
    } else {
      var e, q := JoinHead(d, enc, vs, seps, t, p);
      assert Values(Spans(d, t, p)) == [vs[0]] + Values(Spans(d, t, q)) by {
        HitThenRun(d, t, p, vs[0], e, seps[0], q);
      }
      assert Values(Spans(d, t, q)) == vs[1..] by {
        SpansOfJoin(d, enc, vs[1..], seps[1..], t, q);
      }
      assert [vs[0]] + vs[1..] == vs;
    }
  }

  /** `rstrip` of a concatenation when the right part keeps something, or the
      left part ends with a non-space. */
  lemma StripRightAppend(a: string, b: string)
    requires StripRight(b) != [] || (a != [] && !IsSpace(a[|a| - 1]))
    ensures StripRight(a + b) == a + StripRight(b)
  {
    StripRightTrims(b);
    var r := a + StripRight(b);
    assert r <= a + b;
    forall i | |r| <= i < |a + b| ensures IsSpace((a + b)[i]) {
      assert (a + b)[i] == b[i - |a|];
    }
    if StripRight(b) == [] {
      assert r[|r| - 1] == a[|a| - 1];
    } else {
      assert r[|r| - 1] == StripRight(b)[|StripRight(b)| - 1];
    }
    StripRightUnique(a + b, r);
  }

  /** The separators with the trailing whitespace of the last one removed. */
  function TrimLast(seps: seq<string>): seq<string>
    requires seps != []
  {
    seps[..|seps| - 1] + [StripRight(seps[|seps| - 1])]
  }

  /** `rstrip` of serialised objects with their separators only trims the
      last separator, since every object ends with `}`. */
  lemma {:induction false} StripRightOfJoin(enc: Json -> string, vs: seq<Json>, seps: seq<string>)
    requires Braced(enc, vs) && |seps| == |vs| && vs != []
    ensures StripRight(Join(enc, vs, seps)) == Join(enc, vs, TrimLast(seps))
    ensures Join(enc, vs, TrimLast(seps))[0] == '{'
  {
    var w := enc(vs[0]);
    assert vs[0] in vs;
    assert Join(enc, vs, seps) == w + seps[0] + Join(enc, vs[1..], seps[1..]);
    if |vs| == 1 {
      assert StripRight(Join(enc, vs, seps)) == w + StripRight(seps[0]) by {
        assert Join(enc, vs, seps) == w + seps[0];
        StripRightAppend(w, seps[0]);
      }
      assert Join(enc, vs, TrimLast(seps)) == w + StripRight(seps[0]) by {
        assert TrimLast(seps) == [StripRight(seps[0])];
        assert Join(enc, vs, TrimLast(seps)) == w + StripRight(seps[0]) + "";
      }
    } else {
      var rest := Join(enc, vs[1..], seps[1..]);
      StripRightOfJoin(enc, vs[1..], seps[1..]);
      var rest' := Join(enc, vs[1..], TrimLast(seps[1..]));
      assert StripRight(Join(enc, vs, seps)) == w + seps[0] + rest' by {
        assert StripRight(rest) != [];
        StripRightAppend(w + seps[0], rest);
      }
      assert Join(enc, vs, TrimLast(seps)) == w + seps[0] + rest' by {
        assert TrimLast(seps) == [seps[0]] + TrimLast(seps[1..]);
        assert TrimLast(seps)[1..] == TrimLast(seps[1..]);
      }
    }
  }

  /** Round trip: a text made of serialised objects separated only by
      whitespace, `,` and `]` (possibly none) yields exactly those objects,
      in order. */
  lemma ExtractJoin(d: Decoder, enc: Json -> string, vs: seq<Json>, seps: seq<string>)
    requires Layout(d, enc, vs, seps)
    ensures Extract(d, Join(enc, vs, seps)) == vs
  {
    var text := Join(enc, vs, seps);
    if vs == [] {
      assert Strip(text) == [];
    } else {
      assert text[0] == enc(vs[0])[0] == '{';
      assert StripLeft(text) == text;
      StripRightOfJoin(enc, vs, seps);
      var seps' := TrimLast(seps);
      var last := seps[|seps| - 1];
      assert last in seps;
      assert forall s | s in seps' :: AllNoise(s) by {
        StripRightTrims(last);
        assert AllNoise(StripRight(last)) by {
          assert StripRight(last) <= last;
        }
        forall s | s in seps' ensures AllNoise(s) {
          if s !in seps[..|seps| - 1] {
            assert s == StripRight(last);
          }
        }
      }
      assert Layout(d, enc, vs, seps');
      assert Strip(text)[0..] == Join(enc, vs, seps');
      SpansOfJoin(d, enc, vs, seps', Strip(text), 0);
    }
  }

  // ---------------------------------------------------------------------
  // A layout that exists: two registry-style objects and a decoder that
  // reads them back

  const FirstObject: Json := JObj(map["id" := JInt(1)])
  const SecondObject: Json := JObj(map["id" := JInt(2)])

  /** `json.dumps` of the two objects. */
  function Dumps(v: Json): string {
    if v == SecondObject then "{\"id\": 2}" else "{\"id\": 1}"
  }

  /** A decoder that reads the two serialised objects wherever they occur. */
  function ReadEither(t: string, pos: nat): (r: Option<(Json, nat)>)
    ensures r.Some? ==> pos < r.value.1 <= |t|
  {
    if OccursAt(t, pos, Dumps(FirstObject)) then Some((FirstObject, pos + |Dumps(FirstObject)|))
    else if OccursAt(t, pos, Dumps(SecondObject)) then Some((SecondObject, pos + |Dumps(SecondObject)|))
    else None
  }

  /** The hypotheses of `ExtractJoin` can be met with two distinct objects
      and non-empty separators, so the round trip is about real inputs. */
  lemma LayoutExists()
    ensures var d: Decoder := (t: string, pos: nat) => ReadEither(t, pos);
      var vs, seps := [FirstObject, SecondObject], [", ", "]\n"];
      Layout(d, Dumps, vs, seps) && Extract(d, Join(Dumps, vs, seps)) == vs
  {
    var d: Decoder := (t: string, pos: nat) => ReadEither(t, pos);
    var vs, seps := [FirstObject, SecondObject], [", ", "]\n"];
    assert Dumps(FirstObject) != Dumps(SecondObject) by {
      assert FirstObject != SecondObject by {
        assert FirstObject.fields["id"] != SecondObject.fields["id"];
      }
      assert Dumps(SecondObject)[7] == '2';
    }
    forall v, t: string, p: nat | v in vs && OccursAt(t, p, Dumps(v))
      ensures d(t, p) == Some((v, p + |Dumps(v)|))
    {
      if v == SecondObject {
        assert !OccursAt(t, p, Dumps(FirstObject)) by {
          assert t[p + 7] == '2';
        }
      }
    }
    assert forall s | s in seps :: AllNoise(s);
    assert Layout(d, Dumps, vs, seps);
    ExtractJoin(d, Dumps, vs, seps);
  }
}
