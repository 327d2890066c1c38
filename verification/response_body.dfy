/** Reading a response body (camouflare/http_transport.py): byte limits at every layer, stacked content
    codings, the early cut of the wire. A generator is modelled by the trace it would yield. */
module ResponseBody {
  import opened Basics
  import opened ZlibStreams
  import opened ContentCoding
  import opened ContentDecoders

  datatype BodyError = TooLarge | Undecodable

  /** How a generator of chunks ends: it runs out, a prefix-only read has enough, or it raises. */
  datatype Ending = Exhausted | PrefixComplete | Failed(error: BodyError)

  datatype Trace = Trace(chunks: seq<Bytes>, ending: Ending)

  function Concat(chunks: seq<Bytes>): Bytes {
    if chunks == [] then [] else chunks[0] + Concat(chunks[1..])
  }

  lemma ConcatAppend(chunks: seq<Bytes>, more: seq<Bytes>)
    ensures Concat(chunks + more) == Concat(chunks) + Concat(more)
  {
    if chunks == [] {
      assert chunks + more == more;
    } else {
      assert (chunks + more)[1..] == chunks[1..] + more;
      ConcatAppend(chunks[1..], more);
    }
  }

  lemma ConcatOne(chunks: seq<Bytes>, chunk: Bytes)
    ensures Concat(chunks + [chunk]) == Concat(chunks) + chunk
  {
    ConcatAppend(chunks, [chunk]);
    assert Concat([chunk]) == chunk + Concat([]);
  }

  lemma ConcatTaken(chunks: seq<Bytes>, i: nat)
    requires i <= |chunks|
    ensures Concat(chunks) == Concat(chunks[..i]) + Concat(chunks[i..])
  {
    ConcatAppend(chunks[..i], chunks[i..]);
    assert chunks[..i] + chunks[i..] == chunks;
  }

  // ----- byte limits -----

  /** What a limiter with room for `available` bytes makes of a trace. */
  function Limited(t: Trace, available: nat, prefixOnly: bool): Trace
    decreases |t.chunks|
  {
    if t.chunks == [] then t
    else
      var chunk := t.chunks[0];
      if |chunk| <= available then Behind(chunk, Limited(t.(chunks := t.chunks[1..]), available - |chunk|, prefixOnly))
      else if !prefixOnly then Trace([], Failed(TooLarge))
      else Trace(if available > 0 then [chunk[..available]] else [], PrefixComplete)
  }

  function Behind(chunk: Bytes, t: Trace): Trace {
    Trace([chunk] + t.chunks, t.ending)
  }

  /** Nothing past the limit passes. A trace within it passes as it is; a longer one fails, or in prefix
      mode passes exactly its first `available` bytes. */
  lemma {:induction false} LimitMeans(t: Trace, available: nat, prefixOnly: bool)
    ensures var r := Limited(t, available, prefixOnly);
            && |Concat(r.chunks)| <= available
            && (|Concat(t.chunks)| <= available ==> r == t)
            && (|Concat(t.chunks)| > available ==>
                  && r.ending == (if prefixOnly then PrefixComplete else Failed(TooLarge))
                  && Concat(r.chunks) <= Concat(t.chunks)
                  && (prefixOnly ==> Concat(r.chunks) == Concat(t.chunks)[..available]))
    decreases |t.chunks|
  {
    if t.chunks != [] {
      var chunk, rest := t.chunks[0], t.chunks[1..];
      if |chunk| <= available {
        LimitMeans(t.(chunks := rest), available - |chunk|, prefixOnly);
        var r := Limited(t.(chunks := rest), available - |chunk|, prefixOnly);
        assert ([chunk] + r.chunks)[1..] == r.chunks;
        assert [chunk] + rest == t.chunks;
      } else if available > 0 {
        assert Concat([chunk[..available]]) == chunk[..available] + Concat([]);
      }
    }
  }

  /** What passed so far and what is to come. */
  function After(chunks: seq<Bytes>, t: Trace): Trace {
    Trace(chunks + t.chunks, t.ending)
  }

  function From(t: Trace, i: nat): Trace
    requires i <= |t.chunks|
  {
    t.(chunks := t.chunks[i..])
  }

  lemma LimitedAt(t: Trace, i: nat, available: nat, prefixOnly: bool)
    requires i < |t.chunks|
    ensures var passed, chunk := t.chunks[..i], t.chunks[i];
            After(passed, Limited(From(t, i), available, prefixOnly))
            == if |chunk| <= available
                then After(t.chunks[..i + 1], Limited(From(t, i + 1), available - |chunk|, prefixOnly))
               else if !prefixOnly then Trace(passed, Failed(TooLarge))
               else Trace(if available > 0 then passed + [chunk[..available]] else passed, PrefixComplete)
  {
    var passed, chunk := t.chunks[..i], t.chunks[i];
    assert t.chunks[i..][1..] == t.chunks[i + 1..] && t.chunks[..i + 1] == passed + [chunk];
    if |chunk| <= available {
      var rest := Limited(From(t, i + 1), available - |chunk|, prefixOnly);
      assert passed + ([chunk] + rest.chunks) == (passed + [chunk]) + rest.chunks;
    } else {
      assert passed + [] == passed;
    }
  }

  lemma LimitedEnds(t: Trace, available: nat, prefixOnly: bool)
    ensures From(t, 0) == t && After([], Limited(t, available, prefixOnly)) == Limited(t, available, prefixOnly)
    ensures After(t.chunks[..|t.chunks|], Limited(From(t, |t.chunks|), available, prefixOnly)) == t
  {
  }

  /** `_limited_body_chunks`. */
  method LimitedBodyChunks(t: Trace, maximum: nat, prefixOnly: bool) returns (r: Trace)
    ensures r == Limited(t, maximum, prefixOnly)
    ensures |Concat(t.chunks)| <= maximum ==> r == t
    ensures |Concat(t.chunks)| > maximum ==>
              && r.ending == (if prefixOnly then PrefixComplete else Failed(TooLarge))
              && Concat(r.chunks) <= Concat(t.chunks)
              && (prefixOnly ==> Concat(r.chunks) == Concat(t.chunks)[..maximum])
    ensures |Concat(r.chunks)| <= maximum
  {
    hide Limited, Concat, After, From;
    LimitMeans(t, maximum, prefixOnly);
    LimitedEnds(t, maximum, prefixOnly);
    var received := 0;
    for i := 0 to |t.chunks|
      invariant received <= maximum
      invariant Limited(t, maximum, prefixOnly)
                == After(t.chunks[..i], Limited(From(t, i), maximum - received, prefixOnly))
    {
      var chunk := t.chunks[i];
      var available := maximum - received;
      LimitedAt(t, i, available, prefixOnly);
      if |chunk| > available {
        if !prefixOnly {
          return Trace(t.chunks[..i], Failed(TooLarge));
        }
        if available > 0 {
          return Trace(t.chunks[..i] + [chunk[..available]], PrefixComplete);
        }
        return Trace(t.chunks[..i], PrefixComplete);
      }
      received := received + |chunk|;
    }
    LimitedEnds(t, maximum - received, prefixOnly);
    return t;
  }

  // ----- one content coding -----

  /** What a decoding layer makes of the trace below it, whatever the chunks: never more than the body
      decodes to, all of it unless it fails, and it fails exactly when the body below it failed, is
      malformed, or ended too early. */
  ghost predicate Decodes(cs: Codecs, coding: Coding, below: Trace, r: Trace)
    requires !cs.gzip.ends([])
  {
    var p := Parse(cs, coding, Concat(below.chunks));
    && Concat(r.chunks) <= p.output
    && (!r.ending.Failed? ==> Concat(r.chunks) == p.output)
    && (r.ending == Exhausted <==> below.ending == Exhausted && p.status == Clean)
    && (r.ending == PrefixComplete <==> below.ending == PrefixComplete && p.status != Malformed)
    && forall k :: 0 <= k < |r.chunks| ==> 0 < |r.chunks[k]| <= 65536
  }

  /** A layer as a function of the trace below it: where its decoder stands, unless it raised, and what it
      has yielded. */
  datatype Drained = Drained(state: Option<DecoderState>, out: seq<Bytes>)

  /** At most `n` more calls of the inner loop. */
  function DrainN(cs: Codecs, s: DecoderState, data: Bytes, out: seq<Bytes>, n: nat): Option<Drained>
    requires !cs.gzip.ends([])
    decreases n
  {
    match DecoderTurn(cs, s, data)
    case Broke => Some(Drained(None, out))
    case Turned(t, output) =>
      var all := if output == [] then out else out + [output];
      if !t.Pending() then Some(Drained(Some(t), all))
      else if n == 0 then None
      else DrainN(cs, t, [], all, n - 1)
  }

  lemma {:induction false} DrainLonger(cs: Codecs, s: DecoderState, data: Bytes, out: seq<Bytes>, n: nat, m: nat)
    requires !cs.gzip.ends([]) && DrainN(cs, s, data, out, n).Some? && n <= m
    ensures DrainN(cs, s, data, out, m) == DrainN(cs, s, data, out, n)
    decreases n
  {
    hide DecoderTurn;
    var turn := DecoderTurn(cs, s, data);
    if turn.Turned? && turn.next.Pending() {
      DrainLonger(cs, turn.next, [], if turn.output == [] then out else out + [turn.output], n - 1, m - 1);
    }
  }

  /** The inner loop, run to its end. */
  ghost function Drain(cs: Codecs, s: DecoderState, data: Bytes, out: seq<Bytes>): Drained
    requires !cs.gzip.ends([])
  {
    if n: nat :| DrainN(cs, s, data, out, n).Some? then DrainN(cs, s, data, out, n).value else Drained(None, out)
  }

  lemma DrainIs(cs: Codecs, s: DecoderState, data: Bytes, out: seq<Bytes>, n: nat)
    requires !cs.gzip.ends([]) && DrainN(cs, s, data, out, n).Some?
    ensures Drain(cs, s, data, out) == DrainN(cs, s, data, out, n).value
  {
    hide DrainN;
    var m: nat :| DrainN(cs, s, data, out, m).Some? && Drain(cs, s, data, out) == DrainN(cs, s, data, out, m).value;
    if m <= n {
      DrainLonger(cs, s, data, out, m, n);
    } else {
      DrainLonger(cs, s, data, out, n, m);
    }
  }

  /** From `s` the loop goes on as it does from `s0` after `calls` calls. */
  ghost predicate Continues(cs: Codecs, s0: DecoderState, chunk: Bytes, parts: seq<Bytes>, calls: nat,
                            s: DecoderState, data: Bytes, out: seq<Bytes>)
    requires !cs.gzip.ends([])
  {
    forall n: nat {:trigger DrainN(cs, s, data, out, n)} ::
      DrainN(cs, s0, chunk, parts, calls + n) == DrainN(cs, s, data, out, n)
  }

  lemma StartsHere(cs: Codecs, s: DecoderState, chunk: Bytes, parts: seq<Bytes>)
    requires !cs.gzip.ends([])
    ensures Continues(cs, s, chunk, parts, 0, s, chunk, parts)
  {
  }

  lemma DrainTurns(cs: Codecs, s0: DecoderState, chunk: Bytes, parts: seq<Bytes>, calls: nat,
                   s: DecoderState, data: Bytes, out: seq<Bytes>)
    requires !cs.gzip.ends([]) && Continues(cs, s0, chunk, parts, calls, s, data, out)
    ensures var turn := DecoderTurn(cs, s, data);
            && (turn.Broke? ==> Drain(cs, s0, chunk, parts) == Drained(None, out))
            && (turn.Turned? ==>
                  var all := if turn.output == [] then out else out + [turn.output];
                  if turn.next.Pending() then Continues(cs, s0, chunk, parts, calls + 1, turn.next, [], all)
                  else Drain(cs, s0, chunk, parts) == Drained(Some(turn.next), all))
  {
    hide DecoderTurn, Drain;
    var turn := DecoderTurn(cs, s, data);
    if turn.Turned? && turn.next.Pending() {
      var all := if turn.output == [] then out else out + [turn.output];
      forall n: nat ensures DrainN(cs, s0, chunk, parts, calls + 1 + n) == DrainN(cs, turn.next, [], all, n) {
        assert DrainN(cs, s, data, out, n + 1) == DrainN(cs, turn.next, [], all, n);
        assert calls + (n + 1) == calls + 1 + n;
      }
    } else {
      assert DrainN(cs, s, data, out, 0).Some?;
      assert calls + 0 == calls;
      DrainIs(cs, s0, chunk, parts, calls);
    }
  }

  ghost function DrainAll(cs: Codecs, s: DecoderState, chunks: seq<Bytes>, out: seq<Bytes>): Drained
    requires !cs.gzip.ends([])
    decreases |chunks|
  {
    if chunks == [] then Drained(Some(s), out)
    else
      var d := Drain(cs, s, chunks[0], out);
      if d.state == None then d else DrainAll(cs, d.state.value, chunks[1..], d.out)
  }

  /** The decoding layer. */
  ghost function Layer(cs: Codecs, coding: Coding, below: Trace): Trace
    requires !cs.gzip.ends([])
  {
    var d := DrainAll(cs, NewState(coding), below.chunks, []);
    Trace(d.out, if d.state == None then Failed(Undecodable)
                 else if below.ending != Exhausted then below.ending
                 else if d.state.value.Finished() then Exhausted else Failed(Undecodable))
  }

  /** The inner loop of `_decoded_body_chunks`: drive the decoder until no output is pending. */
  method DrainDecoder(decoder: ContentDecoder, chunk: Bytes, parts: seq<Bytes>) returns (ok: bool, out: seq<Bytes>)
    requires decoder.Valid() && AllLawful(decoder.Codecs()) && !decoder.Codecs().gzip.ends([])
    requires Concat(parts) == decoder.Returned()
    requires forall k :: 0 <= k < |parts| ==> 0 < |parts[k]| <= 65536
    modifies decoder.Repr()
    ensures Drain(decoder.Codecs(), old(decoder.Value()), chunk, parts)
            == Drained(if ok then Some(decoder.Value()) else None, out)
    ensures decoder.History() == old(decoder.History()) + chunk
    ensures forall k :: 0 <= k < |out| ==> 0 < |out[k]| <= 65536
    ensures ok ==>
              decoder.Valid() && fresh(decoder.Repr() - old(decoder.Repr())) && !decoder.OutputPending()
              && Concat(out) == decoder.Returned()
    ensures !ok ==> Parse(decoder.Codecs(), decoder.Coding(), decoder.History()).status == Malformed
                    && Concat(out) <= Parse(decoder.Codecs(), decoder.Coding(), decoder.History()).output
  {
    hide AllLawful, GzipParse, DeflateParse, ContentDecoder.Valid, DecoderTurn, Continues, Drain, Parse,
      ContentDecoder.Value;
    StartsHere(decoder.Codecs(), decoder.Value(), chunk, parts);
    ghost var calls: nat := 0;
    ghost var s0 := decoder.Value();
    ghost var cs, coding, history := decoder.Codecs(), decoder.Coding(), decoder.History() + chunk;
    decoder.OutputSoFar();
    SoFar(cs, coding, decoder.History(), chunk, Concat(parts));
    out := parts;
    var data := chunk;
    ghost var first := true;
    while true
      invariant decoder.Valid() && fresh(decoder.Repr() - old(decoder.Repr()))
      invariant decoder.History() + data == history && (!first ==> data == [])
      invariant Concat(out) == decoder.Returned() && Concat(out) <= Parse(cs, coding, history).output
      invariant forall k :: 0 <= k < |out| ==> 0 < |out[k]| <= 65536
      invariant Continues(cs, s0, chunk, parts, calls, decoder.Value(), data, out)
      decreases first, |Parse(cs, coding, history).output| - |Concat(out)|
    {
      ghost var s := decoder.Value();
      var r := decoder.Decompress(data);
      DrainTurns(cs, s0, chunk, parts, calls, s, data, out);
      PendingAsValued(decoder);
      if r.Err? {
        return false, out;
      }
      decoder.OutputSoFar();
      data := [];
      first := false;
      if r.value != [] {
        ConcatOne(out, r.value);
        out := out + [r.value];
      }
      if !decoder.OutputPending() {
        return true, out;
      }
      calls := calls + 1;
    }
  }

  lemma SoFar(cs: Codecs, coding: Coding, x: Bytes, y: Bytes, returned: Bytes)
    requires AllLawful(cs) && !cs.gzip.ends([]) && returned <= Parse(cs, coding, x).output
    ensures returned <= Parse(cs, coding, x + y).output
  {
    hide AllLawful, GzipParse, DeflateParse;
    ParseGrows(cs, coding, x, y);
  }

  /** The loop of `_decoded_body_chunks` over the chunks below. */
  method DecodeChunks(decoder: ContentDecoder, chunks: seq<Bytes>) returns (ok: bool, out: seq<Bytes>)
    requires decoder.Valid() && AllLawful(decoder.Codecs()) && !decoder.Codecs().gzip.ends([])
    requires decoder.History() == [] && decoder.Returned() == [] && !decoder.OutputPending()
    modifies decoder.Repr()
    ensures DrainAll(decoder.Codecs(), old(decoder.Value()), chunks, [])
            == Drained(if ok then Some(decoder.Value()) else None, out)
    ensures forall k :: 0 <= k < |out| ==> 0 < |out[k]| <= 65536
    ensures ok ==>
              decoder.Valid() && !decoder.OutputPending() && decoder.History() == Concat(chunks)
              && Concat(out) == decoder.Returned()
    ensures !ok ==> Parse(decoder.Codecs(), decoder.Coding(), Concat(chunks)).status == Malformed
                    && Concat(out) <= Parse(decoder.Codecs(), decoder.Coding(), Concat(chunks)).output
  {
    hide AllLawful, GzipParse, DeflateParse, ContentDecoder.Valid, ContentDecoder.Value, Parse, Drain, DrainAll, Concat;
    NothingJoined();
    assert chunks[0..] == chunks && chunks[..0] == [];
    ok, out := true, [];
    ghost var whole := DrainAll(decoder.Codecs(), decoder.Value(), chunks, []);
    for i := 0 to |chunks|
      invariant whole == DrainAll(decoder.Codecs(), decoder.Value(), chunks[i..], out)
      invariant ok && decoder.Valid() && fresh(decoder.Repr() - old(decoder.Repr())) && !decoder.OutputPending()
      invariant decoder.History() == Concat(chunks[..i]) && Concat(out) == decoder.Returned()
      invariant forall k :: 0 <= k < |out| ==> 0 < |out[k]| <= 65536
    {
      ConcatOne(chunks[..i], chunks[i]);
      assert chunks[..i + 1] == chunks[..i] + [chunks[i]];
      DrainNext(decoder.Codecs(), decoder.Value(), chunks, i, out);
      ok, out := DrainDecoder(decoder, chunks[i], out);
      if !ok {
        ConcatTaken(chunks, i + 1);
        ParseGrows(decoder.Codecs(), decoder.Coding(), decoder.History(), Concat(chunks[i + 1..]));
        return;
      }
    }
    assert chunks[..|chunks|] == chunks && chunks[|chunks|..] == [];
    DrainEnds(decoder.Codecs(), decoder.Value(), out);
  }

  lemma DrainEnds(cs: Codecs, s: DecoderState, out: seq<Bytes>)
    requires !cs.gzip.ends([])
    ensures DrainAll(cs, s, [], out) == Drained(Some(s), out)
  {
  }

  lemma DrainNext(cs: Codecs, s: DecoderState, chunks: seq<Bytes>, i: nat, out: seq<Bytes>)
    requires !cs.gzip.ends([]) && i < |chunks|
    ensures var d := Drain(cs, s, chunks[i], out);
            DrainAll(cs, s, chunks[i..], out)
            == if d.state == None then d else DrainAll(cs, d.state.value, chunks[i + 1..], d.out)
  {
    hide Drain;
    assert chunks[i..][0] == chunks[i] && chunks[i..][1..] == chunks[i + 1..];
  }

  lemma NothingJoined()
    ensures Concat([]) == []
  {
  }

  /** `_decoded_body_chunks`. */
  method DecodedBodyChunks(decoder: ContentDecoder, below: Trace) returns (r: Trace)
    requires decoder.Valid() && AllLawful(decoder.Codecs()) && !decoder.Codecs().gzip.ends([])
    requires decoder.History() == [] && decoder.Returned() == [] && decoder.Value() == NewState(decoder.Coding())
    modifies decoder.Repr()
    ensures r == Layer(decoder.Codecs(), decoder.Coding(), below)
    ensures Decodes(decoder.Codecs(), decoder.Coding(), below, r)
  {
    hide AllLawful, GzipParse, DeflateParse, ContentDecoder.Valid, Parse, DrainAll;
    PendingAsValued(decoder);
    var ok, out := DecodeChunks(decoder, below.chunks);
    if !ok {
      return Trace(out, Failed(Undecodable));
    }
    decoder.OutputSoFar();
    if below.ending != Exhausted {
      return Trace(out, below.ending);
    }
    var clean := decoder.Finish();
    return Trace(out, if clean then Exhausted else Failed(Undecodable));
  }

  lemma PendingAsValued(decoder: ContentDecoder)
    ensures decoder.OutputPending() == decoder.Value().Pending()
  {
  }

  /** A fresh decoder for one coding. */
  method NewDecoder(cs: Codecs, coding: Coding) returns (decoder: ContentDecoder)
    requires AllLawful(cs)
    ensures decoder.Valid() && decoder.Codecs() == cs && decoder.Coding() == coding && fresh(decoder.Repr())
    ensures decoder.History() == [] && decoder.Returned() == [] && decoder.Value() == NewState(coding)
  {
    match coding
    case GzipCoding =>
      var gzip := new GzipDecoder(cs.gzip);
      decoder := Gzip(cs, gzip);
    case DeflateCoding =>
      var deflate := new DeflateDecoder(cs);
      decoder := Deflate(deflate);
  }

  // ----- what a read should return -----

  /** A full read: every layer clean and within the limit, or nothing. `codings` in removal order. */
  function DecodeFull(cs: Codecs, codings: seq<Coding>, maximum: nat, x: Bytes): Option<Bytes>
    requires !cs.gzip.ends([])
    decreases |codings|
  {
    if |x| > maximum then None
    else if codings == [] then Some(x)
    else
      var p := Parse(cs, codings[0], x);
      if p.status == Clean then DecodeFull(cs, codings[1..], maximum, p.output) else None
  }

  /** A prefix-only read: at every layer the first `maximum` bytes of what the first `maximum` bytes of
      the layer below decode to. */
  function DecodePrefix(cs: Codecs, codings: seq<Coding>, maximum: nat, x: Bytes): Bytes
    requires !cs.gzip.ends([])
    decreases |codings|
  {
    if codings == [] then Take(x, maximum)
    else DecodePrefix(cs, codings[1..], maximum, Parse(cs, codings[0], Take(x, maximum)).output)
  }

  /** Such a read cannot fail: no layer is malformed, and none is cut short unless the limit cut it. */
  predicate PrefixIsSure(cs: Codecs, codings: seq<Coding>, maximum: nat, x: Bytes, cut: bool)
    requires !cs.gzip.ends([])
    decreases |codings|
  {
    codings == [] ||
    var p, limited := Parse(cs, codings[0], Take(x, maximum)), cut || |x| > maximum;
    p.status != Malformed && (limited || p.status == Clean)
        && PrefixIsSure(cs, codings[1..], maximum, p.output, limited)
  }

  /** Trace `t` carries exactly `x`, or it failed on the way there. */
  ghost predicate Carries(t: Trace, x: Bytes) {
    Concat(t.chunks) <= x && (!t.ending.Failed? ==> Concat(t.chunks) == x)
  }

  lemma LimitCarries(t: Trace, r: Trace, x: Bytes, maximum: nat)
    requires Carries(t, x)
    requires |Concat(t.chunks)| <= maximum ==> r == t
    requires |Concat(t.chunks)| > maximum
             ==> r.ending == PrefixComplete && Concat(r.chunks) == Concat(t.chunks)[..maximum]
    ensures Carries(r, Take(x, maximum))
  {
    if |Concat(t.chunks)| > maximum {
      assert Concat(t.chunks)[..maximum] == x[..maximum];
    }
  }

  lemma DecodingCarries(cs: Codecs, coding: Coding, below: Trace, r: Trace, x: Bytes)
    requires AllLawful(cs) && !cs.gzip.ends([]) && Decodes(cs, coding, below, r) && Carries(below, x)
    ensures Carries(r, Parse(cs, coding, x).output)
  {
    hide AllLawful, Parse;
    var got := Concat(below.chunks);
    assert x == got + x[|got|..];
    ParseGrows(cs, coding, got, x[|got|..]);
  }

  // ----- what a read does -----

  /** The remaining layers over trace `t`, each with its own limit. */
  ghost function Layers(cs: Codecs, codings: seq<Coding>, t: Trace, maximum: nat, prefixOnly: bool): Trace
    requires !cs.gzip.ends([])
    decreases |codings|
  {
    if codings == [] then t
    else Layers(cs, codings[1..], Limited(Layer(cs, codings[0], t), maximum, prefixOnly), maximum, prefixOnly)
  }

  function Joined(t: Trace): Result<Bytes, BodyError> {
    if t.ending.Failed? then Err(t.ending.error) else Ok(Concat(t.chunks))
  }

  /** `_decode_body`: its result, error or prefix included, for these very chunks. */
  ghost function DecodeBody(cs: Codecs, codings: seq<Coding>, wire: seq<Bytes>, maximum: nat,
                            prefixOnly: bool): Result<Bytes, BodyError>
    requires !cs.gzip.ends([])
  {
    Joined(Layers(cs, codings, Limited(Trace(wire, Exhausted), maximum, prefixOnly), maximum, prefixOnly))
  }

  lemma NoMoreLayers(cs: Codecs, t: Trace, maximum: nat, prefixOnly: bool)
    requires !cs.gzip.ends([])
    ensures Layers(cs, [], t, maximum, prefixOnly) == t
  {
  }

  lemma LayersStep(cs: Codecs, codings: seq<Coding>, i: nat, t: Trace, maximum: nat, prefixOnly: bool)
    requires !cs.gzip.ends([]) && i < |codings|
    ensures codings[i..][0] == codings[i] && codings[i..][1..] == codings[i + 1..]
    ensures Layers(cs, codings[i..], t, maximum, prefixOnly)
            == Layers(cs, codings[i + 1..], Limited(Layer(cs, codings[i], t), maximum, prefixOnly), maximum, prefixOnly)
  {
    hide Layer, Limited;
    assert codings[i..][1..] == codings[i + 1..];
  }

  /** `_decode_body` in full mode: what it returns depends on the bytes alone, not on the chunks. */
  method DecodeBodyFull(cs: Codecs, codings: seq<Coding>, wire: seq<Bytes>, maximum: nat)
      returns (r: Result<Bytes, BodyError>)
    requires AllLawful(cs) && !cs.gzip.ends([])
    ensures match DecodeFull(cs, codings, maximum, Concat(wire))
            case Some(body) => r == Ok(body)
            case None => r.Err?
    ensures r == DecodeBody(cs, codings, wire, maximum, false)
  {
    hide AllLawful, Parse, Layer, Layers, Limited;
    ghost var final := DecodeFull(cs, codings, maximum, Concat(wire));
    var t := LimitedBodyChunks(Trace(wire, Exhausted), maximum, false);
    assert codings[0..] == codings;
    for i := 0 to |codings|
      invariant DecodeBody(cs, codings, wire, maximum, false) == Joined(Layers(cs, codings[i..], t, maximum, false))
      invariant t.ending != PrefixComplete && |Concat(t.chunks)| <= maximum
      invariant t.ending == Exhausted ==> DecodeFull(cs, codings[i..], maximum, Concat(t.chunks)) == final
      invariant t.ending != Exhausted ==> final == None
    {
      LayersStep(cs, codings, i, t, maximum, false);
      var decoder := NewDecoder(cs, codings[i]);
      var decoded := DecodedBodyChunks(decoder, t);
      t := LimitedBodyChunks(decoded, maximum, false);
    }
    assert codings[|codings|..] == [];
    NoMoreLayers(cs, t, maximum, false);
    match t.ending
    case Exhausted => return Ok(Concat(t.chunks));
    case Failed(error) => return Err(error);
  }

  /** `_decode_body` in prefix mode: whatever the chunks, a read that succeeds returns the prefix. */
  method DecodeBodyPrefix(cs: Codecs, codings: seq<Coding>, wire: seq<Bytes>, maximum: nat)
      returns (r: Result<Bytes, BodyError>)
    requires AllLawful(cs) && !cs.gzip.ends([])
    ensures r.Ok? ==> r.value == DecodePrefix(cs, codings, maximum, Concat(wire)) && |r.value| <= maximum
    ensures PrefixIsSure(cs, codings, maximum, Concat(wire), false) ==> r.Ok?
    ensures r == DecodeBody(cs, codings, wire, maximum, true)
  {
    hide AllLawful, Parse, Layer, Layers, Limited;
    ghost var final := DecodePrefix(cs, codings, maximum, Concat(wire));
    ghost var sure := PrefixIsSure(cs, codings, maximum, Concat(wire), false);
    ghost var x := Concat(wire);
    var t := LimitedBodyChunks(Trace(wire, Exhausted), maximum, true);
    LimitCarries(Trace(wire, Exhausted), t, x, maximum);
    ghost var cut := t.ending == PrefixComplete;
    assert codings[0..] == codings;
    for i := 0 to |codings|
      invariant DecodeBody(cs, codings, wire, maximum, true) == Joined(Layers(cs, codings[i..], t, maximum, true))
      invariant Carries(t, Take(x, maximum)) && |Concat(t.chunks)| <= maximum
      invariant DecodePrefix(cs, codings[i..], maximum, x) == final
      invariant sure ==> !t.ending.Failed? && SureFrom(cs, codings[i..], maximum, x, t.ending == PrefixComplete)
    {
      LayersStep(cs, codings, i, t, maximum, true);
      ghost var below := Take(x, maximum);
      var decoder := NewDecoder(cs, codings[i]);
      var decoded := DecodedBodyChunks(decoder, t);
      DecodingCarries(cs, codings[i], t, decoded, below);
      x := Parse(cs, codings[i], below).output;
      t := LimitedBodyChunks(decoded, maximum, true);
      LimitCarries(decoded, t, x, maximum);
    }
    assert codings[|codings|..] == [];
    NoMoreLayers(cs, t, maximum, true);
    if t.ending.Failed? {
      return Err(t.ending.error);
    }
    return Ok(Concat(t.chunks));
  }

  /** `PrefixIsSure` once the limit has been applied at this layer. */
  predicate SureFrom(cs: Codecs, codings: seq<Coding>, maximum: nat, x: Bytes, limited: bool)
    requires !cs.gzip.ends([])
  {
    codings == [] ||
    var p := Parse(cs, codings[0], Take(x, maximum));
    p.status != Malformed && (limited || p.status == Clean)
        && PrefixIsSure(cs, codings[1..], maximum, p.output, limited)
  }

  // ----- the codings of a response -----

  const MAX_CONTENT_CODINGS: nat := 4

  function CodingOf(token: string): Option<Coding> {
    if token == "gzip" then Some(GzipCoding) else if token == "deflate" then Some(DeflateCoding) else None
  }

  function Reverse<T>(xs: seq<T>): (r: seq<T>)
    ensures |r| == |xs|
  {
    if xs == [] then [] else Reverse(xs[1..]) + [xs[0]]
  }

  /** `_content_decoders`: the last coding applied comes off first; too many or unknown ones are refused. */
  method ContentCodings(tokens: seq<string>) returns (r: Option<seq<Coding>>)
    ensures r == None <==> |tokens| > 4 || exists i :: 0 <= i < |tokens| && tokens[i] !in {"gzip", "deflate"}
    ensures r.Some? ==>
              && |r.value| == |tokens|
              && forall i :: 0 <= i < |tokens| ==>
                   r.value[|tokens| - 1 - i] == if tokens[i] == "gzip" then GzipCoding else DeflateCoding
  {
    if |tokens| > MAX_CONTENT_CODINGS {
      return None;
    }
    var codings: seq<Coding> := [];
    for i := 0 to |tokens|
      invariant |codings| == i
      invariant forall k :: 0 <= k < i ==> CodingOf(tokens[|tokens| - 1 - k]) == Some(codings[k])
    {
      var token := tokens[|tokens| - 1 - i];
      if CodingOf(token) == None {
        return None;
      }
      codings := codings + [CodingOf(token).value];
    }
    forall i | 0 <= i < |tokens| ensures CodingOf(tokens[i]) == Some(codings[|tokens| - 1 - i]) {
      assert CodingOf(tokens[|tokens| - 1 - (|tokens| - 1 - i)]) == Some(codings[|tokens| - 1 - i]);
    }
    return Some(codings);
  }

  // ----- reading the wire -----

  /** The chunks that are read: the empty ones are dropped, and the first one past the limit is the last. */
  function CutWire(chunks: seq<Bytes>, available: nat): seq<Bytes> {
    if chunks == [] then []
    else if chunks[0] == [] then CutWire(chunks[1..], available)
    else if |chunks[0]| > available then [chunks[0]]
    else [chunks[0]] + CutWire(chunks[1..], available - |chunks[0]|)
  }

  function NonEmpty(chunks: seq<Bytes>): seq<Bytes> {
    if chunks == [] then [] else (if chunks[0] == [] then [] else [chunks[0]]) + NonEmpty(chunks[1..])
  }

  /** To the limiter the cut wire is the whole one, in both modes, chunk by chunk and in how it ends. */
  lemma {:induction false} CutIsUnseen(chunks: seq<Bytes>, available: nat, prefixOnly: bool)
    ensures Limited(Trace(CutWire(chunks, available), Exhausted), available, prefixOnly)
            == Limited(Trace(NonEmpty(chunks), Exhausted), available, prefixOnly)
    decreases |chunks|
  {
    if chunks != [] {
      var chunk, rest := chunks[0], chunks[1..];
      if chunk == [] {
        CutIsUnseen(rest, available, prefixOnly);
        assert NonEmpty(chunks) == NonEmpty(rest);
      } else {
        assert ([chunk] + NonEmpty(rest))[1..] == NonEmpty(rest);
        if |chunk| <= available {
          CutIsUnseen(rest, available - |chunk|, prefixOnly);
          assert ([chunk] + CutWire(rest, available - |chunk|))[1..] == CutWire(rest, available - |chunk|);
        }
      }
    }
  }

  /** Stopping at the first chunk past the limit gives the outcome of reading the whole body, value or
      error, in both modes. */
  lemma CutIsHarmless(cs: Codecs, codings: seq<Coding>, chunks: seq<Bytes>, maximum: nat, prefixOnly: bool)
    requires !cs.gzip.ends([])
    ensures DecodeBody(cs, codings, CutWire(chunks, maximum), maximum, prefixOnly)
            == DecodeBody(cs, codings, NonEmpty(chunks), maximum, prefixOnly)
  {
    hide Layers, Limited;
    CutIsUnseen(chunks, maximum, prefixOnly);
  }

  /** Nothing is read once the limit is passed: everything before the last chunk is within it. */
  lemma {:induction false} CutStops(chunks: seq<Bytes>, available: nat, k: nat)
    requires k < |CutWire(chunks, available)|
    ensures |Concat(CutWire(chunks, available)[..k])| <= available
    ensures CutWire(chunks, available)[k] != []
    decreases |chunks|
  {
    var wire := CutWire(chunks, available);
    if k > 0 && chunks[0] != [] {
      var tail := CutWire(chunks[1..], available - |chunks[0]|);
      CutStops(chunks[1..], available - |chunks[0]|, k - 1);
      assert wire[..k] == [chunks[0]] + tail[..k - 1];
      assert wire[..k][1..] == tail[..k - 1];
    } else if chunks[0] == [] {
      CutStops(chunks[1..], available, k);
    }
  }

  /** What is cut off lies past the limit. */
  lemma {:induction false} CutStarts(chunks: seq<Bytes>, available: nat)
    ensures Concat(CutWire(chunks, available)) <= Concat(chunks)
    ensures Concat(CutWire(chunks, available)) == Concat(chunks) || |Concat(CutWire(chunks, available))| > available
    decreases |chunks|
  {
    if chunks != [] && |chunks[0]| <= available {
      CutStarts(chunks[1..], available - |chunks[0]|);
      var tail := CutWire(chunks[1..], available - |chunks[0]|);
      assert chunks[0] != [] ==> ([chunks[0]] + tail)[1..] == tail;
      assert chunks[0] == [] ==> Concat(chunks) == Concat(chunks[1..]);
    } else if chunks != [] {
      assert Concat([chunks[0]]) == chunks[0] + Concat([]);
    }
  }

  /** The read loop of `_read_response_body`. */
  method ReadWire(chunks: seq<Bytes>, maximum: nat) returns (wire: seq<Bytes>)
    ensures wire == CutWire(chunks, maximum)
    ensures Concat(wire) <= Concat(chunks)
    ensures Concat(wire) == Concat(chunks) || |Concat(wire)| > maximum
    ensures forall k :: 0 <= k < |wire| ==> |Concat(wire[..k])| <= maximum && wire[k] != []
  {
    hide Concat;
    CutStarts(chunks, maximum);
    forall k | 0 <= k < |CutWire(chunks, maximum)|
      ensures |Concat(CutWire(chunks, maximum)[..k])| <= maximum && CutWire(chunks, maximum)[k] != []
    {
      CutStops(chunks, maximum, k);
    }
    wire := [];
    var received := 0;
    for i := 0 to |chunks|
      invariant received <= maximum
      invariant CutWire(chunks, maximum) == wire + CutWire(chunks[i..], maximum - received)
    {
      var chunk := chunks[i];
      assert chunks[i..][0] == chunk && chunks[i..][1..] == chunks[i + 1..];
      if chunk == [] {
        continue;
      }
      ghost var tail := CutWire(chunks[i..], maximum - received);
      assert wire + ([chunk] + tail[1..]) == (wire + [chunk]) + tail[1..];
      wire := wire + [chunk];
      received := received + |chunk|;
      if received > maximum {
        return;
      }
    }
  }

  /** A full read of the bytes read, and a prefix of them, are those of all the bytes. */
  lemma CutDecodesAlike(cs: Codecs, codings: seq<Coding>, maximum: nat, read: Bytes, whole: Bytes)
    requires !cs.gzip.ends([]) && read <= whole && (read == whole || |read| > maximum)
    ensures DecodeFull(cs, codings, maximum, read) == DecodeFull(cs, codings, maximum, whole)
    ensures DecodePrefix(cs, codings, maximum, read) == DecodePrefix(cs, codings, maximum, whole)
    ensures PrefixIsSure(cs, codings, maximum, read, false) == PrefixIsSure(cs, codings, maximum, whole, false)
  {
    hide Parse;
    assert Take(read, maximum) == Take(whole, maximum);
    if codings != [] {
      PrefixOfTaken(cs, codings, maximum, read, whole);
    }
  }

  lemma PrefixOfTaken(cs: Codecs, codings: seq<Coding>, maximum: nat, read: Bytes, whole: Bytes)
    requires !cs.gzip.ends([]) && codings != [] && Take(read, maximum) == Take(whole, maximum)
    ensures DecodePrefix(cs, codings, maximum, read) == DecodePrefix(cs, codings, maximum, whole)
  {
    hide Parse;
  }

  /** A response whose codings a read takes off. */
  predicate Supported(tokens: seq<string>) {
    |tokens| <= 4 && forall i :: 0 <= i < |tokens| ==> tokens[i] in {"gzip", "deflate"}
  }

  /** The outcome of decoding every non-empty chunk of the body, had the wire been read to its end. */
  ghost function WholeBody(cs: Codecs, tokens: seq<string>, declared: Option<nat>, chunks: seq<Bytes>, maximum: nat,
                           prefixOnly: bool)
    : Result<(Bytes, bool), BodyError>
    requires !cs.gzip.ends([])
  {
    if !Supported(tokens) then Err(Undecodable)
    else if !prefixOnly && declared.Some? && declared.value > maximum then Err(TooLarge)
    else
      var body := DecodeBody(cs, Removal(tokens), NonEmpty(chunks), maximum, prefixOnly);
      if body.Ok? then Ok((body.value, tokens != [])) else Err(body.error)
  }

  /** What a full read returns, as a function of the bytes alone. */
  function FullBody(cs: Codecs, tokens: seq<string>, declared: Option<nat>, x: Bytes, maximum: nat): Option<Bytes>
    requires !cs.gzip.ends([])
  {
    if Supported(tokens) && (declared.Some? ==> declared.value <= maximum)
        then DecodeFull(cs, Removal(tokens), maximum, x) else None
  }

  /** `_read_response_body` in full mode, for a response that may have a body: all of it or an error. */
  method ReadResponseBody(cs: Codecs, tokens: seq<string>, declared: Option<nat>, chunks: seq<Bytes>, maximum: nat)
    returns (r: Result<(Bytes, bool), BodyError>)
    requires AllLawful(cs) && !cs.gzip.ends([])
    ensures r == WholeBody(cs, tokens, declared, chunks, maximum, false)
    ensures match FullBody(cs, tokens, declared, Concat(chunks), maximum)
            case Some(body) => r == Ok((body, tokens != []))
            case None => r.Err?
  {
    hide AllLawful, Parse, DecodeFull, DecodePrefix, PrefixIsSure, DecodeBody, CutWire;
    var codings := ContentCodings(tokens);
    if codings == None {
      return Err(Undecodable);
    }
    RemovalIs(tokens, codings.value);
    if declared.Some? && declared.value > maximum {
      return Err(TooLarge);
    }
    var wire := ReadWire(chunks, maximum);
    CutDecodesAlike(cs, codings.value, maximum, Concat(wire), Concat(chunks));
    CutIsHarmless(cs, codings.value, chunks, maximum, false);
    var body := DecodeBodyFull(cs, codings.value, wire, maximum);
    match body
    case Ok(bytes) => return Ok((bytes, codings.value != []));
    case Err(error) => return Err(error);
  }

  /** `_read_response_body` in prefix mode. */
  method ReadResponsePrefix(cs: Codecs, tokens: seq<string>, chunks: seq<Bytes>, maximum: nat)
    returns (r: Result<(Bytes, bool), BodyError>)
    requires AllLawful(cs) && !cs.gzip.ends([])
    ensures r == WholeBody(cs, tokens, None, chunks, maximum, true)
    ensures r.Ok? ==>
              && Supported(tokens)
              && r.value == (DecodePrefix(cs, Removal(tokens), maximum, Concat(chunks)), tokens != [])
    ensures Supported(tokens) && PrefixIsSure(cs, Removal(tokens), maximum, Concat(chunks), false) ==> r.Ok?
  {
    hide AllLawful, Parse, DecodeFull, DecodePrefix, PrefixIsSure, DecodeBody, CutWire;
    var codings := ContentCodings(tokens);
    if codings == None {
      return Err(Undecodable);
    }
    RemovalIs(tokens, codings.value);
    var wire := ReadWire(chunks, maximum);
    CutDecodesAlike(cs, codings.value, maximum, Concat(wire), Concat(chunks));
    CutIsHarmless(cs, codings.value, chunks, maximum, true);
    var body := DecodeBodyPrefix(cs, codings.value, wire, maximum);
    match body
    case Ok(bytes) => return Ok((bytes, codings.value != []));
    case Err(error) => return Err(error);
  }

  /** The supported codings among `tokens`, in the order they were applied, and last one first. */
  function Applied(tokens: seq<string>): seq<Coding> {
    if tokens == [] then []
    else (if CodingOf(tokens[0]).Some? then [CodingOf(tokens[0]).value] else []) + Applied(tokens[1..])
  }

  function Removal(tokens: seq<string>): seq<Coding> {
    Reverse(Applied(tokens))
  }

  lemma {:induction false} RemovalIs(tokens: seq<string>, codings: seq<Coding>)
    requires |codings| == |tokens|
    requires forall i :: 0 <= i < |tokens| ==> CodingOf(tokens[i]) == Some(codings[|tokens| - 1 - i])
    ensures Removal(tokens) == codings
    decreases |tokens|
  {
    if tokens != [] {
      var n := |tokens| - 1;
      var rest, fewer := tokens[1..], codings[..n];
      forall i | 0 <= i < n ensures CodingOf(rest[i]) == Some(fewer[n - 1 - i]) {
        assert rest[i] == tokens[i + 1];
        assert CodingOf(tokens[i + 1]) == Some(codings[n - (i + 1)]);
      }
      RemovalIs(rest, fewer);
      assert CodingOf(tokens[0]) == Some(codings[n]);
      assert Applied(tokens)[1..] == Applied(rest);
      assert codings == fewer + [codings[n]];
    }
  }

  // ----- what a server encoded is what is read -----

  /** A gzip encoder wrote `x` for `content`: complete members, with any padding after each. */
  ghost predicate WritesGzip(c: Codec, members: seq<Member>, content: Bytes, x: Bytes) {
    && members != [] && (forall m :: m in members ==> c.ends(m.stream) && m.stream != [] && m.stream[0] != 0)
    && x == GzipBody(members) && content == GzipContent(c, members)
  }

  /** A deflate encoder wrote `x` for `content`: a complete zlib stream behind a header, or, as some servers
      do, a complete raw stream, which the decoder knows by its having no header. */
  ghost predicate WritesDeflate(cs: Codecs, content: Bytes, x: Bytes) {
    || (cs.zlib.ends(x) && content == cs.zlib.out(x)
        && exists h: ZlibHeader, rest: Bytes :: h.Valid() && x == h.Bytes() + rest)
    || (|x| >= 2 && cs.raw.ends(x) && content == cs.raw.out(x)
        && forall h: ZlibHeader :: h.Valid() ==> !(h.Bytes() <= x))
  }

  ghost predicate Writes(cs: Codecs, coding: Coding, content: Bytes, x: Bytes) {
    match coding
    case GzipCoding => exists members :: WritesGzip(cs.gzip, members, content, x)
    case DeflateCoding => WritesDeflate(cs, content, x)
  }

  lemma WrittenDeflateIsRead(cs: Codecs, content: Bytes, x: Bytes)
    requires AllLawful(cs) && WritesDeflate(cs, content, x)
    ensures DeflateParse(cs, x) == Parsed(content, Clean)
  {
    hide Lawful, DeflateParse;
    if cs.zlib.ends(x) && content == cs.zlib.out(x)
       && exists h: ZlibHeader, rest: Bytes :: h.Valid() && x == h.Bytes() + rest {
      var h: ZlibHeader, rest: Bytes :| h.Valid() && x == h.Bytes() + rest;
      ZlibDecodes(cs, h, rest);
    } else {
      RawDecodes(cs, x);
    }
  }

  lemma WrittenIsRead(cs: Codecs, coding: Coding, content: Bytes, x: Bytes)
    requires AllLawful(cs) && !cs.gzip.ends([]) && Writes(cs, coding, content, x)
    ensures Parse(cs, coding, x) == Parsed(content, Clean)
  {
    hide Lawful, GzipParse, DeflateParse;
    match coding
    case GzipCoding =>
      var members :| WritesGzip(cs.gzip, members, content, x);
      MembersDecode(cs.gzip, members, false);
    case DeflateCoding =>
      WrittenDeflateIsRead(cs, content, x);
  }

  /** `layers[0]` is the body, and for each coding in turn an encoder wrote `layers[i + 1]` for `layers[i]`. */
  ghost predicate Encoded(cs: Codecs, applied: seq<Coding>, layers: seq<Bytes>) {
    && |layers| == |applied| + 1
    && forall i :: 0 <= i < |applied| ==> Writes(cs, applied[i], layers[i], layers[i + 1])
  }

  /** Taking the codings off in reversed order gives back the body the server encoded if every layer fits
      the limit, and otherwise nothing at all. */
  lemma {:induction false} StackedCodingsRoundTrip(cs: Codecs, applied: seq<Coding>, layers: seq<Bytes>, maximum: nat)
    requires AllLawful(cs) && !cs.gzip.ends([]) && Encoded(cs, applied, layers)
    ensures DecodeFull(cs, Reverse(applied), maximum, layers[|applied|])
            == if forall i :: 0 <= i < |layers| ==> |layers[i]| <= maximum then Some(layers[0]) else None
    decreases |applied|
  {
    hide Parse, AllLawful, Writes;
    var n := |applied|;
    if applied != [] {
      StackedCodingsRoundTrip(cs, applied[..n - 1], layers[..n], maximum);
      ReverseLast(applied);
      WrittenIsRead(cs, applied[n - 1], layers[n - 1], layers[n]);
      assert forall i :: 0 <= i < n ==> layers[..n][i] == layers[i];
    }
  }

  /** What a server encoded is what a full read of the response returns, however the wire splits it: the
      body exactly when every layer and the declared length fit the limit. */
  lemma ServedBodyIsRead(cs: Codecs, tokens: seq<string>, layers: seq<Bytes>, declared: Option<nat>, chunks: seq<Bytes>,
                         maximum: nat)
    requires AllLawful(cs) && !cs.gzip.ends([]) && Supported(tokens) && Encoded(cs, Applied(tokens), layers)
    requires Concat(chunks) == layers[|layers| - 1]
    ensures FullBody(cs, tokens, declared, Concat(chunks), maximum)
            == if (forall i :: 0 <= i < |layers| ==> |layers[i]| <= maximum)
                && (declared.Some? ==> declared.value <= maximum)
               then Some(layers[0]) else None
  {
    hide DecodeFull, AllLawful, Concat;
    StackedCodingsRoundTrip(cs, Applied(tokens), layers, maximum);
  }

  lemma {:induction false} ReverseLast<T>(xs: seq<T>)
    requires xs != []
    ensures Reverse(xs) == [xs[|xs| - 1]] + Reverse(xs[..|xs| - 1])
  {
    var last := xs[|xs| - 1];
    if |xs| == 1 {
      assert Reverse(xs[1..]) == [] && Reverse(xs[..0]) == [];
    } else {
      var tail, init := xs[1..], xs[..|xs| - 1];
      ReverseLast(tail);
      assert tail[..|tail| - 1] == init[1..];
      assert Reverse(xs) == Reverse(tail) + [xs[0]];
      assert Reverse(init) == Reverse(init[1..]) + [xs[0]];
    }
  }

  /** How the bytes are split makes no difference to a full read. */
  method ChunkingIsIrrelevant(cs: Codecs, codings: seq<Coding>, one: seq<Bytes>, other: seq<Bytes>, maximum: nat)
    returns (a: Result<Bytes, BodyError>, b: Result<Bytes, BodyError>)
    requires AllLawful(cs) && !cs.gzip.ends([]) && Concat(one) == Concat(other)
    ensures a.Ok? <==> b.Ok?
    ensures a.Ok? ==> a == b
  {
    hide AllLawful, DecodeFull;
    a := DecodeBodyFull(cs, codings, one, maximum);
    b := DecodeBodyFull(cs, codings, other, maximum);
  }
}
