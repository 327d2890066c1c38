/** One zlib stream, seen from outside: camouflare/http_transport.py drives `zlib.decompressobj`, whose
    inner workings are not part of this model. A `Codec` says of a byte string whether it is a complete
    stream, what it decodes to and whether it is malformed, and what the library replies to each call;
    everything is proved for every lawful codec. */
module ZlibStreams {
  import opened Basics

  type Byte = x: nat | x < 256

  type Bytes = seq<Byte>

  /** The first `n` bytes, and the rest. */
  function Take(x: Bytes, n: nat): Bytes {
    if |x| <= n then x else x[..n]
  }

  function Drop(x: Bytes, n: nat): Bytes {
    if |x| <= n then [] else x[n..]
  }

  datatype Call = Call(data: Bytes, cap: nat)

  /** All that happened to a stream: its calls, what it consumed and what it gave out. */
  datatype Stream = Stream(calls: seq<Call>, fed: Bytes, emitted: Bytes)

  /** A call raises, or gives out `output` after consuming `used` bytes of its data. */
  datatype Reply = Raised | Gave(output: Bytes, used: nat)

  datatype Codec = Codec(ends: Bytes -> bool, out: Bytes -> Bytes, bad: Bytes -> bool, reply: (Stream, Call) -> Reply)

  const NEW_STREAM: Stream := Stream([], [], [])

  function Advanced(st: Stream, call: Call, output: Bytes, used: nat): Stream {
    Stream(st.calls + [call], st.fed + Take(call.data, used), st.emitted + output)
  }

  /** The stream is complete and all its output is out. */
  predicate AtEnd(c: Codec, st: Stream) {
    c.ends(st.fed) && st.emitted == c.out(st.fed)
  }

  /** Nothing was given out that the bytes do not decode to, or consumed after the end. */
  ghost predicate Tracks(c: Codec, st: Stream) {
    st.emitted <= c.out(st.fed) && forall n :: 0 <= n < |st.fed| ==> !c.ends(st.fed[..n])
  }

  /** Output grows with the input, an error stays one, complete streams are prefix-free, and bytes after
      a complete stream are no error of the stream. */
  ghost predicate LawfulFormat(c: Codec) {
    && !c.ends([]) && c.out([]) == [] && !c.bad([])
    && (forall x: Bytes, y: Bytes :: x <= y ==> c.out(x) <= c.out(y))
    && (forall x: Bytes, y: Bytes :: x <= y && c.bad(x) ==> c.bad(y))
    && (forall x: Bytes, y: Bytes :: x <= y && c.ends(x) ==> !c.bad(y))
    && (forall x: Bytes, y: Bytes :: x < y && c.ends(x) ==> !c.ends(y))
  }

  /** What a reply may be: how much is consumed once the cap is reached, and when an error is noticed, is
      up to the library. */
  ghost predicate LawfulReply(c: Codec, st: Stream, call: Call, reply: Reply) {
    match reply
    case Raised => c.bad(st.fed + call.data)
    case Gave(output, used) =>
      var after := Advanced(st, call, output, used);
      && used <= |call.data| && |output| <= call.cap && Tracks(c, after)
      && (!AtEnd(c, after) && |output| < call.cap ==>
            after.fed == st.fed + call.data && after.emitted == c.out(after.fed) && !c.bad(after.fed))
  }

  ghost predicate Lawful(c: Codec) {
    && LawfulFormat(c)
    && forall st, call: Call :: Tracks(c, st) && !AtEnd(c, st) && call.cap > 0 ==>
         LawfulReply(c, st, call, c.reply(st, call))
  }

  lemma RepliesLawfully(c: Codec, st: Stream, call: Call)
    requires Lawful(c) && Tracks(c, st) && !AtEnd(c, st) && call.cap > 0
    ensures LawfulReply(c, st, call, c.reply(st, call))
  {
    hide LawfulReply, LawfulFormat;
  }

  // ----- the laws can be met -----

  /** How many bytes a library consumes that reads on until the stream ends. */
  function Consumed(ends: Bytes -> bool, fed: Bytes, data: Bytes, n: nat): (r: nat)
    requires n <= |data|
    ensures n <= r <= |data|
    ensures forall k :: n <= k < r ==> !ends(fed + data[..k])
    ensures r == |data| || ends(fed + data[..r])
    decreases |data| - n
  {
    if n == |data| || ends(fed + data[..n]) then n else Consumed(ends, fed, data, n + 1)
  }

  /** Such a library: it decodes all it can and holds back what does not fit. */
  function EagerReply(ends: Bytes -> bool, out: Bytes -> Bytes, bad: Bytes -> bool, st: Stream, call: Call): Reply {
    var used := Consumed(ends, st.fed, call.data, 0);
    var all := st.fed + call.data[..used];
    if used == |call.data| && bad(all) then Raised else Gave(Take(Drop(out(all), |st.emitted|), call.cap), used)
  }

  function Eager(ends: Bytes -> bool, out: Bytes -> Bytes, bad: Bytes -> bool): Codec {
    Codec(ends, out, bad, (st, call) => EagerReply(ends, out, bad, st, call))
  }

  /** Every lawful format has a lawful library. */
  lemma EagerIsLawful(ends: Bytes -> bool, out: Bytes -> Bytes, bad: Bytes -> bool)
    requires LawfulFormat(Eager(ends, out, bad))
    ensures Lawful(Eager(ends, out, bad))
  {
    var c := Eager(ends, out, bad);
    forall st, call: Call | Tracks(c, st) && !AtEnd(c, st) && call.cap > 0
      ensures LawfulReply(c, st, call, c.reply(st, call))
    {
      EagerReplyIsLawful(c, st, call);
    }
  }

  lemma EagerReplyIsLawful(c: Codec, st: Stream, call: Call)
    requires LawfulFormat(c) && Tracks(c, st) && !AtEnd(c, st) && call.cap > 0
    ensures LawfulReply(c, st, call, EagerReply(c.ends, c.out, c.bad, st, call))
  {
    var used := Consumed(c.ends, st.fed, call.data, 0);
    var all := st.fed + call.data[..used];
    if used == |call.data| {
      assert all == st.fed + call.data;
    }
    forall k | 0 <= k < |all| ensures !c.ends(all[..k]) {
      if k < |st.fed| {
        assert all[..k] == st.fed[..k];
      } else {
        assert all[..k] == st.fed + call.data[..k - |st.fed|];
      }
    }
    assert c.out(st.fed) <= c.out(all);
  }

  /** A stream that stores its content after a length byte is a lawful format. */
  lemma SomeFormatIsLawful()
    ensures LawfulFormat(Eager((x: Bytes) => |x| > 0 && |x| - 1 == x[0], (x: Bytes) => if x == [] then [] else x[1..],
                               (x: Bytes) => false))
  {
  }

  // ----- the object -----

  /** `zlib.decompressobj`, with its public attributes. */
  class ZlibStream {
    const codec: Codec
    var calls: seq<Call>
    var fed: Bytes
    var emitted: Bytes
    var eof: bool
    var unusedData: Bytes
    var unconsumedTail: Bytes

    function Value(): Stream
      reads this
    {
      Stream(calls, fed, emitted)
    }

    ghost predicate Valid()
      reads this
    {
      Tracks(codec, Value()) && (eof <==> AtEnd(codec, Value()))
    }

    constructor (codec: Codec)
      requires Lawful(codec)
      ensures Valid() && this.codec == codec && Value() == NEW_STREAM && !eof
    {
      this.codec := codec;
      calls, fed, emitted, eof, unusedData, unconsumedTail := [], [], [], false, [], [];
    }

    /** `decompress(data, cap)`. */
    method Decompress(data: Bytes, cap: nat) returns (r: Result<Bytes, ()>)
      requires Valid() && Lawful(codec) && !eof && cap > 0
      modifies this
      ensures r.Err? <==> codec.reply(old(Value()), Call(data, cap)) == Raised
      ensures r.Err? ==> codec.bad(old(fed) + data)
      ensures r.Ok? ==>
                && Valid()
                && |old(fed)| <= |fed| <= |old(fed)| + |data|
                && fed == old(fed) + data[..|fed| - |old(fed)|]
                && emitted == old(emitted) + r.value && |r.value| <= cap
                && (if eof then unusedData else unconsumedTail) == data[|fed| - |old(fed)|..]
                && (!eof && |r.value| < cap ==> fed == old(fed) + data && emitted == codec.out(fed) && !codec.bad(fed))
                && codec.reply(old(Value()), Call(data, cap)) == Gave(r.value, |fed| - |old(fed)|)
                && Value() == Advanced(old(Value()), Call(data, cap), r.value, |fed| - |old(fed)|)
    {
      hide Lawful;
      var call := Call(data, cap);
      var reply := codec.reply(Value(), call);
      RepliesLawfully(codec, Value(), call);
      match reply
      case Raised => return Err(());
      case Gave(output, used) =>
        calls, fed, emitted := calls + [call], fed + data[..used], emitted + output;
        eof := codec.ends(fed) && emitted == codec.out(fed);
        unusedData, unconsumedTail := if eof then data[used..] else [], if eof then [] else data[used..];
        assert Value() == Advanced(old(Value()), call, output, used);
        return Ok(output);
    }
  }
}
