/** The resumable decoders `_GzipDecoder` and `_DeflateDecoder` (camouflare/http_transport.py). Whatever
    chunks they are given and however often they stop at their output cap, what they return is what
    ContentCoding says of all the bytes together. */
module ContentDecoders {
  import opened Basics
  import opened ZlibStreams
  import opened ContentCoding

  const CHUNK_BYTES: nat := 65536

  // ----- one call of a decoder, as a function -----

  /** What a call does: it raises, or returns `output` and leaves the decoder at `next`. */
  datatype Turn<S> = Broke | Turned(next: S, output: Bytes)

  datatype GzipState = GzipState(member: Option<Stream>, input: Bytes, completed: nat, pending: bool)

  /** Between two members: padding is skipped, and a member opened unless the input is used up. */
  function OpenedMember(s: GzipState): (r: GzipState)
    requires s.member == None
    ensures |r.input| <= |s.input| && (r.member == None || r.member == Some(NEW_STREAM))
  {
    var input := if s.completed > 0 then StripNuls(s.input) else s.input;
    s.(input := input, member := if input == [] then None else Some(NEW_STREAM))
  }

  /** One call of the open member's stream. */
  function MemberTurn(c: Codec, s: GzipState, cap: nat): (r: Turn<GzipState>)
    requires s.member.Some?
    ensures r.Turned? ==> |r.next.input| <= |s.input|
    ensures r.Turned? && r.next.member == None && s.member == Some(NEW_STREAM) && !c.ends([])
            ==> |r.next.input| < |s.input|
  {
    match c.reply(s.member.value, Call(s.input, cap))
    case Raised => Broke
    case Gave(output, used) =>
      var st, rest := Advanced(s.member.value, Call(s.input, cap), output, used), Drop(s.input, used);
      assert s.member == Some(NEW_STREAM) && |rest| == |s.input| ==> st.fed == [];
      Turned(if AtEnd(c, st) then GzipState(None, rest, s.completed + 1, s.pending)
             else GzipState(Some(st), rest, s.completed, s.pending), output)
  }

  /** The loop over members, with `output` so far. */
  function GzipFill(c: Codec, s: GzipState, output: Bytes): Turn<GzipState>
    requires !c.ends([])
    decreases 2 * |s.input| + if s.member == None then 0 else 1
  {
    if |output| >= CHUNK_BYTES then Turned(s, output)
    else
      var o := if s.member == None then OpenedMember(s) else s;
      if o.member == None then Turned(o, output)
      else
        var turn := MemberTurn(c, o, CHUNK_BYTES - |output|);
        if turn.Broke? then Broke
        else if turn.next.member == None then GzipFill(c, turn.next, output + turn.output)
        else Turned(turn.next, output + turn.output)
  }

  lemma MemberRaises(c: Codec, s: GzipState, cap: nat)
    requires s.member.Some? && c.reply(s.member.value, Call(s.input, cap)) == Raised
    ensures MemberTurn(c, s, cap) == Broke
  {
  }

  lemma MemberReplied(c: Codec, s: GzipState, cap: nat, output: Bytes, used: nat)
    requires s.member.Some? && c.reply(s.member.value, Call(s.input, cap)) == Gave(output, used) && used <= |s.input|
    ensures var st := Advanced(s.member.value, Call(s.input, cap), output, used);
            MemberTurn(c, s, cap) == Turned(if AtEnd(c, st)
                then GzipState(None, s.input[used..], s.completed + 1, s.pending)
                                            else GzipState(Some(st), s.input[used..], s.completed, s.pending), output)
  {
    assert Drop(s.input, used) == s.input[used..];
  }

  lemma FillOpens(c: Codec, s: GzipState, output: Bytes)
    requires !c.ends([]) && |output| < CHUNK_BYTES && s.member == None
    ensures OpenedMember(s).member == None ==> GzipFill(c, s, output) == Turned(OpenedMember(s), output)
    ensures OpenedMember(s).member != None ==> GzipFill(c, s, output) == GzipFill(c, OpenedMember(s), output)
  {
  }

  lemma FillTurns(c: Codec, s: GzipState, output: Bytes)
    requires !c.ends([]) && |output| < CHUNK_BYTES && s.member.Some?
    ensures var turn := MemberTurn(c, s, CHUNK_BYTES - |output|);
            GzipFill(c, s, output)
            == if turn.Broke? then Broke
               else if turn.next.member == None then GzipFill(c, turn.next, output + turn.output)
               else Turned(turn.next, output + turn.output)
  {
  }

  lemma FillStops(c: Codec, s: GzipState, output: Bytes)
    requires !c.ends([]) && |output| >= CHUNK_BYTES
    ensures GzipFill(c, s, output) == Turned(s, output)
  {
  }

  function GzipTurn(c: Codec, s: GzipState, data: Bytes): Turn<GzipState>
    requires !c.ends([])
  {
    match GzipFill(c, s.(input := s.input + data), [])
    case Broke => Broke
    case Turned(t, output) => Turned(t.(pending := |output| >= CHUNK_BYTES), output)
  }

  /** A deflate stream, zlib-wrapped or raw. */
  datatype Open = Open(codec: Codec, stream: Stream)

  datatype DeflateState = DeflateState(open: Option<Open>, input: Bytes, pending: bool)

  function DeflateTurn(cs: Codecs, s: DeflateState, data: Bytes): Turn<DeflateState> {
    var input := s.input + data;
    if s.open == None && |input| < 2 then Turned(DeflateState(None, input, false), [])
    else
      var open := if s.open == None then Open(DeflateCodec(cs, input), NEW_STREAM) else s.open.value;
      if !AtEnd(open.codec, open.stream) then StreamTurn(open, input)
      else if input != [] then Broke
      else Turned(DeflateState(Some(open), [], false), [])
  }

  /** One call of the stream; data after its end is an error. */
  function StreamTurn(open: Open, input: Bytes): Turn<DeflateState> {
    match open.codec.reply(open.stream, Call(input, CHUNK_BYTES))
    case Raised => Broke
    case Gave(output, used) =>
      var st, rest := Advanced(open.stream, Call(input, CHUNK_BYTES), output, used), Drop(input, used);
      if AtEnd(open.codec, st) && rest != [] then Broke
      else Turned(DeflateState(Some(open.(stream := st)), rest, !AtEnd(open.codec, st) && |output| >= CHUNK_BYTES),
          output)
  }

  lemma StreamReplied(open: Open, input: Bytes, output: Bytes, used: nat)
    requires open.codec.reply(open.stream, Call(input, CHUNK_BYTES)) == Gave(output, used) && used <= |input|
    ensures var st, rest := Advanced(open.stream, Call(input, CHUNK_BYTES), output, used), input[used..];
            StreamTurn(open, input)
            == if AtEnd(open.codec, st) && rest != [] then Broke
               else Turned(DeflateState(Some(open.(stream := st)), rest, !AtEnd(open.codec, st)
                   && |output| >= CHUNK_BYTES), output)
  {
    assert Drop(input, used) == input[used..];
  }

  datatype DecoderState = GzipIs(gzip: GzipState) | DeflateIs(deflate: DeflateState)
  {
    function Pending(): bool {
      match this
      case GzipIs(s) => s.pending
      case DeflateIs(s) => s.pending
    }

    /** `finish` accepts: the body may end here. */
    predicate Finished() {
      match this
      case GzipIs(s) => s.completed > 0 && s.member == None && s.input == []
      case DeflateIs(s) => s.input == [] && s.open.Some? && AtEnd(s.open.value.codec, s.open.value.stream)
    }
  }

  function NewState(coding: Coding): DecoderState {
    match coding
    case GzipCoding => GzipIs(GzipState(None, [], 0, false))
    case DeflateCoding => DeflateIs(DeflateState(None, [], false))
  }

  function DecoderTurn(cs: Codecs, s: DecoderState, data: Bytes): Turn<DecoderState>
    requires !cs.gzip.ends([])
  {
    match s
    case GzipIs(g) =>
      (match GzipTurn(cs.gzip, g, data)
       case Broke => Broke
       case Turned(t, output) => Turned(GzipIs(t), output))
    case DeflateIs(d) =>
      (match DeflateTurn(cs, d, data)
       case Broke => Broke
       case Turned(t, output) => Turned(DeflateIs(t), output))
  }

  // ----- where a gzip decoder is in its body -----

  /** Whatever follows, the body decodes to `settled` and then to what `rest` decodes to at a member boundary. */
  ghost predicate AtBoundary(c: Codec, history: Bytes, settled: Bytes, rest: Bytes, completed: bool)
    requires !c.ends([])
  {
    forall y: Bytes :: GzipParse(c, history + y, false) == Prepend(settled, GzipParse(c, rest + y, completed))
  }

  /** The same, with `rest` starting inside a member. */
  ghost predicate InMember(c: Codec, history: Bytes, settled: Bytes, rest: Bytes)
    requires !c.ends([])
  {
    forall y: Bytes :: GzipParse(c, history + y, false) == Prepend(settled, MemberParse(c, rest + y))
  }

  lemma MoreData(c: Codec, history: Bytes, settled: Bytes, rest: Bytes, completed: bool, data: Bytes)
    requires !c.ends([])
    ensures AtBoundary(c, history, settled, rest, completed)
            ==> AtBoundary(c, history + data, settled, rest + data, completed)
    ensures InMember(c, history, settled, rest) ==> InMember(c, history + data, settled, rest + data)
  {
    hide GzipParse, MemberParse;
    forall y: Bytes ensures (history + data) + y == history + (data + y) && (rest + data) + y == rest + (data + y) {
    }
  }

  lemma PaddingSkipped(c: Codec, history: Bytes, settled: Bytes, rest: Bytes)
    requires Lawful(c) && AtBoundary(c, history, settled, rest, true)
    ensures AtBoundary(c, history, settled, StripNuls(rest), true)
  {
    forall y: Bytes ensures GzipParse(c, rest + y, true) == GzipParse(c, StripNuls(rest) + y, true) {
      StripMore(rest, y);
      if StripNuls(rest) == [] {
        assert [] + y == y;
      } else {
        StripIdle(StripNuls(rest) + y);
      }
    }
  }

  lemma MemberStarts(c: Codec, history: Bytes, settled: Bytes, rest: Bytes, completed: bool)
    requires Lawful(c) && AtBoundary(c, history, settled, rest, completed)
    requires rest != [] && (completed ==> rest[0] != 0)
    ensures InMember(c, history, settled, rest)
  {
    forall y: Bytes ensures GzipParse(c, rest + y, completed) == MemberParse(c, rest + y) {
      if completed {
        StripIdle(rest + y);
      }
    }
  }

  lemma MemberEnds(c: Codec, history: Bytes, settled: Bytes, fed: Bytes, left: Bytes)
    requires Lawful(c) && InMember(c, history, settled, fed + left)
    requires c.ends(fed)
    ensures AtBoundary(c, history, settled + c.out(fed), left, true)
  {
    hide GzipParse, MemberParse, Lawful;
    assert !c.ends([]) by { NotEmpty(c); }
    forall y: Bytes
      ensures GzipParse(c, history + y, false) == Prepend(settled + c.out(fed), GzipParse(c, left + y, true)) {
      MemberThen(c, settled, fed, left, y);
    }
  }

  /** Whatever follows, a complete member decodes to its content and then to what comes after it. */
  lemma MemberThen(c: Codec, settled: Bytes, fed: Bytes, left: Bytes, y: Bytes)
    requires Lawful(c) && c.ends(fed)
    ensures Prepend(settled, MemberParse(c, (fed + left) + y))
            == Prepend(settled + c.out(fed), GzipParse(c, left + y, true))
  {
    hide GzipParse, MemberParse, Lawful;
    assert !c.ends([]) by { NotEmpty(c); }
    assert (fed + left) + y == fed + (left + y);
    MemberFirst(c, fed, left + y);
    var later := GzipParse(c, left + y, true).output;
    assert settled + (c.out(fed) + later) == (settled + c.out(fed)) + later;
  }

  lemma MemberBroken(c: Codec, history: Bytes, settled: Bytes, rest: Bytes)
    requires Lawful(c) && InMember(c, history, settled, rest) && c.bad(rest)
    ensures GzipParse(c, history, false).status == Malformed
  {
    hide GzipParse;
    assert history + [] == history && rest + [] == rest;
    BadNeverEnds(c, rest);
  }

  lemma BadNeverEnds(c: Codec, x: Bytes)
    requires Lawful(c) && c.bad(x)
    ensures EndOf(c, x) == None
  {
    forall k | 0 <= k <= |x| ensures !c.ends(x[..k]) {
      assert x[..k] <= x;
    }
  }

  /** All input is consumed and all output is out. */
  lemma BoundaryReached(c: Codec, history: Bytes, settled: Bytes, completed: bool)
    requires Lawful(c) && AtBoundary(c, history, settled, [], completed)
    ensures GzipParse(c, history, false) == Parsed(settled, if completed then Clean else Truncated)
  {
    assert history + [] == history;
    assert settled + [] == settled;
  }

  lemma MemberReached(c: Codec, history: Bytes, settled: Bytes, fed: Bytes)
    requires Lawful(c) && InMember(c, history, settled, fed) && !c.bad(fed) && !c.ends(fed)
    requires forall n :: 0 <= n < |fed| ==> !c.ends(fed[..n])
    ensures GzipParse(c, history, false) == Parsed(settled + c.out(fed), Truncated)
  {
    assert history + [] == history && fed + [] == fed;
    assert fed[..|fed|] == fed;
    assert EndOf(c, fed) == None;
  }

  lemma BoundaryOutput(c: Codec, history: Bytes, settled: Bytes, rest: Bytes, completed: bool)
    requires Lawful(c) && AtBoundary(c, history, settled, rest, completed)
    ensures settled <= GzipParse(c, history, false).output
  {
    assert history + [] == history && rest + [] == rest;
  }

  lemma MemberOutput(c: Codec, history: Bytes, settled: Bytes, fed: Bytes, left: Bytes)
    requires Lawful(c) && InMember(c, history, settled, fed + left)
    requires forall n :: 0 <= n < |fed| ==> !c.ends(fed[..n])
    ensures settled + c.out(fed) <= GzipParse(c, history, false).output
  {
    hide GzipParse;
    assert history + [] == history && (fed + left) + [] == fed + left;
    EndsLater(c, fed, left);
    match EndOf(c, fed + left)
    case Some(n) =>
      assert fed <= (fed + left)[..n];
      assert [] <= GzipParse(c, (fed + left)[n..], true).output;
    case None => assert fed <= fed + left;
  }

  lemma EndsLater(c: Codec, fed: Bytes, left: Bytes)
    requires forall n :: 0 <= n < |fed| ==> !c.ends(fed[..n])
    ensures EndOf(c, fed + left).Some? ==> EndOf(c, fed + left).value >= |fed|
  {
    forall k | 0 <= k < |fed| ensures !c.ends((fed + left)[..k]) {
      assert (fed + left)[..k] == fed[..k];
    }
  }

  lemma AtStart(c: Codec)
    requires !c.ends([])
    ensures AtBoundary(c, [], [], [], false)
  {
    hide GzipParse;
    forall y: Bytes ensures GzipParse(c, [] + y, false) == Prepend([], GzipParse(c, [] + y, false)) {
      assert [] + GzipParse(c, [] + y, false).output == GzipParse(c, [] + y, false).output;
    }
  }

  class GzipDecoder {
    const codec: Codec
    var member: ZlibStream?
    var input: Bytes
    var membersCompleted: nat
    var outputPending: bool
    ghost var history: Bytes
    ghost var settled: Bytes
    ghost var returned: Bytes

    ghost function Repr(): set<object>
      reads this
    {
      if member == null then {this} else {this, member}
    }

    function Value(): GzipState
      reads this, member
    {
      GzipState(if member == null then None else Some(member.Value()), input, membersCompleted, outputPending)
    }

    ghost predicate Tracking()
      reads this, member
    {
      && Lawful(codec)
      && (member == null ==> AtBoundary(codec, history, settled, input, membersCompleted > 0))
      && (member != null ==>
            member.Valid() && member.codec == codec && !member.eof
                && InMember(codec, history, settled, member.fed + input))
    }

    ghost function Output(): Bytes
      reads this, member
    {
      settled + if member == null then [] else member.emitted
    }

    ghost predicate Drained()
      reads this, member
    {
      input == [] && (member != null ==> member.emitted == codec.out(member.fed) && !codec.bad(member.fed))
    }

    ghost predicate Valid()
      reads this, member
    {
      Tracking() && returned == Output() && (!outputPending ==> Drained())
    }

    constructor (codec: Codec)
      requires Lawful(codec)
      ensures Valid() && this.codec == codec && history == [] && returned == []
              && Value() == GzipState(None, [], 0, false)
      ensures fresh(Repr())
    {
      this.codec := codec;
      member, input, membersCompleted, outputPending := null, [], 0, false;
      history, settled, returned := [], [], [];
      new;
      hide AtBoundary, GzipParse, MemberParse, InMember, Lawful;
      Begins();
    }

    lemma Begins()
      requires Lawful(codec) && member == null && input == [] && membersCompleted == 0 && !outputPending
      requires history == [] && settled == [] && returned == []
      ensures Valid()
    {
      hide AtBoundary, GzipParse, MemberParse, InMember, Lawful;
      AtStart(codec) by { NotEmpty(codec); }
    }

    /** What has been returned is a prefix of what the body decodes to; all of it once nothing is pending. */
    lemma OutputSoFar()
      requires Valid()
      ensures returned <= GzipParse(codec, history, false).output
      ensures !outputPending ==>
                GzipParse(codec, history, false)
                    == Parsed(returned, if member == null && membersCompleted > 0 then Clean else Truncated)
    {
      hide GzipParse, MemberParse, AtBoundary, InMember;
      if member == null {
        BoundaryOutput(codec, history, settled, input, membersCompleted > 0);
        if !outputPending {
          BoundaryReached(codec, history, settled, membersCompleted > 0);
        }
      } else {
        MemberOutput(codec, history, settled, member.fed, input);
        if !outputPending {
          assert member.fed + [] == member.fed;
          MemberReached(codec, history, settled, member.fed);
        }
      }
    }

    /** Between two members: skip padding and open the next member, unless the input is used up. */
    method OpenMember() returns (inside: bool)
      requires Tracking() && member == null
      modifies this`member, this`input
      ensures Tracking() && Output() == old(Output())
      ensures |input| <= |old(input)|
      ensures inside ==> member != null && fresh(member) && member.fed == [] && input != []
      ensures !inside ==> member == null && input == []
      ensures Value() == OpenedMember(old(Value()))
    {
      hide GzipParse, MemberParse, AtBoundary, InMember;
      if membersCompleted > 0 {
        PaddingSkipped(codec, history, settled, input);
        input := StripNuls(input);
      }
      if input == [] {
        return false;
      }
      MemberStarts(codec, history, settled, input, membersCompleted > 0);
      member := new ZlibStream(codec);
      assert member.fed + input == input;
      return true;
    }

    /** One call of the zlib stream, at most `cap` bytes. */
    method DecompressMember(cap: nat) returns (r: Result<Bytes, ()>)
      requires Tracking() && member != null && cap > 0
      modifies this`member, this`input, this`membersCompleted, this`settled, member
      ensures MemberTurn(codec, old(Value()), cap) == if r.Err? then Broke else Turned(Value(), r.value)
      ensures r.Err? ==> GzipParse(codec, history, false).status == Malformed
      ensures r.Ok? ==>
                && Tracking() && Output() == old(Output()) + r.value && |r.value| <= cap
                && (member == null || member == old(member))
                && |input| <= |old(input)|
                && (old(member.fed) == [] && old(input) != [] && member == null ==> |input| < |old(input)|)
                && (member != null && |r.value| < cap ==> Drained())
    {
      hide GzipParse, MemberParse, AtBoundary, InMember, Lawful, Advanced, MemberTurn, Tracks;
      ghost var s0, fed0 := Value(), member.fed;
      r := member.Decompress(input, cap);
      if r.Err? {
        MemberRaises(codec, s0, cap);
        MemberBroken(codec, history, settled, fed0 + input);
        return;
      }
      ghost var n := |member.fed| - |fed0|;
      assert member.fed + input[n..] == fed0 + input;
      MemberReplied(codec, s0, cap, r.value, n);
      if member.eof {
        if fed0 == [] {
          NotEmpty(codec);
        }
        EndMember();
      } else {
        KeepTail();
      }
    }

    /** The member goes on: what it left is its next input. */
    method KeepTail()
      requires Lawful(codec) && member != null && member.Valid() && member.codec == codec && !member.eof
      requires InMember(codec, history, settled, member.fed + member.unconsumedTail)
      modifies this`input
      ensures Tracking() && input == member.unconsumedTail
      ensures Output() == old(Output()) && Value() == old(Value()).(input := member.unconsumedTail)
    {
      hide GzipParse, MemberParse, AtBoundary, InMember, Lawful;
      input := member.unconsumedTail;
    }

    /** The member is complete: what follows it is at a boundary. */
    method EndMember()
      requires Lawful(codec) && member != null && member.Valid() && member.codec == codec && member.eof
      requires InMember(codec, history, settled, member.fed + member.unusedData)
      modifies this`member, this`input, this`membersCompleted, this`settled
      ensures Tracking() && member == null && input == old(member.unusedData)
      ensures Output() == old(settled) + old(member.emitted)
      ensures Value() == GzipState(None, old(member.unusedData), old(membersCompleted) + 1, outputPending)
    {
      hide GzipParse, MemberParse, AtBoundary, InMember, Lawful;
      MemberEnds(codec, history, settled, member.fed, member.unusedData);
      settled := settled + member.emitted;
      input := member.unusedData;
      member := null;
      membersCompleted := membersCompleted + 1;
    }

    method Absorb(data: Bytes)
      requires Tracking()
      modifies this`input, this`history
      ensures Tracking() && history == old(history) + data && input == old(input) + data
      ensures Output() == old(Output()) && Value() == old(Value()).(input := old(input) + data)
    {
      hide GzipParse, MemberParse, AtBoundary, InMember, Lawful;
      ghost var rest := if member == null then input else member.fed + input;
      assert !codec.ends([]) by { NotEmpty(codec); }
      MoreData(codec, history, settled, rest, membersCompleted > 0, data);
      if member != null {
        assert (member.fed + input) + data == member.fed + (input + data);
      }
      input := input + data;
      history := history + data;
    }

    /** The loop of `decompress` over members. */
    method Fill() returns (r: Result<Bytes, ()>)
      requires Tracking()
      modifies this`member, this`input, this`membersCompleted, this`settled, member
      ensures GzipFill(codec, old(Value()), []) == if r.Err? then Broke else Turned(Value(), r.value)
      ensures r.Err? ==> GzipParse(codec, history, false).status == Malformed
      ensures r.Ok? ==>
                && Tracking() && Output() == old(Output()) + r.value && |r.value| <= 65536
                && (member == null || member == old(member) || fresh(member))
                && (|r.value| < 65536 ==> Drained())
    {
      hide GzipParse, MemberParse, AtBoundary, InMember, Lawful, ZlibStream.Valid, GzipFill, MemberTurn, OpenedMember;
      NotEmpty(codec);
      var output: Bytes := [];
      while |output| < CHUNK_BYTES
        invariant Tracking() && Output() == old(Output()) + output && |output| <= CHUNK_BYTES
        invariant member == null || member == old(member) || fresh(member)
        invariant !codec.ends([])
        invariant GzipFill(codec, old(Value()), []) == GzipFill(codec, Value(), output)
        decreases if |output| < CHUNK_BYTES then 1 else 0, 2 * |input| + if member == null then 0 else 1
      {
        if member == null {
          FillOpens(codec, Value(), output);
          var inside := OpenMember();
          if !inside {
            break;
          }
        }
        FillTurns(codec, Value(), output);
        var piece := DecompressMember(CHUNK_BYTES - |output|);
        if piece.Err? {
          return piece;
        }
        output := output + piece.value;
        if |output| >= CHUNK_BYTES {
          FillStops(codec, Value(), output);
        }
        if member != null && |output| < CHUNK_BYTES {
          break;
        }
      }
      if |output| >= CHUNK_BYTES {
        FillStops(codec, Value(), output);
      }
      return Ok(output);
    }

    /** `decompress`: at most one chunk; an error means that nothing could mend the body. */
    method Decompress(data: Bytes) returns (r: Result<Bytes, ()>)
      requires Valid()
      modifies Repr()
      ensures GzipTurn(codec, old(Value()), data) == if r.Err? then Broke else Turned(Value(), r.value)
      ensures history == old(history) + data
      ensures r.Err? ==> GzipParse(codec, history, false).status == Malformed
      ensures r.Ok? ==>
                && Valid() && fresh(Repr() - old(Repr()))
                && returned == old(returned) + r.value && |r.value| <= 65536
                && (outputPending <==> |r.value| == 65536)
    {
      hide GzipParse, MemberParse, AtBoundary, InMember, Lawful;
      Absorb(data);
      r := Fill();
      if r.Ok? {
        outputPending := |r.value| >= CHUNK_BYTES;
        returned := returned + r.value;
      }
    }

    /** `finish`: true when the body may end here. */
    method Finish() returns (ok: bool)
      requires Valid() && !outputPending
      ensures ok == GzipIs(Value()).Finished()
      ensures ok <==> GzipParse(codec, history, false).status == Clean
    {
      OutputSoFar();
      return !(membersCompleted == 0 || member != null || input != []);
    }
  }

  class DeflateDecoder {
    const codecs: Codecs
    var stream: ZlibStream?
    var input: Bytes
    var outputPending: bool
    ghost var history: Bytes
    ghost var returned: Bytes

    ghost function Repr(): set<object>
      reads this
    {
      if stream == null then {this} else {this, stream}
    }

    function Value(): DeflateState
      reads this, stream
    {
      DeflateState(if stream == null then None else Some(Open(stream.codec, stream.Value())), input, outputPending)
    }

    ghost predicate Following()
      requires stream != null
      reads this, stream
    {
      && |history| >= 2 && stream.Valid() && stream.codec == DeflateCodec(codecs, history)
      && history == stream.fed + input && returned == stream.emitted
      && (stream.eof ==> input == [] && !outputPending)
      && (!stream.eof && !outputPending
         ==> input == [] && stream.emitted == stream.codec.out(stream.fed) && !stream.codec.bad(stream.fed))
    }

    ghost predicate Valid()
      reads this, stream
    {
      && AllLawful(codecs)
      && (stream == null ==> |input| < 2 && history == input && returned == [] && !outputPending)
      && (stream != null ==> Following())
    }

    constructor (codecs: Codecs)
      requires AllLawful(codecs)
      ensures Valid() && this.codecs == codecs && history == [] && returned == []
      ensures Value() == DeflateState(None, [], false) && fresh(Repr())
    {
      this.codecs := codecs;
      stream, input, outputPending := null, [], false;
      history, returned := [], [];
    }

    /** What has been returned is a prefix of what the body decodes to; all of it once nothing is pending. */
    lemma OutputSoFar()
      requires Valid()
      ensures returned <= DeflateParse(codecs, history).output
      ensures !outputPending ==>
                DeflateParse(codecs, history)
                    == Parsed(returned, if stream != null && stream.eof then Clean else Truncated)
    {
      hide Lawful;
      if stream != null {
        StreamSoFar(stream.codec, stream.fed, input);
        if !outputPending {
          assert stream.fed + [] == stream.fed;
          StreamReached(stream.codec, stream.fed);
        }
      }
    }

    /** Give the stream all the input, and keep what it leaves. */
    method Feed() returns (r: Result<Bytes, ()>)
      requires AllLawful(codecs) && stream != null && !stream.eof && stream.Valid() && |history| >= 2
      requires stream.codec == DeflateCodec(codecs, history) && history == stream.fed + input
               && returned == stream.emitted
      requires !outputPending
      modifies this`input, this`outputPending, this`returned, stream
      ensures StreamTurn(Open(stream.codec, old(stream.Value())), old(input)) == if r.Err? then Broke
              else Turned(Value(), r.value)
      ensures r.Err? ==> DeflateParse(codecs, history).status == Malformed
      ensures r.Ok? ==>
                && Following() && returned == old(returned) + r.value && |r.value| <= 65536
                && (outputPending ==> |r.value| == 65536)
    {
      hide DeflateCodec, DeflateParse, StreamParse, EndOf, Lawful;
      ghost var c, fed0, open, given := stream.codec, stream.fed, Open(stream.codec, stream.Value()), input;
      CodecLawful(codecs, history);
      StreamIs(codecs, history);
      r := stream.Decompress(input, CHUNK_BYTES);
      if r.Err? {
        assert history == fed0 + input;
        StreamBroken(c, history);
        return;
      }
      ghost var n := |stream.fed| - |fed0|;
      assert history == stream.fed + input[n..];
      StreamReplied(open, given, r.value, n);
      if stream.eof {
        if stream.unusedData != [] {
          TrailingData(c, stream.fed, stream.unusedData);
          return Err(());
        }
        input := [];
      } else {
        input := stream.unconsumedTail;
        outputPending := |r.value| >= CHUNK_BYTES;
      }
      returned := returned + r.value;
    }

    /** `decompress`: at most one chunk; an error means that nothing could mend the body. */
    method Decompress(data: Bytes) returns (r: Result<Bytes, ()>)
      requires Valid()
      modifies Repr()
      ensures DeflateTurn(codecs, old(Value()), data) == if r.Err? then Broke else Turned(Value(), r.value)
      ensures history == old(history) + data
      ensures r.Err? ==> DeflateParse(codecs, history).status == Malformed
      ensures r.Ok? ==>
                && Valid() && fresh(Repr() - old(Repr()))
                && returned == old(returned) + r.value && |r.value| <= 65536
                && (outputPending ==> |r.value| == 65536)
    {
      hide DeflateCodec, DeflateParse, Lawful;
      if stream != null {
        SameCodec(codecs, history, data);
        assert stream.fed + (input + data) == history + data;
      }
      input := input + data;
      history := history + data;
      outputPending := false;
      if stream == null {
        if |input| < 2 {
          return Ok([]);
        }
        CodecLawful(codecs, history);
        stream := new ZlibStream(DeflateCodec(codecs, input));
        assert stream.fed + input == input;
      }
      if stream.eof {
        if input != [] {
          CodecLawful(codecs, history);
          TrailingData(stream.codec, stream.fed, input);
          StreamIs(codecs, history);
          return Err(());
        }
        return Ok([]);
      }
      r := Feed();
    }

    /** `finish`: true when the body may end here. */
    method Finish() returns (ok: bool)
      requires Valid() && !outputPending
      ensures ok == DeflateIs(Value()).Finished()
      ensures ok <==> DeflateParse(codecs, history).status == Clean
    {
      OutputSoFar();
      return !(input != [] || stream == null || !stream.eof);
    }
  }

  lemma CodecLawful(cs: Codecs, x: Bytes)
    requires AllLawful(cs) && |x| >= 2
    ensures Lawful(DeflateCodec(cs, x))
  {
  }

  lemma SameCodec(cs: Codecs, x: Bytes, y: Bytes)
    requires |x| >= 2
    ensures DeflateCodec(cs, x + y) == DeflateCodec(cs, x)
  {
  }

  lemma StreamBroken(c: Codec, x: Bytes)
    requires Lawful(c) && c.bad(x)
    ensures StreamParse(c, x).status == Malformed
  {
    BadNeverEnds(c, x);
  }

  lemma StreamIs(cs: Codecs, x: Bytes)
    requires |x| >= 2
    ensures DeflateParse(cs, x) == StreamParse(DeflateCodec(cs, x), x)
  {
  }

  lemma TrailingData(c: Codec, fed: Bytes, more: Bytes)
    requires c.ends(fed) && more != [] && forall n :: 0 <= n < |fed| ==> !c.ends(fed[..n])
    ensures StreamParse(c, fed + more).status == Malformed
  {
    forall k | 0 <= k < |fed| ensures !c.ends((fed + more)[..k]) {
      assert (fed + more)[..k] == fed[..k];
    }
    assert (fed + more)[..|fed|] == fed;
    EndIsFirst(c, fed + more, |fed|);
  }

  lemma StreamSoFar(c: Codec, fed: Bytes, left: Bytes)
    requires Lawful(c) && forall n :: 0 <= n < |fed| ==> !c.ends(fed[..n])
    ensures c.out(fed) <= StreamParse(c, fed + left).output
  {
    EndsLater(c, fed, left);
    match EndOf(c, fed + left)
    case Some(n) => assert fed <= (fed + left)[..n];
    case None => assert fed <= fed + left;
  }

  lemma StreamReached(c: Codec, fed: Bytes)
    requires Lawful(c) && (c.bad(fed) ==> c.ends(fed)) && forall n :: 0 <= n < |fed| ==> !c.ends(fed[..n])
    ensures StreamParse(c, fed) == Parsed(c.out(fed), if c.ends(fed) then Clean else Truncated)
  {
    assert fed[..|fed|] == fed;
    if c.ends(fed) {
      EndIsFirst(c, fed, |fed|);
    }
  }

  /** `_ContentDecoder`. */
  datatype ContentDecoder = Gzip(codecs: Codecs, gzip: GzipDecoder) | Deflate(deflate: DeflateDecoder)
  {
    ghost function Repr(): set<object>
      reads if Gzip? then gzip as object else deflate as object
    {
      match this
      case Gzip(_, d) => d.Repr()
      case Deflate(d) => d.Repr()
    }

    ghost predicate Valid()
      reads if Gzip? then gzip as object else deflate as object
      reads Repr()
    {
      match this
      case Gzip(cs, d) => AllLawful(cs) && d.codec == cs.gzip && d.Valid()
      case Deflate(d) => d.Valid()
    }

    ghost function Codecs(): Codecs {
      if Gzip? then codecs else deflate.codecs
    }

    /** Its state, of which alone its next call's result is a function. */
    ghost function Value(): DecoderState
      reads if Gzip? then gzip as object else deflate as object
      reads Repr()
    {
      if Gzip? then GzipIs(gzip.Value()) else DeflateIs(deflate.Value())
    }

    function Coding(): Coding {
      if Gzip? then GzipCoding else DeflateCoding
    }

    ghost function History(): Bytes
      reads if Gzip? then gzip as object else deflate as object
    {
      if Gzip? then gzip.history else deflate.history
    }

    ghost function Returned(): Bytes
      reads if Gzip? then gzip as object else deflate as object
    {
      if Gzip? then gzip.returned else deflate.returned
    }

    function OutputPending(): bool
      reads if Gzip? then gzip as object else deflate as object
    {
      if Gzip? then gzip.outputPending else deflate.outputPending
    }

    /** All that is known once a call returned: nothing the body decodes to is lost, repeated or invented. */
    lemma OutputSoFar()
      requires Valid() && !Codecs().gzip.ends([])
      ensures Returned() <= Parse(Codecs(), Coding(), History()).output
      ensures !OutputPending() ==> Parse(Codecs(), Coding(), History()).output == Returned()
      ensures !OutputPending() ==> Parse(Codecs(), Coding(), History()).status != Malformed
    {
      hide GzipParse, DeflateParse;
      match this
      case Gzip(_, d) => d.OutputSoFar();
      case Deflate(d) => d.OutputSoFar();
    }

    method Decompress(data: Bytes) returns (r: Result<Bytes, ()>)
      requires Valid() && !Codecs().gzip.ends([])
      modifies Repr()
      ensures DecoderTurn(Codecs(), old(Value()), data) == if r.Err? then Broke else Turned(Value(), r.value)
      ensures History() == old(History()) + data
      ensures r.Err? ==> Parse(Codecs(), Coding(), History()).status == Malformed
      ensures r.Ok? ==>
                && Valid() && fresh(Repr() - old(Repr()))
                && Returned() == old(Returned()) + r.value && |r.value| <= 65536
                && (OutputPending() ==> |r.value| == 65536)
    {
      hide GzipParse, DeflateParse, GzipDecoder.Valid, DeflateDecoder.Valid, GzipTurn, DeflateTurn;
      match this
      case Gzip(_, d) => r := d.Decompress(data);
      case Deflate(d) => r := d.Decompress(data);
    }

    method Finish() returns (ok: bool)
      requires Valid() && !OutputPending() && !Codecs().gzip.ends([])
      ensures ok == Value().Finished()
      ensures ok <==> Parse(Codecs(), Coding(), History()).status == Clean
    {
      hide GzipParse, DeflateParse, GzipDecoder.Valid, DeflateDecoder.Valid, GzipTurn, DeflateTurn;
      match this
      case Gzip(_, d) => ok := d.Finish();
      case Deflate(d) => ok := d.Finish();
    }
  }
}
