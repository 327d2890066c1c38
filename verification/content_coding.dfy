/** What a gzip or deflate response body decodes to, as a function of all its bytes
    (camouflare/http_transport.py; section 2.2 of RFC 1952, section 2.2 of RFC 1950, section 8.4 of RFC 9110). */
module ContentCoding {
  import opened Basics
  import opened ZlibStreams

  /** `Clean`: the body may end here. `Truncated`: more must follow. `Malformed`: nothing can help. */
  datatype Status = Clean | Truncated | Malformed

  datatype Parsed = Parsed(output: Bytes, status: Status)

  function Prepend(first: Bytes, p: Parsed): Parsed {
    Parsed(first + p.output, p.status)
  }

  /** The length of the shortest complete stream that `x` starts with, looked for from `n` on. */
  function EndFrom(c: Codec, x: Bytes, n: nat): (r: Option<nat>)
    requires n <= |x|
    ensures r.Some? ==> n <= r.value <= |x| && c.ends(x[..r.value]) && forall k :: n <= k < r.value ==> !c.ends(x[..k])
    ensures r == None ==> forall k :: n <= k <= |x| ==> !c.ends(x[..k])
    decreases |x| - n
  {
    if c.ends(x[..n]) then Some(n) else if n == |x| then None else EndFrom(c, x, n + 1)
  }

  function EndOf(c: Codec, x: Bytes): Option<nat> {
    EndFrom(c, x, 0)
  }

  function StripNuls(x: Bytes): (y: Bytes)
    ensures |y| <= |x| && (y != [] ==> y[0] != 0)
  {
    if x != [] && x[0] == 0 then StripNuls(x[1..]) else x
  }

  // ----- gzip -----

  /** The members of a gzip body from a member boundary on; NUL padding may follow a member. */
  function GzipParse(c: Codec, x: Bytes, completed: bool): Parsed
    requires !c.ends([])
    decreases |x|, 1
  {
    var y := if completed then StripNuls(x) else x;
    if y == [] then Parsed([], if completed then Clean else Truncated) else MemberParse(c, y)
  }

  /** A body that starts inside a member. */
  function MemberParse(c: Codec, x: Bytes): Parsed
    requires !c.ends([])
    decreases |x|, 0
  {
    match EndOf(c, x)
    case Some(n) =>
      assert x[..0] == [];
      Prepend(c.out(x[..n]), GzipParse(c, x[n..], true))
    case None => Parsed(c.out(x), if c.bad(x) then Malformed else Truncated)
  }

  // ----- deflate -----

  /** `_has_zlib_header`: CM is 8, CINFO is at most 7 and FCHECK is right. */
  predicate HasZlibHeader(x: Bytes)
    requires |x| >= 2
  {
    var cmf: int, flags: int := x[0], x[1];
    cmf % 16 == 8 && cmf / 16 <= 7 && (256 * cmf + flags) % 31 == 0
  }

  /** The three formats of `zlib`. */
  datatype Codecs = Codecs(gzip: Codec, zlib: Codec, raw: Codec)

  ghost predicate AllLawful(cs: Codecs) {
    Lawful(cs.gzip) && Lawful(cs.zlib) && Lawful(cs.raw)
  }

  function DeflateCodec(cs: Codecs, x: Bytes): Codec
    requires |x| >= 2
  {
    if HasZlibHeader(x) then cs.zlib else cs.raw
  }

  /** Data after the end of the stream is an error. */
  function StreamParse(c: Codec, x: Bytes): Parsed {
    match EndOf(c, x)
    case Some(n) => Parsed(c.out(x[..n]), if n == |x| then Clean else Malformed)
    case None => Parsed(c.out(x), if c.bad(x) then Malformed else Truncated)
  }

  function DeflateParse(cs: Codecs, x: Bytes): Parsed {
    if |x| < 2 then Parsed([], Truncated) else StreamParse(DeflateCodec(cs, x), x)
  }

  // ----- both -----

  datatype Coding = GzipCoding | DeflateCoding

  function Parse(cs: Codecs, coding: Coding, x: Bytes): Parsed
    requires !cs.gzip.ends([])
  {
    match coding
    case GzipCoding => GzipParse(cs.gzip, x, false)
    case DeflateCoding => DeflateParse(cs, x)
  }

  // ----- more bytes -----

  /** The first complete stream is where it is, whatever follows. */
  lemma EndIsFirst(c: Codec, x: Bytes, n: nat)
    requires n <= |x| && c.ends(x[..n]) && forall k :: 0 <= k < n ==> !c.ends(x[..k])
    ensures EndOf(c, x) == Some(n)
  {
  }

  lemma EndStays(c: Codec, x: Bytes, y: Bytes)
    requires Lawful(c)
    ensures EndOf(c, x).Some? ==> EndOf(c, x + y) == EndOf(c, x)
    ensures EndOf(c, x) == None && EndOf(c, x + y).Some? ==> EndOf(c, x + y).value > |x| && !c.bad(x)
    ensures EndOf(c, x) == None && c.bad(x) ==> EndOf(c, x + y) == None && c.bad(x + y)
  {
    forall k | 0 <= k <= |x| ensures (x + y)[..k] == x[..k] {
    }
    if EndOf(c, x).Some? {
      EndIsFirst(c, x + y, EndOf(c, x).value);
    } else if EndOf(c, x + y).Some? {
      var z := (x + y)[..EndOf(c, x + y).value];
      assert x <= z && z <= z;
      assert c.bad(x) ==> c.bad(z);
    }
    assert x <= x + y;
  }

  lemma StripMore(x: Bytes, y: Bytes)
    ensures StripNuls(x) != [] ==> StripNuls(x + y) == StripNuls(x) + y
    ensures StripNuls(x) == [] ==> StripNuls(x + y) == StripNuls(y)
  {
    if x == [] {
      assert x + y == y;
    } else {
      assert (x + y)[1..] == x[1..] + y;
      StripMore(x[1..], y);
    }
  }

  /** More bytes only add output, and do not mend a malformed body. */
  ghost predicate Extends(p: Parsed, q: Parsed) {
    p.output <= q.output && (p.status == Malformed ==> q.status == Malformed)
  }

  lemma {:induction false} GzipGrows(c: Codec, x: Bytes, y: Bytes, completed: bool)
    requires Lawful(c)
    ensures Extends(GzipParse(c, x, completed), GzipParse(c, x + y, completed))
    decreases |x|, 1
  {
    if completed {
      StripMore(x, y);
      if StripNuls(x) != [] {
        MemberGrows(c, StripNuls(x), y);
      }
    } else if x != [] {
      MemberGrows(c, x, y);
    }
  }

  lemma {:induction false} MemberGrows(c: Codec, x: Bytes, y: Bytes)
    requires Lawful(c)
    ensures Extends(MemberParse(c, x), MemberParse(c, x + y))
    decreases |x|, 0
  {
    EndStays(c, x, y);
    match EndOf(c, x)
    case Some(n) =>
      assert x[..0] == [];
      assert (x + y)[..n] == x[..n] && (x + y)[n..] == x[n..] + y;
      GzipGrows(c, x[n..], y, true);
    case None =>
      match EndOf(c, x + y)
      case Some(m) => assert x <= (x + y)[..m];
      case None => assert x <= x + y;
  }

  lemma StreamGrows(c: Codec, x: Bytes, y: Bytes)
    requires Lawful(c)
    ensures Extends(StreamParse(c, x), StreamParse(c, x + y))
  {
    EndStays(c, x, y);
    match EndOf(c, x)
    case Some(n) => assert (x + y)[..n] == x[..n];
    case None =>
      match EndOf(c, x + y)
      case Some(m) => assert x <= (x + y)[..m];
      case None => assert x <= x + y;
  }

  lemma ParseGrows(cs: Codecs, coding: Coding, x: Bytes, y: Bytes)
    requires AllLawful(cs)
    ensures Extends(Parse(cs, coding, x), Parse(cs, coding, x + y))
  {
    hide GzipParse, StreamParse, Lawful;
    match coding
    case GzipCoding => GzipGrows(cs.gzip, x, y, false);
    case DeflateCoding =>
      if |x| >= 2 {
        assert DeflateCodec(cs, x + y) == DeflateCodec(cs, x);
        StreamGrows(DeflateCodec(cs, x), x, y);
      }
  }

  // ----- what an encoder writes is read back -----

  /** A gzip body: complete members, each followed by NUL padding. */
  datatype Member = Member(stream: Bytes, padding: nat)

  function Nuls(n: nat): Bytes {
    seq(n, _ => 0)
  }

  function GzipBody(members: seq<Member>): Bytes {
    if members == [] then [] else members[0].stream + Nuls(members[0].padding) + GzipBody(members[1..])
  }

  function GzipContent(c: Codec, members: seq<Member>): Bytes {
    if members == [] then [] else c.out(members[0].stream) + GzipContent(c, members[1..])
  }

  lemma StripPadding(n: nat, x: Bytes)
    requires x == [] || x[0] != 0
    ensures StripNuls(Nuls(n) + x) == x
  {
    if n == 0 {
      assert Nuls(n) + x == x;
    } else {
      assert (Nuls(n) + x)[1..] == Nuls(n - 1) + x;
      StripPadding(n - 1, x);
    }
  }

  /** Every sequence of complete members, with any padding after each, decodes to the concatenation of
      their contents. A member does not start with a NUL byte: the format starts with 31, 139. */
  lemma {:induction false} MembersDecode(c: Codec, members: seq<Member>, completed: bool)
    requires Lawful(c) && (completed || members != [])
    requires forall m :: m in members ==> c.ends(m.stream) && m.stream != [] && m.stream[0] != 0
    ensures GzipParse(c, GzipBody(members), completed) == Parsed(GzipContent(c, members), Clean)
    decreases |members|
  {
    if members == [] {
    } else {
      MembersDecode(c, members[1..], true);
      OneMember(c, members, completed);
    }
  }

  lemma OneMember(c: Codec, members: seq<Member>, completed: bool)
    requires Lawful(c) && members != []
    requires forall m :: m in members ==> c.ends(m.stream) && m.stream != [] && m.stream[0] != 0
    ensures GzipParse(c, GzipBody(members), completed)
            == Prepend(c.out(members[0].stream), GzipParse(c, GzipBody(members[1..]), true))
  {
    hide GzipParse, MemberParse, Nuls, Lawful;
    var m, rest := members[0], GzipBody(members[1..]);
    BodyStart(members);
    BodyStart(members[1..]);
    assert GzipBody(members) == m.stream + (Nuls(m.padding) + rest);
    assert !c.ends([]) by { NotEmpty(c); }
    AtMember(c, GzipBody(members), completed);
    MemberFirst(c, m.stream, Nuls(m.padding) + rest);
    AfterPadding(c, m.padding, rest);
  }

  lemma NotEmpty(c: Codec)
    requires Lawful(c)
    ensures !c.ends([])
  {
  }

  lemma AtMember(c: Codec, x: Bytes, completed: bool)
    requires !c.ends([]) && x != [] && x[0] != 0
    ensures GzipParse(c, x, completed) == MemberParse(c, x)
  {
    StripIdle(x);
  }

  lemma MemberFirst(c: Codec, stream: Bytes, after: Bytes)
    requires Lawful(c) && c.ends(stream)
    ensures MemberParse(c, stream + after) == Prepend(c.out(stream), GzipParse(c, after, true))
  {
    var body := stream + after;
    assert body[..|stream|] == stream && body[|stream|..] == after;
    forall k | 0 <= k < |stream| ensures !c.ends(body[..k]) {
      assert body[..k] < stream;
    }
    EndIsFirst(c, body, |stream|);
  }

  lemma AfterPadding(c: Codec, n: nat, rest: Bytes)
    requires !c.ends([]) && (rest == [] || rest[0] != 0)
    ensures GzipParse(c, Nuls(n) + rest, true) == GzipParse(c, rest, true)
  {
    StripPadding(n, rest);
    StripIdle(rest);
  }

  lemma BodyStart(members: seq<Member>)
    requires forall m :: m in members ==> m.stream != [] && m.stream[0] != 0
    ensures GzipBody(members) == [] || GzipBody(members)[0] != 0
  {
  }

  lemma StripIdle(x: Bytes)
    requires x == [] || x[0] != 0
    ensures StripNuls(x) == x
  {
  }

  /** `x` is `lead` NULs, complete members with padding after each, and a tail that no complete member
      starts; and `p` is what that decodes to. */
  ghost predicate ReadsAs(c: Codec, x: Bytes, completed: bool, p: Parsed, lead: nat, members: seq<Member>,
                          tail: Bytes) {
    && (lead > 0 ==> completed)
    && x == Nuls(lead) + (GzipBody(members) + tail)
    && (forall m :: m in members ==> c.ends(m.stream))
    && (forall k :: 0 <= k <= |tail| ==> !c.ends(tail[..k]))
    && p.output == GzipContent(c, members) + c.out(tail)
    && p.status == (if tail == [] && (completed || members != []) then Clean
                    else if c.bad(tail) then Malformed else Truncated)
  }

  /** Every gzip body read from its bytes: it is clean exactly if it is complete members and their padding
      and nothing else, and then at least one; malformed exactly if the tail after its members is; and its
      output is what the members and the tail hold. */
  lemma {:induction false} GzipParseMeans(c: Codec, x: Bytes, completed: bool)
    returns (lead: nat, members: seq<Member>, tail: Bytes)
    requires Lawful(c)
    ensures ReadsAs(c, x, completed, GzipParse(c, x, completed), lead, members, tail)
    decreases |x|, 1
  {
    hide Lawful, ReadsAs, MemberParse;
    EmptyStream(c);
    var y := if completed then StripNuls(x) else x;
    lead := |x| - |y|;
    Stripped(x);
    if y == [] {
      members, tail := [], [];
      NothingRead(c, x, completed);
    } else {
      members, tail := MemberParseMeans(c, y);
      if lead == 0 {
        NoNuls(y);
      }
      PaddedRead(c, x, completed, lead, y, MemberParse(c, y), members, tail);
    }
  }

  lemma NothingRead(c: Codec, x: Bytes, completed: bool)
    requires Lawful(c) && (if completed then StripNuls(x) else x) == []
    ensures ReadsAs(c, x, completed, Parsed([], if completed then Clean else Truncated), |x|, [], [])
  {
    EmptyStream(c);
    Stripped(x);
    hide Lawful;
    assert Nuls(|x|) + (GzipBody([]) + []) == x;
  }

  lemma PaddedRead(c: Codec, x: Bytes, completed: bool, lead: nat, y: Bytes, p: Parsed, members: seq<Member>,
                   tail: Bytes)
    requires x == Nuls(lead) + y && (lead > 0 ==> completed) && y != []
    requires ReadsAs(c, y, false, p, 0, members, tail)
    ensures ReadsAs(c, x, completed, p, lead, members, tail)
  {
    hide GzipContent, Nuls;
    NoNuls(GzipBody(members) + tail);
  }

  lemma NoNuls(x: Bytes)
    ensures Nuls(0) + x == x
  {
    assert Nuls(0) == [];
  }

  lemma {:induction false} MemberParseMeans(c: Codec, y: Bytes) returns (members: seq<Member>, tail: Bytes)
    requires Lawful(c) && y != []
    ensures ReadsAs(c, y, false, MemberParse(c, y), 0, members, tail)
    decreases |y|, 0
  {
    hide Lawful, ReadsAs, GzipParse;
    EmptyStream(c);
    match EndOf(c, y)
    case Some(n) =>
      assert y[..0] == [];
      var padding, later, rest := GzipParseMeans(c, y[n..], true);
      var first := Member(y[..n], padding);
      members, tail := [first] + later, rest;
      MemberThenRest(c, y, n, GzipParse(c, y[n..], true), padding, later, rest);
    case None =>
      members, tail := [], y;
      TailRead(c, y);
  }

  lemma TailRead(c: Codec, y: Bytes)
    requires y != [] && EndOf(c, y) == None
    ensures ReadsAs(c, y, false, Parsed(c.out(y), if c.bad(y) then Malformed else Truncated), 0, [], y)
  {
    assert Nuls(0) + (GzipBody([]) + y) == y;
    assert GzipContent(c, []) + c.out(y) == c.out(y);
  }

  lemma MemberThenRest(c: Codec, y: Bytes, n: nat, p: Parsed, padding: nat, later: seq<Member>, tail: Bytes)
    requires n <= |y| && c.ends(y[..n]) && ReadsAs(c, y[n..], true, p, padding, later, tail)
    ensures ReadsAs(c, y, false, Prepend(c.out(y[..n]), p), 0, [Member(y[..n], padding)] + later, tail)
  {
    var first := Member(y[..n], padding);
    var members := [first] + later;
    assert members[0] == first && members[1..] == later;
    var head, body := y[..n], GzipBody(later);
    assert y == head + y[n..];
    assert GzipBody(members) == head + Nuls(padding) + body;
    assert Nuls(0) + ((head + Nuls(padding) + body) + tail) == head + (Nuls(padding) + (body + tail));
    assert GzipContent(c, members) == c.out(head) + GzipContent(c, later);
    var held := GzipContent(c, later);
    assert c.out(head) + held + c.out(tail) == c.out(head) + (held + c.out(tail));
  }

  lemma EmptyStream(c: Codec)
    requires Lawful(c)
    ensures !c.ends([]) && c.out([]) == [] && !c.bad([])
  {
  }

  lemma Stripped(x: Bytes)
    ensures x == Nuls(|x| - |StripNuls(x)|) + StripNuls(x)
  {
    if x != [] && x[0] == 0 {
      Stripped(x[1..]);
      var n := |x| - |StripNuls(x)|;
      assert Nuls(n) == [0] + Nuls(n - 1);
      assert x == [0] + x[1..];
    }
  }

  // ----- zlib-wrapped and raw deflate -----

  /** The header of a zlib stream, as an encoder makes it up: a window size, a compression level, whether a
      dictionary was preset, and the check bits (section 2.2 of RFC 1950). */
  datatype ZlibHeader = ZlibHeader(window: nat, level: nat, dictionary: bool, check: nat)
  {
    /** CM is 8, and the check bits make the two bytes, high one first, a multiple of 31. */
    predicate Valid() {
      && window <= 7 && level <= 3 && check <= 31
      && (256 * (8 + 16 * window) + 64 * level + (if dictionary then 32 else 0) + check) % 31 == 0
    }

    function Bytes(): Bytes
      requires Valid()
    {
      [8 + 16 * window, 64 * level + (if dictionary then 32 else 0) + check]
    }
  }

  /** Some encoder's header starts the body. */
  ghost predicate Wrapped(x: Bytes) {
    exists h: ZlibHeader :: h.Valid() && h.Bytes() <= x
  }

  lemma HeaderIsRead(h: ZlibHeader, rest: Bytes)
    requires h.Valid()
    ensures |h.Bytes() + rest| >= 2 && HasZlibHeader(h.Bytes() + rest)
  {
    var x := h.Bytes() + rest;
    assert x[0] == 8 + 16 * h.window && x[1] == h.Bytes()[1];
  }

  lemma HeaderWasWritten(x: Bytes)
    requires |x| >= 2 && HasZlibHeader(x)
    ensures Wrapped(x)
  {
    var h := ZlibHeader(x[0] / 16, x[1] / 64, x[1] / 32 % 2 == 1, x[1] % 32);
    assert x[0] == 8 + 16 * h.window;
    assert x[1] == 64 * h.level + (if h.dictionary then 32 else 0) + h.check;
    assert h.Bytes() == x[..2];
  }

  /** The decoder takes a body for zlib-wrapped exactly if an encoder's header starts it, and for raw deflate
      otherwise; the default header 0x78 0x9C is one. */
  lemma HeaderDecides(cs: Codecs, x: Bytes)
    requires |x| >= 2
    ensures DeflateCodec(cs, x) == if Wrapped(x) then cs.zlib else cs.raw
    ensures x[0] == 0x78 && x[1] == 0x9C ==> Wrapped(x)
  {
    if Wrapped(x) {
      var h: ZlibHeader :| h.Valid() && h.Bytes() <= x;
      assert x == h.Bytes() + x[2..];
      HeaderIsRead(h, x[2..]);
    }
    if HasZlibHeader(x) {
      HeaderWasWritten(x);
    }
    if x[0] == 0x78 && x[1] == 0x9C {
      var h := ZlibHeader(7, 2, false, 28);
      assert h.Bytes() == x[..2];
    }
  }

  /** A complete zlib stream with an encoder's header decodes to its content. */
  lemma ZlibDecodes(cs: Codecs, h: ZlibHeader, rest: Bytes)
    requires Lawful(cs.zlib) && h.Valid() && cs.zlib.ends(h.Bytes() + rest)
    ensures DeflateParse(cs, h.Bytes() + rest) == Parsed(cs.zlib.out(h.Bytes() + rest), Clean)
  {
    HeaderIsRead(h, rest);
    CompleteDecodes(cs.zlib, h.Bytes() + rest);
  }

  /** So does a complete raw stream that no such header starts. */
  lemma RawDecodes(cs: Codecs, x: Bytes)
    requires Lawful(cs.raw) && |x| >= 2 && !Wrapped(x) && cs.raw.ends(x)
    ensures DeflateParse(cs, x) == Parsed(cs.raw.out(x), Clean)
  {
    hide Lawful;
    HeaderDecides(cs, x);
    CompleteDecodes(cs.raw, x);
  }

  lemma CompleteDecodes(c: Codec, x: Bytes)
    requires Lawful(c) && c.ends(x)
    ensures StreamParse(c, x) == Parsed(c.out(x), Clean)
  {
    forall k | 0 <= k < |x| ensures !c.ends(x[..k]) {
      assert x[..k] < x;
    }
    assert x[..|x|] == x;
    EndIsFirst(c, x, |x|);
  }

  /** Every deflate body read from its bytes: with the codec its header decides, it is clean exactly if it is
      one complete stream, malformed exactly if something follows a complete stream or none can be completed,
      and its output is that of the stream. */
  lemma DeflateParseMeans(cs: Codecs, x: Bytes)
    requires AllLawful(cs)
    ensures |x| < 2 ==> DeflateParse(cs, x) == Parsed([], Truncated)
    ensures |x| >= 2 ==>
              var c, p := if Wrapped(x) then cs.zlib else cs.raw, DeflateParse(cs, x);
              && (forall n :: 0 <= n <= |x| && c.ends(x[..n]) ==>
                    p == Parsed(c.out(x[..n]), if n == |x| then Clean else Malformed))
              && ((forall n :: 0 <= n <= |x| ==> !c.ends(x[..n])) ==>
                    p == Parsed(c.out(x), if c.bad(x) then Malformed else Truncated))
  {
    if |x| >= 2 {
      hide AllLawful;
      HeaderDecides(cs, x);
      var c := DeflateCodec(cs, x);
      assert Lawful(c) by { OneOfThem(cs); }
      forall n | 0 <= n <= |x| && c.ends(x[..n]) ensures EndOf(c, x) == Some(n) {
        forall k | 0 <= k < n ensures !c.ends(x[..k]) {
          assert x[..k] < x[..n];
        }
        EndIsFirst(c, x, n);
      }
    }
  }

  lemma OneOfThem(cs: Codecs)
    requires AllLawful(cs)
    ensures Lawful(cs.gzip) && Lawful(cs.zlib) && Lawful(cs.raw)
  {
    hide Lawful;
  }
}
