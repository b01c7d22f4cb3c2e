/** The reader between the Cast protocol library and its TLS stream
    (src/cast.rs): hands every byte through while following the 4-byte length
    prefixes, and refuses oversized frames and floods of frames for good. */
module FrameLimit {
  type Byte = b: int | 0 <= b < 256

  const MAX_CAST_FRAME: nat := 65536
  const MAX_UNCLAIMED_FRAMES: nat := 256
  const U32_MAX: nat := 0xFFFF_FFFF

  // ---- The parser the reader has to agree with --------------------------------------

  /** Where a stream of "length, then body" frames stands. */
  datatype Position = InHeader(got: seq<Byte>) | InBody(left: nat)

  function BigEndian(h: seq<Byte>): nat
    requires |h| == 4
  {
    h[0] as nat * 0x100_0000 + h[1] as nat * 0x1_0000 + h[2] as nat * 0x100 + h[3] as nat
  }

  function Body(left: nat): Position {
    if left == 0 then InHeader([]) else InBody(left)
  }

  predicate Proper(p: Position) {
    match p case InHeader(got) => |got| < 4 case InBody(left) => 0 < left
  }

  function Feed(p: Position, b: Byte): (r: Position)
    requires Proper(p)
    ensures Proper(r)
  {
    match p
    case InBody(left) => Body(left - 1)
    case InHeader(got) => if |got| < 3 then InHeader(got + [b]) else Body(BigEndian(got + [b]))
  }

  function Parse(input: seq<Byte>): (p: Position)
    ensures Proper(p)
  {
    if input == [] then InHeader([]) else Feed(Parse(input[..|input| - 1]), input[|input| - 1])
  }

  /** The lengths announced by the headers completed in `input`. */
  function Frames(input: seq<Byte>): seq<nat> {
    if input == [] then []
    else
      var before := input[..|input| - 1];
      match Parse(before)
      case InHeader(got) =>
        if |got| < 3 then Frames(before) else Frames(before) + [BigEndian(got + [input[|input| - 1]])]
      case InBody(_) => Frames(before)
  }

  predicate AllFit(lengths: seq<nat>) {
    forall i :: 0 <= i < |lengths| ==> lengths[i] <= MAX_CAST_FRAME
  }

  lemma Snoc(a: seq<Byte>, c: seq<Byte>)
    requires c != []
    ensures (a + c)[..|a + c| - 1] == a + c[..|c| - 1] && (a + c)[|a + c| - 1] == c[|c| - 1]
  {
  }

  lemma {:induction false} FeedBody(a: seq<Byte>, c: seq<Byte>)
    requires Parse(a).InBody? && |c| <= Parse(a).left
    ensures Parse(a + c) == Body(Parse(a).left - |c|)
    ensures Frames(a + c) == Frames(a)
  {
    if c == [] {
      assert a + c == a;
    } else {
      FeedBody(a, c[..|c| - 1]);
      Snoc(a, c);
    }
  }

  lemma {:induction false} FeedHeader(a: seq<Byte>, c: seq<Byte>)
    requires Parse(a).InHeader? && |Parse(a).got| + |c| <= 4
    ensures var h := Parse(a).got + c;
      if |h| < 4 then Parse(a + c) == InHeader(h) && Frames(a + c) == Frames(a)
      else Parse(a + c) == Body(BigEndian(h)) && Frames(a + c) == Frames(a) + [BigEndian(h)]
  {
    hide BigEndian;
    if c == [] {
      assert a + c == a;
      assert Parse(a).got + c == Parse(a).got;
    } else {
      var d := c[..|c| - 1];
      FeedHeader(a, d);
      Snoc(a, c);
      assert (Parse(a).got + d) + [c[|c| - 1]] == Parse(a).got + c;
    }
  }

  /** More input never takes back a frame. */
  lemma {:induction false} FramesGrow(a: seq<Byte>, c: seq<Byte>)
    ensures Frames(a) <= Frames(a + c)
  {
    hide BigEndian, Feed;
    if c == [] {
      assert a + c == a;
    } else {
      FramesGrow(a, c[..|c| - 1]);
      Snoc(a, c);
    }
  }

  // ---- What a sender writes -----------------------------------------------------------

  function Header(n: nat): (h: seq<Byte>)
    requires n <= U32_MAX
    ensures |h| == 4
  {
    [n / 0x100_0000, n / 0x1_0000 % 256, n / 256 % 256, n % 256]
  }

  lemma HeaderRoundTrip(n: nat)
    requires n <= U32_MAX
    ensures BigEndian(Header(n)) == n
  {
    var a, b := n / 256, n / 256 / 256;
    assert n / 0x1_0000 == b && n / 0x100_0000 == b / 256;
  }

  /** Most significant byte first. */
  lemma NetworkOrder(a: Byte, b: Byte, c: Byte, d: Byte)
    ensures BigEndian([a, b, c, d]) == ((a as nat * 256 + b as nat) * 256 + c as nat) * 256 + d as nat
  {
  }

  predicate Sendable(bodies: seq<seq<Byte>>) {
    forall i :: 0 <= i < |bodies| ==> |bodies[i]| <= U32_MAX
  }

  function Stream(bodies: seq<seq<Byte>>): seq<Byte>
    requires Sendable(bodies)
  {
    if bodies == [] then []
    else Stream(bodies[..|bodies| - 1]) + (Header(|bodies[|bodies| - 1]|) + bodies[|bodies| - 1])
  }

  function Lengths(bodies: seq<seq<Byte>>): (r: seq<nat>)
    ensures |r| == |bodies| && forall i :: 0 <= i < |r| ==> r[i] == |bodies[i]|
  {
    if bodies == [] then [] else Lengths(bodies[..|bodies| - 1]) + [|bodies[|bodies| - 1]|]
  }

  /** The parser recovers every frame of every stream of messages. */
  lemma {:induction false} ParseStream(bodies: seq<seq<Byte>>)
    requires Sendable(bodies)
    ensures Parse(Stream(bodies)) == InHeader([]) && Frames(Stream(bodies)) == Lengths(bodies)
  {
    hide BigEndian, Header, Parse, Frames;
    if bodies == [] {
      assert Stream(bodies) == [];
      ParseNothing();
    } else {
      var last := bodies[|bodies| - 1];
      var before := Stream(bodies[..|bodies| - 1]);
      var h := Header(|last|);
      ParseStream(bodies[..|bodies| - 1]);
      assert [] + h == h;
      FeedHeader(before, h);
      HeaderRoundTrip(|last|);
      if last == [] {
        assert Stream(bodies) == before + h;
      } else {
        FeedBody(before + h, last);
        assert Stream(bodies) == (before + h) + last;
      }
    }
  }

  lemma ParseNothing()
    ensures Parse([]) == InHeader([]) && Frames([]) == []
  {
  }

  /** A prefix of a stream in which no completed header announces too much stops
      before the fourth header byte of the first oversized frame. */
  lemma OversizedNeverPasses(good: seq<seq<Byte>>, n: nat, rest: seq<Byte>, out: seq<Byte>)
    requires Sendable(good) && 65536 < n <= U32_MAX
    requires out <= Stream(good) + (Header(n) + rest)
    requires AllFit(Frames(out))
    ensures |out| <= |Stream(good)| + 3
  {
    hide BigEndian, Header, Parse, Frames, Stream, Lengths;
    var upTo := Stream(good) + Header(n);
    if |upTo| <= |out| {
      ParseStream(good);
      assert [] + Header(n) == Header(n);
      FeedHeader(Stream(good), Header(n));
      HeaderRoundTrip(n);
      Reaches(Stream(good), Header(n), rest, out);
      FramesGrow(upTo, out[|upTo|..]);
      TooLong(Lengths(good), n, Frames(out));
    }
  }

  lemma TooLong(before: seq<nat>, n: nat, all: seq<nat>)
    requires MAX_CAST_FRAME < n
    ensures before + [n] <= all ==> !AllFit(all)
  {
    if before + [n] <= all {
      assert all[|before|] == n;
    }
  }

  lemma Reaches(a: seq<Byte>, b: seq<Byte>, c: seq<Byte>, out: seq<Byte>)
    requires out <= a + (b + c) && |a + b| <= |out|
    ensures out == (a + b) + out[|a + b|..]
  {
    assert a + (b + c) == (a + b) + c;
  }

  /** A stream of messages that all fit, with at most 256 since the last reset, holds
      no header the reader would refuse, wherever it is cut. */
  lemma FittingStreamPasses(bodies: seq<seq<Byte>>, out: seq<Byte>)
    requires Sendable(bodies) && AllFit(Lengths(bodies)) && out <= Stream(bodies)
    ensures AllFit(Frames(out)) && |Frames(out)| <= |bodies|
  {
    hide BigEndian, Parse, Frames, Stream;
    ParseStream(bodies);
    FramesGrow(out, Stream(bodies)[|out|..]);
    assert out + Stream(bodies)[|out|..] == Stream(bodies);
  }

  /** In a stream of fitting messages no header is refused for its length. */
  lemma FittingHeader(bodies: seq<seq<Byte>>, a: nat, b: nat)
    requires Sendable(bodies) && AllFit(Lengths(bodies)) && a <= b <= |Stream(bodies)|
    requires var p := Parse(Stream(bodies)[..a]); p.InHeader? && |p.got| + (b - a) == 4
    ensures BigEndian(Parse(Stream(bodies)[..a]).got + Stream(bodies)[a..b]) <= MAX_CAST_FRAME
  {
    hide BigEndian, Parse, Frames, Stream, Lengths;
    var s := Stream(bodies);
    var before := s[..a];
    FeedHeader(before, s[a..b]);
    assert s[..b] == before + s[a..b];
    FittingStreamPasses(bodies, s[..b]);
    assert Frames(s[..b])[|Frames(before)|] == BigEndian(Parse(before).got + s[a..b]);
  }

  // ---- The reader -------------------------------------------------------------------------

  datatype ReadResult = Done(n: nat) | Fault | Refused

  /** The stream below: `data` is all it will ever deliver, in chunks it chooses. */
  class Source {
    const data: seq<Byte>
    var pos: nat

    ghost predicate Valid()
      reads this
    {
      pos <= |data|
    }

    constructor (data: seq<Byte>)
      ensures Valid() && this.data == data && pos == 0
    {
      this.data := data;
      pos := 0;
    }

    /** Fills at most `want` places of `buf`, or times out without taking a byte. */
    method Read(buf: array<Byte>, want: nat, chunk: nat, timeout: bool) returns (r: ReadResult)
      requires Valid() && want <= buf.Length
      modifies this, buf
      ensures Valid() && !r.Refused?
      ensures r.Fault? <==> timeout
      ensures r.Fault? ==> pos == old(pos) && buf[..] == old(buf[..])
      ensures r.Done? ==>
        r.n <= want && pos == old(pos) + r.n && buf[..r.n] == data[old(pos)..pos] && buf[r.n..] == old(buf[r.n..])
      ensures r.Done? && 0 < want && 0 < chunk && old(pos) < |data| ==> 0 < r.n
    {
      if timeout {
        return Fault;
      }
      var n := if chunk < want then chunk else want;
      n := if |data| - pos < n then |data| - pos else n;
      ghost var was := buf[..];
      for i := 0 to n
        invariant pos == old(pos)
        invariant buf[..i] == data[pos..pos + i]
        invariant buf[i..] == was[i..]
      {
        assert data[pos..pos + i + 1] == data[pos..pos + i] + [data[pos + i]];
        buf[i] := data[pos + i];
        assert buf[i + 1..] == was[i + 1..];
      }
      pos := pos + n;
      r := Done(n);
    }
  }

  class FrameBudget {
    var count: nat

    constructor ()
      ensures count == 0
    {
      count := 0;
    }

    method Reset()
      modifies this
      ensures count == 0
    {
      count := 0;
    }

    /** `waited`: more than 30 seconds passed since the last reset. */
    method NoteFrame(waited: bool) returns (ok: bool)
      requires count <= U32_MAX
      modifies this
      ensures count == if old(count) < U32_MAX then old(count) + 1 else U32_MAX
      ensures ok <==> old(count) < MAX_UNCLAIMED_FRAMES && (old(count) == 0 || !waited)
    {
      count := if count < U32_MAX then count + 1 else U32_MAX;
      ok := count <= MAX_UNCLAIMED_FRAMES && (count <= 1 || !waited);
    }
  }

  class FrameLimit {
    const inner: Source
    const budget: FrameBudget
    const header: array<Byte>
    var headerLen: nat
    var bodyLeft: nat
    var failed: bool
    /** All bytes returned so far, and how many frames they held at the last reset. */
    ghost var delivered: seq<Byte>
    ghost var mark: nat

    /** Transparent until it refuses, in step with the parser all along; a refusal
        keeps the header of the refused frame incomplete for the reader above. */
    ghost predicate Valid()
      reads this, inner, budget, header
    {
      inner.Valid() && header.Length == 4
      && headerLen < 4 && mark <= |Frames(delivered)|
      && AllFit(Frames(delivered)) && |Frames(delivered)| - mark <= MAX_UNCLAIMED_FRAMES
      && budget.count <= MAX_UNCLAIMED_FRAMES + 1
      && delivered <= inner.data[..inner.pos]
      && (!failed ==>
            delivered == inner.data[..inner.pos]
            && AtPosition(Parse(delivered)) && budget.count == |Frames(delivered)| - mark)
      && (failed ==>
            Parse(delivered).InHeader? && inner.pos - |delivered| == 4 - |Parse(delivered).got|)
    }

    ghost predicate AtPosition(p: Position)
      reads this, header
    {
      header.Length == 4 && headerLen < 4
      && match p
         case InHeader(got) => bodyLeft == 0 && header[..headerLen] == got
         case InBody(left) => bodyLeft == left && headerLen == 0
    }

    constructor (inner: Source, budget: FrameBudget)
      requires inner.Valid() && inner.pos == 0 && budget.count == 0
      ensures Valid() && fresh(header)
      ensures this.inner == inner && this.budget == budget && delivered == [] && !failed
    {
      this.inner := inner;
      this.budget := budget;
      header := new Byte[4](_ => 0);
      headerLen := 0;
      bodyLeft := 0;
      failed := false;
      delivered := [];
      mark := 0;
    }

    /** The session loop is about to take a message itself. */
    method Reset()
      requires Valid()
      modifies this`mark, budget
      ensures Valid() && mark == |Frames(delivered)| && budget.count == 0
    {
      budget.Reset();
      mark := |Frames(delivered)|;
    }

    /** The header completed by `h` is one the limits refuse. */
    predicate Refuses(h: seq<Byte>, count: nat, waited: bool)
      requires |h| == 4
    {
      BigEndian(h) > MAX_CAST_FRAME || count >= MAX_UNCLAIMED_FRAMES || (count > 0 && waited)
    }

    /** One `read`, whatever the buffer size, the chunk below and the clock. */
    method Read(buf: array<Byte>, chunk: nat, timeout: bool, waited: bool) returns (r: ReadResult)
      requires Valid() && buf != header
      modifies this, inner, budget, header, buf
      ensures Valid() && mark == old(mark)
      ensures r.Done? ==>
        r.n <= buf.Length && delivered == old(delivered) + buf[..r.n] && buf[r.n..] == old(buf[r.n..])
      ensures !r.Done? ==> delivered == old(delivered)
      ensures r.Refused? <==> failed
      ensures old(failed) ==> failed && inner.pos == old(inner.pos)
      ensures !failed && buf.Length == 0 ==> r == Done(0)
      ensures r.Fault? <==> timeout && !old(failed) && 0 < buf.Length
      ensures r.Fault? ==> inner.pos == old(inner.pos)
      ensures r.Done? && 0 < buf.Length && 0 < chunk && old(inner.pos) < |inner.data| ==> 0 < r.n
      ensures !old(failed) && failed ==>
        var p := old(Parse(delivered)); var taken := inner.data[old(inner.pos)..inner.pos];
        p.InHeader? && |p.got + taken| == 4 && Refuses(p.got + taken, old(budget.count), waited)
      ensures !old(failed) && !failed ==>
        var p := old(Parse(delivered)); var taken := inner.data[old(inner.pos)..inner.pos];
        !(p.InHeader? && |p.got + taken| == 4 && Refuses(p.got + taken, old(budget.count), waited))
    {
      if failed {
        return Refused;
      }
      if buf.Length == 0 {
        return Done(0);
      }
      if bodyLeft > 0 {
        r := ReadBody(buf, chunk, timeout);
      } else {
        r := ReadHeader(buf, chunk, timeout, waited);
      }
    }

    method ReadBody(buf: array<Byte>, chunk: nat, timeout: bool) returns (r: ReadResult)
      requires Valid() && buf != header && !failed && 0 < buf.Length && 0 < bodyLeft
      modifies this`bodyLeft, this`delivered, inner, buf
      ensures Valid() && mark == old(mark) && !r.Refused?
      ensures r.Done? ==>
        r.n <= buf.Length && delivered == old(delivered) + buf[..r.n] && buf[r.n..] == old(buf[r.n..])
      ensures r.Fault? <==> timeout
      ensures r.Fault? ==> delivered == old(delivered) && inner.pos == old(inner.pos)
      ensures r.Done? && 0 < chunk && old(inner.pos) < |inner.data| ==> 0 < r.n
    {
      hide Parse, Frames;
      var want := if buf.Length < bodyLeft then buf.Length else bodyLeft;
      r := inner.Read(buf, want, chunk, timeout);
      if r.Done? {
        ghost var was, taken := inner.data[..old(inner.pos)], inner.data[old(inner.pos)..inner.pos];
        assert inner.data[..inner.pos] == was + taken;
        FeedBody(was, taken);
        bodyLeft := bodyLeft - r.n;
        delivered := delivered + buf[..r.n];
      }
    }

    method ReadHeader(buf: array<Byte>, chunk: nat, timeout: bool, waited: bool) returns (r: ReadResult)
      requires Valid() && buf != header && !failed && 0 < buf.Length && bodyLeft == 0
      modifies this, inner, budget, header, buf
      ensures Valid() && mark == old(mark)
      ensures r.Done? ==>
        r.n <= buf.Length && delivered == old(delivered) + buf[..r.n] && buf[r.n..] == old(buf[r.n..])
      ensures !r.Done? ==> delivered == old(delivered)
      ensures r.Fault? <==> timeout
      ensures r.Fault? ==> inner.pos == old(inner.pos)
      ensures r.Refused? <==> failed
      ensures r.Done? && 0 < chunk && old(inner.pos) < |inner.data| ==> 0 < r.n
      ensures var p := old(Parse(delivered)); var taken := inner.data[old(inner.pos)..inner.pos];
        p.InHeader? && |p.got + taken| <= 4
        && (failed <==> |p.got + taken| == 4 && Refuses(p.got + taken, old(budget.count), waited))
    {
      hide Parse, Frames, BigEndian;
      var want := if buf.Length < 4 - headerLen then buf.Length else 4 - headerLen;
      r := inner.Read(buf, want, chunk, timeout);
      ghost var was, taken := inner.data[..old(inner.pos)], inner.data[old(inner.pos)..inner.pos];
      if r.Fault? {
        assert taken == [] && Parse(was).got + taken == Parse(was).got;
        return;
      }
      assert inner.data[..inner.pos] == was + taken;
      FeedHeader(was, taken);
      Store(buf, r.n);
      assert header[..headerLen] == Parse(was).got + taken;
      if headerLen == 4 {
        assert header[..] == Parse(was).got + taken;
        var ok := Admit(waited);
        if !ok {
          return Refused;
        }
      }
      delivered := delivered + buf[..r.n];
    }

    /** Appends the bytes just read to the header. */
    method Store(buf: array<Byte>, n: nat)
      requires header.Length == 4 && headerLen + n <= 4 && n <= buf.Length && buf != header
      modifies this`headerLen, header
      ensures headerLen == old(headerLen) + n
      ensures header[..headerLen] == old(header[..headerLen]) + buf[..n]
    {
      ghost var had := header[..headerLen];
      for i := 0 to n
        modifies header
        invariant header[..headerLen] == had
        invariant header[headerLen..headerLen + i] == buf[..i]
      {
        header[headerLen + i] := buf[i];
      }
      headerLen := headerLen + n;
    }

    /** A header is complete: starts its frame, or fails the stream. */
    method Admit(waited: bool) returns (ok: bool)
      requires header.Length == 4 && headerLen == 4 && !failed && budget.count <= MAX_UNCLAIMED_FRAMES
      modifies this`headerLen, this`bodyLeft, this`failed, budget
      ensures ok <==> !Refuses(header[..], old(budget.count), waited)
      ensures failed <==> !ok
      ensures headerLen == 0 && budget.count <= MAX_UNCLAIMED_FRAMES + 1
      ensures ok ==> bodyLeft == BigEndian(header[..]) <= MAX_CAST_FRAME && budget.count == old(budget.count) + 1
    {
      headerLen := 0;
      var length := BigEndian(header[..]);
      if length > MAX_CAST_FRAME {
        failed := true;
        return false;
      }
      ok := budget.NoteFrame(waited);
      if ok {
        bodyLeft := length;
      } else {
        failed := true;
      }
    }
  }

  /** Whatever was read, with whatever buffers, chunks and timeouts: of a stream whose
      next frame is oversized, at most three header bytes of it got out. */
  lemma OversizedIsHeldBack(f: FrameLimit, good: seq<seq<Byte>>, n: nat, rest: seq<Byte>)
    requires f.Valid() && Sendable(good) && 65536 < n <= U32_MAX
    requires f.inner.data == Stream(good) + (Header(n) + rest)
    ensures f.delivered <= f.inner.data && |f.delivered| <= |Stream(good)| + 3
  {
    OversizedNeverPasses(good, n, rest, f.delivered);
  }

  /** A stream of fitting messages is refused only for the flood: when a read
      completes a header with 256 frames taken since the reset, or too late. */
  lemma FittingIsRefusedOnlyForFlood(f: FrameLimit, bodies: seq<seq<Byte>>, to: nat, waited: bool)
    requires f.Valid() && !f.failed && (forall i :: 0 <= i < |bodies| ==> |bodies[i]| <= 65536)
    requires f.inner.data == Stream(bodies)
    requires f.inner.pos <= to <= |f.inner.data|
    requires var p := Parse(f.delivered); p.InHeader? && |p.got| + (to - f.inner.pos) == 4
    ensures f.Refuses(Parse(f.delivered).got + f.inner.data[f.inner.pos..to], f.budget.count, waited) <==>
            |Frames(f.delivered)| - f.mark == 256 || (|Frames(f.delivered)| > f.mark && waited)
  {
    hide BigEndian, Parse, Frames, Stream, Lengths;
    FittingHeader(bodies, f.inner.pos, to);
  }
}
