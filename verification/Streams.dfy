/** The Docker attach stream: frames of an eight byte header and a payload, and the
    two demultiplexers that read them (internal/dockerclient/demux.go). */
module Streams {
  import opened Sequences

  newtype byte = x: int | 0 <= x < 0x100

  const STREAM_STDIN: byte := 0
  const STREAM_STDOUT: byte := 1
  const STREAM_STDERR: byte := 2
  const FRAME_HEADER_LEN: nat := 8

  predicate KnownStream(kind: byte) {
    kind == STREAM_STDIN || kind == STREAM_STDOUT || kind == STREAM_STDERR
  }

  function Min(a: nat, b: nat): nat {
    if a < b then a else b
  }

  /** One frame as it was sent, or what is left of it in a clipped stream. */
  datatype Frame = Frame(kind: byte, padding: seq<byte>, payload: seq<byte>)

  // ---- Wire format ----

  function BigEndian32(b: seq<byte>): (n: nat)
    requires |b| == 4
    ensures n < 0x1_0000_0000
  {
    b[0] as nat * 0x100_0000 + b[1] as nat * 0x1_0000 + b[2] as nat * 0x100 + b[3] as nat
  }

  function PutBigEndian32(n: nat): (b: seq<byte>)
    requires n < 0x1_0000_0000
    ensures |b| == 4 && BigEndian32(b) == n
  {
    var n1 := n / 0x100;
    var n2 := n1 / 0x100;
    var n3 := n2 / 0x100;
    [n3 as byte, (n2 % 0x100) as byte, (n1 % 0x100) as byte, (n % 0x100) as byte]
  }

  /** What a sender may put on the wire. */
  predicate Sendable(f: Frame) {
    KnownStream(f.kind) && |f.padding| == 3 && |f.payload| < 0x1_0000_0000
  }

  function EncodeFrame(f: Frame): seq<byte>
    requires Sendable(f)
  {
    [f.kind] + f.padding + PutBigEndian32(|f.payload|) + f.payload
  }

  function Encode(fs: seq<Frame>): seq<byte>
    requires forall f | f in fs :: Sendable(f)
  {
    if fs == [] then [] else EncodeFrame(fs[0]) + Encode(fs[1..])
  }

  // ---- Reference reading of arbitrary bytes ----

  predicate StartsFrame(data: seq<byte>) {
    |data| >= FRAME_HEADER_LEN && KnownStream(data[0])
  }

  /** The payload length of the leading frame, clamped to the bytes present. */
  function PayloadSize(data: seq<byte>): (n: nat)
    requires StartsFrame(data)
    ensures n <= |data| - FRAME_HEADER_LEN
  {
    Min(BigEndian32(data[4..FRAME_HEADER_LEN]), |data| - FRAME_HEADER_LEN)
  }

  function FirstFrame(data: seq<byte>): Frame
    requires StartsFrame(data)
  {
    Frame(data[0], data[1..4], data[FRAME_HEADER_LEN..][..PayloadSize(data)])
  }

  function AfterFrame(data: seq<byte>): (rest: seq<byte>)
    requires StartsFrame(data)
    ensures |rest| < |data|
  {
    data[FRAME_HEADER_LEN..][PayloadSize(data)..]
  }

  /** Every frame that can be recognised; reading ends at a truncated header or at an
      unknown stream identifier. */
  function Frames(data: seq<byte>): seq<Frame>
    decreases |data|
  {
    if StartsFrame(data) then [FirstFrame(data)] + Frames(AfterFrame(data)) else []
  }

  /** The three outputs: what was not sent to stderr, what was, and everything. */
  datatype Side = Stdout | Stderr | Combined

  function Part(f: Frame, side: Side): seq<byte> {
    if side == Combined || (side == Stderr) == (f.kind == STREAM_STDERR) then f.payload else []
  }

  function Output(fs: seq<Frame>, side: Side): seq<byte> {
    if fs == [] then [] else Part(fs[0], side) + Output(fs[1..], side)
  }

  lemma OutputCons(f: Frame, fs: seq<Frame>, side: Side)
    ensures Output([f] + fs, side) == Part(f, side) + Output(fs, side)
  {
    assert ([f] + fs)[1..] == fs;
  }

  /** One turn of either loop: the leading frame leaves `data` and joins the output. */
  lemma TakeFrame(out: seq<byte>, data: seq<byte>, side: Side)
    requires StartsFrame(data)
    ensures out + Output(Frames(data), side)
         == (out + Part(FirstFrame(data), side)) + Output(Frames(AfterFrame(data)), side)
  {
    OutputCons(FirstFrame(data), Frames(AfterFrame(data)), side);
    Reassociate(out, Part(FirstFrame(data), side), Output(Frames(AfterFrame(data)), side));
  }

  // ---- The two loops ----

  method Demux(input: seq<byte>) returns (stdout: seq<byte>, stderr: seq<byte>)
    ensures stdout == Output(Frames(input), Stdout)
    ensures stderr == Output(Frames(input), Stderr)
  {
    stdout, stderr := [], [];
    var data := input;
    while |data| >= FRAME_HEADER_LEN
      invariant stdout + Output(Frames(data), Stdout) == Output(Frames(input), Stdout)
      invariant stderr + Output(Frames(data), Stderr) == Output(Frames(input), Stderr)
      decreases |data|
    {
      var kind := data[0];
      if kind != STREAM_STDIN && kind != STREAM_STDOUT && kind != STREAM_STDERR {
        return;
      }
      var size := BigEndian32(data[4..FRAME_HEADER_LEN]);
      var rest := data[FRAME_HEADER_LEN..];
      if size > |rest| {
        size := |rest|;
      }
      var payload := rest[..size];
      TakeFrame(stdout, data, Stdout);
      TakeFrame(stderr, data, Stderr);
      if kind == STREAM_STDERR {
        assert stdout + Part(FirstFrame(data), Stdout) == stdout;
        stderr := stderr + payload;
      } else {
        assert stderr + Part(FirstFrame(data), Stderr) == stderr;
        stdout := stdout + payload;
      }
      data := rest[size..];
    }
  }

  method DemuxCombined(input: seq<byte>) returns (out: seq<byte>)
    ensures out == Output(Frames(input), Combined)
  {
    out := [];
    var data := input;
    while |data| >= FRAME_HEADER_LEN
      invariant out + Output(Frames(data), Combined) == Output(Frames(input), Combined)
      decreases |data|
    {
      var kind := data[0];
      if kind != STREAM_STDIN && kind != STREAM_STDOUT && kind != STREAM_STDERR {
        return;
      }
      var size := BigEndian32(data[4..FRAME_HEADER_LEN]);
      var rest := data[FRAME_HEADER_LEN..];
      if size > |rest| {
        size := |rest|;
      }
      TakeFrame(out, data, Combined);
      out := out + rest[..size];
      data := rest[size..];
    }
  }

  // ---- Round trip ----

  lemma FirstFrameOfEncoded(f: Frame, tail: seq<byte>)
    requires Sendable(f)
    ensures StartsFrame(EncodeFrame(f) + tail)
    ensures FirstFrame(EncodeFrame(f) + tail) == f
    ensures AfterFrame(EncodeFrame(f) + tail) == tail
  {
    var data := EncodeFrame(f) + tail;
    assert data[4..FRAME_HEADER_LEN] == PutBigEndian32(|f.payload|);
    assert data[FRAME_HEADER_LEN..] == f.payload + tail;
  }

  /** Reading undoes sending, also when arbitrary bytes follow the last whole frame. */
  lemma {:induction false} DecodeEncode(fs: seq<Frame>, tail: seq<byte>)
    requires forall f | f in fs :: Sendable(f)
    ensures Frames(Encode(fs) + tail) == fs + Frames(tail)
  {
    if fs == [] {
      assert Encode(fs) + tail == tail;
    } else {
      FirstFrameOfEncoded(fs[0], Encode(fs[1..]) + tail);
      Reassociate(EncodeFrame(fs[0]), Encode(fs[1..]), tail);
      DecodeEncode(fs[1..], tail);
      Reassociate([fs[0]], fs[1..], Frames(tail));
      assert fs == [fs[0]] + fs[1..];
    }
  }

  lemma {:induction false} OutputDistributes(fs: seq<Frame>, gs: seq<Frame>, side: Side)
    ensures Output(fs + gs, side) == Output(fs, side) + Output(gs, side)
  {
    if fs == [] {
      assert fs + gs == gs;
    } else {
      assert fs + gs == [fs[0]] + (fs[1..] + gs);
      OutputCons(fs[0], fs[1..] + gs, side);
      OutputDistributes(fs[1..], gs, side);
      Reassociate(Part(fs[0], side), Output(fs[1..], side), Output(gs, side));
    }
  }

  /** Sent frames come out as their payloads, per stream and in order; whatever follows
      a frame boundary is read as if it stood alone. */
  lemma FrameRoundTrip(fs: seq<Frame>, tail: seq<byte>, side: Side)
    requires forall f | f in fs :: Sendable(f)
    ensures Frames(Encode(fs)) == fs
    ensures Output(Frames(Encode(fs) + tail), side) == Output(fs, side) + Output(Frames(tail), side)
  {
    DecodeEncode(fs, tail);
    OutputDistributes(fs, Frames(tail), side);
    DecodeEncode(fs, []);
    assert Encode(fs) + [] == Encode(fs);
  }

  // ---- The wire format, spelled out ----

  /** Three unused bytes and the payload length in four, most significant first. */
  function Header(kind: byte, pad: seq<byte>, a: byte, b: byte, c: byte, d: byte): seq<byte> {
    [kind] + pad + [a, b, c, d]
  }

  lemma HeaderParts(kind: byte, pad: seq<byte>, a: byte, b: byte, c: byte, d: byte, rest: seq<byte>)
    requires |pad| == 3
    ensures var data := Header(kind, pad, a, b, c, d) + rest;
            && |data| >= 8 && data[0] == kind && data[8..] == rest
            && BigEndian32(data[4..8]) == ((a as nat * 256 + b as nat) * 256 + c as nat) * 256 + d as nat
  {
    var data := Header(kind, pad, a, b, c, d) + rest;
    assert data[4..8] == [a, b, c, d];
    assert data[8..] == rest;
  }

  /** Stream 2 is stderr, streams 0 and 1 are stdout. A whole frame puts its payload there and
      reading goes on behind it. */
  lemma WholeFrame(
    kind: byte, pad: seq<byte>, a: byte, b: byte, c: byte, d: byte, payload: seq<byte>, tail: seq<byte>)
    requires kind <= 2 && |pad| == 3
    requires |payload| == ((a as nat * 256 + b as nat) * 256 + c as nat) * 256 + d as nat
    ensures var data := Header(kind, pad, a, b, c, d) + (payload + tail);
            && Output(Frames(data), Stdout) == (if kind == 2 then [] else payload) + Output(Frames(tail), Stdout)
            && Output(Frames(data), Stderr) == (if kind == 2 then payload else []) + Output(Frames(tail), Stderr)
            && Output(Frames(data), Combined) == payload + Output(Frames(tail), Combined)
  {
    hide BigEndian32, Header;
    var data := Header(kind, pad, a, b, c, d) + (payload + tail);
    HeaderParts(kind, pad, a, b, c, d, payload + tail);
    assert FirstFrame(data).payload == payload && AfterFrame(data) == tail;
    forall side ensures Output(Frames(data), side) == Part(FirstFrame(data), side) + Output(Frames(tail), side) {
      OutputCons(FirstFrame(data), Frames(tail), side);
    }
  }

  /** A frame that announces more than there is gives all there is, and nothing follows. */
  lemma ClippedAtEnd(kind: byte, pad: seq<byte>, a: byte, b: byte, c: byte, d: byte, rest: seq<byte>)
    requires kind <= 2 && |pad| == 3
    requires |rest| < ((a as nat * 256 + b as nat) * 256 + c as nat) * 256 + d as nat
    ensures var data := Header(kind, pad, a, b, c, d) + rest;
            && Output(Frames(data), Stdout) == (if kind == 2 then [] else rest)
            && Output(Frames(data), Stderr) == (if kind == 2 then rest else [])
            && Output(Frames(data), Combined) == rest
  {
    hide BigEndian32, Header;
    var data := Header(kind, pad, a, b, c, d) + rest;
    HeaderParts(kind, pad, a, b, c, d, rest);
    assert FirstFrame(data).payload == rest && AfterFrame(data) == [];
    assert Frames([]) == [];
    forall side ensures Output(Frames(data), side) == Part(FirstFrame(data), side) + Output([], side) {
      OutputCons(FirstFrame(data), [], side);
    }
  }

  /** Fewer than eight bytes, or an unknown stream, give nothing at all. */
  lemma NoFrame(data: seq<byte>, side: Side)
    requires |data| < 8 || data[0] > 2
    ensures Output(Frames(data), side) == []
  {
  }

  // ---- Cut-off independence ----

  /** A clipped stream yields, on every output, a prefix of what the longer one yields. */
  lemma {:induction false} CutOffIndependence(a: seq<byte>, b: seq<byte>, side: Side)
    requires a <= b
    ensures Output(Frames(a), side) <= Output(Frames(b), side)
    decreases |a|
  {
    if StartsFrame(a) {
      ClippedFrame(a, b);
      OutputCons(FirstFrame(a), Frames(AfterFrame(a)), side);
      OutputCons(FirstFrame(b), Frames(AfterFrame(b)), side);
      if PayloadSize(a) == PayloadSize(b) {
        CutOffIndependence(AfterFrame(a), AfterFrame(b), side);
      }
    }
  }

  /** Cutting a stream leaves its leading frame and the rest intact, or clips the leading
      frame's payload and leaves nothing behind it. */
  lemma ClippedFrame(a: seq<byte>, b: seq<byte>)
    requires a <= b && StartsFrame(a)
    ensures StartsFrame(b) && FirstFrame(a).kind == FirstFrame(b).kind
    ensures PayloadSize(a) == PayloadSize(b) ==>
              FirstFrame(a) == FirstFrame(b) && AfterFrame(a) <= AfterFrame(b)
    ensures PayloadSize(a) != PayloadSize(b) ==>
              FirstFrame(a).payload <= FirstFrame(b).payload && AfterFrame(a) == []
  {
    assert a[4..FRAME_HEADER_LEN] == b[4..FRAME_HEADER_LEN];
    assert a[1..4] == b[1..4];
    var ra, rb := a[FRAME_HEADER_LEN..], b[FRAME_HEADER_LEN..];
    assert ra == rb[..|ra|];
  }

  // ---- The two demultiplexers agree ----

  /** The elements of `s` whose tag is `want`, in order. */
  function Pick(s: seq<byte>, tags: seq<bool>, want: bool): seq<byte>
    requires |s| == |tags|
  {
    if s == [] then []
    else (if tags[0] == want then [s[0]] else []) + Pick(s[1..], tags[1..], want)
  }

  /** `c` is an order-preserving merge of `a` and `b`: each element of `c` is assigned to
      exactly one of them, and reading off either side gives that side. */
  ghost predicate IsMerge(c: seq<byte>, a: seq<byte>, b: seq<byte>) {
    exists tags: seq<bool> :: |tags| == |c| && Pick(c, tags, false) == a && Pick(c, tags, true) == b
  }

  lemma {:induction false} PickDistributes(s: seq<byte>, st: seq<bool>, t: seq<byte>, tt: seq<bool>, want: bool)
    requires |s| == |st| && |t| == |tt|
    ensures Pick(s + t, st + tt, want) == Pick(s, st, want) + Pick(t, tt, want)
  {
    if s == [] {
      assert s + t == t && st + tt == tt;
    } else {
      assert (s + t)[1..] == s[1..] + t && (st + tt)[1..] == st[1..] + tt;
      PickDistributes(s[1..], st[1..], t, tt, want);
      Reassociate(if st[0] == want then [s[0]] else [], Pick(s[1..], st[1..], want), Pick(t, tt, want));
    }
  }

  lemma {:induction false} PickUniform(s: seq<byte>, tag: bool)
    ensures Pick(s, seq(|s|, _ => tag), tag) == s
    ensures Pick(s, seq(|s|, _ => tag), !tag) == []
  {
    if s != [] {
      assert seq(|s|, _ => tag)[1..] == seq(|s| - 1, _ => tag);
      PickUniform(s[1..], tag);
    }
  }

  /** Which of the two streams each byte of the combined output belongs to. */
  function Origins(fs: seq<Frame>): (tags: seq<bool>)
    ensures |tags| == |Output(fs, Combined)|
  {
    if fs == [] then []
    else seq(|fs[0].payload|, _ => fs[0].kind == STREAM_STDERR) + Origins(fs[1..])
  }

  lemma {:induction false} OriginsPick(fs: seq<Frame>)
    ensures Pick(Output(fs, Combined), Origins(fs), false) == Output(fs, Stdout)
    ensures Pick(Output(fs, Combined), Origins(fs), true) == Output(fs, Stderr)
  {
    if fs != [] {
      OriginsPick(fs[1..]);
      var p := fs[0].payload;
      var tag := fs[0].kind == STREAM_STDERR;
      PickUniform(p, tag);
      PickDistributes(p, seq(|p|, _ => tag), Output(fs[1..], Combined), Origins(fs[1..]), false);
      PickDistributes(p, seq(|p|, _ => tag), Output(fs[1..], Combined), Origins(fs[1..]), true);
    }
  }

  lemma {:induction false} PickPartitions(c: seq<byte>, tags: seq<bool>)
    requires |c| == |tags|
    ensures multiset(c) == multiset(Pick(c, tags, false)) + multiset(Pick(c, tags, true))
  {
    if c != [] {
      assert c == [c[0]] + c[1..];
      PickPartitions(c[1..], tags[1..]);
    }
  }

  /** On arbitrary bytes the combined output is a merge of the two split ones, with no
      byte lost and none duplicated. */
  lemma DemultiplexersAgree(data: seq<byte>)
    ensures IsMerge(Output(Frames(data), Combined), Output(Frames(data), Stdout), Output(Frames(data), Stderr))
    ensures multiset(Output(Frames(data), Combined))
         == multiset(Output(Frames(data), Stdout)) + multiset(Output(Frames(data), Stderr))
    ensures |Output(Frames(data), Combined)| == |Output(Frames(data), Stdout)| + |Output(Frames(data), Stderr)|
  {
    var fs := Frames(data);
    OriginsPick(fs);
    PickPartitions(Output(fs, Combined), Origins(fs));
    assert |Output(fs, Combined)| == |multiset(Output(fs, Combined))|;
  }
}
