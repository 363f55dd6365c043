/** Splitting Docker's multiplexed output: `demux` in services/worker/src/docker.ts. Text decoding is left out. */
module Stdcopy {
  import opened Text

  type Byte = b: int | 0 <= b < 256

  datatype Frame = Frame(stream: Byte, payload: seq<Byte>)

  datatype Output = Output(stdout: seq<Byte>, stderr: seq<Byte>)

  const WIDTH := 0x1_0000_0000

  /** A big-endian 32-bit length. */
  function Length32(n: nat): (r: seq<Byte>)
    requires n < WIDTH
    ensures |r| == 4
  {
    [n / 256 / 256 / 256, n / 256 / 256 % 256, n / 256 % 256, n % 256]
  }

  function ReadLength(b: seq<Byte>): nat
    requires |b| >= 4
  {
    256 * (256 * (256 * (b[0] as int) + (b[1] as int)) + (b[2] as int)) + (b[3] as int)
  }

  lemma LengthRoundTrip(n: nat)
    requires n < WIDTH
    ensures ReadLength(Length32(n)) == n
  {
    var m := n / 256;
    assert n == 256 * m + n % 256;
    assert m == 256 * (m / 256) + m % 256;
    assert m / 256 == 256 * (m / 256 / 256) + m / 256 % 256;
  }

  lemma ReadIsFront(b: seq<Byte>, c: seq<Byte>)
    requires |b| >= 4 && |c| >= 4 && b[..4] == c[..4]
    ensures ReadLength(b) == ReadLength(c)
  {
    assert b[..4][0] == c[..4][0] && b[..4][1] == c[..4][1] && b[..4][2] == c[..4][2] && b[..4][3] == c[..4][3];
  }

  // --- reading ---

  function Onto(stream: Byte, payload: seq<Byte>, o: Output): Output {
    if stream == 2 then Output(o.stdout, payload + o.stderr) else Output(payload + o.stdout, o.stderr)
  }

  /** Whole headers from the front; a payload cut short gives what there is of it. */
  function Frames(b: seq<Byte>): Output
    decreases |b|
  {
    if |b| < 8 then Output([], [])
    else
      var len := ReadLength(b[4..]);
      Onto(b[0], Take(b[8..], len), Frames(Drop(b[8..], len)))
  }

  predicate Framed(b: seq<Byte>) {
    b != [] && (b[0] == 1 || b[0] == 2)
  }

  function Demuxed(b: seq<Byte>): Output {
    if b == [] then Output([], []) else if !Framed(b) then Output(b, []) else Frames(b)
  }

  method Demux(b: seq<Byte>) returns (o: Output)
    ensures o == Demuxed(b)
    ensures b != [] && b[0] != 1 && b[0] != 2 ==> o == Output(b, [])
  {
    hide Frames, ReadTo, ReadLength;
    if |b| == 0 {
      return Output([], []);
    }
    if b[0] != 1 && b[0] != 2 {
      return Output(b, []);
    }
    var out, err, i := [], [], 0;
    ReadNone(b);
    while i + 8 <= |b|
      invariant 0 <= i <= |b| && ReadTo(b, out, err, i)
      decreases |b| - i
    {
      var stream, len, start := b[i], ReadLength(b[i + 4..]), i + 8;
      var end := if start + len <= |b| then start + len else |b|;
      ReadOne(b, out, err, i);
      if stream == 2 {
        err := err + b[start..end];
      } else {
        out := out + b[start..end];
      }
      i := end;
    }
    ReadAll(b, out, err, i);
    return Output(out, err);
  }

  /** The output is what has been collected and then what the bytes from `i` on give. */
  predicate ReadTo(b: seq<Byte>, out: seq<Byte>, err: seq<Byte>, i: nat)
    requires i <= |b|
  {
    Frames(b) == Output(out + Frames(b[i..]).stdout, err + Frames(b[i..]).stderr)
  }

  lemma ReadNone(b: seq<Byte>)
    ensures ReadTo(b, [], [], 0)
  {
    hide Frames;
    assert b[0..] == b;
    assert [] + Frames(b).stdout == Frames(b).stdout && [] + Frames(b).stderr == Frames(b).stderr;
  }

  lemma ReadOne(b: seq<Byte>, out: seq<Byte>, err: seq<Byte>, i: nat)
    requires i + 8 <= |b| && ReadTo(b, out, err, i)
    ensures var start, len := i + 8, ReadLength(b[i + 4..]);
            var end := if start + len <= |b| then start + len else |b|;
            if b[i] == 2 then ReadTo(b, out, err + b[start..end], end) else ReadTo(b, out + b[start..end], err, end)
  {
    hide ReadLength, Frames;
    FramesStep(b, i);
    var start, len := i + 8, ReadLength(b[i + 4..]);
    var end := if start + len <= |b| then start + len else |b|;
    if b[i] == 2 {
      Associative(err, b[start..end], Frames(b[end..]).stderr);
    } else {
      Associative(out, b[start..end], Frames(b[end..]).stdout);
    }
  }

  lemma ReadAll(b: seq<Byte>, out: seq<Byte>, err: seq<Byte>, i: nat)
    requires i <= |b| < i + 8 && ReadTo(b, out, err, i)
    ensures Frames(b) == Output(out, err)
  {
    hide Frames;
    NothingLeft(b[i..]);
    assert out + [] == out && err + [] == err;
  }

  lemma TailOf(b: seq<Byte>, i: nat, j: nat)
    requires i + j <= |b|
    ensures b[i..][j..] == b[i + j..]
  {
  }

  lemma PartOf(b: seq<Byte>, i: nat, j: nat)
    requires i + j <= |b|
    ensures b[i..][..j] == b[i..i + j]
  {
  }

  /** One frame, by position. */
  lemma FramesStep(b: seq<Byte>, i: nat)
    requires i + 8 <= |b|
    ensures var start, len := i + 8, ReadLength(b[i + 4..]);
            var end := if start + len <= |b| then start + len else |b|;
            Frames(b[i..]) == Onto(b[i], b[start..end], Frames(b[end..]))
  {
    hide ReadLength, Onto;
    var s, len := b[i..], ReadLength(b[i + 4..]);
    TailOf(b, i, 4);
    TailOf(b, i, 8);
    FramesOf(s);
    var rest := s[8..];
    if len <= |rest| {
      PartOf(b, i + 8, len);
      TailOf(b, i + 8, len);
    } else {
      PartOf(b, i + 8, |rest|);
      assert b[|b|..] == [] && rest[..|rest|] == rest;
    }
  }

  lemma FramesOf(s: seq<Byte>)
    requires |s| >= 8
    ensures var len := ReadLength(s[4..]); Frames(s) == Onto(s[0], Take(s[8..], len), Frames(Drop(s[8..], len)))
  {
    hide ReadLength, Onto;
  }

  // --- writing ---

  predicate Fits(f: Frame) {
    |f.payload| < WIDTH
  }

  function Header(f: Frame): (r: seq<Byte>)
    requires Fits(f)
    ensures |r| == 8
  {
    [f.stream, 0, 0, 0] + Length32(|f.payload|)
  }

  function Encode(fs: seq<Frame>): seq<Byte>
    requires forall i | 0 <= i < |fs| :: Fits(fs[i])
  {
    if fs == [] then [] else Header(fs[0]) + (fs[0].payload + Encode(fs[1..]))
  }

  /** The payloads of each stream, in order. */
  function Split(fs: seq<Frame>): Output {
    if fs == [] then Output([], []) else Onto(fs[0].stream, fs[0].payload, Split(fs[1..]))
  }

  lemma HeaderReads(f: Frame, rest: seq<Byte>)
    requires Fits(f)
    ensures var b := Header(f) + (f.payload + rest);
            |b| >= 8 && b[0] == f.stream && ReadLength(b[4..]) == |f.payload| && b[8..] == f.payload + rest
  {
    hide ReadLength, Length32;
    var b := Header(f) + (f.payload + rest);
    LengthRoundTrip(|f.payload|);
    assert b[4..][..4] == Length32(|f.payload|) && Length32(|f.payload|)[..4] == Length32(|f.payload|);
    ReadIsFront(b[4..], Length32(|f.payload|));
  }

  lemma {:induction false} FramesEncoded(fs: seq<Frame>)
    requires forall i | 0 <= i < |fs| :: Fits(fs[i])
    ensures Frames(Encode(fs)) == Split(fs)
  {
    if fs != [] {
      hide Header, ReadLength, Fits;
      var f, rest := fs[0], Encode(fs[1..]);
      HeaderReads(f, rest);
      FramesEncoded(fs[1..]);
      assert (f.payload + rest)[..|f.payload|] == f.payload && (f.payload + rest)[|f.payload|..] == rest;
    }
  }

  /** Every list of frames that starts on a real stream comes apart into its two streams. */
  lemma DemuxInvertsFraming(fs: seq<Frame>)
    requires forall i | 0 <= i < |fs| :: Fits(fs[i])
    requires fs != [] ==> fs[0].stream == 1 || fs[0].stream == 2
    ensures Demuxed(Encode(fs)) == Split(fs)
  {
    FramesEncoded(fs);
    if fs != [] {
      HeaderReads(fs[0], Encode(fs[1..]));
    }
  }

  // --- truncation ---

  lemma OntoPrefix(stream: Byte, p: seq<Byte>, o: Output, q: Output)
    requires o.stdout <= q.stdout && o.stderr <= q.stderr
    ensures Onto(stream, p, o).stdout <= Onto(stream, p, q).stdout && Onto(stream, p, o).stderr <= Onto(stream, p, q).stderr
  {
    assert p + o.stdout <= p + q.stdout && p + o.stderr <= p + q.stderr;
  }

  lemma CutPayload(stream: Byte, p: seq<Byte>, p': seq<Byte>, q: Output)
    requires p' <= p
    ensures Onto(stream, p', Output([], [])).stdout <= Onto(stream, p, q).stdout
    ensures Onto(stream, p', Output([], [])).stderr <= Onto(stream, p, q).stderr
  {
    assert p' + [] == p';
    assert p <= p + q.stdout && p <= p + q.stderr;
  }

  lemma TakeTake(b: seq<Byte>, k: nat, j: nat)
    requires j <= k <= |b|
    ensures b[..k][..j] == b[..j]
  {
  }

  lemma TakeTail(b: seq<Byte>, k: nat, j: nat)
    requires j <= k <= |b|
    ensures b[..k][j..] == b[j..][..k - j]
  {
  }

  lemma {:induction false} FramesTruncated(b: seq<Byte>, k: nat)
    requires k <= |b|
    ensures Frames(b[..k]).stdout <= Frames(b).stdout && Frames(b[..k]).stderr <= Frames(b).stderr
    decreases |b|
  {
    hide ReadLength, Frames, Onto;
    if k < 8 {
      NothingLeft(b[..k]);
    } else {
      var c, body, len := b[..k], b[8..], ReadLength(b[4..]);
      TakeTail(b, k, 4);
      TakeTake(b[4..], k - 4, 4);
      ReadIsFront(b[4..], c[4..]);
      FramesOf(b);
      FramesOf(c);
      TakeTail(b, k, 8);
      if 8 + len <= k {
        TakeTake(body, k - 8, len);
        TakeTail(body, k - 8, len);
        FramesTruncated(body[len..], k - 8 - len);
        OntoPrefix(b[0], body[..len], Frames(c[8..][len..]), Frames(body[len..]));
      } else {
        NothingLeft(Drop(c[8..], len));
        PrefixTake(body, k - 8, len);
        CutPayload(b[0], Take(body, len), Take(c[8..], len), Frames(Drop(body, len)));
      }
    }
  }

  lemma PrefixTake(b: seq<Byte>, k: nat, n: nat)
    requires k <= |b| && k < n
    ensures Take(b[..k], n) <= Take(b, n)
  {
  }

  lemma NothingLeft(b: seq<Byte>)
    requires |b| < 8
    ensures Frames(b) == Output([], [])
  {
  }

  /** Output cut off anywhere gives a prefix of each stream, whatever the bytes are. */
  lemma TruncationGivesPrefixes(b: seq<Byte>, k: nat)
    requires k <= |b|
    ensures Demuxed(b[..k]).stdout <= Demuxed(b).stdout && Demuxed(b[..k]).stderr <= Demuxed(b).stderr
  {
    hide Frames;
    FramesTruncated(b, k);
  }
}
