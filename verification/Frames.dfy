/** UDP datagrams on a stream: internal/protocol/protocol.go:37-38, 135-163. */
module Frames {
  import opened Basics

  type Byte = n: nat | n < 256

  const MAX_DATAGRAM: nat := 65535

  type Datagram = p: seq<Byte> | |p| <= MAX_DATAGRAM

  /** Two bytes of length, most significant first, and the payload. */
  function Encode(payload: Datagram): seq<Byte> {
    [|payload| / 256, |payload| % 256] + payload
  }

  function EncodeAll(payloads: seq<Datagram>): seq<Byte> {
    if payloads == [] then [] else Encode(payloads[0]) + EncodeAll(payloads[1..])
  }

  /** Why reading stopped: io.EOF, io.ErrUnexpectedEOF, or a frame beyond the buffer. */
  datatype Stop = EndOfStream | CutOff | TooLarge

  /** Reading one frame: the payload and what is left of the stream, or why there is none. */
  datatype Reading = Frame(payload: seq<Byte>, rest: seq<Byte>) | Stopped(why: Stop)

  /** io.ReadFull on a stream that holds `stream` and then ends. */
  function Missing(stream: seq<Byte>): Stop { if stream == [] then EndOfStream else CutOff }

  /** The big-endian length. */
  function Length(high: nat, low: nat): nat { 256 * high + low }

  function DecodeFrame(stream: seq<Byte>, limit: nat): Reading {
    if |stream| < 2 then Stopped(Missing(stream))
    else
      var n := Length(stream[0], stream[1]);
      if n > limit then Stopped(TooLarge)
      else if |stream| < 2 + n then Stopped(Missing(stream[2..]))
      else Frame(stream[2..2 + n], stream[2 + n..])
  }

  /** Reading frames until it stops. */
  function DecodeAll(stream: seq<Byte>, limit: nat): (seq<seq<Byte>>, Stop) {
    match DecodeFrame(stream, limit)
    case Stopped(why) => ([], why)
    case Frame(payload, rest) =>
      var (more, why) := DecodeAll(rest, limit);
      ([payload] + more, why)
  }

  /** The payload and the rest, counted from behind the header. */
  lemma FrameParts(stream: seq<Byte>, n: nat)
    requires |stream| >= 2
    ensures |stream| >= 2 + n ==> stream[2..][..n] == stream[2..2 + n] && stream[2..][n..] == stream[2 + n..]
  {
  }

  // ----- round trip and truncation -----------------------------------------------------

  lemma DecodeFirst(payload: Datagram, rest: seq<Byte>)
    ensures DecodeFrame(Encode(payload) + rest, MAX_DATAGRAM) == Frame(payload, rest)
  {
    FrontIsFrame(payload, rest, MAX_DATAGRAM);
  }

  /** The format: the length of the datagram in two bytes, the high one first. */
  lemma FrameFormat(payload: Datagram)
    ensures
      var s := Encode(payload);
      |s| == 2 + |payload| && 256 * (s[0] as int) + s[1] as int == |payload| && s[2..] == payload
  {
  }

  lemma FrontIsFrame(payload: Datagram, rest: seq<Byte>, limit: nat)
    requires |payload| <= limit
    ensures DecodeFrame(Encode(payload) + rest, limit) == Frame(payload, rest)
  {
    var s := Encode(payload) + rest;
    assert s[0] == |payload| / 256 && s[1] == |payload| % 256;
    assert Length(s[0], s[1]) == |payload|;
    assert s[2..2 + |payload|] == payload && s[2 + |payload|..] == rest;
  }

  /** What is read is a frame from the front of the stream that the buffer has room for. */
  lemma FrameMeaning(stream: seq<Byte>, limit: nat, payload: seq<Byte>, rest: seq<Byte>)
    ensures DecodeFrame(stream, limit) == Frame(payload, rest) <==>
            |payload| <= limit && |payload| <= 65535 && stream == Encode(payload) + rest
  {
    if |payload| <= limit && |payload| <= 65535 && stream == Encode(payload) + rest {
      FrontIsFrame(payload, rest, limit);
    }
    if DecodeFrame(stream, limit) == Frame(payload, rest) {
      var n := Length(stream[0], stream[1]);
      assert payload == stream[2..2 + n] && rest == stream[2 + n..];
      assert stream == stream[..2] + payload + rest;
      assert Encode(payload) == stream[..2] + payload;
    }
  }

  /** The length that a header gives. */
  ghost function Announced(stream: seq<Byte>): int
    requires |stream| >= 2
  {
    256 * (stream[0] as int) + stream[1] as int
  }

  /** Why nothing is read: the buffer is too small for what the header announces, or the
      stream ends before a frame, or right behind a header, or elsewhere. */
  lemma StopMeaning(stream: seq<Byte>, limit: nat)
    ensures DecodeFrame(stream, limit) == Stopped(TooLarge) <==> |stream| >= 2 && Announced(stream) > limit
    ensures DecodeFrame(stream, limit) == Stopped(EndOfStream) <==> stream == [] || (|stream| == 2 && 1 <= Announced(stream) <= limit)
    ensures DecodeFrame(stream, limit) == Stopped(CutOff) <==>
            |stream| == 1 || (2 < |stream| < 2 + Announced(stream) && Announced(stream) <= limit)
  {
  }

  /** A stream of frames reads back as the datagrams it was made of. */
  lemma {:induction false} RoundTrip(payloads: seq<Datagram>)
    ensures DecodeAll(EncodeAll(payloads), MAX_DATAGRAM) == (payloads, EndOfStream)
  {
    if payloads != [] {
      DecodeFirst(payloads[0], EncodeAll(payloads[1..]));
      RoundTrip(payloads[1..]);
      assert payloads == [payloads[0]] + payloads[1..];
    }
  }

  /** The number of datagrams whose frames fit completely into the first k bytes. */
  function Complete(payloads: seq<Datagram>, k: nat): (m: nat)
    ensures m <= |payloads|
  {
    if payloads == [] || k < |Encode(payloads[0])| then 0
    else 1 + Complete(payloads[1..], k - |Encode(payloads[0])|)
  }

  /** `Complete` is the largest number of whole frames within k bytes. */
  lemma {:induction false} CompleteIsLargest(payloads: seq<Datagram>, k: nat, m: nat)
    requires m <= |payloads|
    ensures m <= Complete(payloads, k) <==> |EncodeAll(payloads[..m])| <= k
  {
    if m > 0 {
      assert payloads[..m][1..] == payloads[1..][..m - 1];
      if |Encode(payloads[0])| <= k {
        CompleteIsLargest(payloads[1..], k - |Encode(payloads[0])|, m - 1);
      }
    }
  }

  /** A stream cut anywhere yields exactly its complete frames and then an error; the
      error is a clean end only at a frame boundary or right behind a header. */
  lemma {:induction false} Truncated(payloads: seq<Datagram>, k: nat)
    requires k <= |EncodeAll(payloads)|
    ensures
      var m := Complete(payloads, k);
      var (got, why) := DecodeAll(EncodeAll(payloads)[..k], MAX_DATAGRAM);
      && got == payloads[..m] && why != TooLarge
      && (why == EndOfStream <==> k == |EncodeAll(payloads[..m])| || k == |EncodeAll(payloads[..m])| + 2)
  {
    if payloads != [] {
      var first, rest := Encode(payloads[0]), EncodeAll(payloads[1..]);
      if k < |first| {
        assert (first + rest)[..k] == first[..k];
        CutFirst(payloads[0], k);
        assert payloads[..Complete(payloads, k)] == [];
      } else {
        Truncated(payloads[1..], k - |first|);
        CutLater(payloads, k);
      }
    }
  }

  /** A cut behind the first frame is a cut of the rest. */
  lemma CutLater(payloads: seq<Datagram>, k: nat)
    requires payloads != [] && |Encode(payloads[0])| <= k <= |EncodeAll(payloads)|
    ensures
      var m, n := Complete(payloads, k), k - |Encode(payloads[0])|;
      var (got, why) := DecodeAll(EncodeAll(payloads[1..])[..n], MAX_DATAGRAM);
      && DecodeAll(EncodeAll(payloads)[..k], MAX_DATAGRAM) == ([payloads[0]] + got, why)
      && m == Complete(payloads[1..], n) + 1 && payloads[..m] == [payloads[0]] + payloads[1..][..m - 1]
      && |EncodeAll(payloads[..m])| == |Encode(payloads[0])| + |EncodeAll(payloads[1..][..m - 1])|
  {
    var first, rest := Encode(payloads[0]), EncodeAll(payloads[1..]);
    assert (first + rest)[..k] == first + rest[..k - |first|];
    DecodeFirst(payloads[0], rest[..k - |first|]);
    TakeOneMore(payloads, Complete(payloads, k));
  }

  lemma CutFirst(payload: Datagram, k: nat)
    requires k < |Encode(payload)|
    ensures
      var r := DecodeFrame(Encode(payload)[..k], MAX_DATAGRAM);
      r == Stopped(if k == 0 || k == 2 then EndOfStream else CutOff)
  {
    var cut := Encode(payload)[..k];
    if k >= 2 {
      assert cut[0] == |payload| / 256 && cut[1] == |payload| % 256;
      assert Length(cut[0], cut[1]) == |payload|;
    }
  }

  lemma TakeOneMore(payloads: seq<Datagram>, m: nat)
    requires 1 <= m <= |payloads|
    ensures payloads[..m] == [payloads[0]] + payloads[1..][..m - 1]
    ensures |EncodeAll(payloads[..m])| == |Encode(payloads[0])| + |EncodeAll(payloads[1..][..m - 1])|
  {
    assert payloads[..m][1..] == payloads[1..][..m - 1];
  }

  // ----- the code ------------------------------------------------------------------------

  /** An io.Writer that keeps what is written. */
  class Sink {
    var written: seq<Byte>

    constructor ()
      ensures written == []
    {
      written := [];
    }

    method Write(buf: array<Byte>)
      modifies this
      ensures written == old(written) + buf[..]
    {
      written := written + buf[..];
    }
  }

  /** copy(buf[at:], data) */
  method CopyInto(buf: array<Byte>, at: nat, data: seq<Byte>)
    requires at + |data| <= buf.Length
    modifies buf
    ensures buf[..at + |data|] == old(buf[..at]) + data
    ensures buf[at + |data|..] == old(buf[at + |data|..])
  {
    var k := 0;
    while k < |data|
      invariant k <= |data|
      invariant buf[..at + k] == old(buf[..at]) + data[..k]
      invariant buf[at + |data|..] == old(buf[at + |data|..])
    {
      buf[at + k] := data[k];
      k := k + 1;
    }
    assert data[..k] == data;
  }

  /** WriteFrame: fills one buffer and writes it at once; an oversized datagram is
      refused before anything is written. */
  method WriteFrame(w: Sink, payload: seq<Byte>) returns (ok: bool)
    modifies w
    ensures ok <==> |payload| <= 65535
    ensures w.written == if ok then old(w.written) + Encode(payload) else old(w.written)
  {
    if |payload| > MAX_DATAGRAM { return false; }
    var buf := new Byte[2 + |payload|](_ => 0);
    buf[0], buf[1] := |payload| / 256, |payload| % 256;
    CopyInto(buf, 2, payload);
    assert buf[..] == Encode(payload);
    w.Write(buf);
    return true;
  }

  function Concat(chunks: seq<seq<Byte>>): seq<Byte> {
    if chunks == [] then [] else chunks[0] + Concat(chunks[1..])
  }

  /** An io.Reader that hands out its data in arbitrary chunks, then ends. */
  class Source {
    var chunks: seq<seq<Byte>>

    constructor (chunks: seq<seq<Byte>>)
      ensures this.chunks == chunks
    {
      this.chunks := chunks;
    }

    ghost function Pending(): seq<Byte>
      reads this
    {
      Concat(chunks)
    }

    /** One Read of at most n bytes; more = false is the end of the stream. */
    method Read(n: nat) returns (data: seq<Byte>, more: bool)
      modifies this
      ensures more <==> old(chunks) != []
      ensures |data| <= n && old(Pending()) == data + Pending()
      ensures more && n > 0 ==> |chunks| < |old(chunks)| || (|chunks| == |old(chunks)| && |data| > 0)
    {
      if chunks == [] { return [], false; }
      var head := chunks[0];
      if |head| <= n {
        data, chunks := head, chunks[1..];
      } else {
        data, chunks := head[..n], [head[n..]] + chunks[1..];
        assert head == data + head[n..];
      }
      more := true;
    }

    /** io.ReadFull into buf[..n]: however the stream is chunked, it delivers the next n
        bytes, or consumes what there is and reports why it came up short. */
    method ReadFull(buf: array<Byte>, n: nat) returns (stop: Option<Stop>)
      requires n <= buf.Length
      modifies this, buf
      ensures |old(Pending())| >= n ==> stop == None && buf[..n] == old(Pending())[..n] && Pending() == old(Pending())[n..]
      ensures |old(Pending())| < n ==> stop == Some(Missing(old(Pending()))) && Pending() == []
      ensures buf[n..] == old(buf[n..])
    {
      ghost var all := Pending();
      var got := 0;
      while got < n
        invariant got <= n && all == buf[..got] + Pending()
        invariant buf[n..] == old(buf[n..])
        decreases n - got, |chunks|
      {
        var data, more := Read(n - got);
        if !more {
          assert Pending() == [] && all == buf[..got];
          return Some(if got == 0 then EndOfStream else CutOff);
        }
        ghost var behind := buf[got + |data|..];
        CopyInto(buf, got, data);
        got := got + |data|;
        assert buf[n..] == behind[n - got..];
      }
      return None;
    }

    /** ReadFrame into the caller's buffer. */
    method ReadFrame(buf: array<Byte>) returns (r: Result<seq<Byte>, Stop>)
      modifies this, buf
      ensures match DecodeFrame(old(Pending()), buf.Length)
              case Frame(payload, rest) => r == Ok(payload) && Pending() == rest
              case Stopped(why) => r == Err(why)
    {
      ghost var all := Pending();
      var header := ReadHeader();
      if header.Err? { return Err(header.error); }
      var n := header.value;
      if n > buf.Length { return Err(TooLarge); }
      FrameParts(all, n);
      var stop := ReadFull(buf, n);
      if stop.Some? { return Err(stop.value); }
      return Ok(buf[..n]);
    }

    /** The length in front of a frame. */
    method ReadHeader() returns (r: Result<nat, Stop>)
      modifies this
      ensures |old(Pending())| < 2 ==> r == Err(Missing(old(Pending())))
      ensures |old(Pending())| >= 2 ==> r == Ok(Length(old(Pending())[0], old(Pending())[1])) && Pending() == old(Pending())[2..]
    {
      var hdr := new Byte[2](_ => 0);
      var stop := ReadFull(hdr, 2);
      if stop.Some? { return Err(stop.value); }
      assert hdr[0] == hdr[..2][0] && hdr[1] == hdr[..2][1];
      return Ok(Length(hdr[0], hdr[1]));
    }
  }

  /** One turn of the loop: what is still to come after the frames so far. */
  lemma OneFrameMore(frames: seq<seq<Byte>>, stream: seq<Byte>)
    ensures match DecodeFrame(stream, MAX_DATAGRAM)
            case Stopped(why) => frames + DecodeAll(stream, MAX_DATAGRAM).0 == frames && DecodeAll(stream, MAX_DATAGRAM).1 == why
            case Frame(payload, rest) =>
              && frames + DecodeAll(stream, MAX_DATAGRAM).0 == (frames + [payload]) + DecodeAll(rest, MAX_DATAGRAM).0
              && DecodeAll(stream, MAX_DATAGRAM).1 == DecodeAll(rest, MAX_DATAGRAM).1
              && |rest| < |stream|
  {
    match DecodeFrame(stream, MAX_DATAGRAM)
    case Stopped(_) =>
    case Frame(payload, rest) =>
      assert frames + ([payload] + DecodeAll(rest, MAX_DATAGRAM).0) == (frames + [payload]) + DecodeAll(rest, MAX_DATAGRAM).0;
  }

  /** The relay loop over a stream: what it delivers depends on the bytes alone, not on
      how they are chunked. */
  method ReadStream(src: Source) returns (frames: seq<seq<Byte>>, why: Stop)
    modifies src
    ensures (frames, why) == DecodeAll(old(Concat(src.chunks)), MAX_DATAGRAM)
  {
    var buf := new Byte[MAX_DATAGRAM](_ => 0);
    frames := [];
    ghost var all := src.Pending();
    assert frames + DecodeAll(all, MAX_DATAGRAM).0 == DecodeAll(all, MAX_DATAGRAM).0;
    while true
      invariant DecodeAll(all, MAX_DATAGRAM).0 == frames + DecodeAll(src.Pending(), MAX_DATAGRAM).0
      invariant DecodeAll(all, MAX_DATAGRAM).1 == DecodeAll(src.Pending(), MAX_DATAGRAM).1
      decreases |src.Pending()|
    {
      OneFrameMore(frames, src.Pending());
      var r := src.ReadFrame(buf);
      if r.Err? { return frames, r.error; }
      frames := frames + [r.value];
    }
  }
}
