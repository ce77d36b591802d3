/** Messages on a byte stream, each behind a four-byte big-endian length. */
module Frames {
  import opened Records

  type Byte = b: int | 0 <= b < 256

  const HEADER_BYTES: nat := 4
  const MAX_MESSAGE_BYTES: nat := 0x400_0000

  /** The message encoding, which is taken to be invertible and nothing else. */
  datatype Codec<!M> = Codec(encode: M -> seq<Byte>, decode: seq<Byte> -> Option<M>)

  ghost predicate Invertible<M(!new)>(c: Codec<M>) {
    forall m :: c.decode(c.encode(m)) == Some(m)
  }

  // ---- Lengths ----

  function PutUint32(n: nat): seq<Byte>
    requires n < 0x1_0000_0000
  {
    [n / 0x100_0000, n / 0x1_0000 % 0x100, n / 0x100 % 0x100, n % 0x100]
  }

  function Uint32(s: seq<Byte>): nat
    requires |s| == HEADER_BYTES
  {
    var a: int, b: int, c: int, d: int := s[0], s[1], s[2], s[3];
    a * 0x100_0000 + b * 0x1_0000 + c * 0x100 + d
  }

  lemma Uint32RoundTrip(n: nat)
    requires n < 0x1_0000_0000
    ensures Uint32(PutUint32(n)) == n
  {
    assert n == n / 0x100 * 0x100 + n % 0x100;
    assert n / 0x100 == n / 0x1_0000 * 0x100 + n / 0x100 % 0x100;
    assert n / 0x1_0000 == n / 0x100_0000 * 0x100 + n / 0x1_0000 % 0x100;
  }

  // ---- One message ----

  predicate Fits<M>(c: Codec<M>, m: M) {
    |c.encode(m)| <= MAX_MESSAGE_BYTES
  }

  function Frame<M>(c: Codec<M>, m: M): seq<Byte>
    requires Fits(c, m)
  {
    PutUint32(|c.encode(m)|) + c.encode(m)
  }

  datatype Outcome<M> =
    | Message(m: M, rest: seq<Byte>)
    | EndOfStream
    | Truncated
    | TooLarge
    | Undecodable

  /** What `readFrame` makes of the bytes that are still to come. `EndOfStream` is
      an error that is `io.EOF`: nothing came at all, or nothing of the body did. */
  function ReadOne<M>(c: Codec<M>, bytes: seq<Byte>): Outcome<M> {
    if bytes == [] then EndOfStream
    else if |bytes| < HEADER_BYTES then Truncated
    else
      var size := Uint32(bytes[..HEADER_BYTES]);
      if size > MAX_MESSAGE_BYTES then TooLarge
      else if |bytes| < HEADER_BYTES + size then if |bytes| == HEADER_BYTES then EndOfStream else Truncated
      else
        match c.decode(bytes[HEADER_BYTES..HEADER_BYTES + size])
        case None => Undecodable
        case Some(m) => Message(m, bytes[HEADER_BYTES + size..])
  }

  class Conn {
    var unread: seq<Byte>

    constructor ()
      ensures unread == []
    {
      unread := [];
    }

    /** `writeFrame`. The stream may break after any number of bytes. */
    method WriteFrame<M>(c: Codec<M>, m: M) returns (ok: bool)
      modifies this
      ensures !Fits(c, m) ==> !ok && unread == old(unread)
      ensures Fits(c, m) && ok ==> unread == old(unread) + Frame(c, m)
      ensures Fits(c, m) && !ok ==> exists n :: 0 <= n < |Frame(c, m)| && unread == old(unread) + Frame(c, m)[..n]
    {
      var body := c.encode(m);
      if |body| > MAX_MESSAGE_BYTES {
        return false;
      }
      var header := new Byte[HEADER_BYTES];
      header[0], header[1] := |body| / 0x100_0000, |body| / 0x1_0000 % 0x100;
      header[2], header[3] := |body| / 0x100 % 0x100, |body| % 0x100;
      assert header[..] == PutUint32(|body|);
      assert Frame(c, m)[..HEADER_BYTES] == header[..];
      var wrote := Write(header[..]);
      if !wrote {
        ghost var n := |unread| - |old(unread)|;
        assert unread == old(unread) + Frame(c, m)[..n];
        return false;
      }
      wrote := Write(body);
      if !wrote {
        ghost var n := |unread| - |old(unread)|;
        assert unread == old(unread) + Frame(c, m)[..n];
      }
      ok := wrote;
    }

    /** The bytes go out, or only some of them do. */
    method Write(bytes: seq<Byte>) returns (ok: bool)
      modifies this
      ensures ok ==> unread == old(unread) + bytes
      ensures !ok ==> exists n :: 0 <= n < |bytes| && unread == old(unread) + bytes[..n]
    {
      var i := 0;
      while i < |bytes|
        invariant i <= |bytes| && unread == old(unread) + bytes[..i]
      {
        var broken: bool := *;
        if broken {
          return false;
        }
        assert bytes[..i + 1] == bytes[..i] + [bytes[i]];
        unread := unread + [bytes[i]];
        i := i + 1;
      }
      assert bytes[..i] == bytes;
      ok := true;
    }

    /** `io.ReadFull`: `n` bytes, or whatever there was and a failure. */
    method ReadFull(n: nat) returns (full: bool, got: seq<Byte>)
      modifies this
      ensures got + unread == old(unread)
      ensures full <==> n <= |old(unread)|
      ensures if full then |got| == n else unread == []
    {
      var i := 0;
      got := [];
      while i < n && unread != []
        invariant i == |got| <= n && got + unread == old(unread)
      {
        got, unread := got + [unread[0]], unread[1..];
        i := i + 1;
      }
      full := i == n;
    }

    /** `readFrame`. */
    method ReadFrame<M>(c: Codec<M>) returns (r: Outcome<M>)
      modifies this
      ensures r == ReadOne(c, old(unread))
      ensures r.Message? ==> unread == r.rest
    {
      ghost var bytes := unread;
      var full, header := ReadFull(HEADER_BYTES);
      if !full {
        return if header == [] then EndOfStream else Truncated;
      }
      assert header == bytes[..HEADER_BYTES] && unread == bytes[HEADER_BYTES..];
      var size := Uint32(header);
      if size > MAX_MESSAGE_BYTES {
        return TooLarge;
      }
      var whole, body := ReadFull(size);
      if !whole {
        return if body == [] then EndOfStream else Truncated;
      }
      assert body == bytes[HEADER_BYTES..HEADER_BYTES + size] && unread == bytes[HEADER_BYTES + size..];
      match c.decode(body)
      case None => r := Undecodable;
      case Some(m) => r := Message(m, unread);
    }
  }

  // ---- A whole stream ----

  ghost predicate AllFit<M>(c: Codec<M>, ms: seq<M>) {
    forall i :: 0 <= i < |ms| ==> Fits(c, ms[i])
  }

  function Stream<M>(c: Codec<M>, ms: seq<M>): seq<Byte>
    requires AllFit(c, ms)
  {
    if ms == [] then [] else Frame(c, ms[0]) + Stream(c, ms[1..])
  }

  /** The messages a reader gets before its first failure, and the failure. */
  datatype Reading<M> = Reading(messages: seq<M>, end: Outcome<M>)

  function ReadAll<M>(c: Codec<M>, bytes: seq<Byte>): Reading<M>
    decreases |bytes|
  {
    match ReadOne(c, bytes)
    case Message(m, rest) =>
      var more := ReadAll(c, rest);
      Reading([m] + more.messages, more.end)
    case failure => Reading([], failure)
  }

  /** A frame at the front of a stream reads back as its message, whatever follows. */
  lemma FrameReadsBack<M(!new)>(c: Codec<M>, m: M, rest: seq<Byte>)
    requires Invertible(c) && Fits(c, m)
    ensures ReadOne(c, Frame(c, m) + rest) == Message(m, rest)
  {
    var body := c.encode(m);
    var bytes := Frame(c, m) + rest;
    Uint32RoundTrip(|body|);
    assert bytes[..HEADER_BYTES] == PutUint32(|body|);
    assert bytes[HEADER_BYTES..HEADER_BYTES + |body|] == body;
    assert bytes[HEADER_BYTES + |body|..] == rest;
  }

  /** Cut before a frame, or between its header and its body. */
  predicate AtBoundary(cut: nat) {
    cut == 0 || cut == HEADER_BYTES
  }

  /** A frame cut short is an error, never a message. */
  lemma CutFrameFails<M>(c: Codec<M>, m: M, cut: nat)
    requires Fits(c, m) && cut < |Frame(c, m)|
    ensures ReadOne(c, Frame(c, m)[..cut]) == if AtBoundary(cut) then EndOfStream else Truncated
  {
    var body := c.encode(m);
    var bytes := Frame(c, m)[..cut];
    Uint32RoundTrip(|body|);
    if HEADER_BYTES <= cut {
      assert bytes[..HEADER_BYTES] == PutUint32(|body|);
    }
  }

  /** A stream cut anywhere reads back as exactly the messages whose frames are
      whole, and then as an error. It is the error of a peer that hung up between
      two messages if and only if the cut fell between two frames or right after
      a header. */
  lemma {:induction false} CutStreamReads<M(!new)>(c: Codec<M>, ms: seq<M>, cut: nat)
    requires Invertible(c) && AllFit(c, ms) && cut <= |Stream(c, ms)|
    ensures ReadsTo(c, ms, cut, ReadAll(c, Stream(c, ms)[..cut]))
    decreases |ms|
  {
    if ms != [] {
      hide ReadOne, Frame, ReadAll, ReadsTo;
      var frame, rest := Frame(c, ms[0]), ms[1..];
      if cut < |frame| {
        CutInFirst(c, ms, cut);
        NoneWhole(c, ms, cut);
      } else {
        CutStreamReads(c, rest, cut - |frame|);
        CutAfterFirst(c, ms, cut);
        OneMoreWhole(c, ms, cut, ReadAll(c, Stream(c, rest)[..cut - |frame|]));
      }
    }
  }

  /** What reading a stream cut at `cut` gives: the messages whose frames are whole,
      then the error. */
  ghost predicate ReadsTo<M>(c: Codec<M>, ms: seq<M>, cut: nat, r: Reading<M>)
    requires AllFit(c, ms)
  {
    && r.messages <= ms
    && Whole(c, ms, |r.messages|) <= cut
    && (|r.messages| < |ms| ==> cut < Whole(c, ms, |r.messages| + 1))
    && r.end == (if AtBoundary(cut - Whole(c, ms, |r.messages|)) then EndOfStream else Truncated)
  }

  lemma NoneWhole<M>(c: Codec<M>, ms: seq<M>, cut: nat)
    requires AllFit(c, ms) && ms != [] && cut < |Frame(c, ms[0])|
    ensures ReadsTo(c, ms, cut, Reading([], if AtBoundary(cut) then EndOfStream else Truncated))
  {
    hide Frame, Stream;
    OneFrame(c, ms);
  }

  lemma OneMoreWhole<M>(c: Codec<M>, ms: seq<M>, cut: nat, r: Reading<M>)
    requires AllFit(c, ms) && ms != [] && |Frame(c, ms[0])| <= cut && ReadsTo(c, ms[1..], cut - |Frame(c, ms[0])|, r)
    ensures ReadsTo(c, ms, cut, Reading([ms[0]] + r.messages, r.end))
  {
    hide Frame, Stream, Whole;
    OneMore(c, ms, |r.messages|);
    if |r.messages| < |ms| - 1 {
      OneMore(c, ms, |r.messages| + 1);
    }
  }

  lemma CutInFirst<M>(c: Codec<M>, ms: seq<M>, cut: nat)
    requires AllFit(c, ms) && ms != [] && cut < |Frame(c, ms[0])|
    ensures ReadAll(c, Stream(c, ms)[..cut]) == Reading([], if AtBoundary(cut) then EndOfStream else Truncated)
  {
    hide Frame, ReadOne;
    assert Stream(c, ms)[..cut] == Frame(c, ms[0])[..cut];
    CutFrameFails(c, ms[0], cut);
  }

  lemma CutAfterFirst<M(!new)>(c: Codec<M>, ms: seq<M>, cut: nat)
    requires Invertible(c) && AllFit(c, ms) && ms != [] && |Frame(c, ms[0])| <= cut <= |Stream(c, ms)|
    ensures var r := ReadAll(c, Stream(c, ms[1..])[..cut - |Frame(c, ms[0])|]);
            ReadAll(c, Stream(c, ms)[..cut]) == Reading([ms[0]] + r.messages, r.end)
  {
    hide Frame, ReadOne, Invertible;
    var frame := Frame(c, ms[0]);
    var left := Stream(c, ms[1..])[..cut - |frame|];
    assert Stream(c, ms)[..cut] == frame + left;
    FrameReadsBack(c, ms[0], left);
  }

  /** How many bytes the first `n` frames take. */
  function Whole<M>(c: Codec<M>, ms: seq<M>, n: nat): nat
    requires AllFit(c, ms) && n <= |ms|
  {
    |Stream(c, ms[..n])|
  }

  lemma OneFrame<M>(c: Codec<M>, ms: seq<M>)
    requires AllFit(c, ms) && ms != []
    ensures Whole(c, ms, 0) == 0 && Whole(c, ms, 1) == |Frame(c, ms[0])|
  {
    assert ms[..1][1..] == [];
  }

  lemma OneMore<M>(c: Codec<M>, ms: seq<M>, n: nat)
    requires AllFit(c, ms) && n < |ms|
    ensures Whole(c, ms, n + 1) == |Frame(c, ms[0])| + Whole(c, ms[1..], n)
  {
    assert ms[..n + 1][1..] == ms[1..][..n];
  }

  /** Frames in a row read back as the same messages, and then the stream ends. */
  lemma StreamReadsBack<M(!new)>(c: Codec<M>, ms: seq<M>)
    requires Invertible(c) && AllFit(c, ms)
    ensures ReadAll(c, Stream(c, ms)) == Reading(ms, EndOfStream)
  {
    CutStreamReads(c, ms, |Stream(c, ms)|);
    assert ReadsTo(c, ms, |Stream(c, ms)|, ReadAll(c, Stream(c, ms)[..|Stream(c, ms)|]));
    var all := Stream(c, ms);
    assert all[..|all|] == all;
    var n := |ReadAll(c, all).messages|;
    if n < |ms| {
      StreamGrows(c, ms, n + 1);
    }
    assert ms[..|ms|] == ms;
  }

  lemma {:induction false} StreamGrows<M>(c: Codec<M>, ms: seq<M>, n: nat)
    requires AllFit(c, ms) && n <= |ms|
    ensures Whole(c, ms, n) <= |Stream(c, ms)|
    decreases n
  {
    if 0 < n {
      OneMore(c, ms, n - 1);
      StreamGrows(c, ms[1..], n - 1);
    }
  }
}
