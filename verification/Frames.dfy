/** Length-prefixed frames on a byte stream. */
module Frames {
  import opened Domain

  newtype byte = x: int | 0 <= x < 256

  const MAX_FRAME: nat := 8 * 1024 * 1024

  /** The message encoding; JSON is used as an encoding that can be decoded again. */
  datatype Codec<!M> = Codec(encode: M -> seq<byte>, decode: seq<byte> -> Option<M>)

  ghost predicate Invertible<M(!new)>(c: Codec<M>) {
    forall m: M :: c.decode(c.encode(m)) == Some(m)
  }

  /** Four bytes, most significant first. */
  function Header(n: nat): (h: seq<byte>)
    requires n <= MAX_FRAME
    ensures |h| == 4
  {
    [(n / 0x100_0000) as byte, (n / 0x1_0000 % 256) as byte, (n / 256 % 256) as byte, (n % 256) as byte]
  }

  /** The first byte is the most significant. */
  lemma HeaderIsBigEndian(n: nat)
    requires n <= MAX_FRAME
    ensures var h := Header(n);
            n == h[0] as int * 0x100_0000 + h[1] as int * 0x1_0000 + h[2] as int * 0x100 + h[3] as int
  {
    var a, b := n / 256, n / 0x1_0000;
    assert n == 256 * a + n % 256;
    assert b == a / 256 && a == 256 * b + a % 256;
    assert n / 0x100_0000 == b / 256 && b == 256 * (b / 256) + b % 256;
  }

  function Length(h: seq<byte>): nat
    requires |h| == 4
  {
    ((h[0] as nat * 256 + h[1] as nat) * 256 + h[2] as nat) * 256 + h[3] as nat
  }

  lemma HeaderRoundTrip(n: nat)
    requires n <= MAX_FRAME
    ensures Length(Header(n)) == n
  {
    var a, b, c := n / 256, n / 0x1_0000, n / 0x100_0000;
    assert n == 256 * a + n % 256;
    assert b == a / 256 && a == 256 * b + a % 256;
    assert c == b / 256 && b == 256 * c + b % 256;
  }

  function Frame(payload: seq<byte>): seq<byte>
    requires |payload| <= MAX_FRAME
  {
    Header(|payload|) + payload
  }

  datatype Read<+M> = Message(message: M) | EndOfStream | Broken

  /** Reads one frame and returns what is left. A header cut short by the end of the stream counts as
      the end; a payload cut short, an oversized length or an undecodable payload as an error. */
  function ReadOne<M>(c: Codec<M>, bytes: seq<byte>): (r: (Read<M>, seq<byte>))
    ensures r.0.Message? ==> |r.1| < |bytes|
  {
    if |bytes| < 4 then (EndOfStream, []) else
    var len := Length(bytes[..4]);
    if len > MAX_FRAME then (Broken, bytes[4..]) else
    if |bytes| < 4 + len then (Broken, []) else
    match c.decode(bytes[4..4 + len])
    case None => (Broken, bytes[4 + len..])
    case Some(m) => (Message(m), bytes[4 + len..])
  }

  /** Reads until the stream ends or fails. */
  function ReadAll<M>(c: Codec<M>, bytes: seq<byte>): (seq<M>, Read<M>)
    decreases |bytes|
  {
    var (r, rest) := ReadOne(c, bytes);
    if !r.Message? then ([], r) else
    var (ms, end) := ReadAll(c, rest);
    ([r.message] + ms, end)
  }

  predicate Sendable<M>(c: Codec<M>, m: M) {
    |c.encode(m)| <= MAX_FRAME
  }

  ghost predicate AllSendable<M>(c: Codec<M>, ms: seq<M>) {
    forall i | 0 <= i < |ms| :: Sendable(c, ms[i])
  }

  /** The bytes of a list of frames. */
  function Written<M>(c: Codec<M>, ms: seq<M>): seq<byte>
    requires AllSendable(c, ms)
  {
    if |ms| == 0 then [] else Frame(c.encode(ms[0])) + Written(c, ms[1..])
  }

  /** Reading a whole frame at the front returns its message and leaves the rest. */
  lemma ReadFirst<M(!new)>(c: Codec<M>, m: M, rest: seq<byte>)
    requires Invertible(c) && Sendable(c, m)
    ensures ReadOne(c, Frame(c.encode(m)) + rest) == (Message(m), rest)
  {
    var payload := c.encode(m);
    var bytes := Frame(payload) + rest;
    HeaderRoundTrip(|payload|);
    assert bytes[..4] == Header(|payload|);
    assert bytes[4..4 + |payload|] == payload;
    assert bytes[4 + |payload|..] == rest;
  }

  /** A header that announces more than 8 MiB is an error, whatever follows. */
  lemma ReadOversize<M>(c: Codec<M>, bytes: seq<byte>)
    requires |bytes| >= 4
    requires bytes[0] as int * 0x100_0000 + bytes[1] as int * 0x1_0000 + bytes[2] as int * 0x100 + bytes[3] as int
             > 8_388_608
    ensures ReadOne(c, bytes).0 == Broken
  {
    var h := bytes[..4];
    assert h[0] == bytes[0] && h[1] == bytes[1] && h[2] == bytes[2] && h[3] == bytes[3];
  }

  /** A whole frame whose payload cannot be decoded is an error, and is consumed. */
  lemma ReadUndecodable<M>(c: Codec<M>, payload: seq<byte>, rest: seq<byte>)
    requires |payload| <= MAX_FRAME && c.decode(payload) == None
    ensures ReadOne(c, Frame(payload) + rest) == (Broken, rest)
  {
    var bytes := Frame(payload) + rest;
    HeaderRoundTrip(|payload|);
    assert bytes[..4] == Header(|payload|);
    assert bytes[4..4 + |payload|] == payload;
    assert bytes[4 + |payload|..] == rest;
  }

  /** Reading a frame cut short returns no message: it ends the stream inside the header, and is an error
      inside the payload. */
  lemma ReadCut<M>(c: Codec<M>, m: M, k: nat)
    requires Sendable(c, m) && k < |Frame(c.encode(m))|
    ensures ReadOne(c, Frame(c.encode(m))[..k]).0 == if k < 4 then EndOfStream else Broken
  {
    var payload := c.encode(m);
    if k >= 4 {
      HeaderRoundTrip(|payload|);
      assert Frame(payload)[..k][..4] == Header(|payload|);
    }
  }

  /** Whatever was written is read back in order, and then the stream ends. */
  lemma {:induction false} StreamRoundTrip<M(!new)>(c: Codec<M>, ms: seq<M>)
    requires Invertible(c) && AllSendable(c, ms)
    ensures ReadAll(c, Written(c, ms)) == (ms, EndOfStream)
    decreases |ms|
  {
    if |ms| == 0 {
    } else {
      StreamRoundTrip(c, ms[1..]);
      ReadFirst(c, ms[0], Written(c, ms[1..]));
      assert ms == [ms[0]] + ms[1..];
    }
  }

  /** The number of messages whose frames lie wholly within the first `k` bytes. */
  function Whole<M>(c: Codec<M>, ms: seq<M>, k: nat): (n: nat)
    requires AllSendable(c, ms)
    ensures n <= |ms|
  {
    if |ms| == 0 || k < |Frame(c.encode(ms[0]))| then 0 else
    1 + Whole(c, ms[1..], k - |Frame(c.encode(ms[0]))|)
  }

  /** The number of bytes among the first `k` that follow the last whole frame. */
  function Rest<M>(c: Codec<M>, ms: seq<M>, k: nat): nat
    requires AllSendable(c, ms)
  {
    if |ms| == 0 || k < |Frame(c.encode(ms[0]))| then k else Rest(c, ms[1..], k - |Frame(c.encode(ms[0]))|)
  }

  lemma ReadAllFirst<M(!new)>(c: Codec<M>, m: M, rest: seq<byte>)
    requires Invertible(c) && Sendable(c, m)
    ensures ReadAll(c, Frame(c.encode(m)) + rest) == ([m] + ReadAll(c, rest).0, ReadAll(c, rest).1)
  {
    ReadFirst(c, m, rest);
  }

  lemma ReadAllCut<M>(c: Codec<M>, m: M, k: nat)
    requires Sendable(c, m) && k < |Frame(c.encode(m))|
    ensures ReadAll(c, Frame(c.encode(m))[..k]) == ([], if k < 4 then EndOfStream else Broken)
  {
    ReadCut(c, m, k);
  }

  lemma ReadAllNone<M>(c: Codec<M>)
    ensures ReadAll(c, []) == ([], EndOfStream)
  { }

  /** A stream cut anywhere yields exactly the messages whose frames arrived whole, never another; and then
      the end, if less than a header is left over, or else an error. */
  lemma {:induction false} PrefixYieldsPrefix<M(!new)>(c: Codec<M>, ms: seq<M>, k: nat)
    requires Invertible(c) && AllSendable(c, ms) && k <= |Written(c, ms)|
    ensures ReadAll(c, Written(c, ms)[..k]) ==
            (ms[..Whole(c, ms, k)], if Rest(c, ms, k) < 4 then EndOfStream else Broken)
    decreases |ms|
  {
    hide ReadAll, Frame, Invertible;
    if |ms| == 0 {
      ReadAllNone(c);
    } else {
      var frame, later := Frame(c.encode(ms[0])), Written(c, ms[1..]);
      if k < |frame| {
        assert Written(c, ms)[..k] == frame[..k];
        ReadAllCut(c, ms[0], k);
      } else {
        var j := k - |frame|;
        assert Written(c, ms)[..k] == frame + later[..j];
        ReadAllFirst(c, ms[0], later[..j]);
        PrefixYieldsPrefix(c, ms[1..], j);
        assert ms[..Whole(c, ms, k)] == [ms[0]] + ms[1..][..Whole(c, ms[1..], j)];
      }
    }
  }

  class ByteStream {
    var bytes: seq<byte>

    constructor ()
      ensures bytes == []
    {
      bytes := [];
    }

    /** Appends one frame, or nothing when the payload exceeds the cap. */
    method WriteFrame<M>(c: Codec<M>, m: M) returns (r: Result<()>)
      modifies this
      ensures r.Ok? <==> |c.encode(m)| <= 8_388_608
      ensures bytes == if Sendable(c, m) then old(bytes) + Frame(c.encode(m)) else old(bytes)
    {
      var payload := c.encode(m);
      if |payload| > MAX_FRAME { return Err(Runtime); }
      bytes := bytes + Header(|payload|);
      bytes := bytes + payload;
      return Ok(());
    }

    /** Consumes one frame. */
    method ReadFrame<M>(c: Codec<M>) returns (r: Read<M>)
      modifies this
      ensures (r, bytes) == ReadOne(c, old(bytes))
    {
      if |bytes| < 4 {
        bytes := [];
        return EndOfStream;
      }
      var len := Length(bytes[..4]);
      bytes := bytes[4..];
      if len > MAX_FRAME { return Broken; }
      if |bytes| < len {
        bytes := [];
        return Broken;
      }
      var payload := bytes[..len];
      assert payload == old(bytes)[4..4 + len];
      bytes := bytes[len..];
      match c.decode(payload)
      case None => return Broken;
      case Some(m) => return Message(m);
    }
  }
}
