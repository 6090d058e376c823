/** The frame reader and header writer of Crow's WebSocket connection (RFC 6455, sections 5.2 to 5.4). */
module WebSocket {
  import opened Prelude

  type Bytes = seq<bv8>

  // ---------------------------------------------------------------- frames on the wire

  /** How a payload length is written. */
  datatype LengthForm = Short(n7: bv8) | Medium(n16: bv16) | Long(n64: bv64)

  /** A frame: its first byte (FIN, reserved bits, opcode), its length, its masking key if any, and its payload. */
  datatype Frame = Frame(first: bv8, length: LengthForm, key: Option<Bytes>, payload: Bytes) {
    predicate Fin() { first & 0x80 != 0 }

    function Opcode(): bv8 { first & 0x0F }
  }

  function LengthValue(l: LengthForm): nat {
    match l
    case Short(n) => n as nat
    case Medium(n) => n as nat
    case Long(n) => n as nat
  }

  predicate IsFrame(f: Frame) {
    && (f.length.Short? ==> f.length.n7 < 126)
    && LengthValue(f.length) == |f.payload|
    && (f.key.Some? ==> |f.key.value| == 4)
  }

  /** The byte of `n` that is `shift` bits up. */
  function Byte64(n: bv64, shift: bv8): bv8
    requires shift <= 56
  {
    ((n >> shift) & 0xFF) as bv8
  }

  /** The bytes of a 64-bit number, most significant first. */
  function BigEndian(n: bv64): (b: Bytes)
    ensures |b| == 8
  {
    [Byte64(n, 56), Byte64(n, 48), Byte64(n, 40), Byte64(n, 32),
     Byte64(n, 24), Byte64(n, 16), Byte64(n, 8), Byte64(n, 0)]
  }

  /** The bytes of the same number as a little-endian machine stores it. */
  function InMemory(n: bv64): (b: Bytes)
    ensures |b| == 8
  {
    [Byte64(n, 0), Byte64(n, 8), Byte64(n, 16), Byte64(n, 24),
     Byte64(n, 32), Byte64(n, 40), Byte64(n, 48), Byte64(n, 56)]
  }

  /** The number that a little-endian machine loads from eight bytes. */
  function Loaded(b: Bytes): bv64
    requires |b| == 8
  {
    (b[7] as bv64 << 56) | (b[6] as bv64 << 48) | (b[5] as bv64 << 40) | (b[4] as bv64 << 32) |
    (b[3] as bv64 << 24) | (b[2] as bv64 << 16) | (b[1] as bv64 << 8) | b[0] as bv64
  }

  /** htonl and ntohl on a little-endian machine: the four bytes swapped, as a 64-bit value. */
  function Swap32(n: bv64): bv64 {
    ((n & 0xFF) << 24) | ((n & 0xFF00) << 8) | ((n & 0xFF0000) >> 8) | ((n & 0xFF000000) >> 24)
  }

  /** The expression that both directions of the 64-bit length use. */
  function Swap64(n: bv64): bv64 {
    (Swap32(n & 0xFFFFFFFF) << 32) | Swap32(n >> 32)
  }

  lemma {:induction false} SwapReversesBytes(n: bv64)
    ensures InMemory(Swap64(n)) == BigEndian(n)
  {
  }

  lemma {:induction false} LoadBigEndian(n: bv64)
    ensures Swap64(Loaded(BigEndian(n))) == n
  {
  }

  function Masked(key: Bytes, p: Bytes): (r: Bytes)
    requires |key| == 4
    ensures |r| == |p|
  {
    seq(|p|, i requires 0 <= i < |p| => p[i] ^ key[i % 4])
  }

  lemma {:induction false} MaskTwice(key: Bytes, p: Bytes)
    requires |key| == 4
    ensures Masked(key, Masked(key, p)) == p
  {
    forall i | 0 <= i < |p| ensures Masked(key, Masked(key, p))[i] == p[i] {
      XorTwice(p[i], key[i % 4]);
    }
  }

  lemma {:induction false} XorTwice(a: bv8, k: bv8)
    ensures (a ^ k) ^ k == a
  {
  }

  /** The mask bit and the seven length bits. */
  function SecondByte(masked: bool, length: LengthForm): bv8 {
    (if masked then 0x80 else 0) |
    (match length case Short(n) => n & 0x7F case Medium(_) => 126 case Long(_) => 127)
  }

  function LengthBytes(l: LengthForm): (b: Bytes)
    ensures |b| == match l case Short(_) => 0 case Medium(_) => 2 case Long(_) => 8
  {
    match l
    case Short(_) => []
    case Medium(n) => [(n >> 8) as bv8, (n & 0xFF) as bv8]
    case Long(n) => BigEndian(n)
  }

  function KeyBytes(f: Frame): Bytes { if f.key.Some? then f.key.value else [] }

  /** The payload as it is sent. */
  function Wire(f: Frame): (w: Bytes)
    requires IsFrame(f)
    ensures |w| == |f.payload|
  {
    if f.key.Some? then Masked(f.key.value, f.payload) else f.payload
  }

  function Encode(f: Frame): Bytes
    requires IsFrame(f)
  {
    [f.first, SecondByte(f.key.Some?, f.length)] + (LengthBytes(f.length) + (KeyBytes(f) + Wire(f)))
  }

  // ---------------------------------------------------------------- what the handlers see

  /** A message handed to the message handler. */
  datatype Message = Message(payload: Bytes, binary: bool)

  /** The reassembly state and everything the connection has reported so far. */
  datatype Session = Session(message: Bytes, binary: bool, delivered: seq<Message>, pongs: seq<Bytes>,
                             pongReceived: bool, closeReceived: bool, closesSent: seq<Bytes>, reason: Option<Bytes>)

  const EMPTY_SESSION := Session([], false, [], [], false, false, [], None)

  function Append(s: Session, fin: bool, payload: Bytes): Session {
    var m := s.message + payload;
    if fin then s.(message := [], delivered := s.delivered + [Message(m, s.binary)]) else s.(message := m)
  }

  /** `close`: a close frame is sent; the close handler is told once, and only after one was received. */
  function Close(s: Session, why: Bytes): Session {
    s.(closesSent := s.closesSent + [why], reason := if s.closeReceived && s.reason.None? then Some(why) else s.reason)
  }

  /** A received close frame is answered unless this side has sent one before. */
  function CloseReceived(s: Session, why: Bytes): Session {
    var s' := s.(closeReceived := true);
    if s.closesSent == [] then Close(s', why) else s'.(reason := if s.reason.None? then Some(why) else s.reason)
  }

  /** The effect of a complete, unmasked frame. */
  function Handle(s: Session, f: Frame): Session {
    match f.Opcode()
    case 0 => Append(s, f.Fin(), f.payload)
    case 1 => Append(s.(binary := false), f.Fin(), f.payload)
    case 2 => Append(s.(binary := true), f.Fin(), f.payload)
    case 8 => CloseReceived(s, f.payload)
    case 9 => s.(pongs := s.pongs + [f.payload])
    case 10 => s.(pongReceived := true)
    case _ => s
  }

  /** The effect of the first `n` frames. */
  function HandleAll(s: Session, frames: seq<Frame>, n: nat): Session
    requires n <= |frames|
  {
    if n == 0 then s else Handle(HandleAll(s, frames, n - 1), frames[n - 1])
  }

  predicate IsClose(f: Frame) { f.Opcode() == 8 }

  /** How many frames are handled, from frame `i` on: up to a close frame, or before one that is too long. */
  function HandledCount(frames: seq<Frame>, limit: nat, i: nat): (n: nat)
    requires i <= |frames|
    ensures i <= n <= |frames|
    decreases |frames| - i
  {
    if i == |frames| || |frames[i].payload| > limit then i
    else if IsClose(frames[i]) then i + 1
    else HandledCount(frames, limit, i + 1)
  }

  // ---------------------------------------------------------------- the connection

  datatype ReadState = MiniHeader | Len16 | Len64 | Mask | Payload

  const BUFFER_SIZE := 4096

  class Connection {
    const maxPayload: nat
    var state: ReadState
    var miniHeader: bv16
    var remaining: nat
    var hasMask: bool
    var mask: Bytes
    var fragment: Bytes
    var message: Bytes
    var isBinary: bool
    /** What the handlers and the socket have seen so far. */
    var delivered: seq<Message>
    var pongs: seq<Bytes>
    var pongReceived: bool
    var closeReceived: bool
    var closesSent: seq<Bytes>
    var reason: Option<Bytes>
    /** Set when the socket has been closed. */
    var closed: bool

    constructor (maxPayload: nat)
      ensures this.maxPayload == maxPayload && state == MiniHeader && fragment == [] && !closed
      ensures Value() == EMPTY_SESSION
    {
      this.maxPayload := maxPayload;
      state, miniHeader, remaining, hasMask, mask, fragment := MiniHeader, 0, 0, false, [0, 0, 0, 0], [];
      message, isBinary, delivered, pongs, pongReceived := [], false, [], [], false;
      closeReceived, closesSent, reason, closed := false, [], None, false;
    }

    function Value(): Session
      reads this
    {
      Session(message, isBinary, delivered, pongs, pongReceived, closeReceived, closesSent, reason)
    }

    /** `close`, which the program can call too; a close frame counts as sent from here on. */
    method SendClose(why: Bytes)
      modifies this`closesSent, this`reason
      ensures Value() == Close(old(Value()), why)
    {
      closesSent := closesSent + [why];
      if closeReceived && reason.None? {
        reason := Some(why);
      }
    }

    /** The unmasking loop, which works on the fragment in place. */
    method Unmask()
      requires |mask| == 4
      modifies this`fragment
      ensures fragment == Masked(mask, old(fragment))
    {
      ghost var wire := fragment;
      for i := 0 to |fragment|
        invariant |fragment| == |wire|
        invariant forall k :: 0 <= k < i ==> fragment[k] == wire[k] ^ mask[k % 4]
        invariant forall k :: i <= k < |wire| ==> fragment[k] == wire[k]
      {
        fragment := fragment[i := fragment[i] ^ mask[i % 4]];
      }
    }

    /** `handle_fragment`: unmasks the fragment, merges it, reports what is complete; false if it closed the socket. */
    method HandleFragment(ghost f: Frame) returns (more: bool)
      requires IsFrame(f) && fragment == Wire(f) && hasMask == f.key.Some? && (hasMask ==> mask == f.key.value)
      requires OpcodeBits(miniHeader) == f.Opcode() && (FinBit(miniHeader)) == f.Fin()
      modifies this
      ensures Value() == Handle(old(Value()), f) && (more ==> fragment == [])
      ensures (more <==> !IsClose(f) || old(closesSent) == []) && closed == (old(closed) || !more)
    {
      if hasMask {
        Unmask();
        MaskTwice(f.key.value, f.payload);
      }
      assert fragment == f.payload;
      more := Dispatch(f);
    }

    /** The switch over the opcode. */
    method Dispatch(ghost f: Frame) returns (more: bool)
      requires fragment == f.payload
      requires OpcodeBits(miniHeader) == f.Opcode() && (FinBit(miniHeader)) == f.Fin()
      modifies this
      ensures Value() == Handle(old(Value()), f) && (more ==> fragment == [])
      ensures (more <==> !IsClose(f) || old(closesSent) == []) && closed == (old(closed) || !more)
    {
      more := true;
      var opcode := OpcodeBits(miniHeader);
      match opcode {
        case 0 => Merge();
        case 1 => isBinary := false; Merge();
        case 2 => isBinary := true; Merge();
        case 8 =>
          closeReceived := true;
          if closesSent != [] {
            closed := true;
            if reason.None? {
              reason := Some(fragment);
            }
            return false;
          }
          SendClose(fragment);
        case 9 => pongs := pongs + [fragment];
        case 10 => pongReceived := true;
        case _ =>
      }
      fragment := [];
    }

    method Merge()
      modifies this`message, this`delivered
      ensures Value() == Append(old(Value()), FinBit(miniHeader), fragment)
    {
      message := message + fragment;
      if FinBit(miniHeader) {
        delivered := delivered + [Message(message, isBinary)];
        message := [];
      }
    }

    /** The first two bytes of `f` have been read. */
    ghost predicate HeaderRead(f: Frame)
      reads this
    {
      miniHeader == MiniOf(f) && hasMask == f.key.Some?
    }

    /** The connection is reading `f`, which starts at `at`, and has read up to `pos`. */
    ghost predicate Reading(stream: Bytes, at: nat, f: Frame, pos: nat)
      reads this
    {
      && IsFrame(f) && FrameAt(stream, at, f) && !closed
      && (state != Payload ==> fragment == [])
      && match state
         case MiniHeader => pos == at
         case Len16 => HeaderRead(f) && f.length.Medium? && pos == at + 2
         case Len64 => HeaderRead(f) && f.length.Long? && pos == at + 2
         case Mask => HeaderRead(f) && pos == at + 2 + |LengthBytes(f.length)| && remaining == |f.payload|
         case Payload =>
           && HeaderRead(f) && (hasMask ==> mask == f.key.value)
           && remaining <= |f.payload| && pos + remaining == at + |Encode(f)|
           && fragment == Wire(f)[..|f.payload| - remaining]
    }

    /** Reads the two header bytes; the value is in network order whatever the machine. */
    method ReadMiniHeader(stream: Bytes, pos: nat, ghost at: nat, ghost f: Frame) returns (pos': nat)
      requires state == MiniHeader && Reading(stream, at, f, pos)
      modifies this
      ensures state in {Len16, Len64, Mask} && Reading(stream, at, f, pos') && Value() == old(Value())
    {
      hide Encode, Wire, Join16, LengthBytes, KeyBytes, SecondByte, FrameAt, MaskBit, LengthCode;
      FrameHead(stream, at, f);
      MiniBits(f);
      miniHeader := Join16(stream[pos], stream[pos + 1]);
      pos' := pos + 2;
      hasMask := MaskBit(miniHeader);
      var code := LengthCode(miniHeader);
      if code == 127 {
        state := Len64;
      } else if code == 126 {
        state := Len16;
      } else {
        remaining := code;
        state := Mask;
      }
    }

    method ReadLength(stream: Bytes, pos: nat, ghost at: nat, ghost f: Frame) returns (pos': nat)
      requires state in {Len16, Len64} && Reading(stream, at, f, pos)
      modifies this
      ensures state == Mask && Reading(stream, at, f, pos') && Value() == old(Value())
    {
      hide Encode, Loaded, Swap64;
      FrameParts(stream, at, f);
      LengthBits(f.length);
      if state == Len16 {
        remaining := Join16(stream[pos], stream[pos + 1]) as nat;
        pos' := pos + 2;
      } else {
        remaining := Swap64(Loaded(stream[pos..pos + 8])) as nat;
        pos' := pos + 8;
      }
      state := Mask;
    }

    /** Refuses a payload that is too long; otherwise reads the masking key, if there is one. */
    method ReadMask(stream: Bytes, pos: nat, ghost at: nat, ghost f: Frame) returns (pos': nat)
      requires state == Mask && Reading(stream, at, f, pos)
      modifies this
      ensures Value() == old(Value())
      ensures if |f.payload| > maxPayload then closed else state == Payload && Reading(stream, at, f, pos')
    {
      hide Encode;
      FrameParts(stream, at, f);
      pos' := pos;
      if remaining > maxPayload {
        closed := true;
        return;
      }
      if hasMask {
        mask := stream[pos..pos + 4];
        pos' := pos + 4;
      }
      state := Payload;
      assert Wire(f)[..0] == [];
    }

    /** Appends some payload to the fragment, as much as the socket has, up to the size of the buffer. */
    method TakePayload(stream: Bytes, pos: nat, ghost at: nat, ghost f: Frame) returns (pos': nat)
      requires state == Payload && Reading(stream, at, f, pos)
      modifies this
      ensures state == Payload && Reading(stream, at, f, pos') && Value() == old(Value())
      ensures remaining < old(remaining) || remaining == 0
    {
      hide Encode, Wire, FrameAt, MiniOf, LengthBytes, KeyBytes;
      var toRead := if remaining < BUFFER_SIZE then remaining else BUFFER_SIZE;
      var transferred: nat :| transferred <= toRead && (toRead > 0 ==> transferred > 0);
      PayloadPiece(stream, at, f, |f.payload| - remaining, transferred);
      fragment := fragment + stream[pos..pos + transferred];
      pos' := pos + transferred;
      remaining := remaining - transferred;
    }

    /** One read in the payload state; true if that completed the frame. */
    method ReadPayload(stream: Bytes, pos: nat, ghost at: nat, ghost f: Frame) returns (pos': nat, done: bool)
      requires state == Payload && Reading(stream, at, f, pos)
      modifies this
      ensures !done ==> state == Payload && Reading(stream, at, f, pos') && Value() == old(Value())
                        && remaining < old(remaining)
      ensures done ==> (closed || (state == MiniHeader && fragment == [])) && (closed ==> IsClose(f))
                       && pos' == at + |Encode(f)| && Value() == Handle(old(Value()), f)
    {
      hide Encode, Handle, Wire, FrameAt, MiniOf, LengthBytes, KeyBytes, OpcodeBits, FinBit, IsFrame;
      pos' := TakePayload(stream, pos, at, f);
      done := remaining == 0;
      if done {
        assert Wire(f)[..|f.payload|] == Wire(f);
        MiniBits(f);
        var more := HandleFragment(f);
        if more {
          state := MiniHeader;
        }
      }
    }

    /** `do_read` until the frame at `pos` is complete, or the socket is closed. */
    method ReadFrame(stream: Bytes, pos: nat, ghost f: Frame) returns (end: nat)
      requires state == MiniHeader && Reading(stream, pos, f, pos) && !closeReceived
      modifies this
      ensures closed <==> |f.payload| > maxPayload || IsClose(f)
      ensures Value() == if |f.payload| > maxPayload then old(Value()) else Handle(old(Value()), f)
      ensures !closed ==> state == MiniHeader && fragment == [] && end == pos + |Encode(f)| && !closeReceived
    {
      hide Encode, Handle, CloseReceived, Close;
      end := ReadMiniHeader(stream, pos, pos, f);
      if state != Mask {
        end := ReadLength(stream, end, pos, f);
      }
      end := ReadMask(stream, end, pos, f);
      if closed {
        return;
      }
      var done := false;
      while !done
        invariant !done ==> state == Payload && Reading(stream, pos, f, end) && Value() == old(Value())
        invariant done ==> (closed || (state == MiniHeader && fragment == [])) && (closed ==> IsClose(f))
                           && end == pos + |Encode(f)| && Value() == Handle(old(Value()), f)
        decreases !done, remaining
      {
        end, done := ReadPayload(stream, end, pos, f);
      }
      ClosesBoth(old(Value()), f);
      if !closed && closesSent != [] && closeReceived {
        closed := true;
      }
    }

    /** Reads a stream of frames until it ends or the socket is closed. */
    method Receive(stream: Bytes, ghost frames: seq<Frame>)
      requires state == MiniHeader && fragment == [] && !closed && !closeReceived
      requires AreFrames(frames) && stream == EncodeAll(frames, |frames|)
      modifies this
      ensures Value() == HandleAll(old(Value()), frames, HandledCount(frames, maxPayload, 0))
      ensures closed <==> exists k :: 0 <= k < |frames| && (|frames[k].payload| > maxPayload || IsClose(frames[k]))
      ensures !closed ==> state == MiniHeader && fragment == []
    {
      hide Encode, Handle, FrameAt, Value, IsFrame, IsClose;
      var pos := 0;
      ghost var n := 0;
      while pos < |stream| && !closed
        invariant n <= |frames|
        invariant forall k :: 0 <= k < n ==> |frames[k].payload| <= maxPayload && !IsClose(frames[k])
        invariant if closed then
                    && n < |frames| && (|frames[n].payload| > maxPayload || IsClose(frames[n]))
                    && Value() == HandleAll(old(Value()), frames, HandledCount(frames, maxPayload, n))
                  else
                    && state == MiniHeader && fragment == [] && !closeReceived && pos == |EncodeAll(frames, n)|
                    && Value() == HandleAll(old(Value()), frames, n)
        invariant HandledCount(frames, maxPayload, 0) == HandledCount(frames, maxPayload, n)
        decreases |frames| - n, !closed
      {
        EncodeAllAt(frames, n, |frames|);
        pos := ReadFrame(stream, pos, frames[n]);
        if !closed {
          n := n + 1;
        }
      }
      if n < |frames| {
        EncodeAllAt(frames, n, |frames|);
      }
    }
  }

  /**
   * After a close frame was handled, both sides have closed: its payload is echoed unless a close frame was sent
   * before, and the close handler hears that payload unless it was called before. No other frame closes.
   */
  lemma {:induction false} ClosesBoth(s: Session, f: Frame)
    ensures var s' := Handle(s, f);
            if IsClose(f) then
              && s'.closeReceived && s'.closesSent == (if s.closesSent == [] then [f.payload] else s.closesSent)
              && s'.reason == (if s.reason.None? then Some(f.payload) else s.reason)
              && s'.message == s.message && s'.delivered == s.delivered && s'.pongs == s.pongs
            else s'.closeReceived == s.closeReceived && s'.closesSent == s.closesSent && s'.reason == s.reason
  {
  }

  /** Whatever follows a close frame, or a frame that is too long, has no effect. */
  lemma {:induction false} NothingAfterClose(s: Session, frames: seq<Frame>, more: seq<Frame>, limit: nat, i: nat)
    requires i <= |frames|
    requires exists k :: i <= k < |frames| && (|frames[k].payload| > limit || IsClose(frames[k]))
    ensures var n := HandledCount(frames, limit, i);
            HandledCount(frames + more, limit, i) == n && HandleAll(s, frames + more, n) == HandleAll(s, frames, n)
    decreases |frames| - i
  {
    hide IsClose, Handle;
    if |frames[i].payload| <= limit && !IsClose(frames[i]) {
      NothingAfterClose(s, frames, more, limit, i + 1);
    } else {
      HandleAllPrefix(s, frames, more, HandledCount(frames, limit, i));
    }
  }

  lemma {:induction false} HandleAllPrefix(s: Session, frames: seq<Frame>, more: seq<Frame>, n: nat)
    requires n <= |frames|
    ensures HandleAll(s, frames + more, n) == HandleAll(s, frames, n)
  {
    hide Handle;
    if n > 0 {
      HandleAllPrefix(s, frames, more, n - 1);
    }
  }

  /** Two bytes as a number, the first one most significant; `ntohs` gives this on every machine. */
  function Join16(b0: bv8, b1: bv8): bv16 { (b0 as bv16 << 8) | b1 as bv16 }

  function FinBit(m: bv16): bool { m & 0x8000 != 0 }

  function OpcodeBits(m: bv16): bv8 { ((m & 0x0F00) >> 8) as bv8 }

  function MaskBit(m: bv16): bool { m & 0x80 == 0x80 }

  function LengthCode(m: bv16): nat { (m & 0x7F) as nat }

  function MiniOf(f: Frame): bv16 { Join16(f.first, SecondByte(f.key.Some?, f.length)) }

  lemma {:induction false} MiniBits(f: Frame)
    requires IsFrame(f)
    ensures var m := MiniOf(f);
            && (MaskBit(m) <==> f.key.Some?)
            && OpcodeBits(m) == f.Opcode()
            && (FinBit(m) <==> f.Fin())
            && LengthCode(m) == match f.length case Short(n) => n as nat case Medium(_) => 126 case Long(_) => 127
  {
    if f.length.Short? {
      ShortBits(f.first, f.length.n7, if f.key.Some? then 0x80 else 0);
    }
  }

  lemma {:induction false} ShortBits(first: bv8, n: bv8, m: bv8)
    requires n < 126 && (m == 0 || m == 0x80)
    ensures (((first as bv16 << 8) | (m | (n & 0x7F)) as bv16) & 0x7F) == n as bv16
    ensures n as bv16 as nat == n as nat
  {
  }

  lemma {:induction false} LengthBits(l: LengthForm)
    ensures l.Medium? ==> Join16(LengthBytes(l)[0], LengthBytes(l)[1]) == l.n16
    ensures l.Long? ==> Swap64(Loaded(LengthBytes(l))) == l.n64
  {
    if l.Long? {
      LoadBigEndian(l.n64);
    }
  }

  ghost predicate FrameAt(stream: Bytes, at: nat, f: Frame)
    requires IsFrame(f)
  {
    at + |Encode(f)| <= |stream| && stream[at..at + |Encode(f)|] == Encode(f)
  }

  lemma {:induction false} FrameHead(stream: Bytes, at: nat, f: Frame)
    requires IsFrame(f) && FrameAt(stream, at, f)
    ensures |Encode(f)| == 2 + |LengthBytes(f.length)| + |KeyBytes(f)| + |f.payload| && at + |Encode(f)| <= |stream|
    ensures stream[at] == f.first && stream[at + 1] == SecondByte(f.key.Some?, f.length)
  {
    hide LengthBytes, KeyBytes, Wire, SecondByte;
    var e := stream[at..at + |Encode(f)|];
    assert e[0] == stream[at] && e[1] == stream[at + 1];
  }

  lemma {:induction false} FrameParts(stream: Bytes, at: nat, f: Frame)
    requires IsFrame(f) && FrameAt(stream, at, f)
    ensures |Encode(f)| == 2 + |LengthBytes(f.length)| + |KeyBytes(f)| + |f.payload| && at + |Encode(f)| <= |stream|
    ensures stream[at + 2..at + 2 + |LengthBytes(f.length)|] == LengthBytes(f.length)
    ensures var k := at + 2 + |LengthBytes(f.length)|; stream[k..k + |KeyBytes(f)|] == KeyBytes(f)
    ensures stream[at + |Encode(f)| - |f.payload|..at + |Encode(f)|] == Wire(f)
  {
    hide LengthBytes, KeyBytes, Wire, SecondByte;
    FourPieces(stream, at, [f.first, SecondByte(f.key.Some?, f.length)], LengthBytes(f.length), KeyBytes(f), Wire(f));
  }

  lemma {:induction false} FourPieces(stream: Bytes, at: nat, a: Bytes, b: Bytes, c: Bytes, d: Bytes)
    requires var n := |a| + |b| + |c| + |d|; at + n <= |stream| && stream[at..at + n] == a + (b + (c + d))
    ensures stream[at + |a|..at + |a| + |b|] == b
    ensures stream[at + |a| + |b|..at + |a| + |b| + |c|] == c
    ensures stream[at + |a| + |b| + |c|..at + |a| + |b| + |c| + |d|] == d
  {
    Pieces(stream, at, a, b + (c + d));
    Pieces(stream, at + |a|, b, c + d);
    Pieces(stream, at + |a| + |b|, c, d);
  }

  lemma {:induction false} Pieces(stream: Bytes, at: nat, a: Bytes, b: Bytes)
    requires at + |a + b| <= |stream| && stream[at..at + |a + b|] == a + b
    ensures stream[at..at + |a|] == a && stream[at + |a|..at + |a| + |b|] == b
  {
    var w := stream[at..at + |a + b|];
    assert w[..|a|] == stream[at..at + |a|] && w[|a|..] == stream[at + |a|..at + |a| + |b|];
  }

  lemma {:induction false} PayloadPiece(stream: Bytes, at: nat, f: Frame, have: nat, n: nat)
    requires IsFrame(f) && FrameAt(stream, at, f) && have + n <= |f.payload|
    ensures var pos := at + |Encode(f)| - |f.payload| + have;
            0 <= pos && pos + n <= |stream| && Wire(f)[..have] + stream[pos..pos + n] == Wire(f)[..have + n]
  {
    hide Encode, Wire;
    FrameParts(stream, at, f);
    Window(stream, at + |Encode(f)| - |f.payload|, Wire(f), have, n);
  }

  lemma {:induction false} Window(stream: Bytes, start: nat, w: Bytes, have: nat, n: nat)
    requires start + |w| <= |stream| && stream[start..start + |w|] == w && have + n <= |w|
    ensures w[..have] + stream[start + have..start + have + n] == w[..have + n]
  {
    var whole := stream[start..start + |w|];
    assert forall i :: have <= i < have + n ==> stream[start + i] == whole[i];
    assert stream[start + have..start + have + n] == w[have..have + n];
    assert w[..have] + w[have..have + n] == w[..have + n];
  }

  predicate AreFrames(frames: seq<Frame>) { forall k :: 0 <= k < |frames| ==> IsFrame(frames[k]) }

  /** The first `n` frames, one after the other. */
  function EncodeAll(frames: seq<Frame>, n: nat): Bytes
    requires AreFrames(frames) && n <= |frames|
  {
    if n == 0 then [] else EncodeAll(frames, n - 1) + Encode(frames[n - 1])
  }

  /** Frame `n` stands where the first `n` frames end. */
  lemma {:induction false} EncodeAllAt(frames: seq<Frame>, n: nat, m: nat)
    requires AreFrames(frames) && n < m <= |frames|
    ensures |EncodeAll(frames, n)| < |EncodeAll(frames, m)|
    ensures FrameAt(EncodeAll(frames, m), |EncodeAll(frames, n)|, frames[n])
  {
    hide IsFrame, Encode;
    var at, e := |EncodeAll(frames, n)|, Encode(frames[n]);
    EncodeIsLong(frames[n]);
    if n < m - 1 {
      EncodeAllAt(frames, n, m - 1);
      var text := EncodeAll(frames, m - 1);
      assert (text + Encode(frames[m - 1]))[at..at + |e|] == text[at..at + |e|];
    }
  }

  lemma {:induction false} EncodeIsLong(f: Frame)
    requires IsFrame(f)
    ensures |Encode(f)| >= 2
  {
  }

  // ---------------------------------------------------------------- the reference: messages cut into fragments

  /** What a data frame contributes. */
  datatype Shape = Shape(opcode: bv8, fin: bool, payload: Bytes)

  function ShapeOf(f: Frame): Shape { Shape(f.Opcode(), f.Fin(), f.payload) }

  /** A text or binary message, sent in one or more fragments. */
  datatype Sent = Sent(binary: bool, fragments: seq<Bytes>)

  predicate IsControl(f: Frame) { f.Opcode() == 9 || f.Opcode() == 10 }

  /** The first `n` pieces, one after the other. */
  function Concat(parts: seq<Bytes>, n: nat): Bytes
    requires n <= |parts|
  {
    if n == 0 then [] else Concat(parts, n - 1) + parts[n - 1]
  }

  /** Data frame `n` of a message: the opcode is in the first one, FIN in the last one. */
  function ShapeAt(m: Sent, n: nat): Shape
    requires n < |m.fragments|
  {
    Shape(if n > 0 then 0 else if m.binary then 2 else 1, n == |m.fragments| - 1, m.fragments[n])
  }

  function Shapes(m: Sent): (r: seq<Shape>)
    ensures |r| == |m.fragments|
  {
    seq(|m.fragments|, i requires 0 <= i < |m.fragments| => ShapeAt(m, i))
  }

  function AllShapes(ms: seq<Sent>, n: nat): seq<Shape>
    requires n <= |ms|
  {
    if n == 0 then [] else AllShapes(ms, n - 1) + Shapes(ms[n - 1])
  }

  /** The data frames among the first `n`. */
  function DataShapes(frames: seq<Frame>, n: nat): seq<Shape>
    requires n <= |frames|
  {
    if n == 0 then []
    else if IsControl(frames[n - 1]) then DataShapes(frames, n - 1)
    else DataShapes(frames, n - 1) + [ShapeOf(frames[n - 1])]
  }

  /** The payloads of the pings among the first `n` frames. */
  function PingPayloads(frames: seq<Frame>, n: nat): seq<Bytes>
    requires n <= |frames|
  {
    if n == 0 then []
    else if frames[n - 1].Opcode() == 9 then PingPayloads(frames, n - 1) + [frames[n - 1].payload]
    else PingPayloads(frames, n - 1)
  }

  /** The frames carry the messages one after the other; pings and pongs may stand anywhere between them. */
  ghost predicate Carries(frames: seq<Frame>, ms: seq<Sent>) {
    && DataShapes(frames, |frames|) == AllShapes(ms, |ms|)
    && forall k :: 0 <= k < |ms| ==> |ms[k].fragments| > 0
  }

  function Messages(ms: seq<Sent>, n: nat): seq<Message>
    requires n <= |ms|
  {
    if n == 0 then []
    else Messages(ms, n - 1) + [Message(Concat(ms[n - 1].fragments, |ms[n - 1].fragments|), ms[n - 1].binary)]
  }

  /** The reassembly state that data frames change. */
  datatype Assembly = Assembly(message: Bytes, binary: bool, delivered: seq<Message>)

  function AssemblyOf(s: Session): Assembly { Assembly(s.message, s.binary, s.delivered) }

  function Accept(a: Assembly, sh: Shape): Assembly {
    if sh.opcode > 2 then a
    else
      var binary := if sh.opcode == 0 then a.binary else sh.opcode == 2;
      var m := a.message + sh.payload;
      if sh.fin then Assembly([], binary, a.delivered + [Message(m, binary)]) else Assembly(m, binary, a.delivered)
  }

  function AcceptAll(a: Assembly, shs: seq<Shape>, n: nat): Assembly
    requires n <= |shs|
  {
    if n == 0 then a else Accept(AcceptAll(a, shs, n - 1), shs[n - 1])
  }

  lemma {:induction false} AcceptPrefix(a: Assembly, xs: seq<Shape>, ys: seq<Shape>, n: nat)
    requires n <= |xs|
    ensures AcceptAll(a, xs + ys, n) == AcceptAll(a, xs, n)
  {
    hide Accept;
    if n > 0 {
      AcceptPrefix(a, xs, ys, n - 1);
    }
  }

  lemma {:induction false} AcceptAppend(a: Assembly, xs: seq<Shape>, ys: seq<Shape>, n: nat)
    requires n <= |ys|
    ensures AcceptAll(a, xs + ys, |xs| + n) == AcceptAll(AcceptAll(a, xs, |xs|), ys, n)
  {
    hide Accept;
    if n == 0 {
      AcceptPrefix(a, xs, ys, |xs|);
    } else {
      AcceptAppend(a, xs, ys, n - 1);
    }
  }

  /** Control frames do not touch the reassembly, and each ping is answered in order. */
  lemma {:induction false} HandleAllSeparates(s: Session, frames: seq<Frame>, n: nat)
    requires n <= |frames|
    ensures var (s', shapes) := (HandleAll(s, frames, n), DataShapes(frames, n));
            && AssemblyOf(s') == AcceptAll(AssemblyOf(s), shapes, |shapes|)
            && s'.pongs == s.pongs + PingPayloads(frames, n)
  {
    hide Accept, Handle, AssemblyOf, IsControl;
    if n == 0 {
      assert s.pongs + [] == s.pongs;
    } else {
      HandleAllSeparates(s, frames, n - 1);
      var (s1, f, before) := (HandleAll(s, frames, n - 1), frames[n - 1], DataShapes(frames, n - 1));
      HandleIsAccept(s1, f);
      if !IsControl(f) {
        AcceptPrefix(AssemblyOf(s), before, [ShapeOf(f)], |before|);
      }
      if f.Opcode() == 9 {
        Concat3(s.pongs, PingPayloads(frames, n - 1), [f.payload]);
      }
    }
  }

  lemma {:induction false} HandleIsAccept(s: Session, f: Frame)
    ensures AssemblyOf(Handle(s, f)) == if IsControl(f) then AssemblyOf(s) else Accept(AssemblyOf(s), ShapeOf(f))
    ensures Handle(s, f).pongs == if f.Opcode() == 9 then s.pongs + [f.payload] else s.pongs
  {
  }

  lemma {:induction false} ShapesAccepted(a: Assembly, m: Sent, n: nat)
    requires a.message == [] && 0 < n <= |m.fragments|
    ensures var text := Concat(m.fragments, n);
            AcceptAll(a, Shapes(m), n) ==
            if n == |m.fragments| then Assembly([], m.binary, a.delivered + [Message(text, m.binary)])
            else Assembly(text, m.binary, a.delivered)
  {
    if n > 1 {
      ShapesAccepted(a, m, n - 1);
    } else {
      assert AcceptAll(a, Shapes(m), 0) == a && Concat(m.fragments, 0) == [];
    }
    assert AcceptAll(a, Shapes(m), n) == Accept(AcceptAll(a, Shapes(m), n - 1), ShapeAt(m, n - 1));
  }

  lemma {:induction false} AllShapesAccepted(a: Assembly, ms: seq<Sent>, n: nat)
    requires a.message == [] && n <= |ms| && forall k :: 0 <= k < |ms| ==> |ms[k].fragments| > 0
    ensures var a' := AcceptAll(a, AllShapes(ms, n), |AllShapes(ms, n)|);
            a'.message == [] && a'.delivered == a.delivered + Messages(ms, n)
  {
    hide Accept, Concat, Shapes;
    if n == 0 {
      assert a.delivered + [] == a.delivered;
    } else {
      AllShapesAccepted(a, ms, n - 1);
      var (before, m) := (AllShapes(ms, n - 1), ms[n - 1]);
      AcceptAppend(a, before, Shapes(m), |Shapes(m)|);
      ShapesAccepted(AcceptAll(a, before, |before|), m, |m.fragments|);
      Concat3(a.delivered, Messages(ms, n - 1), [Message(Concat(m.fragments, |m.fragments|), m.binary)]);
    }
  }

  lemma {:induction false} ShapesAreData(ms: seq<Sent>, n: nat)
    requires n <= |ms|
    ensures forall k :: 0 <= k < |AllShapes(ms, n)| ==> AllShapes(ms, n)[k].opcode <= 2
  {
    if n > 0 {
      ShapesAreData(ms, n - 1);
    }
  }

  lemma {:induction false} ShapeOccurs(frames: seq<Frame>, n: nat, k: nat)
    requires k < n <= |frames| && !IsControl(frames[k])
    ensures ShapeOf(frames[k]) in DataShapes(frames, n)
  {
    hide IsControl, ShapeOf;
    if k < n - 1 {
      ShapeOccurs(frames, n - 1, k);
    }
  }

  /** Frames that carry messages are all handled, if none of them is too long. */
  lemma {:induction false} CarriedAreHandled(frames: seq<Frame>, ms: seq<Sent>, limit: nat, i: nat)
    requires Carries(frames, ms) && i <= |frames| && forall k :: 0 <= k < |frames| ==> |frames[k].payload| <= limit
    ensures HandledCount(frames, limit, i) == |frames|
    decreases |frames| - i
  {
    hide AllShapes, DataShapes;
    if i < |frames| {
      if IsClose(frames[i]) {
        ShapesAreData(ms, |ms|);
        ShapeOccurs(frames, |frames|, i);
      }
      CarriedAreHandled(frames, ms, limit, i + 1);
    }
  }

  /**
   * From an idle connection, the messages delivered are exactly the ones the frames carry, in order, and every ping
   * is answered.
   */
  lemma {:induction false} MessagesAreReassembled(frames: seq<Frame>, ms: seq<Sent>, limit: nat)
    requires Carries(frames, ms) && forall k :: 0 <= k < |frames| ==> |frames[k].payload| <= limit
    ensures var s := HandleAll(EMPTY_SESSION, frames, HandledCount(frames, limit, 0));
            s.delivered == Messages(ms, |ms|) && s.message == [] && s.pongs == PingPayloads(frames, |frames|)
  {
    hide Accept, Handle, HandleAll, AcceptAll, Messages, PingPayloads;
    CarriedAreHandled(frames, ms, limit, 0);
    HandleAllSeparates(EMPTY_SESSION, frames, |frames|);
    AllShapesAccepted(AssemblyOf(EMPTY_SESSION), ms, |ms|);
    assert [] + Messages(ms, |ms|) == Messages(ms, |ms|);
    assert [] + PingPayloads(frames, |frames|) == PingPayloads(frames, |frames|);
  }

  // ---------------------------------------------------------------- writing headers

  /** The shortest form that holds a size. */
  function FormFor(size: bv64): LengthForm {
    if size < 126 then Short(size as bv8) else if size < 0x10000 then Medium(size as bv16) else Long(size)
  }

  lemma {:induction false} FormHoldsSize(size: bv64)
    ensures LengthValue(FormFor(size)) == size as nat
    ensures FormFor(size).Short? ==> FormFor(size).n7 < 126
  {
  }

  /** `build_header` on a little-endian machine, where `htons` and the two `htonl` swap bytes. */
  method BuildHeader(opcode: bv8, size: bv64) returns (header: Bytes)
    requires opcode < 16
    ensures header == [0x80 | opcode, SecondByte(false, FormFor(size))] + LengthBytes(FormFor(size))
  {
    hide InMemory, Swap64, BigEndian;
    header := [0x80 + opcode];
    if size < 126 {
      header := header + [size as bv8];
    } else if size < 0x10000 {
      var n := size as bv16;
      header := header + [126, (n >> 8) as bv8, (n & 0xFF) as bv8];
    } else {
      SwapReversesBytes(size);
      assert LengthBytes(FormFor(size)) == InMemory(Swap64(size));
      header := header + [127] + InMemory(Swap64(size));
    }
  }

  /**
   * A header for a payload of that size starts a final frame with that opcode, in the wire format that `Receive`
   * reads back.
   */
  lemma {:induction false} HeaderStartsFrame(opcode: bv8, payload: Bytes, size: bv64)
    requires opcode < 16 && |payload| == size as nat
    ensures var f := Frame(0x80 | opcode, FormFor(size), None, payload);
            && IsFrame(f) && f.Fin() && f.Opcode() == opcode
            && Encode(f) == [0x80 | opcode, SecondByte(f.key.Some?, f.length)] + LengthBytes(FormFor(size)) + payload
  {
    FormHoldsSize(size);
    var f := Frame(0x80 | opcode, FormFor(size), None, payload);
    assert KeyBytes(f) + Wire(f) == payload;
    Concat3([f.first, SecondByte(f.key.Some?, f.length)], LengthBytes(f.length), payload);
  }

  /** What `send_text` or `send_binary` writes, another connection delivers as one message. */
  method SendOne(opcode: bv8, payload: Bytes, size: bv64, receiver: Connection)
    requires opcode in {1, 2} && |payload| == size as nat <= receiver.maxPayload
    requires receiver.state == MiniHeader && receiver.fragment == [] && receiver.message == []
    requires !receiver.closed && !receiver.closeReceived
    modifies receiver
    ensures receiver.delivered == old(receiver.delivered) + [Message(payload, opcode == 2)] && receiver.message == []
  {
    hide Encode, FormFor, SecondByte, LengthBytes, HandleAll, EncodeAll, AreFrames;
    var header := BuildHeader(opcode, size);
    HeaderStartsFrame(opcode, payload, size);
    SendOneHandled(opcode, payload, size, receiver.Value());
    OneHandled(Frame(0x80 | opcode, FormFor(size), None, payload), receiver.maxPayload);
    receiver.Receive(header + payload, [Frame(0x80 | opcode, FormFor(size), None, payload)]);
  }

  lemma {:induction false} OneHandled(f: Frame, limit: nat)
    requires |f.payload| <= limit && !IsClose(f)
    ensures HandledCount([f], limit, 0) == 1
  {
  }

  lemma {:induction false} SendOneHandled(opcode: bv8, payload: Bytes, size: bv64, s: Session)
    requires opcode in {1, 2} && |payload| == size as nat && s.message == []
    ensures var f := Frame(0x80 | opcode, FormFor(size), None, payload);
            && IsFrame(f) && AreFrames([f]) && EncodeAll([f], 1) == Encode(f)
            && HandleAll(s, [f], 1).delivered == s.delivered + [Message(payload, opcode == 2)]
            && HandleAll(s, [f], 1).message == []
  {
    HeaderStartsFrame(opcode, payload, size);
    var f := Frame(0x80 | opcode, FormFor(size), None, payload);
    assert EncodeAll([f], 0) == [] && [] + Encode(f) == Encode(f);
    assert HandleAll(s, [f], 0) == s && [] + payload == payload;
  }
}
