/** Frames between the station and its Bluetooth terminal, and what any sequence of commands amounts to. */
module BluetoothProtocol {
  import opened Options

  type byte = n: nat | n < 0x100

  /** Registers of the clock chip; in 24-hour mode bit 7 of the hour register is set. */
  datatype Rtc = Rtc(second: byte, minute: byte, hour: byte, week: byte, day: byte, month: byte, year: byte)

  /** Year, month, day, hour, minute, second as a time frame carries them. */
  type Time = t: seq<byte> | |t| == 6 witness [0, 0, 0, 0, 0, 0]

  /** Whether the clock chip takes part in the transfer of the date; when it does not, the caller goes on with what
      its time structure held before. */
  datatype Access = Acknowledged | Refused(unset: Time)

  const SET_TIME: byte := 0x4A
  const QUERY_TIME: byte := 0x50
  const QUIT: byte := 0x1B
  const READ_RTU: byte := 0x41
  const MODIFY_RTU: byte := 0x42
  const MODIFY_4G: byte := 0x44
  const QUERY_REAL_DATA: byte := 0x3A
  const SEND_MANUALLY: byte := 0x33

  const TIME_GUIDE: byte := 0xF0
  const REMOTE_GUIDE: byte := 0xF2
  const UP: nat := 0x0008
  const CONTENT_START: byte := 0x02
  const END: nat := 0x0D0A

  // ---------------------------------------------------------------- frame grammar

  /** One item of a frame's content: what it is, how many decimals its digits have, the digits. */
  datatype Element = Element(guide: byte, decimals: nat, data: seq<byte>)

  datatype Message = Message(fun: byte, down: bool, elements: seq<Element>)

  /** The length byte of an element: data bytes in the high five bits, decimals in the low three. */
  function ParseElements(c: seq<byte>): Option<seq<Element>>
    decreases |c|
  {
    if c == [] then Some([])
    else if |c| < 2 || |c| < 2 + c[1] / 8 then None
    else
      var n := c[1] / 8;
      match ParseElements(c[2 + n..])
      case None => None
      case Some(rest) => Some([Element(c[0], c[1] % 8, c[2..2 + n])] + rest)
  }

  /** Content length of a frame; the top bit of its high byte is the direction. */
  function Announced(high: nat, low: nat): nat {
    (high % 0x80) * 0x100 + low
  }

  /** 7E 7E, function, direction bit and content length (high byte first), 02, content, 0D 0A. */
  function Parse(b: seq<byte>): Option<Message> {
    if |b| < 8 || b[..2] != [0x7E, 0x7E] || b[5] != CONTENT_START || b[|b| - 2..] != [0x0D, 0x0A] ||
       Announced(b[3], b[4]) != |b| - 8
    then None
    else match ParseElements(b[6..|b| - 2])
      case None => None
      case Some(elements) => Some(Message(b[2], b[3] >= 0x80, elements))
  }

  // ---------------------------------------------------------------- replies

  /** The time as the driver of the clock chip reads it. */
  function TimeBytes(r: Rtc): Time {
    [r.year, r.month, r.day, r.hour % 0x80, r.minute, r.second]
  }

  /** The time a query reports. */
  function Reported(r: Rtc, access: Access): Time {
    match access
    case Acknowledged => TimeBytes(r)
    case Refused(unset) => unset
  }

  function TimeFrame(t: Time): (f: seq<byte>)
    ensures |f| == 16
  {
    [0x7E, 0x7E, QUERY_TIME, 0x00, 0x08, CONTENT_START, TIME_GUIDE, 0x30] + t + [0x0D, 0x0A]
  }

  function SetTimeReply(b: seq<byte>): seq<byte>
    requires |b| >= 16
  {
    [0x7E, 0x7E, SET_TIME, 0x00, 0x08, CONTENT_START] + b[6..16]
  }

  const REAL_DATA_FRAME: seq<byte> :=
    [0x7E, 0x7E, QUERY_REAL_DATA, 0x00, 0x0D, CONTENT_START, 0x0E, 0x1A, 0x00, 0x00, 0x12,
     0x03, 0x11, 0x02, 0x24, 0x38, 0x12, 0x07, 0x33, 0x0D, 0x0A]

  /** The command turned round: only the direction bit differs. */
  function Echo(b: seq<byte>): seq<byte> {
    if |b| > 3 then b[3 := b[3] % 0x80] else b
  }

  predicate Encodable(e: Element) {
    e.decimals < 8 && |e.data| < 32
  }

  predicate AllEncodable(es: seq<Element>) {
    forall i :: 0 <= i < |es| ==> Encodable(es[i])
  }

  function Item(e: Element): (c: seq<byte>)
    requires Encodable(e)
    ensures |c| == 2 + |e.data|
  {
    [e.guide, |e.data| * 8 + e.decimals] + e.data
  }

  function Content(es: seq<Element>): seq<byte>
    requires AllEncodable(es)
  {
    if es == [] then [] else Item(es[0]) + Content(es[1..])
  }

  /** The frame that carries a message. */
  function Build(m: Message): seq<byte>
    requires AllEncodable(m.elements) && |Content(m.elements)| < 0x8000
  {
    var c := Content(m.elements);
    [0x7E, 0x7E, m.fun, (if m.down then 0x80 else 0) + |c| / 0x100, |c| % 0x100, CONTENT_START] + c + [0x0D, 0x0A]
  }

  lemma ItemParses(e: Element, rest: seq<byte>)
    requires Encodable(e) && ParseElements(rest).Some?
    ensures ParseElements(Item(e) + rest) == Some([e] + ParseElements(rest).value)
  {
    var c, n := Item(e) + rest, |e.data|;
    ItemBytes(e, rest);
    hide Item;
    var parsed := ParseElements(c[2 + n..]);
    assert ParseElements(c) == match parsed case None => None
                                            case Some(es) => Some([Element(c[0], c[1] % 8, c[2..2 + n])] + es);
  }

  lemma ItemBytes(e: Element, rest: seq<byte>)
    requires Encodable(e)
    ensures var c, n := Item(e) + rest, |e.data|;
            |c| >= 2 + n && c[0] == e.guide && c[1] / 8 == n && c[1] % 8 == e.decimals &&
            c[2..2 + n] == e.data && c[2 + n..] == rest
  {
  }

  lemma {:induction false} ContentParses(es: seq<Element>)
    requires AllEncodable(es)
    ensures ParseElements(Content(es)) == Some(es)
  {
    hide Item;
    if es != [] {
      ContentParses(es[1..]);
      ItemParses(es[0], Content(es[1..]));
      assert [es[0]] + es[1..] == es;
    }
  }

  /** Whatever is put into a frame is read out of it. */
  lemma BuildParses(m: Message)
    requires AllEncodable(m.elements) && |Content(m.elements)| < 0x8000
    ensures Parse(Build(m)) == Some(m)
  {
    hide Content, ParseElements;
    ContentParses(m.elements);
    var f := Build(m);
    assert f[6..|f| - 2] == Content(m.elements) && f[|f| - 2..] == [0x0D, 0x0A] && f[..2] == [0x7E, 0x7E];
  }

  lemma {:induction false} ParsedContent(c: seq<byte>)
    requires ParseElements(c).Some?
    ensures var es := ParseElements(c).value;
            AllEncodable(es) && Content(es) == c
    decreases |c|
  {
    hide Content, Item, Encodable, AllEncodable, ParseElements;
    ParseStep(c);
    if c == [] {
      NoContent();
    } else {
      var n := c[1] / 8;
      var e, rest := Element(c[0], c[1] % 8, c[2..2 + n]), ParseElements(c[2 + n..]).value;
      ParsedContent(c[2 + n..]);
      ItemRead(c, n);
      ContentStep(e, rest);
      assert c == c[..2 + n] + c[2 + n..];
    }
  }

  lemma ParseStep(c: seq<byte>)
    requires ParseElements(c).Some?
    ensures c == [] ==> ParseElements(c).value == []
    ensures c != [] ==>
              |c| >= 2 && |c| >= 2 + c[1] / 8 && ParseElements(c[2 + c[1] / 8..]).Some? &&
              ParseElements(c).value ==
              [Element(c[0], c[1] % 8, c[2..2 + c[1] / 8])] + ParseElements(c[2 + c[1] / 8..]).value
  {
  }

  lemma NoContent()
    ensures AllEncodable([]) && Content([]) == []
  {
  }

  lemma ContentStep(e: Element, rest: seq<Element>)
    requires Encodable(e) && AllEncodable(rest)
    ensures AllEncodable([e] + rest) && Content([e] + rest) == Item(e) + Content(rest)
  {
    assert ([e] + rest)[1..] == rest;
    hide Item, Encodable;
  }

  lemma ItemRead(c: seq<byte>, n: nat)
    requires |c| >= 2 + n && n == c[1] / 8
    ensures Encodable(Element(c[0], c[1] % 8, c[2..2 + n])) && Item(Element(c[0], c[1] % 8, c[2..2 + n])) == c[..2 + n]
  {
  }

  /** A byte string is read as a message only if it is the frame of that message, so reading is unambiguous. */
  lemma ParsedIsBuilt(b: seq<byte>)
    requires Parse(b).Some?
    ensures var m := Parse(b).value;
            AllEncodable(m.elements) &&
            |Content(m.elements)| < 0x8000 && Build(m) == b
  {
    hide Content, ParseElements;
    var c := b[6..|b| - 2];
    ParsedContent(c);
    assert |c| == Announced(b[3], b[4]);
    assert Announced(b[3], b[4]) / 0x100 == b[3] % 0x80 && Announced(b[3], b[4]) % 0x100 == b[4];
    assert b == b[..2] + [b[2], b[3], b[4], b[5]] + c + b[|b| - 2..];
  }

  /** The frame that answers a time query is well formed and carries the six time bytes. */
  lemma TimeFrameParses(t: Time)
    ensures Parse(TimeFrame(t)) == Some(Message(QUERY_TIME, false, [Element(TIME_GUIDE, 0, t)]))
  {
    var m := Message(QUERY_TIME, false, [Element(TIME_GUIDE, 0, t)]);
    assert Content(m.elements) == [TIME_GUIDE, 0x30] + t;
    assert TimeFrame(t) == Build(m);
    hide Parse;
    BuildParses(m);
  }

  /** The frame that answers a data query is well formed: water level, temperature and voltage. */
  lemma RealDataParses()
    ensures Parse(REAL_DATA_FRAME) ==
            Some(Message(QUERY_REAL_DATA, false, [Element(0x0E, 2, [0x00, 0x00, 0x12]), Element(0x03, 1, [0x02, 0x24]),
                                                Element(0x38, 2, [0x07, 0x33])]))
  {
    hide Parse;
    var m := Message(QUERY_REAL_DATA, false, [Element(0x0E, 2, [0x00, 0x00, 0x12]), Element(0x03, 1, [0x02, 0x24]),
                                            Element(0x38, 2, [0x07, 0x33])]);
    RealDataContent(m.elements);
    hide Content;
    assert REAL_DATA_FRAME == Build(m);
    BuildParses(m);
  }

  lemma RealDataContent(es: seq<Element>)
    requires es == [Element(0x0E, 2, [0x00, 0x00, 0x12]), Element(0x03, 1, [0x02, 0x24]),
                    Element(0x38, 2, [0x07, 0x33])]
    ensures Content(es) == REAL_DATA_FRAME[6..19]
  {
    assert Item(es[0]) == [0x0E, 0x1A, 0x00, 0x00, 0x12];
    assert Item(es[1]) == [0x03, 0x11, 0x02, 0x24];
    assert Item(es[2]) == [0x38, 0x12, 0x07, 0x33];
    hide Item;
    assert Content(es[2..]) == Item(es[2]) && Content(es[1..]) == Item(es[1]) + Content(es[2..]);
  }

  /** Turning a frame round keeps it exactly as well or badly formed as it was, and changes its direction only. */
  lemma EchoParses(b: seq<byte>)
    ensures Parse(Echo(b)) == match Parse(b) case None => None case Some(m) => Some(m.(down := false))
  {
    hide ParseElements;
    if |b| >= 8 {
      EchoKeeps(b);
      hide Echo;
    }
  }

  lemma EchoKeeps(b: seq<byte>)
    requires |b| >= 8
    ensures var e := Echo(b);
            |e| == |b| && e[..2] == b[..2] && e[|b| - 2..] == b[|b| - 2..] && e[6..|b| - 2] == b[6..|b| - 2] &&
            e[2] == b[2] && e[4] == b[4] && e[5] == b[5] && e[3] < 0x80 &&
            Announced(e[3], e[4]) == Announced(b[3], b[4])
  {
  }

  /** The reply to a set-time frame of any length is that frame turned round, exactly when the frame has the length of
      the reply, starts as it should and announces the eight content bytes it then has. */
  lemma SetTimeReplyIsEcho(buff: seq<byte>, length: nat)
    requires 16 <= |buff| && length <= |buff|
    ensures SetTimeReply(buff) == Echo(buff[..length]) <==>
            length == 16 && buff[0] == buff[1] == 0x7E && buff[2] == SET_TIME && buff[3] % 0x80 == 0 && buff[4] == 8 &&
            buff[5] == CONTENT_START
  {
    var r := SetTimeReply(buff);
    SetTimeReplyBytes(buff);
    hide SetTimeReply;
    if length == 16 {
      var e := Echo(buff[..16]);
      assert forall i :: 6 <= i < 16 ==> r[i] == e[i];
      assert r == e <==> forall i :: 0 <= i < 6 ==> r[i] == e[i];
      assert e[0] == buff[0] && e[1] == buff[1] && e[2] == buff[2] && e[3] == buff[3] % 0x80 && e[4] == buff[4];
    }
  }

  lemma SetTimeReplyBytes(buff: seq<byte>)
    requires |buff| >= 16
    ensures var r := SetTimeReply(buff);
            |r| == 16 && r[0] == r[1] == 0x7E && r[2] == SET_TIME && r[3] == 0 && r[4] == 8 && r[5] == CONTENT_START &&
            (forall i :: 6 <= i < 16 ==> r[i] == buff[i]) && r[6..14] == buff[6..14]
  {
  }

  /** Eight content bytes that read as elements, with the end mark behind them. */
  predicate EightBytes(buff: seq<byte>)
    requires |buff| >= 16
  {
    buff[14] == 0x0D && buff[15] == 0x0A && ParseElements(buff[6..14]).Some?
  }

  /** The reply to a set-time command always announces eight content bytes, so it is well formed exactly when the
      command has just those, whatever it announces itself. */
  lemma SetTimeReplyParses(buff: seq<byte>)
    requires |buff| >= 16
    ensures Parse(SetTimeReply(buff)).Some? <==> EightBytes(buff)
    ensures Parse(SetTimeReply(buff)).Some? ==>
              var m := Parse(SetTimeReply(buff)).value; m.fun == SET_TIME && !m.down
  {
    hide ParseElements;
    var r := SetTimeReply(buff);
    SetTimeReplyBytes(buff);
    hide SetTimeReply;
    assert r[..2] == [0x7E, 0x7E] && Announced(r[3], r[4]) == 8 && r[14..] == [r[14], r[15]];
  }

  // ---------------------------------------------------------------- setting the clock

  function WithMode(hour: byte): byte {
    if hour < 0x80 then hour + 0x80 else hour
  }

  /** The clock after a set-time command; the weekday is not part of the frame and comes from elsewhere. */
  function SetClock(b: seq<byte>, week: byte): Rtc
    requires |b| >= 14
  {
    Rtc(b[13], b[12], WithMode(b[11]), week, b[10], b[9], b[8])
  }

  /** A query after a set-time command reports the six bytes set, except for the mode bit of the hour. */
  lemma SetThenQuery(b: seq<byte>, week: byte)
    requires |b| >= 14
    ensures TimeBytes(SetClock(b, week)) == b[8..14][3 := b[11] % 0x80]
    ensures TimeBytes(SetClock(b, week)) == b[8..14] <==> b[11] < 0x80
  {
    assert b[8..14][3] == b[11];
    assert TimeBytes(SetClock(b, week))[3] == b[11] % 0x80;
    assert b[8..14] == [b[8], b[9], b[10], b[11], b[12], b[13]];
  }

  /** Feeding a reported time back as a set-time command changes nothing, exactly when the clock already runs in
      24-hour mode and the weekday supplied is the one it has. */
  lemma QueryThenSet(r: Rtc, week: byte)
    ensures SetClock(TimeFrame(TimeBytes(r)), week) == r <==> r.hour >= 0x80 && week == r.week
  {
    var f := TimeFrame(TimeBytes(r));
    assert f[8..14] == TimeBytes(r);
    assert f[8] == r.year && f[9] == r.month && f[10] == r.day;
    assert f[11] == r.hour % 0x80 && f[12] == r.minute && f[13] == r.second;
  }

  // ---------------------------------------------------------------- the dispatcher

  /** `stored` is the copy of the remote address in flash. */
  datatype State = State(rtc: Rtc, remote: seq<byte>, stored: seq<byte>, sent: seq<seq<byte>>)

  /** A block received into the 50-byte buffer of the task, of which `length` bytes are new, with the weekday that
      a set-time command happens to write and how the chip answers if it is accessed; or the chip moving on. */
  datatype Event =
    | Receive(buff: seq<byte>, length: nat, week: byte, access: Access)
    | Tick(rtc: Rtc)

  const BUFFER_SIZE: nat := 50
  const CONTENT_ROOM: nat := 20

  predicate WellFormed(e: Event) {
    e.Receive? ==> |e.buff| == BUFFER_SIZE
  }

  /** Data bytes announced by the first element. */
  function ContentLength(buff: seq<byte>): nat
    requires |buff| >= 8
  {
    buff[7] / 8
  }

  predicate Echoed(fun: byte) {
    fun == QUIT || fun == READ_RTU || fun == MODIFY_RTU || fun == MODIFY_4G || fun == SEND_MANUALLY
  }

  predicate Answered(fun: byte) {
    Echoed(fun) || fun == SET_TIME || fun == QUERY_TIME || fun == QUERY_REAL_DATA
  }

  /** None: a local buffer would be overrun. */
  function Execute(s: State, buff: seq<byte>, week: byte, access: Access): Option<State>
    requires |buff| == BUFFER_SIZE
  {
    var fun := buff[2];
    if fun == SET_TIME then Some(if access.Acknowledged? then s.(rtc := SetClock(buff, week)) else s)
    else if fun == MODIFY_RTU && buff[6] == REMOTE_GUIDE then Some(s.(remote := buff[8..13], stored := buff[8..13]))
    else if fun == MODIFY_4G && ContentLength(buff) > CONTENT_ROOM then None
    else Some(s)
  }

  function Respond(s: State, buff: seq<byte>, length: nat, access: Access): Option<State>
    requires |buff| == BUFFER_SIZE
  {
    var fun := buff[2];
    if Echoed(fun) then
      if length > BUFFER_SIZE then None else Some(s.(sent := s.sent + [EchoOf(buff, length)]))
    else if fun == SET_TIME then Some(s.(sent := s.sent + [SetTimeReply(buff)]))
    else if fun == QUERY_TIME then Some(s.(sent := s.sent + [TimeFrame(Reported(s.rtc, access))]))
    else if fun == QUERY_REAL_DATA then Some(s.(sent := s.sent + [REAL_DATA_FRAME]))
    else Some(s)
  }

  /** The direction bit lies in the reply's own buffer, so it is cleared there even if the reply ends before it. */
  function EchoOf(buff: seq<byte>, length: nat): seq<byte>
    requires |buff| == BUFFER_SIZE && length <= BUFFER_SIZE
  {
    Echo(buff[..length])
  }

  function Step(s: State, e: Event): Option<State>
    requires WellFormed(e)
  {
    match e
    case Tick(rtc) => Some(s.(rtc := rtc))
    case Receive(buff, length, week, access) =>
      if length == 0 then Some(s)
      else match Execute(s, buff, week, access)
        case None => None
        case Some(t) => Respond(t, buff, length, access)
  }

  /** Quitting, reading and changing the unit's parameters, changing the 4G modem's, and sending by hand. */
  predicate TurnsRound(fun: byte) {
    fun in {0x1B, 0x41, 0x42, 0x44, 0x33}
  }

  /** A command of at least one byte in numbers.  It overruns a buffer exactly if it is to be turned round and has more
      than 50 bytes, or modifies the 4G parameters with more than 20 data bytes. */
  lemma CommandOverruns(s: State, buff: seq<byte>, length: nat, week: byte, access: Access)
    requires |buff| == 50 && length > 0
    ensures Step(s, Receive(buff, length, week, access)) == None <==>
            (TurnsRound(buff[2]) && length > 50) || (buff[2] == 0x44 && buff[7] >= 168)
  {
    hide Echo, SetClock, SetTimeReply, TimeFrame;
  }

  /** What such a command changes: 4A the clock, if the chip acknowledges, and 42 with guide F2 the remote address. */
  lemma CommandChanges(s: State, buff: seq<byte>, length: nat, week: byte, access: Access)
    requires |buff| == 50 && length > 0 && Step(s, Receive(buff, length, week, access)).Some?
    ensures var t := Step(s, Receive(buff, length, week, access)).value;
            t.rtc == (if buff[2] == 0x4A && access.Acknowledged? then
                        Rtc(buff[13], buff[12], if buff[11] < 128 then buff[11] + 128 else buff[11], week, buff[10],
                            buff[9], buff[8])
                      else s.rtc) &&
            t.remote == (if buff[2] == 0x42 && buff[6] == 0xF2 then buff[8..13] else s.remote) &&
            t.stored == (if buff[2] == 0x42 && buff[6] == 0xF2 then buff[8..13] else s.stored)
  {
    hide Echo, SetTimeReply, TimeFrame;
  }

  /** The bytes of a reply: the command without its direction bit, or a frame of the function asked for. */
  predicate ReplyBytes(r: seq<byte>, s: State, buff: seq<byte>, length: nat, access: Access)
    requires |buff| == 50
  {
    if TurnsRound(buff[2]) then
      |r| == length <= 50 && forall i :: 0 <= i < length ==> r[i] == if i == 3 then buff[3] % 128 else buff[i]
    else if buff[2] == 0x4A then
      r == [0x7E, 0x7E, 0x4A, 0x00, 0x08, 0x02, buff[6], buff[7], buff[8], buff[9], buff[10], buff[11], buff[12],
            buff[13], buff[14], buff[15]]
    else if buff[2] == 0x50 then
      var t := if access.Refused? then access.unset
               else [s.rtc.year, s.rtc.month, s.rtc.day, s.rtc.hour % 128, s.rtc.minute, s.rtc.second];
      r == [0x7E, 0x7E, 0x50, 0x00, 0x08, 0x02, 0xF0, 0x30, t[0], t[1], t[2], t[3], t[4], t[5], 0x0D, 0x0A]
    else
      r == [0x7E, 0x7E, 0x3A, 0x00, 0x0D, 0x02, 0x0E, 0x1A, 0x00, 0x00, 0x12, 0x03, 0x11, 0x02, 0x24, 0x38, 0x12,
            0x07, 0x33, 0x0D, 0x0A]
  }

  /** Such a command gets one reply for the five functions turned round and for 4A, 50 and 3A; others get none. */
  lemma CommandReplies(s: State, buff: seq<byte>, length: nat, week: byte, access: Access)
    requires |buff| == 50 && length > 0 && Step(s, Receive(buff, length, week, access)).Some?
    ensures var t := Step(s, Receive(buff, length, week, access)).value;
            if TurnsRound(buff[2]) || buff[2] in {0x4A, 0x50, 0x3A} then
              |t.sent| == |s.sent| + 1 && t.sent[..|s.sent|] == s.sent &&
              ReplyBytes(t.sent[|s.sent|], s, buff, length, access)
            else t.sent == s.sent
  {
    hide SetClock, ReplyBytes;
    if TurnsRound(buff[2]) {
      hide SetTimeReply, TimeFrame;
      if length <= 50 { TurnedRound(s, buff, length, access); }
    } else {
      hide Echo;
      FrameBytes(s, buff, length, access);
      hide SetTimeReply, TimeFrame, Reported;
    }
  }

  lemma TurnedRound(s: State, buff: seq<byte>, length: nat, access: Access)
    requires |buff| == 50 && length <= 50 && TurnsRound(buff[2])
    ensures ReplyBytes(EchoOf(buff, length), s, buff, length, access)
  {
  }

  lemma FrameBytes(s: State, buff: seq<byte>, length: nat, access: Access)
    requires |buff| == 50 && !TurnsRound(buff[2])
    ensures buff[2] == 0x4A ==> ReplyBytes(SetTimeReply(buff), s, buff, length, access)
    ensures buff[2] == 0x50 ==> ReplyBytes(TimeFrame(Reported(s.rtc, access)), s, buff, length, access)
    ensures buff[2] == 0x3A ==> ReplyBytes(REAL_DATA_FRAME, s, buff, length, access)
  {
    assert buff[6..16] == [buff[6], buff[7], buff[8], buff[9], buff[10], buff[11], buff[12], buff[13], buff[14],
                           buff[15]];
    var t := Reported(s.rtc, access);
    assert t == [t[0], t[1], t[2], t[3], t[4], t[5]];
  }

  /** Function 42 with guide F2 sets the address, and the frame comes back without its direction bit. */
  lemma AddressExample(s: State, buff: seq<byte>, week: byte, access: Access)
    requires |buff| == 50
    requires buff[..15] == [0x7E, 0x7E, 0x42, 0x80, 0x07, 0x02, 0xF2, 0x28, 0x00, 0x12, 0x34, 0x56, 0x78, 0x0D, 0x0A]
    ensures Step(s, Receive(buff, 15, week, access)) ==
            Some(State(s.rtc, [0x00, 0x12, 0x34, 0x56, 0x78], [0x00, 0x12, 0x34, 0x56, 0x78], s.sent +
              [[0x7E, 0x7E, 0x42, 0x00, 0x07, 0x02, 0xF2, 0x28, 0x00, 0x12, 0x34, 0x56, 0x78, 0x0D, 0x0A]]))
  {
    var e, b := Receive(buff, 15, week, access), buff[..15];
    assert buff[2] == b[2] && buff[6] == b[6];
    assert buff[8..13] == b[8..13] == [0x00, 0x12, 0x34, 0x56, 0x78];
    assert Echo(b) == [0x7E, 0x7E, 0x42, 0x00, 0x07, 0x02, 0xF2, 0x28, 0x00, 0x12, 0x34, 0x56, 0x78, 0x0D, 0x0A];
    hide Echo, SetClock, SetTimeReply, TimeFrame;
  }

  ghost predicate AllWellFormed(events: seq<Event>) {
    forall i :: 0 <= i < |events| ==> WellFormed(events[i])
  }

  function Run(s: State, events: seq<Event>): Option<State>
    requires AllWellFormed(events)
  {
    if events == [] then Some(s)
    else match Run(s, events[..|events| - 1])
      case None => None
      case Some(t) => Step(t, events[|events| - 1])
  }

  /** The command is within the buffers of its handlers. */
  predicate Fits(e: Event)
    requires WellFormed(e)
  {
    e.Tick? || e.length == 0 ||
    ((Echoed(e.buff[2]) ==> e.length <= BUFFER_SIZE) &&
     (e.buff[2] == MODIFY_4G ==> ContentLength(e.buff) <= CONTENT_ROOM))
  }

  /** A run overruns no buffer exactly when every command in it fits. */
  lemma {:induction false} RunFits(s: State, events: seq<Event>)
    requires AllWellFormed(events)
    ensures Run(s, events).Some? <==> forall i :: 0 <= i < |events| ==> Fits(events[i])
  {
    hide SetClock, SetTimeReply, TimeFrame, EchoOf;
    if events != [] {
      var before := events[..|events| - 1];
      RunFits(s, before);
      assert forall i :: 0 <= i < |before| ==> Fits(before[i]) == Fits(events[i]);
    }
  }

  /** A 4G command that announces 21 data bytes overruns the local buffer of 20. */
  lemma OverrunExample(s: State, buff: seq<byte>, week: byte, access: Access)
    requires |buff| == BUFFER_SIZE && buff[2] == MODIFY_4G && buff[7] == 0xA8
    ensures var e := Receive(buff, BUFFER_SIZE, week, access); WellFormed(e) && !Fits(e) && Run(s, [e]) == None
  {
    var e := Receive(buff, BUFFER_SIZE, week, access);
    assert [e][..0] == [] && Run(s, []) == Some(s);
    assert Run(s, [e]) == Step(s, e);
  }

  predicate IsSetTime(e: Event)
    requires WellFormed(e)
  {
    e.Receive? && e.length > 0 && e.buff[2] == SET_TIME
  }

  /** The chip moved on, or took a new time. */
  predicate TouchesClock(e: Event)
    requires WellFormed(e)
  {
    e.Tick? || (IsSetTime(e) && e.access.Acknowledged?)
  }

  predicate IsSetRemote(e: Event)
    requires WellFormed(e)
  {
    e.Receive? && e.length > 0 && e.buff[2] == MODIFY_RTU && e.buff[6] == REMOTE_GUIDE
  }

  /** The clock by the last event that touched it. */
  function LastClock(events: seq<Event>, rtc: Rtc): Rtc
    requires AllWellFormed(events)
  {
    if events == [] then rtc
    else
      var e := events[|events| - 1];
      if e.Tick? then e.rtc
      else if TouchesClock(e) then SetClock(e.buff, e.week)
      else LastClock(events[..|events| - 1], rtc)
  }

  function LastRemote(events: seq<Event>): Option<seq<byte>>
    requires AllWellFormed(events)
  {
    if events == [] then None
    else
      var e := events[|events| - 1];
      if IsSetRemote(e) then Some(e.buff[8..13]) else LastRemote(events[..|events| - 1])
  }

  /** The replies that a run owes, in order; the clock they report is the one at that moment. */
  function Replies(events: seq<Event>, rtc: Rtc): seq<seq<byte>>
    requires AllWellFormed(events)
  {
    if events == [] then []
    else
      var e, before := events[|events| - 1], events[..|events| - 1];
      var earlier := Replies(before, rtc);
      if e.Tick? || e.length == 0 || !Answered(e.buff[2]) then earlier
      else earlier + [if e.buff[2] == SET_TIME then SetTimeReply(e.buff)
                      else if e.buff[2] == QUERY_TIME then TimeFrame(Reported(LastClock(events, rtc), e.access))
                      else if e.buff[2] == QUERY_REAL_DATA then REAL_DATA_FRAME
                      else if e.length <= BUFFER_SIZE then EchoOf(e.buff, e.length) else []]
  }

  /** Over any run within the buffers: the clock is as last set, the remote address (in memory and in flash) is the
      payload of the last command that set it, and exactly the commands that are answered were, in order. */
  lemma {:induction false} RunResult(s: State, events: seq<Event>)
    requires AllWellFormed(events) && Run(s, events).Some?
    ensures var t := Run(s, events).value;
            t.rtc == LastClock(events, s.rtc) &&
            t.remote == (match LastRemote(events) case None => s.remote case Some(a) => a) &&
            t.stored == (match LastRemote(events) case None => s.stored case Some(a) => a) &&
            t.sent == s.sent + Replies(events, s.rtc)
  {
    hide SetClock, SetTimeReply, TimeFrame, EchoOf;
    if events != [] { RunResult(s, events[..|events| - 1]); }
  }

  /** No event after position `i` touches the clock. */
  predicate ClockUntouched(events: seq<Event>, i: nat)
    requires AllWellFormed(events)
  {
    forall k :: i < k < |events| ==> !TouchesClock(events[k])
  }

  ghost predicate LastSet(events: seq<Event>, i: nat) {
    AllWellFormed(events) && i < |events| && IsSetTime(events[i]) && ClockUntouched(events, i)
  }

  /** The clock after the last set-time command, whether or not the chip took it. */
  function ClockAfter(events: seq<Event>, i: nat, rtc: Rtc): Rtc
    requires AllWellFormed(events) && i < |events| && IsSetTime(events[i])
  {
    if events[i].access.Acknowledged? then SetClock(events[i].buff, events[i].week) else LastClock(events[..i], rtc)
  }

  lemma {:induction false} LastSetClock(events: seq<Event>, rtc: Rtc, i: nat)
    requires LastSet(events, i)
    ensures LastClock(events, rtc) == ClockAfter(events, i, rtc)
    decreases |events|
  {
    hide SetClock;
    var before := events[..|events| - 1];
    if i < |before| {
      assert before[i] == events[i] && forall k :: i < k < |before| ==> before[k] == events[k];
      assert before[..i] == events[..i];
      LastSetClock(before, rtc, i);
    }
  }

  /** After any run a time query answers with one more frame, a well-formed one.  It carries the clock by the last event
      that touched it, a moving chip included, or what the unset structure held if the chip does not answer. */
  lemma QueryReportsClock(s: State, events: seq<Event>, buff: seq<byte>, length: nat, week: byte, access: Access)
    requires AllWellFormed(events) && Run(s, events).Some?
    requires |buff| == BUFFER_SIZE && length > 0 && buff[2] == QUERY_TIME
    ensures var query := events + [Receive(buff, length, week, access)];
            AllWellFormed(query) && Run(s, query).Some? &&
            var t, u := Run(s, query).value, Run(s, events).value;
            |t.sent| == |u.sent| + 1 && t.sent[..|u.sent|] == u.sent &&
            Parse(t.sent[|u.sent|]) ==
              Some(Message(QUERY_TIME, false, [Element(TIME_GUIDE, 0, Reported(LastClock(events, s.rtc), access))]))
  {
    hide SetClock, TimeFrame, Parse, TimeBytes, LastClock;
    var query := events + [Receive(buff, length, week, access)];
    assert query[..|query| - 1] == events;
    RunResult(s, events);
    TimeFrameParses(Reported(LastClock(events, s.rtc), access));
  }

  /** When the chip has not moved on since the last set-time command and answers the query, the frame carries the
      payload of that command, its hour without the mode bit, if the command reached the chip, and the time before it
      if it did not. */
  lemma QueryReportsLastSet(s: State, events: seq<Event>, i: nat, buff: seq<byte>, length: nat, week: byte,
                            access: Access)
    requires LastSet(events, i)
    requires |buff| == BUFFER_SIZE && length > 0 && buff[2] == QUERY_TIME && Run(s, events).Some?
    ensures var query := events + [Receive(buff, length, week, access)];
            var frame := events[i].buff;
            AllWellFormed(query) && Run(s, query).Some? &&
            var t, u := Run(s, query).value, Run(s, events).value;
            |t.sent| == |u.sent| + 1 && t.sent[..|u.sent|] == u.sent &&
            Parse(t.sent[|u.sent|]) ==
              Some(Message(QUERY_TIME, false, [Element(TIME_GUIDE, 0,
                if access.Refused? then access.unset
                else if events[i].access.Acknowledged? then frame[8..14][3 := frame[11] % 0x80]
                else TimeBytes(LastClock(events[..i], s.rtc)))]))
  {
    hide SetClock, Parse, TimeBytes, LastClock, Run;
    QueryReportsClock(s, events, buff, length, week, access);
    LastSetClock(events, s.rtc, i);
    SetThenQuery(events[i].buff, events[i].week);
  }

  /** The terminal cannot tell whether a time it sets reaches the chip: the reply is the same, and so is all else but
      the clock. */
  lemma LostSetUnnoticed(s: State, buff: seq<byte>, length: nat, week: byte, unset: Time)
    requires |buff| == BUFFER_SIZE && length > 0 && buff[2] == SET_TIME
    ensures var taken, lost := Step(s, Receive(buff, length, week, Acknowledged)),
                               Step(s, Receive(buff, length, week, Refused(unset)));
            taken.Some? && lost == Some(taken.value.(rtc := s.rtc)) &&
            lost.value.sent == s.sent + [SetTimeReply(buff)] &&
            (taken == lost <==> s.rtc == SetClock(buff, week))
  {
    hide SetClock, SetTimeReply;
  }

  /** Every well-formed command that is answered is answered by one frame of the same function, which is well formed
      exactly if the command does not set the time or has the eight content bytes and the end mark that are copied. */
  lemma AnswerParses(s: State, buff: seq<byte>, length: nat, access: Access)
    requires |buff| == BUFFER_SIZE && length <= BUFFER_SIZE && Parse(buff[..length]).Some? && Answered(buff[2])
    ensures Respond(s, buff, length, access).Some?
    ensures var t := Respond(s, buff, length, access).value;
            |t.sent| == |s.sent| + 1 && t.sent[..|s.sent|] == s.sent &&
            var reply := Parse(t.sent[|s.sent|]);
            (reply.Some? <==> buff[2] != SET_TIME || EightBytes(buff)) &&
            (reply.Some? ==> reply.value.fun == buff[2] && !reply.value.down)
  {
    EchoParses(buff[..length]);
    TimeFrameParses(Reported(s.rtc, access));
    RealDataParses();
    SetTimeReplyParses(buff);
    hide ParseElements, TimeFrame, SetTimeReply, EightBytes;
  }

  /** A well-formed set-time command with a second element behind the time: its reply is no frame. */
  lemma LongSetTimeExample(s: State, buff: seq<byte>, access: Access)
    requires |buff| == BUFFER_SIZE
    requires buff[..19] == [0x7E, 0x7E, SET_TIME, 0x80, 0x0B, CONTENT_START, TIME_GUIDE, 0x30, 1, 2, 3, 4, 5, 6,
                            0x01, 0x08, 0xAA, 0x0D, 0x0A]
    ensures Parse(buff[..19]) == Some(Message(SET_TIME, true, [Element(TIME_GUIDE, 0, [1, 2, 3, 4, 5, 6]),
                                                             Element(0x01, 0, [0xAA])]))
    ensures Respond(s, buff, 19, access) == Some(s.(sent := s.sent + [SetTimeReply(buff)])) &&
            Parse(SetTimeReply(buff)) == None
  {
    var b := buff[..19];
    LongSetTime(b, Message(SET_TIME, true, [Element(TIME_GUIDE, 0, [1, 2, 3, 4, 5, 6]), Element(0x01, 0, [0xAA])]));
    assert buff[14] == b[14];
    SetTimeReplyParses(buff);
    hide Parse, ParseElements, SetTimeReply;
    assert buff[2] == b[2];
  }

  lemma LongSetTime(b: seq<byte>, m: Message)
    requires b == [0x7E, 0x7E, SET_TIME, 0x80, 0x0B, CONTENT_START, TIME_GUIDE, 0x30, 1, 2, 3, 4, 5, 6,
                   0x01, 0x08, 0xAA, 0x0D, 0x0A]
    requires m == Message(SET_TIME, true, [Element(TIME_GUIDE, 0, [1, 2, 3, 4, 5, 6]), Element(0x01, 0, [0xAA])])
    ensures Parse(b) == Some(m)
  {
    hide Parse, Content, AllEncodable;
    LongSetTimeContent(m.elements);
    LongSetTimeSlices(b);
    FrameParses(b, m.elements);
  }

  lemma LongSetTimeSlices(b: seq<byte>)
    requires b == [0x7E, 0x7E, SET_TIME, 0x80, 0x0B, CONTENT_START, TIME_GUIDE, 0x30, 1, 2, 3, 4, 5, 6,
                   0x01, 0x08, 0xAA, 0x0D, 0x0A]
    ensures b[..2] == [0x7E, 0x7E] && b[2] == SET_TIME && b[3] == 0x80 && b[4] == 0x0B && b[5] == CONTENT_START
    ensures b[17..] == [0x0D, 0x0A]
    ensures b[6..17] == [TIME_GUIDE, 0x30, 1, 2, 3, 4, 5, 6, 0x01, 0x08, 0xAA]
  {
  }

  /** A frame is read by its parts. */
  lemma FrameParses(b: seq<byte>, es: seq<Element>)
    requires |b| >= 8 && b[..2] == [0x7E, 0x7E] && b[5] == CONTENT_START && b[|b| - 2..] == [0x0D, 0x0A]
    requires Announced(b[3], b[4]) == |b| - 8 && AllEncodable(es) && b[6..|b| - 2] == Content(es)
    ensures Parse(b) == Some(Message(b[2], b[3] >= 0x80, es))
  {
    hide ParseElements, Content, AllEncodable;
    ContentParses(es);
  }

  lemma LongSetTimeContent(es: seq<Element>)
    requires es == [Element(TIME_GUIDE, 0, [1, 2, 3, 4, 5, 6]), Element(0x01, 0, [0xAA])]
    ensures AllEncodable(es) && Content(es) == [TIME_GUIDE, 0x30, 1, 2, 3, 4, 5, 6, 0x01, 0x08, 0xAA]
  {
    assert Item(es[0]) == [TIME_GUIDE, 0x30, 1, 2, 3, 4, 5, 6] && Item(es[1]) == [0x01, 0x08, 0xAA];
    hide Item;
    assert Content(es[1..]) == Item(es[1]) + Content([]) && Content(es) == Item(es[0]) + Content(es[1..]);
  }

  // ---------------------------------------------------------------- dotted addresses

  /** Nibble `k` of a block, high nibbles first. */
  function Nibble(src: seq<byte>, k: nat): nat
    requires k < 2 * |src|
  {
    if k % 2 == 0 then src[k / 2] / 16 else src[k / 2] % 16
  }

  function Digit(src: seq<byte>, k: nat): byte
    requires k < 2 * |src|
  {
    Nibble(src, k) + '0' as int
  }

  function Group(src: seq<byte>, g: nat): (r: seq<byte>)
    requires |src| == 6 && g < 4
    ensures |r| == 3
  {
    [Digit(src, 3 * g), Digit(src, 3 * g + 1), Digit(src, 3 * g + 2)]
  }

  /** Twelve nibbles in order as four groups of three digits between dots, closed by a zero. */
  function Dotted(src: seq<byte>): (d: seq<byte>)
    requires |src| == 6
    ensures |d| == 16
  {
    var dot := ['.' as int];
    Group(src, 0) + dot + Group(src, 1) + dot + Group(src, 2) + dot + Group(src, 3) + [0]
  }

  lemma DottedAt(src: seq<byte>, i: nat)
    requires |src| == 6 && i < 15
    ensures Dotted(src)[i] == if i % 4 == 3 then '.' as int else Digit(src, i - (i + 1) / 4)
  {
  }

  lemma DottedEnd(src: seq<byte>)
    requires |src| == 6
    ensures Dotted(src)[15] == 0
  {
  }

  /** No two blocks give the same text, whether or not their nibbles are decimal digits. */
  lemma DottedInjective(a: seq<byte>, b: seq<byte>)
    requires |a| == |b| == 6 && Dotted(a) == Dotted(b)
    ensures a == b
  {
    hide Dotted;
    forall k | 0 <= k < 12 ensures Nibble(a, k) == Nibble(b, k) {
      DottedAt(a, k + k / 3);
      DottedAt(b, k + k / 3);
    }
    forall j | 0 <= j < 6 ensures a[j] == b[j] {
      assert Nibble(a, 2 * j) == Nibble(b, 2 * j) && Nibble(a, 2 * j + 1) == Nibble(b, 2 * j + 1);
    }
  }

  /** The bytes are read back from the text: two characters each, high digit first, from 48 for 0, with a dot behind
      every third one and a zero at the end. */
  lemma DottedReads(src: seq<byte>, j: nat)
    requires |src| == 6 && j < 6
    ensures var hi, lo := Dotted(src)[2 * j + 2 * j / 3], Dotted(src)[2 * j + 1 + (2 * j + 1) / 3];
            48 <= hi < 64 && 48 <= lo < 64 && src[j] == 16 * (hi - 48) + (lo - 48)
    ensures var d := Dotted(src); d[3] == d[7] == d[11] == 0x2E && d[15] == 0
  {
    hide Dotted, Digit;
    DottedPlace(src, 2 * j);
    DottedPlace(src, 2 * j + 1);
    TwoDigits(src, j);
    DottedAt(src, 3);
    DottedAt(src, 7);
    DottedAt(src, 11);
    DottedEnd(src);
  }

  lemma DottedPlace(src: seq<byte>, k: nat)
    requires |src| == 6 && k < 12
    ensures Dotted(src)[k + k / 3] == Digit(src, k)
  {
    hide Dotted, Digit;
    Place(k);
    DottedAt(src, k + k / 3);
  }

  lemma Place(k: nat)
    requires k < 12
    ensures var i := k + k / 3; i < 15 && i % 4 != 3 && i - (i + 1) / 4 == k
  {
  }

  lemma TwoDigits(src: seq<byte>, j: nat)
    requires j < |src|
    ensures var hi, lo := Digit(src, 2 * j), Digit(src, 2 * j + 1);
            48 <= hi < 64 && 48 <= lo < 64 && src[j] == 16 * (hi - 48) + (lo - 48)
  {
  }

  /** The text of a block of decimal digits reads as the address its digits spell. */
  lemma DottedExample()
    ensures Dotted([0x10, 0x60, 0x15, 0x23, 0x41, 0x81]) ==
            [0x31, 0x30, 0x36, 0x2E, 0x30, 0x31, 0x35, 0x2E, 0x32, 0x33, 0x34, 0x2E, 0x31, 0x38, 0x31, 0x00]
  {
  }
}
