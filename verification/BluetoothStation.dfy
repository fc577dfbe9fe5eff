/** Building replies and executing commands in place. */
module BluetoothStation {
  import opened Options
  import opened BluetoothProtocol

  /** The two bytes of a 16-bit value exchanged, so that it lies in memory high byte first. */
  function Swapped(v: nat): nat
    requires v < 0x1_0000
  {
    v / 0x100 + (v * 0x100) % 0x1_0000
  }

  lemma SwappedBytes(v: nat)
    requires v < 0x1_0000
    ensures Swapped(v) < 0x1_0000 && Swapped(v) % 0x100 == v / 0x100 && Swapped(v) / 0x100 == v % 0x100
  {
    assert (v * 0x100) % 0x1_0000 == (v % 0x100) * 0x100;
  }

  /** A 16-bit field of a packed structure. */
  method PutShort(buf: array<byte>, at: nat, v: nat)
    requires at + 2 <= buf.Length && v < 0x1_0000
    modifies buf
    ensures buf[at] == v % 0x100 && buf[at + 1] == v / 0x100
    ensures forall i :: 0 <= i < buf.Length && i != at && i != at + 1 ==> buf[i] == old(buf[i])
  {
    buf[at] := v % 0x100;
    buf[at + 1] := v / 0x100;
  }

  /** Start mark, function, direction and length, content start. */
  method PutHeader(buf: array<byte>, fun: byte, length: nat)
    requires buf.Length >= 6 && length < 0x1_0000
    modifies buf
    ensures buf[0] == buf[1] == 0x7E && buf[2] == fun && buf[5] == CONTENT_START
    ensures buf[3] == length / 0x100 && buf[4] == length % 0x100
    ensures forall i :: 6 <= i < buf.Length ==> buf[i] == old(buf[i])
  {
    hide Swapped;
    SwappedBytes(length);
    PutShort(buf, 0, 0x7E7E);
    buf[2] := fun;
    PutShort(buf, 3, Swapped(length));
    buf[5] := CONTENT_START;
  }

  /** The content and the end mark of a time reply, after its header. */
  method PutTime(frame: array<byte>, time: array<byte>)
    requires frame.Length == 16 && time.Length == 6 && frame != time
    modifies frame
    ensures frame[6] == TIME_GUIDE && frame[7] == 0x30 && forall i :: 0 <= i < 6 ==> frame[8 + i] == time[i]
    ensures frame[14] == 0x0D && frame[15] == 0x0A
    ensures forall i :: 0 <= i < 6 ==> frame[i] == old(frame[i])
  {
    assert Swapped(END) == 0x0A0D;
    frame[6], frame[7] := TIME_GUIDE, 0x30;
    frame[8], frame[9], frame[10] := time[0], time[1], time[2];
    frame[11], frame[12], frame[13] := time[3], time[4], time[5];
    PutShort(frame, 14, Swapped(END));
  }

  method Copy(dst: array<byte>, at: nat, src: array<byte>, start: nat, n: nat)
    requires dst != src && at + n <= dst.Length && start + n <= src.Length
    modifies dst
    ensures dst[..] == old(dst[..at]) + src[start..start + n] + old(dst[at + n..])
  {
    var i := 0;
    while i < n
      invariant 0 <= i <= n
      invariant dst[..at] == old(dst[..at]) && dst[at + n..] == old(dst[at + n..])
      invariant dst[at..at + i] == src[start..start + i]
    {
      dst[at + i] := src[start + i];
      i := i + 1;
    }
    assert dst[..] == dst[..at] + dst[at..at + n] + dst[at + n..];
  }

  /** The data of the first element copied out of a frame; `overrun` if there are more of them than room. */
  method GetContentData(src: array<byte>, des: array<byte>) returns (length: nat, overrun: bool)
    requires src != des && src.Length == BUFFER_SIZE
    modifies des
    ensures length == ContentLength(src[..]) && overrun == (length > des.Length)
    ensures !overrun ==> des[..] == src[8..8 + length] + old(des[length..])
  {
    length := src[7] / 8;
    overrun := length > des.Length;
    if !overrun {
      Copy(des, 0, src, 8, length);
    }
  }

  lemma TimeFrameAt(f: seq<byte>, t: Time)
    requires |f| == 16 && f[0] == f[1] == 0x7E && f[2] == QUERY_TIME && f[3] == 0 && f[4] == 8 && f[5] == CONTENT_START
    requires f[6] == TIME_GUIDE && f[7] == 0x30 && (forall i :: 0 <= i < 6 ==> f[8 + i] == t[i])
    requires f[14] == 0x0D && f[15] == 0x0A
    ensures f == TimeFrame(t)
  {
    assert f[8] == t[0] && f[9] == t[1] && f[10] == t[2] && f[11] == t[3] && f[12] == t[4] && f[13] == t[5];
  }

  /** What a time structure holds before it is assigned. */
  function Unset(access: Access): Time {
    if access.Refused? then access.unset else [0, 0, 0, 0, 0, 0]
  }

  class Station {
    var rtc: Rtc
    var remote: seq<byte>
    /** Flash copy of the parameters. */
    var stored: seq<byte>
    /** Frames sent, oldest first. */
    var sent: seq<seq<byte>>

    function Contents(): State
      reads this
    {
      State(rtc, remote, stored, sent)
    }

    method Send(buf: array<byte>, length: nat)
      requires length <= buf.Length
      modifies this`sent
      ensures sent == old(sent) + [buf[..length]]
    {
      sent := sent + [buf[..length]];
    }

    /** Writes the seven registers, the hour with the bit of the 24-hour mode; false, and nothing written, when the
        chip does not acknowledge. */
    method WriteDate(time: Rtc, access: Access) returns (ok: bool)
      modifies this`rtc
      ensures ok == access.Acknowledged?
      ensures rtc == if ok then time.(hour := WithMode(time.hour)) else old(rtc)
    {
      if access.Refused? { return false; }
      rtc := Rtc(time.second, time.minute, WithMode(time.hour), time.week, time.day, time.month, time.year);
      return true;
    }

    /** Reads the date; false, and the structure left as it was, when the chip does not acknowledge. */
    method ReadDate(time: array<byte>, access: Access) returns (ok: bool)
      requires time.Length == 6
      modifies time
      ensures ok == access.Acknowledged?
      ensures time[..] == if ok then TimeBytes(rtc) else old(time[..])
    {
      if access.Refused? { return false; }
      time[5], time[4], time[3] := rtc.second, rtc.minute, rtc.hour % 0x80;
      time[2], time[1], time[0] := rtc.day, rtc.month, rtc.year;
      return true;
    }

    /** The fields of the frame go to the clock chip, whose answer is ignored; the weekday of the time structure is
        never assigned. */
    method SetRealTime(buff: array<byte>, week: byte, access: Access) returns (r: int)
      requires buff.Length == BUFFER_SIZE
      modifies this`rtc
      ensures rtc == (if access.Acknowledged? then SetClock(buff[..], week) else old(rtc)) && r == 0
    {
      var year, month, day, hour, minute, second := buff[8], buff[9], buff[10], buff[11], buff[12], buff[13];
      var _ := WriteDate(Rtc(second, minute, hour, week, day, month, year), access);
      r := 0;
    }

    method SetTimeUpframe(buff: array<byte>)
      requires buff.Length == BUFFER_SIZE
      modifies this`sent
      ensures sent == old(sent) + [SetTimeReply(buff[..])]
    {
      var message := new byte[16](_ => 0);
      PutHeader(message, SET_TIME, UP);
      assert message[..6] == [0x7E, 0x7E, SET_TIME, 0x00, 0x08, CONTENT_START];
      Copy(message, 6, buff, 6, 10);
      assert message[..16] == SetTimeReply(buff[..]);
      Send(message, 16);
    }

    /** Whether the chip could be read is not looked at. */
    method ReadTimeUpframe(access: Access)
      modifies this`sent
      ensures sent == old(sent) + [TimeFrame(Reported(rtc, access))]
    {
      var time := new byte[6](i requires 0 <= i < 6 => Unset(access)[i]);
      assert time[..] == Unset(access);
      var _ := ReadDate(time, access);
      var frame := new byte[16](_ => 0);
      PutHeader(frame, QUERY_TIME, 0x0008);
      PutTime(frame, time);
      TimeFrameAt(frame[..16], time[..]);
      Send(frame, 16);
    }

    /** The copy has the size of the task's own buffer, 50 bytes, whatever length it is asked to send. */
    method ChangeUpidUpframe(buff: array<byte>, length: nat) returns (overrun: bool)
      requires buff.Length == BUFFER_SIZE
      modifies this`sent
      ensures overrun == (length > BUFFER_SIZE)
      ensures sent == if overrun then old(sent) else old(sent) + [EchoOf(buff[..], length)]
    {
      overrun := length > BUFFER_SIZE;
      if !overrun {
        var copy := new byte[50](_ => 0);
        Copy(copy, 0, buff, 0, length);
        assert copy[..length] == buff[..length];
        ghost var before := copy[..];
        copy[3] := copy[3] % 0x80;
        assert copy[..] == before[3 := before[3] % 0x80];
        assert copy[..length] == EchoOf(buff[..], length);
        Send(copy, length);
      }
    }

    method ModifyRtuParameters(buff: array<byte>)
      requires buff.Length == BUFFER_SIZE
      modifies this`remote, this`stored
      ensures remote == (if buff[6] == REMOTE_GUIDE then buff[8..13] else old(remote))
      ensures stored == (if buff[6] == REMOTE_GUIDE then buff[8..13] else old(stored))
    {
      if buff[6] == REMOTE_GUIDE {
        var address := new byte[5](_ => 0);
        Copy(address, 0, buff, 8, 5);
        assert address[..] == buff[8..13];
        remote := address[..];
        stored := remote;
      }
    }

    /** The parameters are only copied and logged. */
    method Modify4gParameters(buff: array<byte>) returns (overrun: bool)
      requires buff.Length == BUFFER_SIZE
      ensures overrun == (ContentLength(buff[..]) > CONTENT_ROOM)
    {
      var content := new byte[20](_ => 0);
      var length;
      length, overrun := GetContentData(buff, content);
    }

    method ExecuteCommand(buff: array<byte>, fun: byte, week: byte, access: Access) returns (r: int, overrun: bool)
      requires buff.Length == BUFFER_SIZE && fun == buff[2]
      modifies this`rtc, this`remote, this`stored
      ensures var n := Execute(old(Contents()), buff[..], week, access);
              r == 0 && overrun == n.None? && (n.Some? ==> Contents() == n.value)
    {
      r, overrun := 0, false;
      if fun == SET_TIME {
        var flag := SetRealTime(buff, week, access);
        r := if flag == 0 then 0 else -1;
      } else if fun == MODIFY_RTU {
        ModifyRtuParameters(buff);
      } else if fun == MODIFY_4G {
        overrun := Modify4gParameters(buff);
      }
    }

    method ResponseUpframe(buff: array<byte>, length: nat, fun: byte, access: Access) returns (r: int, overrun: bool)
      requires buff.Length == BUFFER_SIZE && fun == buff[2]
      modifies this`sent
      ensures var n := Respond(old(Contents()), buff[..], length, access);
              overrun == n.None? && (n.Some? ==> Contents() == n.value)
      ensures r == if Answered(fun) then 0 else -1
    {
      hide TimeFrame, SetTimeReply, EchoOf;
      r, overrun := 0, false;
      if fun == QUIT || fun == READ_RTU || fun == MODIFY_RTU || fun == MODIFY_4G || fun == SEND_MANUALLY {
        overrun := ChangeUpidUpframe(buff, length);
      } else if fun == SET_TIME {
        SetTimeUpframe(buff);
      } else if fun == QUERY_TIME {
        ReadTimeUpframe(access);
      } else if fun == QUERY_REAL_DATA {
        sent := sent + [REAL_DATA_FRAME];
      } else {
        r := -1;
      }
    }

    /** One turn of the Bluetooth task. */
    method Handle(buff: array<byte>, length: nat, week: byte, access: Access) returns (overrun: bool)
      requires buff.Length == BUFFER_SIZE
      modifies this
      ensures var n := Step(old(Contents()), Receive(buff[..], length, week, access));
              overrun == n.None? && (n.Some? ==> Contents() == n.value)
    {
      overrun := false;
      if length > 0 {
        var fun := buff[2];
        var flag, r;
        flag, overrun := ExecuteCommand(buff, fun, week, access);
        if !overrun && flag == 0 {
          r, overrun := ResponseUpframe(buff, length, fun, access);
        }
      }
    }
  }

  /** Binary-coded digits to a dotted address; only blocks of six bytes are accepted. */
  method GetIpInformation(src: array<byte>, length: nat, des: array<byte>) returns (r: int)
    requires length <= src.Length && des != src && des.Length >= 16
    modifies des
    ensures length != 6 ==> r == -1 && des[..] == old(des[..])
    ensures length == 6 ==> r == 0 && des[..] == Dotted(src[..6]) + old(des[16..])
  {
    if length != 6 { return -1; }
    var buff := new byte[20](_ => 0);
    SplitNibbles(src, buff);
    JoinGroups(buff, des, src[..6]);
    return 0;
  }

  /** Every fourth character is a dot; the digits between them have moved by the dots before them. */
  method JoinGroups(buff: array<byte>, des: array<byte>, ghost block: seq<byte>)
    requires |block| == 6 && buff.Length >= 12 && des.Length >= 16 && buff != des
    requires forall k :: 0 <= k < 12 ==> buff[k] == Digit(block, k)
    modifies des
    ensures des[..] == Dotted(block) + old(des[16..])
  {
    hide Dotted, Digit;
    var i := 0;
    while i < 15
      invariant 0 <= i <= 15 && forall k :: 15 <= k < des.Length ==> des[k] == old(des[k])
      invariant forall k :: 0 <= k < i ==> des[k] == Dotted(block)[k]
    {
      var offset := (i + 1) / 4;
      DottedAt(block, i);
      if (i + 1) % 4 == 0 {
        des[i] := '.' as int;
      } else {
        des[i] := buff[i - offset];
      }
      i := i + 1;
    }
    des[15] := 0;
    DottedEnd(block);
    assert des[..16] == Dotted(block);
  }

  method SplitNibbles(src: array<byte>, buff: array<byte>)
    requires src.Length >= 6 && buff.Length >= 12 && src != buff
    modifies buff
    ensures forall k :: 0 <= k < 12 ==> buff[k] == Digit(src[..6], k)
  {
    var i := 0;
    while i < 6
      invariant 0 <= i <= 6 && forall k :: 0 <= k < 2 * i ==> buff[k] == Digit(src[..6], k)
    {
      buff[2 * i] := src[i] / 16 + '0' as int;
      buff[2 * i + 1] := src[i] % 16 + '0' as int;
      i := i + 1;
    }
  }
}
