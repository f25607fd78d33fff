/** create_message of the sensor-node example: the payload a source sends,
    its sequence number in decimal followed by 'X' padding. */
module SensorMessage {
  import opened CTypes
  import opened SeqnoFormat
  import opened SensorNodeConf

  /** The value create_message returns and the buffer after the call. The
      return type is size_t: -1 here stands for (size_t)-1. */
  datatype Message = Message(ret: int, buffer: Ptr<seq<char>>)

  /** snprintf(buf, |buf|, ...) of an already formatted `text`: as many
      characters as fit before a terminating NUL; the rest of `buf` stays. */
  function Snprintf(buf: seq<char>, text: seq<char>): (r: seq<char>)
    requires |buf| >= 1
    ensures |r| == |buf|
    ensures |text| < |buf| ==> r[..|text|] == text && r[|text|] == '\0' && r[|text| + 1..] == buf[|text| + 1..]
    ensures |text| >= |buf| ==> r[..|buf| - 1] == text[..|buf| - 1] && r[|buf| - 1] == '\0'
  {
    var k := if |text| < |buf| then |text| else |buf| - 1;
    text[..k] + ['\0'] + buf[k + 1..]
  }

  /** The snprintf step and return value of create_message, on a buffer of
      at least one byte. */
  function FormatInto(seqno: int, buf: seq<char>): (m: Message)
    requires |buf| >= 1
  {
    var text := FormatSeqno(seqno);
    var out := Snprintf(buf, text);
    if |text| < |buf| then Message(|buf|, Ref(out)) else Message(-1, Ref(out))
  }

  /** create_message with the NULL check ahead of the memset: -1 for a NULL
      buffer or an empty one, `buflen` when the formatted number fits (the
      rest of the buffer is 'X' after its terminating NUL), and -1 with the
      text truncated when it does not. */
  function CreateMessage(seqno: int, buffer: Ptr<seq<char>>, buflen: nat): (m: Message)
    requires buffer.Ref? ==> |buffer.target| == buflen
    ensures m.ret == buflen <==> buffer.Ref? && 1 <= buflen && |FormatSeqno(seqno)| < buflen
    ensures m.ret != buflen ==> m.ret == -1
    ensures buffer.Null? ==> m.buffer.Null?
    ensures buffer.Ref? ==> m.buffer.Ref? && |m.buffer.target| == buflen
    ensures m.ret == buflen ==>
              var n := |FormatSeqno(seqno)|;
              && m.buffer.target[..n] == FormatSeqno(seqno)
              && m.buffer.target[n] == '\0'
              && forall i :: n < i < buflen ==> m.buffer.target[i] == 'X'
    ensures buffer.Ref? && 1 <= buflen <= |FormatSeqno(seqno)| ==>
              && m.buffer.target[..buflen - 1] == FormatSeqno(seqno)[..buflen - 1]
              && m.buffer.target[buflen - 1] == '\0'
  {
    if buffer.Null? || buflen < 1 then Message(-1, buffer)
    else FormatInto(seqno, seq(buflen, _ => 'X'))
  }

  /** The receiver's atoi recovers the sequence number from every message
      create_message completes, that is whenever the buffer is non-NULL and
      longer than the formatted number. */
  lemma {:induction false} CreateMessageRoundTrip(seqno: int, buffer: Ptr<seq<char>>, buflen: nat)
    requires buffer.Ref? ==> |buffer.target| == buflen
    requires buffer.Ref? && |FormatSeqno(seqno)| < buflen
    ensures Atoi(CreateMessage(seqno, buffer, buflen).buffer.target) == seqno
  {
    var text := FormatSeqno(seqno);
    var out := CreateMessage(seqno, buffer, buflen).buffer.target;
    assert out == text + out[|text|..];
    AtoiFormatSeqno(seqno, out[|text|..]);
  }

  /** Every message the source process sends (sequence numbers 1 to
      MAX_PKTS * MAX_RUNS, in a DEFAULT_PAYLOAD_LEN buffer) is complete, and
      the root reads its sequence number back. */
  lemma {:induction false} SourceMessagesRoundTrip(seqno: int, buffer: seq<char>)
    requires 1 <= seqno <= MaxPkts * MaxRuns
    requires |buffer| == DefaultPayloadLen
    ensures CreateMessage(seqno, Ref(buffer), DefaultPayloadLen).ret == DefaultPayloadLen
    ensures Atoi(CreateMessage(seqno, Ref(buffer), DefaultPayloadLen).buffer.target) == seqno
  {
    FormatSeqnoWidth(seqno);
    CreateMessageRoundTrip(seqno, Ref(buffer), DefaultPayloadLen);
  }

  /** The outcome of create_message as written, where a NULL buffer can be
      written to before it is checked. */
  datatype Outcome = NullWrite | Returned(message: Message)

  /** create_message as written: memset(buffer, 'X', buflen) runs before
      the NULL check, so a NULL buffer with a positive length is written
      through. */
  function CreateMessageAsWritten(seqno: int, buffer: Ptr<seq<char>>, buflen: nat): (o: Outcome)
    requires buffer.Ref? ==> |buffer.target| == buflen
    ensures o == NullWrite <==> buffer.Null? && buflen >= 1
  {
    if buffer.Null? && buflen >= 1 then NullWrite
    else
      var filled := if buffer.Ref? then Ref(seq(buflen, _ => 'X')) else Null;
      if buffer.Null? || buflen < 1 then Returned(Message(-1, filled))
      else Returned(FormatInto(seqno, filled.target))
  }

  /** The guard comes too late: create_message(1, NULL, DEFAULT_PAYLOAD_LEN)
      writes through the NULL pointer instead of returning -1. */
  lemma CreateMessageAsWrittenNullWrite()
    ensures CreateMessageAsWritten(1, Null, DefaultPayloadLen) == NullWrite
    ensures CreateMessage(1, Null, DefaultPayloadLen) == Message(-1, Null)
  {
  }

  /** On every other input the code as written and the corrected model
      agree. */
  lemma CreateMessageAsWrittenAgrees(seqno: int, buffer: Ptr<seq<char>>, buflen: nat)
    requires buffer.Ref? ==> |buffer.target| == buflen
    requires buffer.Ref? || buflen == 0
    ensures CreateMessageAsWritten(seqno, buffer, buflen) == Returned(CreateMessage(seqno, buffer, buflen))
  {
    if buffer.Ref? && buflen == 0 {
      assert buffer.target == seq(0, _ => 'X');
    }
  }
}
