/**
 * raspi/testServer.py: the card-reader side. Every non-empty serial read is appended
 * to `bufferArray`; once the list holds more than 15 items, check_packet locates the
 * first line feed and reads the card value from items 2..11.
 */
module TestServer {
  import opened Bytes

  /** check_packet does nothing until the buffer holds more than this many items. */
  const PacketThreshold := 15

  /** The packet is assumed to start at the head of the buffer. */
  const StartIndex := 0

  /** The card value is items [StartIndex + 2, StartIndex + 12) of the buffer. */
  const ValueFrom := StartIndex + 2
  const ValueTo := StartIndex + 12
  const ValueLength := ValueTo - ValueFrom

  /** What one pass of the check_packet loop body yields. */
  datatype Extraction =
    | Extracted(bufferLength: nat, packetLength: int, value: seq<Byte>)
      // the values the pass reports: buffer length, packet length, card value
    | MissingLineFeed(bufferLength: nat)
      // the buffer holds no '\x0A': list.index raises after the buffer length was reported

  /** The guard of the check_packet loop. */
  predicate PacketCheckFires(buffer: seq<Byte>): (fires: bool)
    ensures fires ==> ValueTo <= |buffer|
  {
    |buffer| > PacketThreshold
  }

  /** Python's list.index: the position of the first occurrence of `x`, None where Python raises. */
  function IndexOf(buffer: seq<Byte>, x: Byte): (r: Option<nat>)
    ensures r.Some? ==> r.value < |buffer| && buffer[r.value] == x
    ensures r.Some? ==> forall j :: 0 <= j < r.value ==> buffer[j] != x
    ensures r.None? <==> x !in buffer
  {
    if buffer == [] then None
    else if buffer[0] == x then Some(0)
    else
      match IndexOf(buffer[1..], x)
      case None => None
      case Some(i) => Some(i + 1)
  }

  /** The smaller of two bounds. */
  function Min(a: nat, b: nat): nat
  {
    if a < b then a else b
  }

  /** Python's slice s[lo:hi] for non-negative bounds: bounds past the end are clamped, never an error. */
  function Slice(s: seq<Byte>, lo: nat, hi: nat): (r: seq<Byte>)
    ensures |r| <= |s|
    ensures lo <= hi <= |s| ==> |r| == hi - lo
    ensures |r| == (if lo <= Min(hi, |s|) then Min(hi, |s|) - lo else 0)
    ensures forall k :: 0 <= k < |r| ==> lo + k < |s| && r[k] == s[lo + k]
  {
    var end := if hi < |s| then hi else |s|;
    if lo <= end then s[lo..end] else []
  }

  /** One pass of the check_packet loop body on `buffer`. */
  function PacketPass(buffer: seq<Byte>): (r: Extraction)
    ensures r.bufferLength == |buffer|
    ensures r.MissingLineFeed? <==> LF !in buffer
    ensures r.Extracted? ==>
      && 0 <= r.packetLength < |buffer|
      && buffer[r.packetLength] == LF
      && LF !in buffer[..r.packetLength]
      && r.value == Slice(buffer, ValueFrom, ValueTo)
  {
    match IndexOf(buffer, LF)
    case None => MissingLineFeed(|buffer|)
    case Some(endIndex) =>
      Extracted(|buffer|, endIndex - StartIndex, Slice(buffer, ValueFrom, ValueTo))
  }

  /** check_card: the stub rejects every card value. */
  function CheckCard(value: seq<Byte>): (accepted: bool)
    ensures !accepted
  {
    false
  }

  /** The module-level state of testServer.py. */
  class Server {
    /** bufferArray: every non-empty read, in arrival order. */
    var bufferArray: seq<Byte>

    constructor ()
      ensures bufferArray == []
    {
      bufferArray := [];
    }

    /**
     * One test of the check_packet loop guard and, if it holds, one pass of the body.
     * No modifies clause: the body never writes bufferArray (the removal is commented
     * out), so the guard still holds after a pass that ran.
     */
    method CheckPacketPass() returns (pass: Option<Extraction>)
      ensures pass.None? <==> |bufferArray| <= PacketThreshold
      ensures pass.Some? ==> pass.value == PacketPass(bufferArray)
    {
      if |bufferArray| > PacketThreshold {
        var endIndex := IndexOf(bufferArray, LF);
        if endIndex.None? {
          return Some(MissingLineFeed(|bufferArray|));
        }
        var value := Slice(bufferArray, StartIndex + 2, StartIndex + 12);
        pass := Some(Extracted(|bufferArray|, endIndex.value - StartIndex, value));
      } else {
        pass := None;
      }
    }

    /**
     * handle_data: a non-empty read is appended and check_packet runs; `pass` is the
     * outcome of its first loop pass, None when no pass ran.
     */
    method HandleData(data: Option<Byte>) returns (pass: Option<Extraction>)
      modifies this
      ensures bufferArray == if data.Some? then old(bufferArray) + [data.value] else old(bufferArray)
      ensures pass.Some? <==> data.Some? && PacketCheckFires(bufferArray)
      ensures pass.Some? ==> pass.value == PacketPass(bufferArray)
    {
      pass := None;
      if data.Some? {
        bufferArray := bufferArray + [data.value];
        pass := CheckPacketPass();
      }
    }
  }

  /** Once the guard holds, the card value is exactly the 10 items at positions 2..11, in arrival order. */
  lemma ValueWindowExact(buffer: seq<Byte>)
    requires PacketCheckFires(buffer)
    ensures PacketPass(buffer).Extracted? ==> PacketPass(buffer).value == buffer[2..12]
    ensures |Slice(buffer, ValueFrom, ValueTo)| == ValueLength == 10
  {
  }

  /** The reported packet length is the position of the first line feed, because the start is 0. */
  lemma PacketLengthIsFirstLineFeed(buffer: seq<Byte>)
    requires LF in buffer
    ensures PacketPass(buffer).Extracted?
    ensures IndexOf(buffer, LF) == Some(PacketPass(buffer).packetLength)
  {
  }

  /** A position holding `x`, with no earlier occurrence of `x`, is the one list.index returns. */
  lemma IndexOfFirst(buffer: seq<Byte>, x: Byte, i: nat)
    requires i < |buffer| && buffer[i] == x
    requires forall j :: 0 <= j < i ==> buffer[j] != x
    ensures IndexOf(buffer, x) == Some(i)
  {
  }
}
