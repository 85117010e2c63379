/**
 * The wire format of a SpaceWire link: each packet travels as a 4-byte big-endian length
 * followed by the packet itself.
 */
module Framing {
  import opened Bytes
  import opened Lists

  /** A packet whose length fits the 32-bit prefix. */
  type Packet = p: seq<byte> | |p| < 0x1_0000_0000

  /** The largest length the tap accepts; the peer has no bound of its own. */
  const MAX_PACKET: nat := 65536
  const NO_CAP: nat := 0xFFFF_FFFF

  /** The big-endian counter at the end of a packet; 0 when the packet is too short to have one. */
  function CounterOf(p: seq<byte>): uint32 {
    if |p| < 4 then 0 else DecodeBE32(p[|p| - 4..])
  }

  function Frame(p: Packet): (s: seq<byte>)
    ensures |s| == 4 + |p|
  {
    EncodeBE32(|p|) + p
  }

  function FrameAll(ps: seq<Packet>): (s: seq<byte>)
  {
    if ps == [] then [] else Frame(ps[0]) + FrameAll(ps[1..])
  }

  predicate Fits(cap: nat, ps: seq<Packet>) {
    forall i | 0 <= i < |ps| :: |ps[i]| <= cap
  }

  /** The stream starts with a whole frame of legal length. */
  predicate HasFrame(cap: nat, s: seq<byte>) {
    |s| >= 4 && DecodeBE32(s[..4]) <= cap && |s| >= 4 + DecodeBE32(s[..4])
  }

  function FirstPacket(cap: nat, s: seq<byte>): (p: Packet)
    requires HasFrame(cap, s)
    ensures |p| <= cap
  {
    s[4..4 + DecodeBE32(s[..4])]
  }

  function AfterFrame(cap: nat, s: seq<byte>): (rest: seq<byte>)
    requires HasFrame(cap, s)
    ensures |rest| < |s|
  {
    s[4 + |FirstPacket(cap, s)|..]
  }

  /** Takes whole legal frames off the front until none is left there. */
  function Parse(cap: nat, s: seq<byte>): (r: (seq<Packet>, seq<byte>))
    decreases |s|
  {
    if !HasFrame(cap, s) then ([], s)
    else
      var (ps, rest) := Parse(cap, AfterFrame(cap, s));
      ([FirstPacket(cap, s)] + ps, rest)
  }

  /** A header is re-emitted unchanged: framing the first packet gives back the bytes it came from. */
  lemma FrameOfFirst(cap: nat, s: seq<byte>)
    requires HasFrame(cap, s)
    ensures s == Frame(FirstPacket(cap, s)) + AfterFrame(cap, s)
  {
    EncodeDecodeBE32(s[..4]);
  }

  lemma FirstOfFrame(cap: nat, p: Packet, t: seq<byte>)
    requires |p| <= cap
    ensures HasFrame(cap, Frame(p) + t)
    ensures FirstPacket(cap, Frame(p) + t) == p && AfterFrame(cap, Frame(p) + t) == t
  {
    DecodeEncodeBE32(|p|);
    var s := Frame(p) + t;
    assert s[..4] == EncodeBE32(|p|);
  }

  /** The parser consumes a run of legal frames and what it leaves does not start with another. */
  lemma {:induction false} ParseSplits(cap: nat, s: seq<byte>)
    ensures var (ps, rest) := Parse(cap, s);
      s == FrameAll(ps) + rest && Fits(cap, ps) && !HasFrame(cap, rest)
    decreases |s|
  {
    if HasFrame(cap, s) {
      FrameOfFirst(cap, s);
      ParseSplits(cap, AfterFrame(cap, s));
      var (ps, rest) := Parse(cap, AfterFrame(cap, s));
      FrameAllMore(FirstPacket(cap, s), ps, rest);
    }
  }

  lemma FrameAllMore(p: Packet, ps: seq<Packet>, t: seq<byte>)
    ensures FrameAll([p] + ps) + t == Frame(p) + (FrameAll(ps) + t)
  {
    assert ([p] + ps)[1..] == ps;
  }

  lemma FrameAllCons(ps: seq<Packet>, t: seq<byte>)
    requires ps != []
    ensures FrameAll(ps) + t == Frame(ps[0]) + (FrameAll(ps[1..]) + t)
  {
  }

  lemma ParseOneMore(cap: nat, p: Packet, t: seq<byte>)
    requires |p| <= cap
    ensures Parse(cap, Frame(p) + t) == ([p] + Parse(cap, t).0, Parse(cap, t).1)
  {
    FirstOfFrame(cap, p, t);
  }

  /** Legal frames at the front are parsed one for one, whatever follows them. */
  lemma {:induction false} ParseAfterFrames(cap: nat, ps: seq<Packet>, t: seq<byte>)
    requires Fits(cap, ps)
    ensures Parse(cap, FrameAll(ps) + t) == (ps + Parse(cap, t).0, Parse(cap, t).1)
    decreases |ps|
  {
    if ps == [] {
      assert FrameAll(ps) + t == t && ps + Parse(cap, t).0 == Parse(cap, t).0;
    } else {
      var tail := FrameAll(ps[1..]) + t;
      ParseAfterFrames(cap, ps[1..], t);
      assert Parse(cap, FrameAll(ps) + t) == ([ps[0]] + Parse(cap, tail).0, Parse(cap, tail).1) by {
        FrameAllCons(ps, t);
        ParseOneMore(cap, ps[0], tail);
      }
      HeadFirst(ps, Parse(cap, t).0);
    }
  }

  /** Parse is the inverse of FrameAll, and finds the longest parse: every other run of legal frames is a prefix. */
  lemma ParseIsLongest(cap: nat, s: seq<byte>, ps: seq<Packet>, t: seq<byte>)
    requires Fits(cap, ps) && s == FrameAll(ps) + t
    ensures ps <= Parse(cap, s).0
    ensures !HasFrame(cap, t) ==> Parse(cap, s) == (ps, t)
  {
    ParseAfterFrames(cap, ps, t);
    if !HasFrame(cap, t) {
      assert ps + [] == ps;
    }
  }

  lemma ParseFrameAll(cap: nat, ps: seq<Packet>)
    requires Fits(cap, ps)
    ensures Parse(cap, FrameAll(ps)) == (ps, [])
  {
    assert FrameAll(ps) == FrameAll(ps) + [];
    ParseIsLongest(cap, FrameAll(ps), ps, []);
  }

  lemma {:induction false} FrameAllConcat(ps: seq<Packet>, qs: seq<Packet>)
    ensures FrameAll(ps + qs) == FrameAll(ps) + FrameAll(qs)
    decreases |ps|
  {
    if ps == [] {
      assert ps + qs == qs;
    } else {
      assert (ps + qs)[1..] == ps[1..] + qs;
      FrameAllConcat(ps[1..], qs);
    }
  }

  lemma FrameAllOne(ps: seq<Packet>, p: Packet)
    ensures FrameAll(ps + [p]) == FrameAll(ps) + Frame(p)
  {
    FrameAllConcat(ps, [p]);
    assert FrameAll([p]) == Frame(p) + FrameAll([]);
  }

  /** Whole frames are self-delimiting: equal byte streams come from equal packet lists. */
  lemma FrameAllInjective(ps: seq<Packet>, qs: seq<Packet>)
    requires FrameAll(ps) == FrameAll(qs)
    ensures ps == qs
  {
    ParseFrameAll(NO_CAP, ps);
    ParseFrameAll(NO_CAP, qs);
  }

  /** The longest packet a tap forwards, and one byte more. */
  lemma LongestPacket(p: Packet)
    ensures |p| == 65536 ==> Parse(MAX_PACKET, Frame(p)) == ([p], [])
    ensures |p| == 65537 ==> Parse(MAX_PACKET, Frame(p)) == ([], Frame(p))
  {
    var ps: seq<Packet> := [p];
    assert ps[1..] == [] && FrameAll(ps) == Frame(p);
    if |p| == 65536 {
      ParseFrameAll(MAX_PACKET, ps);
    } else {
      DecodeEncodeBE32(|p|);
      assert Frame(p)[..4] == EncodeBE32(|p|);
    }
  }
}
