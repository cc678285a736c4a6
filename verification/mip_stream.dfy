/** What a MIP byte stream means, apart from how it arrives: the greedy parse that a receiver with the
    whole stream in front of it would do, and what is true of it. */
module MipStream {
  import opened Bytes
  import opened Mip

  datatype Decision = NeedMore | Reject | Accept(size: nat)

  /** What can be said about a packet starting at `i`: nothing yet, none starts there, or this one does. */
  function Decide(s: seq<byte>, i: nat): (d: Decision)
    ensures d.Accept? ==> i + d.size <= |s| && IsPacket(s[i..i + d.size])
    ensures d.Reject? ==> i < |s|
  {
    if i >= |s| then NeedMore
    else if s[i] != SYNC_BYTE1 then Reject
    else if i + HEADER_SIZE > |s| then NeedMore
    else if s[i + 1] != SYNC_BYTE2 then Reject
    else
      var size := HEADER_SIZE + s[i + 3] + CHECKSUM_SIZE;
      if i + size > |s| then NeedMore
      else if IsPacket(s[i..i + size]) then Accept(size)
      else Reject
  }

  /** Positions in `given` were given up before the bytes to decide them had come. */
  ghost function DecideWith(s: seq<byte>, given: set<nat>, i: nat): (d: Decision) {
    if i in given && i < |s| then Reject else Decide(s, i)
  }

  /** The packets a left-to-right reader takes from position `i` on: at each position take the packet
      that starts there, or move on by one byte, until the bytes run out. */
  ghost function Greedy(s: seq<byte>, given: set<nat>, i: nat): seq<seq<byte>>
    decreases |s| - i
  {
    match DecideWith(s, given, i)
    case NeedMore => []
    case Reject => Greedy(s, given, i + 1)
    case Accept(n) => [s[i..i + n]] + Greedy(s, given, i + n)
  }

  /** The same reader starting at `i` comes past `p`, having taken exactly `packets`. */
  ghost predicate Reaches(s: seq<byte>, given: set<nat>, i: nat, p: nat, packets: seq<seq<byte>>)
    decreases p - i
  {
    if i >= p then i == p && packets == []
    else
      match DecideWith(s, given, i)
      case NeedMore => false
      case Reject => Reaches(s, given, i + 1, p, packets)
      case Accept(n) =>
        packets != [] && packets[0] == s[i..i + n] && Reaches(s, given, i + n, p, packets[1..])
  }

  lemma {:induction false} ReachesIsGreedy(s: seq<byte>, given: set<nat>, i: nat, p: nat, packets: seq<seq<byte>>)
    requires Reaches(s, given, i, p, packets)
    ensures Greedy(s, given, i) == packets + Greedy(s, given, p)
    decreases p - i
  {
    hide IsPacket;
    if i < p {
      match DecideWith(s, given, i)
      case Reject => ReachesIsGreedy(s, given, i + 1, p, packets);
      case Accept(n) =>
        ReachesIsGreedy(s, given, i + n, p, packets[1..]);
        assert packets == [packets[0]] + packets[1..];
    }
  }

  lemma {:induction false} ReachesSkip(s: seq<byte>, given: set<nat>, i: nat, p: nat, packets: seq<seq<byte>>)
    requires Reaches(s, given, i, p, packets) && DecideWith(s, given, p) == Reject
    ensures Reaches(s, given, i, p + 1, packets)
    decreases p - i
  {
    hide IsPacket;
    if i < p {
      match DecideWith(s, given, i)
      case Reject => ReachesSkip(s, given, i + 1, p, packets);
      case Accept(n) => ReachesSkip(s, given, i + n, p, packets[1..]);
    }
  }

  lemma {:induction false} ReachesTake(s: seq<byte>, given: set<nat>, i: nat, p: nat, packets: seq<seq<byte>>, n: nat)
    requires Reaches(s, given, i, p, packets) && DecideWith(s, given, p) == Accept(n)
    ensures Reaches(s, given, i, p + n, packets + [s[p..p + n]])
    decreases p - i
  {
    hide IsPacket;
    var longer := packets + [s[p..p + n]];
    if i < p {
      match DecideWith(s, given, i)
      case Reject => ReachesTake(s, given, i + 1, p, packets, n);
      case Accept(m) =>
        ReachesTake(s, given, i + m, p, packets[1..], n);
        assert longer[1..] == packets[1..] + [s[p..p + n]];
    } else {
      assert longer[1..] == [];
    }
  }

  /** A decision, once made, does not change when more bytes arrive. */
  lemma DecideStable(s: seq<byte>, more: seq<byte>, i: nat)
    requires !Decide(s, i).NeedMore?
    ensures Decide(s + more, i) == Decide(s, i)
  {
    hide IsPacket;
    if s[i] == SYNC_BYTE1 && s[i + 1] == SYNC_BYTE2 {
      var size := HEADER_SIZE + s[i + 3] + CHECKSUM_SIZE;
      assert (s + more)[i..i + size] == s[i..i + size];
    }
  }

  lemma {:induction false} ReachesStable(s: seq<byte>, more: seq<byte>, given: set<nat>, extra: set<nat>,
                                         i: nat, p: nat, packets: seq<seq<byte>>)
    requires Reaches(s, given, i, p, packets)
    requires forall x :: x in extra ==> p <= x
    ensures Reaches(s + more, given + extra, i, p, packets)
    decreases p - i
  {
    hide IsPacket;
    if i < p {
      match DecideWith(s, given, i)
      case Reject =>
        if i !in given { DecideStable(s, more, i); }
        ReachesStable(s, more, given, extra, i + 1, p, packets);
      case Accept(n) =>
        DecideStable(s, more, i);
        assert (s + more)[i..i + n] == s[i..i + n];
        ReachesStable(s, more, given, extra, i + n, p, packets[1..]);
    }
  }

  lemma ReachesGivenUp(s: seq<byte>, given: set<nat>, p: nat, packets: seq<seq<byte>>)
    requires Reaches(s, given, 0, p, packets) && p < |s|
    ensures Reaches(s, given + {p}, 0, p + 1, packets)
  {
    assert s + [] == s;
    ReachesStable(s, [], given, {p}, 0, p, packets);
    ReachesSkip(s, given + {p}, 0, p, packets);
  }

  /** The first position from `i` on that holds a start byte, or the end. */
  function NextSync(s: seq<byte>, i: nat): (j: nat)
    requires i <= |s|
    ensures i <= j <= |s|
    ensures j < |s| ==> s[j] == SYNC_BYTE1
    ensures forall k :: i <= k < j ==> s[k] != SYNC_BYTE1
    decreases |s| - i
  {
    if i == |s| || s[i] == SYNC_BYTE1 then i else NextSync(s, i + 1)
  }

  lemma {:induction false} ReachesNextSync(s: seq<byte>, given: set<nat>, i: nat, p: nat, packets: seq<seq<byte>>)
    requires Reaches(s, given, i, p, packets) && p <= |s|
    ensures Reaches(s, given, i, NextSync(s, p), packets)
    decreases |s| - p
  {
    if p < |s| && s[p] != SYNC_BYTE1 {
      ReachesSkip(s, given, i, p, packets);
      ReachesNextSync(s, given, i, p + 1, packets);
    }
  }

  // ---- Facts about the greedy parse ----

  /** Offsets at which `packets` sit in `s`, one after the other without overlap, from `i` on. */
  ghost predicate LaidOut(s: seq<byte>, i: nat, packets: seq<seq<byte>>, offsets: seq<nat>) {
    |offsets| == |packets| &&
    (forall k :: 0 <= k < |packets| ==>
       i <= offsets[k] && offsets[k] + |packets[k]| <= |s| &&
       s[offsets[k]..offsets[k] + |packets[k]|] == packets[k] && IsPacket(packets[k])) &&
    forall k, m :: 0 <= k < m < |packets| ==> offsets[k] + |packets[k]| <= offsets[m]
  }

  lemma LaidOutFirst(s: seq<byte>, i: nat, n: nat, packets: seq<seq<byte>>, offsets: seq<nat>)
    requires i + n <= |s| && IsPacket(s[i..i + n])
    requires LaidOut(s, i + n, packets, offsets)
    ensures LaidOut(s, i, [s[i..i + n]] + packets, [i] + offsets)
  {
    hide IsPacket;
    var all, at := [s[i..i + n]] + packets, [i] + offsets;
    forall k | 0 <= k < |all|
      ensures i <= at[k] && at[k] + |all[k]| <= |s|
      ensures s[at[k]..at[k] + |all[k]|] == all[k] && IsPacket(all[k])
    {
      if k > 0 { assert all[k] == packets[k - 1] && at[k] == offsets[k - 1]; }
    }
    forall k, m | 0 <= k < m < |all|
      ensures at[k] + |all[k]| <= at[m]
    {
      assert at[m] == offsets[m - 1];
      if k > 0 { assert all[k] == packets[k - 1] && at[k] == offsets[k - 1]; }
    }
  }

  /** The packets are contiguous pieces of the stream, disjoint, in order, and each is acceptable. */
  lemma {:induction false} GreedyLaidOut(s: seq<byte>, given: set<nat>, i: nat) returns (offsets: seq<nat>)
    ensures LaidOut(s, i, Greedy(s, given, i), offsets)
    decreases |s| - i
  {
    hide IsPacket;
    match DecideWith(s, given, i)
    case NeedMore => offsets := [];
    case Reject => offsets := GreedyLaidOut(s, given, i + 1);
    case Accept(n) =>
      var rest := GreedyLaidOut(s, given, i + n);
      LaidOutFirst(s, i, n, Greedy(s, given, i + n), rest);
      offsets := [i] + rest;
  }

  /** Two receivers that saw the same bytes, in whatever pieces, and have nothing left to decide have
      taken the same packets and stand at the same place. */
  lemma ChunkingDoesNotMatter(s: seq<byte>, p: nat, packets: seq<seq<byte>>, p': nat, packets': seq<seq<byte>>)
    requires Reaches(s, {}, 0, p, packets) && Decide(s, p).NeedMore?
    requires Reaches(s, {}, 0, p', packets') && Decide(s, p').NeedMore?
    ensures packets == packets' && p == p'
  {
    ReachesIsGreedy(s, {}, 0, p, packets);
    ReachesIsGreedy(s, {}, 0, p', packets');
    assert packets + [] == packets && packets' + [] == packets';
    StopsAt(s, 0, p, packets, p', packets');
    StopsAt(s, 0, p', packets', p, packets);
  }

  /** No reader comes past a position that still needs bytes. */
  lemma {:induction false} StopsAt(s: seq<byte>, i: nat, p: nat, packets: seq<seq<byte>>, q: nat, other: seq<seq<byte>>)
    requires Reaches(s, {}, i, p, packets) && Decide(s, p).NeedMore? && Reaches(s, {}, i, q, other)
    ensures q <= p
    decreases p - i
  {
    hide IsPacket;
    if i < p && i < q {
      match Decide(s, i)
      case Reject => StopsAt(s, i + 1, p, packets, q, other);
      case Accept(n) => StopsAt(s, i + n, p, packets[1..], q, other[1..]);
    }
  }

  /** No packet is missed: a position behind the reader at which a whole packet stands was given up, or
      lies in a packet that was taken, perhaps this one. */
  lemma {:induction false} NoneMissed(s: seq<byte>, given: set<nat>, i: nat, p: nat, packets: seq<seq<byte>>, j: nat)
    returns (k: nat, o: nat)
    requires Reaches(s, given, i, p, packets) && i <= j < p && j !in given && Decide(s, j).Accept?
    ensures k < |packets| && i <= o <= j < o + |packets[k]| <= p && o + |packets[k]| <= |s|
    ensures packets[k] == s[o..o + |packets[k]|] && (o == j ==> |packets[k]| == Decide(s, j).size)
    decreases p - i
  {
    hide IsPacket;
    match DecideWith(s, given, i)
    case Reject => k, o := NoneMissed(s, given, i + 1, p, packets, j);
    case Accept(n) =>
      ReachesForward(s, given, i + n, p, packets[1..]);
      if j < i + n {
        k, o := 0, i;
      } else {
        k, o := NoneMissed(s, given, i + n, p, packets[1..], j);
        k := k + 1;
      }
  }

  lemma ReachesForward(s: seq<byte>, given: set<nat>, i: nat, p: nat, packets: seq<seq<byte>>)
    requires Reaches(s, given, i, p, packets)
    ensures i <= p
  {
  }

  // ---- Streams of whole packets ----

  function Concat(packets: seq<seq<byte>>): seq<byte> {
    if packets == [] then [] else packets[0] + Concat(packets[1..])
  }

  lemma DecidePacket(before: seq<byte>, p: seq<byte>, after: seq<byte>)
    requires IsPacket(p)
    ensures Decide(before + p + after, |before|) == Accept(|p|)
  {
    var s, i := before + p + after, |before|;
    assert s[i..i + |p|] == p;
    assert s[i] == p[0] && s[i + 1] == p[1] && s[i + 3] == p[3];
  }

  predicate AllPackets(packets: seq<seq<byte>>) {
    packets == [] || (IsPacket(packets[0]) && AllPackets(packets[1..]))
  }

  lemma ConcatFirst(before: seq<byte>, packets: seq<seq<byte>>)
    requires packets != []
    ensures before + Concat(packets) == before + packets[0] + Concat(packets[1..])
    ensures (before + Concat(packets))[|before|..|before| + |packets[0]|] == packets[0]
  {
  }

  lemma GreedyTake(s: seq<byte>, given: set<nat>, i: nat, n: nat)
    requires DecideWith(s, given, i) == Accept(n)
    ensures Greedy(s, given, i) == [s[i..i + n]] + Greedy(s, given, i + n)
  {
  }

  lemma GreedyAtEnd(s: seq<byte>)
    ensures Greedy(s, {}, |s|) == []
  {
  }

  lemma {:induction false} GreedyTakesPackets(before: seq<byte>, packets: seq<seq<byte>>)
    requires AllPackets(packets)
    ensures Greedy(before + Concat(packets), {}, |before|) == packets
    decreases |packets|
  {
    hide IsPacket, Greedy, Decide;
    var s, i := before + Concat(packets), |before|;
    if packets == [] {
      assert s == before;
      GreedyAtEnd(before);
    } else {
      ConcatFirst(before, packets);
      DecidePacket(before, packets[0], Concat(packets[1..]));
      GreedyTakesPackets(before + packets[0], packets[1..]);
      GreedyTake(s, {}, i, |packets[0]|);
      assert [packets[0]] + packets[1..] == packets;
    }
  }

  /** Bytes with no start byte, then whole packets: the reader takes exactly the packets. */
  lemma {:induction false} GreedyAfterNoise(before: seq<byte>, noise: seq<byte>, packets: seq<seq<byte>>)
    requires forall k :: 0 <= k < |noise| ==> noise[k] != SYNC_BYTE1
    requires AllPackets(packets)
    ensures Greedy(before + noise + Concat(packets), {}, |before|) == packets
    decreases |noise|
  {
    hide IsPacket;
    var s := before + noise + Concat(packets);
    if noise == [] {
      assert s == before + Concat(packets);
      GreedyTakesPackets(before, packets);
    } else {
      assert s == before + [noise[0]] + noise[1..] + Concat(packets);
      assert s[|before|] == noise[0];
      GreedyAfterNoise(before + [noise[0]], noise[1..], packets);
    }
  }
}
