/** The seven-byte frames of motorController.cpp and how the receiver finds them in a stream. */
module MotorFrames {
  import opened Bytes

  const START: byte := 83
  const END: byte := 69

  type Frame = seq<byte>

  /** Seven bytes from 'S' to 'E'. */
  predicate IsFrame(w: seq<byte>) { |w| == 7 && w[0] == START && w[6] == END }

  /** The leftmost frames of a stream that do not overlap. */
  function Frames(s: seq<byte>): (frames: seq<Frame>)
    ensures forall k :: 0 <= k < |frames| ==> IsFrame(frames[k])
  {
    if |s| < 7 then [] else if IsFrame(s[..7]) then [s[..7]] + Frames(s[7..]) else Frames(s[1..])
  }

  /** The bytes behind the last frame that may still begin one. */
  function Rest(s: seq<byte>): (r: seq<byte>)
    ensures |r| < 7
  {
    if |s| < 7 then s else if IsFrame(s[..7]) then Rest(s[7..]) else Rest(s[1..])
  }

  /** Reading may stop anywhere and go on from the rest: how a stream is cut into reads does not matter. */
  lemma {:induction false} ReadOn(s: seq<byte>, t: seq<byte>)
    ensures Frames(s + t) == Frames(s) + Frames(Rest(s) + t) && Rest(s + t) == Rest(Rest(s) + t)
    decreases |s|
  {
    if |s| >= 7 {
      assert (s + t)[..7] == s[..7] && (s + t)[7..] == s[7..] + t && (s + t)[1..] == s[1..] + t;
      if IsFrame(s[..7]) {
        ReadOn(s[7..], t);
      } else {
        ReadOn(s[1..], t);
      }
    }
  }

  /** One more byte behind a rest completes a frame, drops the first byte, or just waits. */
  lemma OneMoreByte(rest: seq<byte>, b: byte)
    requires |rest| < 7
    ensures var w := rest + [b];
            Frames(w) == (if IsFrame(w) then [w] else []) &&
            Rest(w) == if |w| < 7 then w else if IsFrame(w) then [] else w[1..]
  {
    var w := rest + [b];
    if |w| == 7 {
      assert w[..7] == w && w[7..] == [];
    }
  }

  predicate FrameAt(s: seq<byte>, i: int) { 0 <= i <= |s| - 7 && s[i] == START && s[i + 6] == END }

  /** Where the frames of a stream start, from position `i` on. */
  function Starts(s: seq<byte>, i: nat): seq<nat>
    decreases |s| - i
  {
    if i > |s| - 7 then [] else if FrameAt(s, i) then [i] + Starts(s, i + 7) else Starts(s, i + 1)
  }

  /** The frames found look like frames and do not overlap. */
  lemma {:induction false} FramesApart(s: seq<byte>, i: nat, k: nat)
    requires k < |Starts(s, i)|
    ensures FrameAt(s, Starts(s, i)[k]) && Starts(s, i)[k] >= i
    ensures k > 0 ==> Starts(s, i)[k - 1] + 7 <= Starts(s, i)[k]
    decreases |s| - i
  {
    if FrameAt(s, i) {
      if k > 0 {
        FramesApart(s, i + 7, k - 1);
      }
    } else {
      FramesApart(s, i + 1, k);
    }
  }

  /** Nothing that looks like a frame is passed over: it is a frame found or overlaps one. */
  lemma {:induction false} NoneMissed(s: seq<byte>, i: nat, j: nat) returns (k: nat)
    requires i <= j && FrameAt(s, j)
    ensures k < |Starts(s, i)| && Starts(s, i)[k] <= j < Starts(s, i)[k] + 7
    decreases |s| - i
  {
    if FrameAt(s, i) {
      if j < i + 7 {
        k := 0;
      } else {
        k := NoneMissed(s, i + 7, j);
        k := k + 1;
      }
    } else {
      k := NoneMissed(s, i + 1, j);
    }
  }

  lemma FramesFrom(s: seq<byte>, i: nat)
    requires i <= |s|
    ensures i > |s| - 7 ==> Frames(s[i..]) == []
    ensures i <= |s| - 7 ==>
              Frames(s[i..]) == if FrameAt(s, i) then [s[i..i + 7]] + Frames(s[i + 7..]) else Frames(s[i + 1..])
  {
    if i <= |s| - 7 {
      var t := s[i..];
      assert t[..7] == s[i..i + 7] && t[7..] == s[i + 7..] && t[1..] == s[i + 1..];
      assert t[..7][0] == s[i] && t[..7][6] == s[i + 6];
    }
  }

  lemma {:induction false} FrameCount(s: seq<byte>, i: nat)
    requires i <= |s|
    ensures |Frames(s[i..])| == |Starts(s, i)|
    decreases |s| - i
  {
    hide Frames;
    FramesFrom(s, i);
    if i <= |s| - 7 {
      FrameCount(s, if FrameAt(s, i) then i + 7 else i + 1);
    }
  }

  /** The frames are the stretches of seven bytes at these places. */
  lemma {:induction false} FramesAreThere(s: seq<byte>, i: nat, k: nat)
    requires i <= |s| && k < |Starts(s, i)|
    ensures k < |Frames(s[i..])| && 0 <= Starts(s, i)[k] <= |s| - 7
    ensures Frames(s[i..])[k] == s[Starts(s, i)[k]..Starts(s, i)[k] + 7]
    decreases |s| - i
  {
    hide Frames;
    FrameCount(s, i);
    FramesFrom(s, i);
    if FrameAt(s, i) {
      if k > 0 {
        FramesAreThere(s, i + 7, k - 1);
      }
    } else {
      FramesAreThere(s, i + 1, k);
    }
  }

  function Concat(frames: seq<Frame>): seq<byte> {
    if frames == [] then [] else frames[0] + Concat(frames[1..])
  }

  lemma {:induction false} FramesOfFrames(frames: seq<Frame>)
    requires forall k :: 0 <= k < |frames| ==> IsFrame(frames[k])
    ensures Frames(Concat(frames)) == frames && Rest(Concat(frames)) == []
  {
    if frames != [] {
      var s := Concat(frames);
      assert IsFrame(frames[0]);
      assert s[..7] == frames[0] && s[7..] == Concat(frames[1..]);
      FramesOfFrames(frames[1..]);
    }
  }

  /** After noise without an 'S' the receiver is in step again with the first frame, and loses none. */
  lemma {:induction false} Resynchronises(noise: seq<byte>, frames: seq<Frame>)
    requires START !in noise && forall k :: 0 <= k < |frames| ==> IsFrame(frames[k])
    requires frames != []
    ensures Frames(noise + Concat(frames)) == frames && Rest(noise + Concat(frames)) == []
    decreases |noise|
  {
    var s := noise + Concat(frames);
    if noise == [] {
      assert s == Concat(frames);
      FramesOfFrames(frames);
    } else {
      assert IsFrame(frames[0]) && |s| >= 7;
      assert s[0] == noise[0] != START;
      assert s[1..] == noise[1..] + Concat(frames);
      Resynchronises(noise[1..], frames);
    }
  }

  /** One stray 'S' in front of a frame costs that frame exactly if the last data byte of the frame is an 'E'. */
  lemma StrayStart(frame: Frame)
    requires IsFrame(frame)
    ensures Frames([START] + frame) == [frame] <==> frame[5] != END
    ensures frame[5] == END ==> Frames([START] + frame) == [[START] + frame[..6]]
  {
    var s := [START] + frame;
    assert s[..7] == [START] + frame[..6] && s[7..] == [END] && s[1..] == frame && s[..7][6] == frame[5];
    assert Frames([END]) == [];
    assert frame[..7] == frame && frame[7..] == [] && Frames(frame) == [frame];
    assert s[..7][1] == frame[0] && s[..7][2] == frame[1] && s[..7][3] == frame[2] && s[..7][4] == frame[3];
    assert s[..7][5] == frame[4];
    assert Frames(s) == if IsFrame(s[..7]) then [s[..7]] + Frames(s[7..]) else Frames(s[1..]);
    if frame[5] == END {
      assert s[..7][0] == START && IsFrame(s[..7]);
      assert Frames(s) == [s[..7]] + [] == [s[..7]];
    }
  }
}
