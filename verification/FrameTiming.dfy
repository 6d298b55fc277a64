/** How mencoder.c decides which frames to drop and which to write twice. */
module FrameTiming {
  import opened Util

  /** What does not change while encoding: the duration of an output frame, how many frames may be skipped
      or duplicated at once (negative for any number), and whether frames are copied without decoding. */
  datatype Settings = Settings(frame: real, limit: int, copy: bool)

  predicate SettingsOk(s: Settings) {
    s.frame > 0.0
  }

  /** One input frame: its duration, whether the filters gave a picture, and the correction that the
      comparison with the sound asks for afterwards, 0 without sound. */
  datatype Input = Input(time: real, blit: bool, sync: real)

  datatype Clock = Clock(timer: real, pts: real, total: real, written: nat, played: real)

  // ---------------------------------------------------------------- deciding

  predicate MayDup(s: Settings, skip: int) {
    s.limit < 0 || -skip < s.limit
  }

  /** How many whole frames behind, at most. */
  function Behind(s: Settings, t: real): nat
    requires SettingsOk(s)
  {
    if t > -s.frame then 0 else (-t / s.frame).Floor
  }

  lemma NoFactor(a: real, f: real)
    requires f > 0.0
    ensures a * f == 0.0 ==> a == 0.0
  {
    if a > 0.0 {
      assert a * f > 0.0;
    } else if a < 0.0 {
      assert (-a) * f > 0.0;
    }
  }

  lemma BehindLess(s: Settings, t: real)
    requires SettingsOk(s) && t <= -s.frame
    ensures Behind(s, t + s.frame) < Behind(s, t)
  {
    var q, r := -t / s.frame, -(t + s.frame) / s.frame;
    assert q * s.frame == -t && r * s.frame == -(t + s.frame);
    NoFactor(q - r - 1.0, s.frame);
    assert q * s.frame >= 1.0 * s.frame;
  }

  /** Frames are duplicated while the timer is a frame or more behind. */
  function CatchUp(s: Settings, t: real, skip: int): (r: (real, int))
    requires SettingsOk(s)
    decreases Behind(s, t)
  {
    if t <= -s.frame && MayDup(s, skip) then
      BehindLess(s, t);
      CatchUp(s, t + s.frame, skip - 1)
    else (t, skip)
  }

  /** At most one frame is skipped when the timer is a frame or more ahead. */
  function ByTimer(s: Settings, t: real): (real, int)
    requires SettingsOk(s)
  {
    if t >= s.frame && (s.limit < 0 || 0 < s.limit) then CatchUp(s, t - s.frame, 1) else CatchUp(s, t, 0)
  }

  predicate PtsBehind(s: Settings, p: real, skip: int) {
    (p <= -s.frame && skip > 0) || p <= -2.0 * s.frame
  }

  function CatchUpPts(s: Settings, p: real, skip: int): (r: (real, int))
    requires SettingsOk(s)
    decreases Behind(s, p)
  {
    if PtsBehind(s, p, skip) then
      BehindLess(s, p);
      CatchUpPts(s, p + s.frame, skip - 1)
    else (p, skip)
  }

  /** The accumulated correction is followed when it is two frames large, or undoes what the timer wants. */
  function ByPts(s: Settings, p: real, skip: int): (real, int)
    requires SettingsOk(s)
  {
    var (q, k) := CatchUpPts(s, p, skip);
    if ((q >= s.frame && k < 0) || q >= 2.0 * s.frame) && k <= 0 then (q - s.frame, k + 1) else (q, k)
  }

  // ---------------------------------------------------------------- one frame

  /** Frames written for an input frame that asks for skip, and whether the timer pays for a missing one. */
  function Output(s: Settings, in_: Input, skip: int): (nat, bool) {
    var shown := skip <= 0 && (s.copy || in_.blit);
    ((if shown then 1 else 0) + (if skip < 0 then -skip else 0), skip <= 0 && !shown)
  }

  function Next(s: Settings, c: Clock, in_: Input): Clock
    requires SettingsOk(s)
  {
    var (t, skip) := ByTimer(s, c.timer - (in_.time - s.frame));
    var (p, k) := ByPts(s, c.pts, skip);
    var (frames, missing) := Output(s, in_, k);
    Clock(if missing then t - s.frame else t, p + in_.sync, c.total + in_.sync, c.written + frames, c.played + in_.time)
  }

  function Run(s: Settings, c: Clock, inputs: seq<Input>): Clock
    requires SettingsOk(s)
    decreases inputs
  {
    if inputs == [] then c else Run(s, Next(s, c, inputs[0]), inputs[1..])
  }

  const ZERO := Clock(0.0, 0.0, 0.0, 0, 0.0)

  // ---------------------------------------------------------------- what is conserved

  lemma {:induction false} CatchUpBalance(s: Settings, t: real, skip: int)
    requires SettingsOk(s)
    ensures var (u, k) := CatchUp(s, t, skip);
      && k <= skip && u == t + (skip - k) as real * s.frame
      && (u <= t || u <= 0.0)
      && (s.limit < 0 ==> u > -s.frame)
      && (t > -s.frame ==> u == t)
    decreases Behind(s, t)
  {
    if t <= -s.frame && MayDup(s, skip) {
      BehindLess(s, t);
      CatchUpBalance(s, t + s.frame, skip - 1);
    }
  }

  lemma {:induction false} CatchUpPtsBalance(s: Settings, p: real, skip: int)
    requires SettingsOk(s)
    ensures var (q, k) := CatchUpPts(s, p, skip);
      && k <= skip && q == p + (skip - k) as real * s.frame
      && q > -2.0 * s.frame
      && (p == 0.0 ==> q == p && k == skip)
    decreases Behind(s, p)
  {
    if PtsBehind(s, p, skip) {
      BehindLess(s, p);
      CatchUpPtsBalance(s, p + s.frame, skip - 1);
    }
  }

  /** The decision moves whole frames between the two corrections and the skip count, and never skips more
      than one frame. */
  lemma DecisionBalance(s: Settings, t: real, p: real)
    requires SettingsOk(s)
    ensures var (u, k) := ByTimer(s, t);
      var (q, m) := ByPts(s, p, k);
      u + q == t + p - m as real * s.frame && m <= 1
  {
    CatchUpBalance(s, t - s.frame, 1);
    CatchUpBalance(s, t, 0);
    CatchUpPtsBalance(s, p, ByTimer(s, t).1);
  }

  /** What is written and what is played differ by just the corrections still to be made. */
  predicate Balanced(s: Settings, c: Clock) {
    s.frame * c.written as real == c.played + c.timer + c.pts - c.total
  }

  lemma NextBalanced(s: Settings, c: Clock, in_: Input)
    requires SettingsOk(s) && Balanced(s, c)
    ensures Balanced(s, Next(s, c, in_))
  {
    var t := c.timer - (in_.time - s.frame);
    DecisionBalance(s, t, c.pts);
    var skip := ByPts(s, c.pts, ByTimer(s, t).1).1;
    var (frames, missing) := Output(s, in_, skip);
    assert frames == 1 - skip - if missing then 1 else 0;
    assert s.frame * (c.written + frames) as real == s.frame * c.written as real + s.frame * frames as real;
  }

  /** At every frame, with any settings and any corrections. */
  lemma {:induction false} RunBalanced(s: Settings, c: Clock, inputs: seq<Input>)
    requires SettingsOk(s) && Balanced(s, c)
    ensures Balanced(s, Run(s, c, inputs))
    decreases inputs
  {
    if inputs != [] {
      NextBalanced(s, c, inputs[0]);
      RunBalanced(s, Next(s, c, inputs[0]), inputs[1..]);
    }
  }

  // ---------------------------------------------------------------- how far apart they can be

  /** The timer is within one frame of the truth, or two when a picture may fail to appear. */
  predicate Close(s: Settings, c: Clock) {
    (if s.copy then -s.frame else -2.0 * s.frame) < c.timer < s.frame
  }

  lemma NextClose(s: Settings, c: Clock, in_: Input)
    requires SettingsOk(s) && s.limit < 0 && Close(s, c) && in_.time >= 0.0
    ensures Close(s, Next(s, c, in_))
  {
    var t := c.timer - (in_.time - s.frame);
    CatchUpBalance(s, t - s.frame, 1);
    CatchUpBalance(s, t, 0);
  }

  /** Without sound nothing is ever corrected. */
  predicate Silent(c: Clock) {
    c.pts == 0.0 && c.total == 0.0
  }

  lemma NextSilent(s: Settings, c: Clock, in_: Input)
    requires SettingsOk(s) && Silent(c) && in_.sync == 0.0
    ensures Silent(Next(s, c, in_))
  {
    var k := ByTimer(s, c.timer - (in_.time - s.frame)).1;
    CatchUpPtsBalance(s, c.pts, k);
  }

  /** With sound or without, whatever corrections it asks for: v_timer_corr stays this close in every run. */
  lemma {:induction false} RunClose(s: Settings, c: Clock, inputs: seq<Input>)
    requires SettingsOk(s) && s.limit < 0 && Close(s, c) && forall i <- inputs :: i.time >= 0.0
    ensures Close(s, Run(s, c, inputs))
    decreases inputs
  {
    if inputs != [] {
      NextClose(s, c, inputs[0]);
      RunClose(s, Next(s, c, inputs[0]), inputs[1..]);
    }
  }

  lemma {:induction false} RunSilent(s: Settings, c: Clock, inputs: seq<Input>)
    requires SettingsOk(s) && Silent(c) && forall i <- inputs :: i.sync == 0.0
    ensures Silent(Run(s, c, inputs))
    decreases inputs
  {
    if inputs != [] {
      NextSilent(s, c, inputs[0]);
      RunSilent(s, Next(s, c, inputs[0]), inputs[1..]);
    }
  }

  /** How far what has been written is ahead of what has been played, with the corrections for the sound. */
  function Apart(s: Settings, c: Clock): real {
    s.frame * c.written as real - (c.played + c.pts - c.total)
  }

  /** Within a frame; up to two behind when a picture may fail to appear. */
  predicate InTime(s: Settings, apart: real) {
    (if s.copy then -s.frame else -2.0 * s.frame) < apart < s.frame
  }

  lemma ZeroBalanced(s: Settings)
    ensures Balanced(s, ZERO)
  {
    assert s.frame * 0 as real == 0.0;
  }

  lemma ApartIsTimer(s: Settings, c: Clock)
    requires Balanced(s, c)
    ensures Apart(s, c) == c.timer
  {
  }

  /** Without a limit, with sound or without, whatever corrections it asks for. */
  lemma OutputFollowsSound(s: Settings, inputs: seq<Input>)
    requires SettingsOk(s) && s.limit < 0 && forall i <- inputs :: i.time >= 0.0
    ensures InTime(s, Apart(s, Run(s, ZERO, inputs)))
  {
    ZeroBalanced(s);
    RunBalanced(s, ZERO, inputs);
    ApartIsTimer(s, Run(s, ZERO, inputs));
    RunClose(s, ZERO, inputs);
  }

  /** Without sound there are no such corrections, so output time itself keeps to input time. */
  lemma OutputKeepsTime(s: Settings, inputs: seq<Input>)
    requires SettingsOk(s) && s.limit < 0 && forall i <- inputs :: i.time >= 0.0 && i.sync == 0.0
    ensures InTime(s, Ahead(s, Run(s, ZERO, inputs)))
  {
    OutputFollowsSound(s, inputs);
    RunSilent(s, ZERO, inputs);
    SilentApart(s, Run(s, ZERO, inputs));
  }

  /** How far what has been written is ahead of what has been played. */
  function Ahead(s: Settings, c: Clock): real {
    s.frame * c.written as real - c.played
  }

  lemma SilentApart(s: Settings, c: Clock)
    requires Silent(c)
    ensures Apart(s, c) == Ahead(s, c)
  {
  }

  /** With skipping and duplicating turned off, and no sound to follow, every copied frame is written once. */
  lemma {:induction false} NothingSkipped(s: Settings, c: Clock, inputs: seq<Input>)
    requires SettingsOk(s) && s.limit == 0 && s.copy && Silent(c) && forall i <- inputs :: i.sync == 0.0
    ensures Run(s, c, inputs).written == c.written + |inputs|
    decreases inputs
  {
    if inputs != [] {
      NextSilent(s, c, inputs[0]);
      CatchUpPtsBalance(s, c.pts, 0);
      NothingSkipped(s, Next(s, c, inputs[0]), inputs[1..]);
    }
  }

  // ---------------------------------------------------------------- following the sound

  /** What is measured after a frame: the positions of sound and picture in the input and in the output. */
  datatype Sound = Sound(aPts: real, vPts: real, audioDelay: real, speed: real, aMuxer: real, vMuxer: real)

  /** How far the picture is from the sound, the corrections still to be made taken as made. */
  function AvDelay(c: Clock, snd: Sound): real
    requires snd.speed > 0.0
  {
    (snd.aPts - snd.vPts - snd.audioDelay) / snd.speed - (snd.aMuxer - (snd.vMuxer - (c.timer + c.pts)))
  }

  function Clamp(x: real, max: real): real {
    if x < -max then -max else if x > max then max else x
  }

  /** The correction asked for: a tenth of the delay, within the limits. */
  function Correction(c: Clock, snd: Sound, max: real): real
    requires snd.speed > 0.0
  {
    Clamp(AvDelay(c, snd) / 10.0, max)
  }

  /** A correction comes off the delay in full, and leaves it with its sign: it is made smaller and never overshot. */
  lemma CorrectionClosesIn(c: Clock, snd: Sound, max: real)
    requires snd.speed > 0.0 && max >= 0.0
    ensures var before, x := AvDelay(c, snd), Correction(c, snd, max);
      var after := AvDelay(c.(pts := c.pts + x), snd);
      && after == before - x && -max <= x <= max
      && (before >= 0.0 ==> 0.0 <= x && 0.0 <= after <= before)
          && (before <= 0.0 ==> x <= 0.0 && before <= after <= 0.0)
  {
  }

  /** The delay is none exactly when the sound is ahead in the input, its own delay off, by as much of playing time as
      it is ahead in the output, the picture's corrections taken as made. */
  lemma InSyncIff(c: Clock, snd: Sound)
    requires snd.speed > 0.0
    ensures AvDelay(c, snd) == 0.0 <==>
      snd.aPts - snd.audioDelay - snd.vPts == snd.speed * (snd.aMuxer - snd.vMuxer + c.timer + c.pts)
  {
    var lead, out := snd.aPts - snd.audioDelay - snd.vPts, snd.aMuxer - snd.vMuxer + c.timer + c.pts;
    assert snd.speed * (lead / snd.speed) == lead;
    assert AvDelay(c, snd) == lead / snd.speed - out;
  }

  /** It grows by what the sound is ahead in the input, at the speed, and shrinks by what it is ahead in the output. */
  lemma DelayGrows(c: Clock, snd: Sound, x: real)
    requires snd.speed > 0.0
    ensures AvDelay(c, snd.(aPts := snd.aPts + snd.speed * x)) == AvDelay(c, snd) + x
    ensures AvDelay(c, snd.(aMuxer := snd.aMuxer + x)) == AvDelay(c, snd) - x
    ensures AvDelay(c, snd.(vMuxer := snd.vMuxer + x)) == AvDelay(c, snd) + x
  {
    var a, b := snd.aPts - snd.vPts - snd.audioDelay, snd.speed * x;
    assert snd.aPts + b - snd.vPts - snd.audioDelay == a + b;
    assert (a + b) / snd.speed == a / snd.speed + b / snd.speed && b / snd.speed == x;
  }

  /** A delay within ten times the limit loses a tenth; a larger one loses the limit, whatever its sign. */
  predicate Closes(before: real, after: real, max: real) {
    if before > 10.0 * max then after == before - max
    else if before < -10.0 * max then after == before + max
    else 10.0 * after == 9.0 * before
  }

  lemma CorrectionCloses(c: Clock, snd: Sound, max: real)
    requires snd.speed > 0.0 && max >= 0.0
    ensures Closes(AvDelay(c, snd), AvDelay(c.(pts := c.pts + Correction(c, snd, max)), snd), max)
  {
  }

  function CorrectedTimes(c: Clock, snd: Sound, max: real, n: nat): Clock
    requires snd.speed > 0.0
  {
    if n == 0 then c
    else
      var d := CorrectedTimes(c, snd, max, n - 1);
      d.(pts := d.pts + Correction(d, snd, max))
  }

  function NineTenths(x: real, n: nat): real {
    if n == 0 then x else 9.0 * NineTenths(x, n - 1) / 10.0
  }

  /** Of a delay that nothing else changes, n corrections within the limit leave nine tenths, n times over. */
  lemma {:induction false} CorrectionsShrink(c: Clock, snd: Sound, max: real, n: nat)
    requires snd.speed > 0.0 && max >= 0.0 && -10.0 * max <= AvDelay(c, snd) <= 10.0 * max
    ensures AvDelay(CorrectedTimes(c, snd, max, n), snd) == NineTenths(AvDelay(c, snd), n)
    ensures -10.0 * max <= NineTenths(AvDelay(c, snd), n) <= 10.0 * max
  {
    if n > 0 {
      CorrectionsShrink(c, snd, max, n - 1);
      CorrectionCloses(CorrectedTimes(c, snd, max, n - 1), snd, max);
    }
  }

  // ---------------------------------------------------------------- the decision, case by case

  /** What the timer alone decides: nothing within a frame; one frame skipped when it is a frame ahead, if skipping is
      allowed; and when it is a frame behind, so many duplicates that it is less than that, or as many as allowed. */
  lemma TimerDecides(s: Settings, t: real)
    requires SettingsOk(s)
    ensures -s.frame < t < s.frame ==> ByTimer(s, t) == (t, 0)
    ensures t >= s.frame ==> ByTimer(s, t) == if s.limit == 0 then (t, 0) else (t - s.frame, 1)
    ensures t <= -s.frame ==> var (u, k) := ByTimer(s, t);
      && k <= 0 && u == t - k as real * s.frame && u <= 0.0
      && (s.limit >= 0 ==> -k <= s.limit) && (u > -s.frame || -k == s.limit)
  {
    if t <= -s.frame { CatchUpEnds(s, t, 0); }
  }

  lemma {:induction false} CatchUpEnds(s: Settings, t: real, skip: int)
    requires SettingsOk(s) && t <= 0.0 && (s.limit >= 0 ==> -skip <= s.limit)
    ensures var (u, k) := CatchUp(s, t, skip);
      && k <= skip && u == t + (skip - k) as real * s.frame && u <= 0.0
      && (s.limit >= 0 ==> -k <= s.limit) && (u > -s.frame || (s.limit >= 0 && -k == s.limit))
    decreases Behind(s, t)
  {
    if t <= -s.frame && MayDup(s, skip) {
      BehindLess(s, t);
      CatchUpEnds(s, t + s.frame, skip - 1);
    }
  }

  /** What the corrections for the sound change in that: nothing within a frame; within two frames only what undoes what
      the timer wants; from two frames on one frame is skipped, unless one is already, or so many duplicated that it is
      less than two. */
  lemma PtsDecides(s: Settings, p: real, k: int)
    requires SettingsOk(s) && k <= 1
    ensures -s.frame < p < s.frame ==> ByPts(s, p, k) == (p, k)
    ensures s.frame <= p < 2.0 * s.frame ==> ByPts(s, p, k) == if k < 0 then (p - s.frame, k + 1) else (p, k)
    ensures p >= 2.0 * s.frame ==> ByPts(s, p, k) == if k <= 0 then (p - s.frame, k + 1) else (p, k)
    ensures -2.0 * s.frame < p <= -s.frame ==> ByPts(s, p, k) == if k > 0 then (p + s.frame, k - 1) else (p, k)
    ensures p <= -2.0 * s.frame ==> var (q, m) := ByPts(s, p, k);
      m < k && q == p + (k - m) as real * s.frame && -2.0 * s.frame < q <= -s.frame
  {
    if p <= -2.0 * s.frame {
      PtsCatchUpEnds(s, p, k);
    } else if p <= -s.frame && k > 0 {
      BehindLess(s, p);
      assert CatchUpPts(s, p + s.frame, k - 1) == (p + s.frame, k - 1);
    }
  }

  lemma {:induction false} PtsCatchUpEnds(s: Settings, p: real, k: int)
    requires SettingsOk(s) && p <= -2.0 * s.frame && k <= 1
    ensures var (q, m) := CatchUpPts(s, p, k);
      m < k && q == p + (k - m) as real * s.frame && -2.0 * s.frame < q <= -s.frame
    decreases Behind(s, p)
  {
    BehindLess(s, p);
    if p + s.frame <= -2.0 * s.frame {
      PtsCatchUpEnds(s, p + s.frame, k - 1);
    } else {
      assert CatchUpPts(s, p + s.frame, k - 1) == (p + s.frame, k - 1);
    }
  }

  /** What is written: the frame itself, if it is not skipped and there is a picture, and each duplicate; a picture that
      is missing where one is due is charged to the timer. */
  lemma OutputIs(s: Settings, in_: Input, k: int)
    ensures Output(s, in_, k) ==
      if k > 0 then (0, false)
      else if s.copy || in_.blit then (1 - k, false)
      else (-k, true)
  {
  }

  // ---------------------------------------------------------------- the program's own variables

  class FrameClock {
    const s: Settings
    var vTimerCorr: real
    var vPtsCorr: real
    var cTotal: real
    var maxPtsCorrection: real
    var skipFlag: int           // 1 = skip, negative = duplicate
    var written: nat            // chunks given to the muxer
    ghost var played: real      // the durations of the input frames so far

    constructor (s: Settings)
      requires SettingsOk(s)
      ensures this.s == s && View() == ZERO
    {
      this.s := s;
      vTimerCorr, vPtsCorr, cTotal, maxPtsCorrection, skipFlag, written, played := 0.0, 0.0, 0.0, 0.0, 0, 0, 0.0;
    }

    ghost function View(): Clock
      reads this
    {
      Clock(vTimerCorr, vPtsCorr, cTotal, written, played)
    }

    /** check frame duplicate/drop */
    method Decide()
      requires SettingsOk(s)
      modifies `vTimerCorr, `vPtsCorr, `skipFlag
      ensures var (t, k) := ByTimer(s, old(vTimerCorr));
        var (p, m) := ByPts(s, old(vPtsCorr), k);
        vTimerCorr == t && vPtsCorr == p && skipFlag == m
    {
      DecideByTimer();
      DecideByPts();
    }

    method DecideByTimer()
      requires SettingsOk(s)
      modifies `vTimerCorr, `skipFlag
      ensures (vTimerCorr, skipFlag) == ByTimer(s, old(vTimerCorr))
    {
      skipFlag := 0;
      if vTimerCorr >= s.frame && (s.limit < 0 || skipFlag < s.limit) {
        vTimerCorr := vTimerCorr - s.frame;
        skipFlag := skipFlag + 1;
      }
      while vTimerCorr <= -s.frame && (s.limit < 0 || -skipFlag < s.limit)
        invariant CatchUp(s, vTimerCorr, skipFlag) == ByTimer(s, old(vTimerCorr))
        decreases Behind(s, vTimerCorr)
      {
        BehindLess(s, vTimerCorr);
        vTimerCorr := vTimerCorr + s.frame;
        skipFlag := skipFlag - 1;
      }
    }

    /** Either vPtsCorr is more than two frames, then its advice is followed, or it cancels out vTimerCorr. */
    method DecideByPts()
      requires SettingsOk(s)
      modifies `vPtsCorr, `skipFlag
      ensures (vPtsCorr, skipFlag) == ByPts(s, old(vPtsCorr), old(skipFlag))
    {
      while (vPtsCorr <= -s.frame && skipFlag > 0) || vPtsCorr <= -2.0 * s.frame
        invariant CatchUpPts(s, vPtsCorr, skipFlag) == CatchUpPts(s, old(vPtsCorr), old(skipFlag))
        decreases Behind(s, vPtsCorr)
      {
        BehindLess(s, vPtsCorr);
        vPtsCorr := vPtsCorr + s.frame;
        skipFlag := skipFlag - 1;
      }
      if (vPtsCorr >= s.frame && skipFlag < 0) || vPtsCorr >= 2.0 * s.frame {
        if skipFlag <= 0 { // one frame at a time
          vPtsCorr := vPtsCorr - s.frame;
          skipFlag := skipFlag + 1;
        }
      }
    }

    /** Writes the frame, if it is not skipped, and then its duplicates. */
    method Emit(blit: bool)
      modifies `vTimerCorr, `skipFlag, `written
      ensures var (frames, missing) := Output(s, Input(0.0, blit, 0.0), old(skipFlag));
        && written == old(written) + frames
        && vTimerCorr == if missing then old(vTimerCorr) - s.frame else old(vTimerCorr)
      ensures old(skipFlag) <= 1 ==> skipFlag == 0
    {
      if s.copy {
        if skipFlag <= 0 { written := written + 1; }
      } else if !blit {
        // no picture came where one was due
        if skipFlag <= 0 { vTimerCorr := vTimerCorr - s.frame; }
      } else if skipFlag <= 0 {
        written := written + 1;
      }
      if skipFlag < 0 {
        ghost var t := vTimerCorr;
        while skipFlag < 0
          invariant vTimerCorr == t && old(skipFlag) <= skipFlag <= 0
              && written - skipFlag == old(written) - old(skipFlag) + if s.copy || blit then 1 else 0
        {
          written := written + 1;
          skipFlag := skipFlag + 1;
        }
      } else if skipFlag > 0 {
        skipFlag := skipFlag - 1;
      }
    }

    /** One turn of the main loop for one input frame, up to the comparison with the sound. */
    method Frame(in_: Input)
      requires SettingsOk(s) && in_.sync == 0.0
      modifies `vTimerCorr, `vPtsCorr, `skipFlag, `written, `played
      ensures View() == Next(s, old(View()), in_) && skipFlag == 0
    {
      vTimerCorr := vTimerCorr - (in_.time - s.frame);
      played := played + in_.time;
      DecisionBalance(s, vTimerCorr, vPtsCorr);
      Decide();
      Emit(in_.blit);
    }

    /** The comparison with the sound. */
    method Follow(snd: Sound, defaultMax: real, frametime: real)
      requires snd.speed > 0.0
      modifies `vPtsCorr, `cTotal, `maxPtsCorrection
      ensures var x := Correction(old(View()), snd, old(maxPtsCorrection));
        View() == old(View()).(pts := old(vPtsCorr) + x, total := old(cTotal) + x)
      ensures old(maxPtsCorrection) >= 0.0 ==>
        Closes(AvDelay(old(View()), snd), AvDelay(View(), snd), old(maxPtsCorrection))
      ensures maxPtsCorrection == if defaultMax >= 0.0 then defaultMax * snd.speed else frametime / 10.0 * snd.speed
    {
      var avDelay := snd.aPts - snd.vPts;
      avDelay := avDelay - snd.audioDelay;
      avDelay := avDelay / snd.speed;
      avDelay := avDelay - (snd.aMuxer - (snd.vMuxer - (vTimerCorr + vPtsCorr)));
      // a tenth of the delay, within the limit
      var x := avDelay / 10.0;
      if x < -maxPtsCorrection { x := -maxPtsCorrection; } else if x > maxPtsCorrection { x := maxPtsCorrection; }
      maxPtsCorrection := if defaultMax >= 0.0 then defaultMax * snd.speed else frametime / 10.0 * snd.speed;
      cTotal := cTotal + x;
      vPtsCorr := vPtsCorr + x;
    }

    /** The whole turn, with sound: it is the frame function with the correction asked for. */
    method FrameWithSound(time: real, blit: bool, snd: Sound, defaultMax: real, frametime: real)
      returns (ghost in_: Input)
      requires SettingsOk(s) && snd.speed > 0.0
      modifies this
      ensures View() == Next(s, old(View()), in_) && skipFlag == 0 && in_.time == time && in_.blit == blit
      ensures in_.sync == Correction(Next(s, old(View()), in_.(sync := 0.0)), snd, old(maxPtsCorrection))
    {
      in_ := Input(time, blit, 0.0);
      Frame(Input(time, blit, 0.0));
      in_ := in_.(sync := Correction(View(), snd, maxPtsCorrection));
      Follow(snd, defaultMax, frametime);
    }
  }
}
