/**
 The full-duplex framed exchange: two peers each send one length-prefixed frame per round
 while they receive the other's, over two byte pipes of bounded capacity.
 */
module Exchange {

  type Byte = x: int | 0 <= x < 256

  // --------------------------------------------------------------------- the length header

  function Pow256(k: nat): nat { if k == 0 then 1 else 256 * Pow256(k - 1) }

  /** `n` in `k` bytes, least significant first. */
  function LittleEndian(n: nat, k: nat): (h: seq<Byte>)
    ensures |h| == k
  {
    if k == 0 then [] else [n % 256] + LittleEndian(n / 256, k - 1)
  }

  function FromLittleEndian(h: seq<Byte>): nat {
    if h == [] then 0 else h[0] + 256 * FromLittleEndian(h[1..])
  }

  lemma {:induction false} HeaderRoundTrip(n: nat, k: nat)
    requires n < Pow256(k)
    ensures FromLittleEndian(LittleEndian(n, k)) == n
  {
    if k > 0 {
      HeaderRoundTrip(n / 256, k - 1);
      assert LittleEndian(n, k)[1..] == LittleEndian(n / 256, k - 1);
    }
  }

  const HEADER: nat := 8

  /** A length the header can carry. */
  predicate Sendable(payload: seq<Byte>) { |payload| < Pow256(HEADER) }

  /** The header carries exactly the 64-bit lengths. */
  lemma SendableExactly(payload: seq<Byte>)
    ensures Sendable(payload) <==> |payload| < 0x1_0000_0000_0000_0000
  {
    assert Pow256(8) == 256 * (256 * (256 * (256 * (256 * (256 * (256 * (256 * Pow256(0))))))));
  }

  /** A frame: the payload behind its length. */
  function Frame(payload: seq<Byte>): (f: seq<Byte>)
    ensures |f| == HEADER + |payload|
  {
    LittleEndian(|payload|, HEADER) + payload
  }

  /** The header loop of the sender. */
  method EncodeHeader(len: nat, h: array<Byte>)
    requires h.Length == HEADER
    modifies h
    ensures h[..] == LittleEndian(len, HEADER)
  {
    var rest, i := len, 0;
    while i < HEADER
      invariant 0 <= i <= HEADER
      invariant LittleEndian(len, HEADER) == h[..i] + LittleEndian(rest, HEADER - i)
    {
      h[i] := rest % 256;
      rest := rest / 256;
      i := i + 1;
    }
    assert h[..] == h[..HEADER];
  }

  /** The header loop of the receiver: byte `i` is shifted into place `i`. */
  method DecodeHeader(h: array<Byte>) returns (v: nat)
    ensures v == FromLittleEndian(h[..])
  {
    v := 0;
    var i := 0;
    assert h[0..] == h[..];
    while i < h.Length
      invariant 0 <= i <= h.Length
      invariant FromLittleEndian(h[..]) == v + Pow256(i) * FromLittleEndian(h[i..])
    {
      v := v + h[i] * Pow256(i);
      ShiftOne(h[i..], Pow256(i));
      assert h[i..][1..] == h[i + 1..];
      i := i + 1;
    }
    assert h[i..] == [];
  }

  lemma ShiftOne(h: seq<Byte>, weight: nat)
    requires h != []
    ensures weight * FromLittleEndian(h) == h[0] * weight + (256 * weight) * FromLittleEndian(h[1..])
  {
    Distribute(weight, h[0], FromLittleEndian(h[1..]));
    var rest := FromLittleEndian(h[1..]);
    assert FromLittleEndian(h) == h[0] + 256 * rest;
    hide FromLittleEndian;
  }

  lemma Distribute(w: int, a: int, b: int)
    ensures w * (a + 256 * b) == a * w + (256 * w) * b
  {
  }

  // ------------------------------------------------------------------------ one peer

  /** A peer in the middle of round `round`: `sent` bytes out, the bytes `got` in. */
  datatype Peer = Peer(
    plan: seq<seq<Byte>>,          // what it sends, round by round
    maxIn: nat,
    round: nat,
    sent: nat,
    got: seq<Byte>,
    received: seq<seq<Byte>>,
    failed: bool)                  // EMSGSIZE

  /** How many bytes of the current frame the peer still asks its socket for. */
  function Wanted(p: Peer): int {
    if p.failed then 0
    else if |p.got| < HEADER then HEADER - |p.got|
    else HEADER + FromLittleEndian(p.got[..HEADER]) - |p.got|
  }

  /** How many bytes of its frame it still has to send. */
  function Unsent(p: Peer): int {
    if p.failed || p.round >= |p.plan| then 0 else HEADER + |p.plan[p.round]| - p.sent
  }

  function AfterSend(p: Peer, k: nat): Peer { p.(sent := p.sent + k) }

  function AfterRecv(p: Peer, bytes: seq<Byte>): Peer {
    var got := p.got + bytes;
    p.(got := got, failed := p.failed || (|p.got| < HEADER && |got| == HEADER && FromLittleEndian(got) > p.maxIn))
  }

  predicate RoundComplete(p: Peer) {
    && !p.failed && p.round < |p.plan| && p.sent == HEADER + |p.plan[p.round]|
    && |p.got| >= HEADER && Wanted(p) == 0
  }

  function NextRound(p: Peer): Peer
    requires RoundComplete(p)
  {
    p.(round := p.round + 1, sent := 0, got := [], received := p.received + [p.got[HEADER..]])
  }

  // ----------------------------------------------------------------------- the system

  datatype System = System(a: Peer, b: Peer, ab: seq<Byte>, ba: seq<Byte>, capAB: nat, capBA: nat)

  /** The same system seen from the other side. */
  function Mirror(s: System): System { System(s.b, s.a, s.ba, s.ab, s.capBA, s.capAB) }

  datatype Step = Send(k: nat) | Recv(k: nat) | Finish | Other(step: Step)

  /** A step of peer `a`, or `Other` of a step of peer `b`. */
  predicate Enabled(s: System, step: Step)
    decreases step
  {
    match step
    case Send(k) => 0 < k && k <= Unsent(s.a) && |s.ab| + k <= s.capAB
    case Recv(k) => s.a.round < |s.a.plan| && 0 < k && k <= |s.ba| && k <= Wanted(s.a)
    case Finish => RoundComplete(s.a)
    case Other(step') => !step'.Other? && Enabled(Mirror(s), step')
  }

  function Apply(s: System, step: Step): System
    requires Enabled(s, step)
    decreases step
  {
    match step
    case Send(k) =>
      s.(a := AfterSend(s.a, k), ab := s.ab + Frame(s.a.plan[s.a.round])[s.a.sent..s.a.sent + k])
    case Recv(k) => s.(a := AfterRecv(s.a, s.ba[..k]), ba := s.ba[k..])
    case Finish => s.(a := NextRound(s.a))
    case Other(step') => Mirror(Apply(Mirror(s), step'))
  }

  // ---------------------------------------------------------------------- the invariant

  /** The bytes of its current frame that `x` has handed to the pipe. */
  function Current(x: Peer): seq<Byte>
    requires x.round < |x.plan| ==> x.sent <= HEADER + |x.plan[x.round]|
  {
    if x.round < |x.plan| then Frame(x.plan[x.round])[..x.sent] else []
  }

  /** Everything `x` has handed to the pipe since it began round `r`, its own or the one before. */
  function Outstanding(x: Peer, r: nat): seq<Byte>
    requires r <= x.round <= |x.plan|
    requires x.round < |x.plan| ==> x.sent <= HEADER + |x.plan[x.round]|
  {
    if x.round == r then Current(x) else Frame(x.plan[r]) + Current(x)
  }

  predicate SenderOk(x: Peer) {
    && x.round <= |x.plan|
    && (forall i :: 0 <= i < |x.plan| ==> Sendable(x.plan[i]))
    && (x.round < |x.plan| ==> x.sent <= HEADER + |x.plan[x.round]|)
    && (x.round == |x.plan| ==> x.sent == 0)
  }

  /** `y` reads what `x` sends: it is at most one round apart, holds exactly the frames of the rounds
   it finished, and its part of the current frame plus the pipe is what `x` sent since. */
  predicate Flow(x: Peer, y: Peer, pipe: seq<Byte>) {
    && SenderOk(x)
    && |x.plan| == |y.plan| && y.round <= |y.plan|
    && y.round - 1 <= x.round <= y.round + 1
    && y.received == x.plan[..y.round]
    && (forall i :: 0 <= i < y.round ==> |x.plan[i]| <= y.maxIn)
    && (x.round >= y.round ==> Outstanding(x, y.round) == y.got + pipe)
    && (x.round < y.round ==> x.sent == HEADER + |x.plan[x.round]| && y.got == [] && pipe == [])
    && (y.round < |x.plan| ==> |y.got| <= HEADER + |x.plan[y.round]|)
    && (y.round == |x.plan| ==> y.got == [])
    && (y.failed <==> y.round < |x.plan| && |y.got| >= HEADER && |x.plan[y.round]| > y.maxIn)
  }

  predicate Inv(s: System) {
    && Flow(s.a, s.b, s.ab) && Flow(s.b, s.a, s.ba)
    && |s.ab| <= s.capAB && |s.ba| <= s.capBA
  }

  /** What a reader holds is a prefix of the frame it is reading, so a complete header tells its length. */
  lemma GotIsPrefix(x: Peer, y: Peer, pipe: seq<Byte>)
    requires Flow(x, y, pipe) && y.round < |x.plan|
    ensures y.got <= Frame(x.plan[y.round])
    ensures |y.got| >= HEADER ==> FromLittleEndian(y.got[..HEADER]) == |x.plan[y.round]|
    ensures !y.failed ==> 0 <= Wanted(y) <= HEADER + |x.plan[y.round]| - |y.got|
    ensures !y.failed && Wanted(y) == 0 ==> y.got == Frame(x.plan[y.round])
  {
    var frame := Frame(x.plan[y.round]);
    if x.round >= y.round {
      var all := Outstanding(x, y.round);
      assert all[..|y.got|] == y.got;
      assert |y.got| <= |frame|;
      assert y.got == frame[..|y.got|];
    }
    if |y.got| >= HEADER {
      assert y.got[..HEADER] == LittleEndian(|x.plan[y.round]|, HEADER);
      HeaderRoundTrip(|x.plan[y.round]|, HEADER);
    }
  }

  lemma SendFlow(x: Peer, y: Peer, pipe: seq<Byte>, k: nat)
    requires Flow(x, y, pipe) && 0 < k <= Unsent(x)
    ensures Flow(AfterSend(x, k), y, pipe + Frame(x.plan[x.round])[x.sent..x.sent + k])
  {
    var x' := AfterSend(x, k);
    var chunk := Frame(x.plan[x.round])[x.sent..x.sent + k];
    assert Current(x') == Current(x) + chunk;
    if x.round >= y.round {
      assert Outstanding(x', y.round) == Outstanding(x, y.round) + chunk;
      assert y.got + (pipe + chunk) == (y.got + pipe) + chunk;
    }
  }

  lemma RecvFlow(x: Peer, y: Peer, pipe: seq<Byte>, k: nat)
    requires Flow(x, y, pipe) && y.round < |y.plan| && 0 < k <= |pipe| && k <= Wanted(y)
    ensures Flow(x, AfterRecv(y, pipe[..k]), pipe[k..])
  {
    var y' := AfterRecv(y, pipe[..k]);
    GotIsPrefix(x, y, pipe);
    assert y.got + pipe == y'.got + pipe[k..];
    assert Flow(x, y', pipe[k..]) by {
      var frame := Frame(x.plan[y.round]);
      var all := Outstanding(x, y.round);
      assert all[..|y'.got|] == y'.got;
      assert y'.got == frame[..|y'.got|];
      if |y'.got| == HEADER {
        assert y'.got == LittleEndian(|x.plan[y.round]|, HEADER);
        HeaderRoundTrip(|x.plan[y.round]|, HEADER);
      }
    }
  }

  /** The reader's side of a completed round. */
  lemma FinishReading(x: Peer, y: Peer, pipe: seq<Byte>)
    requires Flow(x, y, pipe) && RoundComplete(y)
    ensures x.round >= y.round
    ensures Flow(x, NextRound(y), pipe)
  {
    FinishedFrame(x, y, pipe);
    hide Frame, Wanted, Current;
    assert x.plan[..y.round + 1] == x.plan[..y.round] + [x.plan[y.round]];
  }

  /** A reader that has its frame has left in the pipe what the sender sent of the next one. */
  lemma FinishedFrame(x: Peer, y: Peer, pipe: seq<Byte>)
    requires Flow(x, y, pipe) && RoundComplete(y)
    ensures y.got[HEADER..] == x.plan[y.round] && |x.plan[y.round]| <= y.maxIn
    ensures x.round >= y.round
    ensures if x.round == y.round then pipe == [] && x.sent == HEADER + |x.plan[x.round]| else pipe == Current(x)
  {
    GotIsPrefix(x, y, pipe);
    var frame := Frame(x.plan[y.round]);
    if x.round == y.round {
      assert |Current(x)| == x.sent == |y.got| + |pipe|;
    } else {
      assert (frame + Current(x))[|frame|..] == Current(x);
      assert (y.got + pipe)[|frame|..] == pipe;
    }
  }

  /** The sender's side: the reader has at least reached the round just completed. */
  lemma FinishSending(x: Peer, y: Peer, pipe: seq<Byte>)
    requires Flow(x, y, pipe) && RoundComplete(x) && y.round >= x.round
    ensures Flow(NextRound(x), y, pipe)
  {
    var x' := NextRound(x);
    assert Current(x') == [];
    if y.round == x.round {
      assert Outstanding(x', y.round) == Frame(x.plan[y.round]) + [];
      assert Current(x) == Frame(x.plan[y.round]);
    }
  }

  lemma OwnStepKeeps(s: System, step: Step)
    requires Inv(s) && Enabled(s, step) && !step.Other?
    ensures Inv(Apply(s, step))
  {
    match step
    case Send(k) => SendFlow(s.a, s.b, s.ab, k);
    case Recv(k) => RecvFlow(s.b, s.a, s.ba, k);
    case Finish =>
      FinishReading(s.b, s.a, s.ba);
      FinishSending(s.a, s.b, s.ab);
  }

  lemma StepKeeps(s: System, step: Step)
    requires Inv(s) && Enabled(s, step)
    ensures Inv(Apply(s, step))
  {
    if step.Other? {
      OwnStepKeeps(Mirror(s), step.step);
    } else {
      OwnStepKeeps(s, step);
    }
  }

  // ------------------------------------------------------------------- no deadlock

  predicate Done(s: System) { s.a.round == |s.a.plan| && s.b.round == |s.b.plan| }

  predicate Failed(s: System) { s.a.failed || s.b.failed }

  ghost predicate Stuck(s: System) { forall step :: !Enabled(s, step) }

  /** The peer that is behind, or level, in its round always finds a step for one of the two. */
  lemma ProgressBehind(s: System) returns (step: Step)
    requires Inv(s) && s.capAB >= 1 && s.capBA >= 1 && !Failed(s)
    requires s.a.round <= s.b.round && s.a.round < |s.a.plan|
    ensures Enabled(s, step)
  {
    GotIsPrefix(s.b, s.a, s.ba);
    if s.b.round == s.a.round { GotIsPrefix(s.a, s.b, s.ab); }
    if RoundComplete(s.a) {
      step := Finish;
    } else if Wanted(s.a) > 0 && s.ba != [] {
      step := Recv(1);
    } else if Unsent(s.a) > 0 {
      assert s.a.round == s.b.round;
      if |s.ab| < s.capAB {
        step := Send(1);
      } else {
        assert |Current(s.a)| == |s.b.got| + |s.ab|;
        step := Other(Recv(1));
      }
    } else {
      BehindIsStarved(s);
      step := Other(Send(1));
    }
  }

  /** A peer that has sent everything and waits on an empty pipe is level with a peer that has not. */
  lemma BehindIsStarved(s: System)
    requires Inv(s) && !Failed(s)
    requires s.a.round <= s.b.round && s.a.round < |s.a.plan|
    requires !RoundComplete(s.a) && Unsent(s.a) == 0 && (Wanted(s.a) == 0 || s.ba == [])
    ensures s.a.round == s.b.round && Unsent(s.b) > 0 && s.ba == []
  {
    GotIsPrefix(s.b, s.a, s.ba);
    var frame := Frame(s.b.plan[s.a.round]);
    assert |s.a.got| < |frame|;
    assert |Outstanding(s.b, s.a.round)| == |s.a.got| + |s.ba|;
  }

  /** With room for a single byte each way, the exchange never deadlocks: while a frame is missing
   and neither side has refused one, some step is enabled. */
  lemma NoDeadlock(s: System) returns (step: Step)
    requires Inv(s) && s.capAB >= 1 && s.capBA >= 1
    requires !Done(s) && !Failed(s)
    ensures Enabled(s, step)
  {
    if s.a.round <= s.b.round {
      step := ProgressBehind(s);
    } else {
      var step' := ProgressBehind(Mirror(s));
      step := if step'.Other? then step'.step else Other(step');
    }
  }

  // ---------------------------------------------------------------------- termination

  /** The bytes of the frames from round `r` on. */
  function FrameBytes(plan: seq<seq<Byte>>, r: nat): nat
    requires r <= |plan|
    decreases |plan| - r
  {
    if r == |plan| then 0 else HEADER + |plan[r]| + FrameBytes(plan, r + 1)
  }

  /** The bytes still to be sent and read by both sides, and the rounds still to be closed. */
  function Remaining(s: System): int
    requires Inv(s)
  {
    FrameBytes(s.a.plan, s.a.round) - s.a.sent + FrameBytes(s.b.plan, s.b.round) - s.b.sent
    + FrameBytes(s.b.plan, s.a.round) - |s.a.got| + FrameBytes(s.a.plan, s.b.round) - |s.b.got|
    + |s.a.plan| - s.a.round + |s.b.plan| - s.b.round
  }

  lemma RemainingIsNatural(s: System)
    requires Inv(s)
    ensures Remaining(s) >= 0
  {
  }

  /** The parameters of a system no step changes. */
  predicate SameParties(s: System, s': System) {
    && s.a.plan == s'.a.plan && s.b.plan == s'.b.plan
    && s.a.maxIn == s'.a.maxIn && s.b.maxIn == s'.b.maxIn
    && s.capAB == s'.capAB && s.capBA == s'.capBA
  }

  lemma OwnStepConsumes(s: System, step: Step)
    requires Inv(s) && Enabled(s, step) && !step.Other?
    ensures Inv(Apply(s, step)) && Remaining(Apply(s, step)) < Remaining(s)
  {
    OwnStepKeeps(s, step);
    if step.Finish? {
      GotIsPrefix(s.b, s.a, s.ba);
    }
  }

  lemma StepConsumes(s: System, step: Step)
    requires Inv(s) && Enabled(s, step)
    ensures Inv(Apply(s, step)) && SameParties(s, Apply(s, step))
    ensures Remaining(Apply(s, step)) < Remaining(s)
  {
    if step.Other? {
      OwnStepConsumes(Mirror(s), step.step);
    } else {
      OwnStepConsumes(s, step);
    }
  }

  // ----------------------------------------------------------------------------- runs

  predicate Run(s: System, steps: seq<Step>)
    decreases |steps|
  {
    steps == [] || (Enabled(s, steps[0]) && Run(Apply(s, steps[0]), steps[1..]))
  }

  function End(s: System, steps: seq<Step>): System
    requires Run(s, steps)
    decreases |steps|
  {
    if steps == [] then s else End(Apply(s, steps[0]), steps[1..])
  }

  /** The state in which both sides make their first call: nothing sent, nothing read. */
  predicate Initial(s: System) {
    && s.a == Peer(s.a.plan, s.a.maxIn, 0, 0, [], [], false)
    && s.b == Peer(s.b.plan, s.b.maxIn, 0, 0, [], [], false)
    && s.ab == [] && s.ba == []
    && |s.a.plan| == |s.b.plan|
    && (forall i :: 0 <= i < |s.a.plan| ==> Sendable(s.a.plan[i]))
    && (forall i :: 0 <= i < |s.b.plan| ==> Sendable(s.b.plan[i]))
  }

  /** Every payload is within the limit of the peer that receives it. */
  predicate WithinLimits(s: System) {
    && (forall i :: 0 <= i < |s.a.plan| ==> |s.a.plan[i]| <= s.b.maxIn)
    && (forall i :: 0 <= i < |s.b.plan| ==> |s.b.plan[i]| <= s.a.maxIn)
  }

  lemma {:induction false} RunKeeps(s: System, steps: seq<Step>)
    requires Inv(s) && Run(s, steps)
    ensures Inv(End(s, steps)) && SameParties(s, End(s, steps))
    ensures Remaining(End(s, steps)) + |steps| <= Remaining(s)
    decreases |steps|
  {
    hide Inv, Enabled, Apply, Remaining;
    if steps != [] {
      StepConsumes(s, steps[0]);
      RunKeeps(Apply(s, steps[0]), steps[1..]);
    }
  }

  /** A state that offers no step is the end of a completed or of a refused exchange, and it is
   refused exactly when some payload is over its receiver's limit. */
  lemma StuckStates(s: System)
    requires Inv(s) && s.capAB >= 1 && s.capBA >= 1 && Stuck(s)
    ensures Done(s) != Failed(s)
    ensures Failed(s) <==> !WithinLimits(s)
  {
    if !Done(s) && !Failed(s) {
      var step := NoDeadlock(s);
      assert false;
    }
  }

  /** Each side of `s` holds exactly the payloads the other side of `start` set out to send. */
  predicate Delivered(start: System, s: System) {
    s.a.received == start.b.plan && s.b.received == start.a.plan && s.ab == [] && s.ba == []
  }

  /** Both streams stop on a frame boundary with each side holding exactly the other's payloads. */
  lemma DoneMeansDelivered(s: System)
    requires Inv(s) && Done(s)
    ensures Delivered(s, s)
  {
  }

  lemma NeverRefuses(s: System)
    requires Inv(s) && WithinLimits(s)
    ensures !Failed(s)
  {
  }

  /** The two sides are never more than a round apart, and hold only whole payloads of the other. */
  lemma InStep(s: System)
    requires Inv(s)
    ensures s.a.round - 1 <= s.b.round <= s.a.round + 1
    ensures s.a.received <= s.b.plan && |s.a.received| == s.a.round
    ensures s.b.received <= s.a.plan && |s.b.received| == s.b.round
  {
  }

  lemma InitialKeeps(s: System)
    requires Initial(s)
    ensures Inv(s)
    ensures Remaining(s) == 2 * FrameBytes(s.a.plan, 0) + 2 * FrameBytes(s.b.plan, 0) + 2 * |s.a.plan|
  {
  }

  /** The exchange from its start: every run is bounded, stays in step at every point, and when it can
   go no further it has delivered everything, or a payload was over its receiver's limit. */
  lemma ExchangeCompletes(start: System, steps: seq<Step>)
    requires Initial(start) && start.capAB >= 1 && start.capBA >= 1
    requires Run(start, steps)
    ensures |steps| <= 2 * FrameBytes(start.a.plan, 0) + 2 * FrameBytes(start.b.plan, 0) + 2 * |start.a.plan|
    ensures End(start, steps).a.received <= start.b.plan && End(start, steps).b.received <= start.a.plan
    ensures Stuck(End(start, steps)) && WithinLimits(start) ==> Delivered(start, End(start, steps))
    ensures Stuck(End(start, steps)) ==> (Failed(End(start, steps)) <==> !WithinLimits(start))
  {
    hide Run, End, Stuck, Inv, Remaining, Failed, Initial;
    InitialKeeps(start);
    RunKeeps(start, steps);
    var s := End(start, steps);
    RemainingIsNatural(s);
    InStep(s);
    if Stuck(s) {
      StuckStates(s);
      if Done(s) { DoneMeansDelivered(s); }
    }
  }

  /** Every exchange within the limits can be carried to its end. */
  lemma {:induction false} CompletionExists(s: System) returns (steps: seq<Step>)
    requires Inv(s) && s.capAB >= 1 && s.capBA >= 1 && WithinLimits(s)
    ensures Run(s, steps) && Done(End(s, steps))
    decreases Remaining(s)
  {
    hide Flow, Enabled, Apply, Remaining;
    RemainingIsNatural(s);
    if Done(s) {
      steps := [];
    } else {
      NeverRefuses(s);
      var step := NoDeadlock(s);
      StepConsumes(s, step);
      var rest := CompletionExists(Apply(s, step));
      steps := [step] + rest;
      assert steps[1..] == rest;
    }
  }

  // ------------------------------------------------------------------- one call, in place

  datatype Status = InProgress | TooLong | Finished

  /** The locals of one call: the two headers, the receive buffer and the two byte counters. */
  class Call {
    const payload: seq<Byte>
    const maxIn: nat
    const shdr: array<Byte>
    const rhdr: array<Byte>
    var sent: nat
    var got: nat
    var rlen: int                  // -1 until the header is complete
    var rbuf: array<Byte>
    var refused: bool

    ghost predicate Valid()
      reads this, shdr, rhdr, rbuf
    {
      && shdr != rhdr && rhdr != rbuf && shdr != rbuf
      && shdr.Length == HEADER && rhdr.Length == HEADER
      && shdr[..] == LittleEndian(|payload|, HEADER)
      && sent <= HEADER + |payload|
      && (rlen < 0 <==> refused || got < HEADER)
      && (refused ==> got == HEADER)
      && (rlen < 0 || (rlen == FromLittleEndian(rhdr[..]) && rlen <= maxIn && got <= HEADER + rlen && rlen <= rbuf.Length))
    }

    /** The received bytes, across the header and the payload buffer. */
    ghost function Received(): seq<Byte>
      requires Valid()
      reads this, shdr, rhdr, rbuf
    {
      if got <= HEADER then rhdr[..got] else rhdr[..] + rbuf[..got - HEADER]
    }

    ghost function View(): Peer
      requires Valid()
      reads this, shdr, rhdr, rbuf
    {
      Peer([payload], maxIn, 0, sent, Received(), [], refused)
    }

    constructor (payload: seq<Byte>, maxIn: nat)
      ensures Valid() && fresh(shdr) && fresh(rhdr) && fresh(rbuf)
      ensures View() == Peer([payload], maxIn, 0, 0, [], [], false)
    {
      this.payload, this.maxIn := payload, maxIn;
      shdr, rhdr, rbuf := new Byte[HEADER], new Byte[HEADER], new Byte[0];
      sent, got, rlen, refused := 0, 0, -1, false;
      new;
      EncodeHeader(|payload|, shdr);
    }

    /** The bytes offered to the socket: the rest of the header, then the rest of the payload. */
    method Offer() returns (bytes: seq<Byte>)
      requires Valid()
      ensures bytes == Frame(payload)[sent..]
    {
      bytes := [];
      if sent < HEADER {
        bytes := bytes + shdr[sent..];
      }
      if |payload| > 0 {
        var po := if sent < HEADER then 0 else sent - HEADER;
        bytes := bytes + payload[po..];
      }
    }

    /** The socket took the first `k` of the offered bytes. */
    method Sent(k: nat)
      requires Valid() && k <= HEADER + |payload| - sent
      modifies this`sent
      ensures Valid() && View() == AfterSend(old(View()), k)
    {
      sent := sent + k;
    }

    /** How much the call asks the socket for. */
    method Ask() returns (n: nat)
      requires Valid() && !refused
      ensures n == Wanted(View()) == if got < HEADER then HEADER - got else HEADER + rlen - got
    {
      if got < HEADER {
        n := HEADER - got;
      } else {
        n := rlen - (got - HEADER);
        assert View().got[..HEADER] == rhdr[..];
      }
    }

    /** Header bytes arrived: the last of them fixes the payload's length, or refuses it. */
    method HeaderArrived(bytes: seq<Byte>)
      requires Valid() && got < HEADER && 0 < |bytes| <= HEADER - got
      modifies this, rhdr
      ensures Valid() && View() == AfterRecv(old(View()), bytes)
      ensures rbuf == old(rbuf) || fresh(rbuf)
    {
      ghost var before := Received();
      Store(rhdr, got, bytes);
      got := got + |bytes|;
      assert rhdr[..got] == before + bytes;
      if got == HEADER {
        assert rhdr[..] == rhdr[..got];
        var v := DecodeHeader(rhdr);
        if v > maxIn {
          refused := true;
        } else {
          rlen := v;
          rbuf := new Byte[if v > 0 then v else 1];
        }
      }
    }

    /** Payload bytes arrived. */
    method PayloadArrived(bytes: seq<Byte>)
      requires Valid() && got >= HEADER && !refused && 0 < |bytes| <= HEADER + rlen - got
      modifies this`got, rbuf
      ensures Valid() && View() == AfterRecv(old(View()), bytes)
    {
      hide LittleEndian, FromLittleEndian;
      ghost var before := Received();
      ghost var head, tail := rhdr[..], rbuf[..got - HEADER];
      assert before == head + tail;
      Store(rbuf, got - HEADER, bytes);
      got := got + |bytes|;
      assert rbuf[..got - HEADER] == tail + bytes;
      assert head + (tail + bytes) == (head + tail) + bytes;
    }

    /** The socket delivered `bytes`, no more than was asked for. */
    method Arrived(bytes: seq<Byte>) returns (status: Status)
      requires Valid() && !refused && 0 < |bytes| <= Wanted(View())
      modifies this, rhdr, rbuf
      ensures Valid() && View() == AfterRecv(old(View()), bytes)
      ensures rbuf == old(rbuf) || fresh(rbuf)
      ensures status.TooLong? <==> View().failed
      ensures status.Finished? <==> RoundComplete(View())
    {
      var n := Ask();
      if got < HEADER {
        HeaderArrived(bytes);
        if refused {
          return TooLong;
        }
      } else {
        PayloadArrived(bytes);
      }
      assert got >= HEADER ==> Received()[..HEADER] == rhdr[..];
      status := if sent == HEADER + |payload| && rlen >= 0 && got == HEADER + rlen then Finished else InProgress;
    }
  }

  /** The socket's copy into a receive buffer. */
  method Store(a: array<Byte>, at: nat, bytes: seq<Byte>)
    requires at + |bytes| <= a.Length
    modifies a
    ensures a[..at] == old(a[..at]) && a[at..at + |bytes|] == bytes
    ensures a[at + |bytes|..] == old(a[at + |bytes|..])
  {
    var i := 0;
    while i < |bytes|
      invariant 0 <= i <= |bytes|
      invariant a[..at] == old(a[..at]) && a[at..at + i] == bytes[..i]
      invariant a[at + |bytes|..] == old(a[at + |bytes|..])
    {
      a[at + i] := bytes[i];
      i := i + 1;
    }
  }
}
