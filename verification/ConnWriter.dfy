/**
 A connection's outbound side: three priority lanes filled by any number of producers
 and one writer that drains them. The writer's nested selects are separate steps, so
 producers run between any two of them.
 */
module ConnWriter {
  datatype Lane = Hi | Mid | Lo

  datatype MsgType = Typing | Presence | Pong | Ping | Error | SendAck | TransportAck | Other(code: nat)

  datatype Frame = Frame(id: nat, typ: MsgType)

  const EPHEMERAL_LANE: nat := 16

  function LaneOf(t: MsgType): Lane {
    match t
    case Typing => Lo
    case Presence => Lo
    case Pong => Hi
    case Ping => Hi
    case Error => Hi
    case SendAck => Hi
    case TransportAck => Hi
    case Other(_) => Mid
  }

  /** Frames that may be dropped, and frames that overtake the others. */
  predicate Ephemeral(t: MsgType) { t.Typing? || t.Presence? }

  predicate Control(t: MsgType) { t.Pong? || t.Ping? || t.Error? || t.SendAck? || t.TransportAck? }

  function OnLane(f: Frame): Lane { LaneOf(f.typ) }

  datatype Numbered = Numbered(num: nat, f: Frame)

  /** The connection's fields; `accepted` is the history of frames put on a lane. */
  datatype Conn = Conn(
    maxInflight: nat,
    hi: seq<Frame>, mid: seq<Frame>, lo: seq<Frame>,
    closed: bool,
    outSeq: nat,
    written: seq<Numbered>,
    accepted: seq<Frame>)

  function Queue(c: Conn, lane: Lane): seq<Frame> {
    match lane
    case Hi => c.hi
    case Mid => c.mid
    case Lo => c.lo
  }

  function WithQueue(c: Conn, lane: Lane, q: seq<Frame>): Conn {
    match lane
    case Hi => c.(hi := q)
    case Mid => c.(mid := q)
    case Lo => c.(lo := q)
  }

  function Depth(c: Conn, lane: Lane): nat {
    if lane == Lo then EPHEMERAL_LANE else c.maxInflight
  }

  function Sent(c: Conn, f: Frame): Conn {
    var lane := OnLane(f);
    if |Queue(c, lane)| < Depth(c, lane) then
      WithQueue(c, lane, Queue(c, lane) + [f]).(accepted := c.accepted + [f])
    else if lane == Lo then c
    else c.(closed := true)
  }

  /** writeOne: a number is consumed whether or not the write succeeds. */
  function Wrote(c: Conn, f: Frame, ok: bool): Conn {
    if ok then c.(outSeq := c.outSeq + 1, written := c.written + [Numbered(c.outSeq + 1, f)])
    else c.(outSeq := c.outSeq + 1, closed := true)
  }

  class Connection {
    var maxInflight: nat
    var outHi: seq<Frame>
    var outMid: seq<Frame>
    var outLo: seq<Frame>
    var done: bool
    var outSeq: nat
    var wire: seq<Numbered>
    ghost var accepted: seq<Frame>

    ghost function Model(): Conn
      reads this
    {
      Conn(maxInflight, outHi, outMid, outLo, done, outSeq, wire, accepted)
    }

    constructor (maxInflight: nat)
      ensures Model() == Conn(maxInflight, [], [], [], false, 0, [], [])
    {
      this.maxInflight := maxInflight;
      outHi, outMid, outLo, done, outSeq, wire, accepted := [], [], [], false, 0, [], [];
    }

    method Close()
      modifies this`done
      ensures Model() == old(Model()).(closed := true)
    {
      done := true;
    }

    /** False exactly when a lane that may not drop is full; then the connection closes. */
    method Send(f: Frame) returns (ok: bool)
      modifies this
      ensures Model() == Sent(old(Model()), f)
      ensures ok <==> OnLane(f) == Lo || |Queue(old(Model()), OnLane(f))| < Depth(old(Model()), OnLane(f))
      ensures !ok ==> done
      ensures ok <==> f in accepted[|old(accepted)|..] || Ephemeral(f.typ)
      ensures accepted == old(accepted) || accepted == old(accepted) + [f]
      ensures done == old(done) || !ok
    {
      match OnLane(f)
      case Hi =>
        if |outHi| < maxInflight { outHi := outHi + [f]; accepted := accepted + [f]; return true; }
        Close();
        return false;
      case Mid =>
        if |outMid| < maxInflight { outMid := outMid + [f]; accepted := accepted + [f]; return true; }
        Close();
        return false;
      case Lo =>
        if |outLo| < EPHEMERAL_LANE { outLo := outLo + [f]; accepted := accepted + [f]; }
        return true;
    }

    method WriteOne(f: Frame, failed: bool) returns (ok: bool)
      modifies this
      ensures Model() == Wrote(old(Model()), f, !failed)
      ensures outSeq == old(outSeq) + 1 && ok == !failed && done == (old(done) || failed)
      ensures wire == if failed then old(wire) else old(wire) + [Numbered(outSeq, f)]
    {
      outSeq := outSeq + 1;
      if failed {
        Close();
        return false;
      }
      wire := wire + [Numbered(outSeq, f)];
      ok := true;
    }
  }

  // --- producers and the writer, step by step ---

  /** Where the writer is: in its outer, middle or innermost select, writing, or gone.
      `Stopped` keeps the frame whose write failed, if that is why it stopped. */
  datatype Pc = Outer | Middle | Inner | Writing(f: Frame) | Stopped(unwritten: seq<Frame>)

  datatype State = State(c: Conn, pc: Pc)

  datatype Step =
    | Produce(f: Frame)       // any goroutine calls Send
    | CloseConn               // any goroutine closes the connection
    | Receive(lane: Lane)     // the current select receives from a lane
    | Default                 // ... or finds nothing ready and falls through
    | SeesDone                // ... or sees the connection closed
    | Finish(ok: bool)        // the write in hand completes

  predicate Listens(pc: Pc, lane: Lane) {
    match pc
    case Outer => lane == Hi
    case Middle => lane != Lo
    case Inner => true
    case _ => false
  }

  /** A default branch runs only when nothing the select listens to is ready. */
  predicate NothingReady(s: State) {
    !s.c.closed && forall lane: Lane :: Listens(s.pc, lane) ==> Queue(s.c, lane) == []
  }

  function Apply(s: State, step: Step): State {
    match step
    case Produce(f) => s.(c := Sent(s.c, f))
    case CloseConn => s.(c := s.c.(closed := true))
    case Receive(lane) =>
      if Listens(s.pc, lane) && Queue(s.c, lane) != [] then
        State(WithQueue(s.c, lane, Queue(s.c, lane)[1..]), Writing(Queue(s.c, lane)[0]))
      else s
    case Default =>
      if !NothingReady(s) then s
      else if s.pc.Outer? then s.(pc := Middle)
      else if s.pc.Middle? then s.(pc := Inner)
      else s
    case SeesDone =>
      if s.c.closed && (s.pc.Outer? || s.pc.Middle? || s.pc.Inner?) then s.(pc := Stopped([])) else s
    case Finish(ok) =>
      if !s.pc.Writing? then s
      else State(Wrote(s.c, s.pc.f, ok), if ok then Outer else Stopped([s.pc.f]))
  }

  /** A run from the moment the writer starts; `first` is the handshake's number. */
  function Run(maxInflight: nat, first: nat, steps: seq<Step>): State {
    if steps == [] then State(Conn(maxInflight, [], [], [], false, first, [], []), Outer)
    else Apply(Run(maxInflight, first, steps[..|steps| - 1]), steps[|steps| - 1])
  }

  function RunFrom(s: State, steps: seq<Step>): State {
    if steps == [] then s
    else Apply(RunFrom(s, steps[..|steps| - 1]), steps[|steps| - 1])
  }

  // --- numbering, order and conservation ---

  function On(fs: seq<Frame>, lane: Lane): seq<Frame> {
    if fs == [] then []
    else if OnLane(fs[|fs| - 1]) == lane then On(fs[..|fs| - 1], lane) + [fs[|fs| - 1]]
    else On(fs[..|fs| - 1], lane)
  }

  function Frames(ws: seq<Numbered>): (r: seq<Frame>)
    ensures |r| == |ws| && forall i :: 0 <= i < |ws| ==> r[i] == ws[i].f
  {
    seq(|ws|, i requires 0 <= i < |ws| => ws[i].f)
  }

  /** The frame taken off a lane and not on the wire. */
  function InHand(pc: Pc): seq<Frame> {
    match pc
    case Writing(f) => [f]
    case Stopped(fs) => fs
    case _ => []
  }

  /** Numbers are consecutive after the handshake's, with no gap and no repeat. */
  ghost predicate Consecutive(s: State, first: nat) {
    && (forall i :: 0 <= i < |s.c.written| ==> s.c.written[i].num == first + 1 + i)
    && (!s.pc.Stopped? ==> s.c.outSeq == first + |s.c.written|)
  }

  /** A lane's frames, in the order accepted, are: written, in hand, queued. */
  ghost predicate Ordered(accepted: seq<Frame>, written: seq<Frame>, hand: seq<Frame>, queue: seq<Frame>, lane: Lane) {
    On(accepted, lane) == On(written, lane) + On(hand, lane) + queue
  }

  ghost predicate InOrder(s: State, lane: Lane) {
    Ordered(s.c.accepted, Frames(s.c.written), InHand(s.pc), Queue(s.c, lane), lane)
  }

  ghost predicate AllOn(q: seq<Frame>, lane: Lane) {
    forall i :: 0 <= i < |q| ==> OnLane(q[i]) == lane
  }

  ghost predicate Lanes(s: State) {
    && AllOn(s.c.hi, Hi) && AllOn(s.c.mid, Mid) && AllOn(s.c.lo, Lo)
    && (s.pc.Stopped? ==> s.c.closed)
  }

  ghost predicate Inv(s: State, first: nat) {
    Consecutive(s, first) && Lanes(s) && InOrder(s, Hi) && InOrder(s, Mid) && InOrder(s, Lo)
  }

  lemma OnAppend(fs: seq<Frame>, f: Frame, lane: Lane)
    ensures On(fs + [f], lane) == On(fs, lane) + if OnLane(f) == lane then [f] else []
    ensures On([f], lane) == if OnLane(f) == lane then [f] else []
  {
    assert (fs + [f])[..|fs|] == fs;
    assert [f][..0] == [];
  }

  lemma Taken(accepted: seq<Frame>, written: seq<Frame>, queue: seq<Frame>, f: Frame, lane: Lane)
    requires Ordered(accepted, written, [], queue, lane)
    ensures OnLane(f) == lane && queue != [] && queue[0] == f ==> Ordered(accepted, written, [f], queue[1..], lane)
    ensures OnLane(f) != lane ==> Ordered(accepted, written, [f], queue, lane)
  {
    OnAppend([], f, lane);
    assert queue != [] ==> [queue[0]] + queue[1..] == queue;
  }

  lemma Finished(accepted: seq<Frame>, written: seq<Frame>, queue: seq<Frame>, f: Frame, lane: Lane)
    requires Ordered(accepted, written, [f], queue, lane)
    ensures Ordered(accepted, written + [f], [], queue, lane)
  {
    OnAppend(written, f, lane);
  }

  lemma Added(accepted: seq<Frame>, written: seq<Frame>, hand: seq<Frame>, queue: seq<Frame>, f: Frame, lane: Lane)
    requires Ordered(accepted, written, hand, queue, lane)
    ensures Ordered(accepted + [f], written, hand, if OnLane(f) == lane then queue + [f] else queue, lane)
  {
    OnAppend(accepted, f, lane);
  }

  lemma StepKeepsOrder(s: State, step: Step, l: Lane)
    requires Lanes(s) && InOrder(s, l)
    ensures InOrder(Apply(s, step), l)
  {
    hide Ordered;
    match step
    case Produce(f) => Added(s.c.accepted, Frames(s.c.written), InHand(s.pc), Queue(s.c, l), f, l);
    case Receive(lane) =>
      if Listens(s.pc, lane) && Queue(s.c, lane) != [] {
        Taken(s.c.accepted, Frames(s.c.written), Queue(s.c, l), Queue(s.c, lane)[0], l);
      }
    case Finish(ok) =>
      if s.pc.Writing? && ok {
        Finished(s.c.accepted, Frames(s.c.written), Queue(s.c, l), s.pc.f, l);
        assert Frames(Wrote(s.c, s.pc.f, true).written) == Frames(s.c.written) + [s.pc.f];
      }
    case _ =>
  }

  lemma StepKeepsLanes(s: State, step: Step, first: nat)
    requires Lanes(s) && Consecutive(s, first)
    ensures Lanes(Apply(s, step)) && Consecutive(Apply(s, step), first)
  {
    assert Lanes(Apply(s, step)) by { hide Consecutive; }
    assert Consecutive(Apply(s, step), first) by { hide Lanes, AllOn; }
  }

  lemma StepKeeps(s: State, step: Step, first: nat)
    requires Inv(s, first)
    ensures Inv(Apply(s, step), first)
  {
    hide InOrder, Lanes, Consecutive, Apply;
    StepKeepsLanes(s, step, first);
    StepKeepsOrder(s, step, Hi);
    StepKeepsOrder(s, step, Mid);
    StepKeepsOrder(s, step, Lo);
  }

  lemma {:induction false} RunKeeps(maxInflight: nat, first: nat, steps: seq<Step>)
    ensures Inv(Run(maxInflight, first, steps), first)
  {
    if steps != [] {
      RunKeeps(maxInflight, first, steps[..|steps| - 1]);
      StepKeeps(Run(maxInflight, first, steps[..|steps| - 1]), steps[|steps| - 1], first);
    }
  }

  /**
   Over every run: the numbers on the wire rise by exactly one from the handshake's,
   and on each lane the frames accepted are, in order, those written, then the one in
   hand, then those queued. So each lane is written first in, first out, and nothing
   accepted is lost while the connection is open.
   */
  lemma WriterIsOrderedAndLossless(maxInflight: nat, first: nat, steps: seq<Step>)
    ensures
      var s := Run(maxInflight, first, steps);
      && (forall i :: 0 <= i < |s.c.written| ==> s.c.written[i].num == first + 1 + i)
      && (forall lane: Lane :: On(s.c.accepted, lane) ==
            On(Frames(s.c.written), lane) + On(InHand(s.pc), lane) + Queue(s.c, lane))
      && (!s.c.closed ==> InHand(s.pc) == [] || s.pc.Writing?)
  {
    RunKeeps(maxInflight, first, steps);
    var s := Run(maxInflight, first, steps);
    forall lane: Lane
      ensures On(s.c.accepted, lane) == On(Frames(s.c.written), lane) + On(InHand(s.pc), lane) + Queue(s.c, lane)
    {
      assert lane == Hi || lane == Mid || lane == Lo;
      assert InOrder(s, lane);
    }
  }

  /** No lane holds more than its depth. */
  ghost predicate Fits(s: State, maxInflight: nat) {
    s.c.maxInflight == maxInflight && |s.c.hi| <= maxInflight && |s.c.mid| <= maxInflight && |s.c.lo| <= EPHEMERAL_LANE
  }

  lemma {:induction false} LanesFit(maxInflight: nat, first: nat, steps: seq<Step>)
    ensures Fits(Run(maxInflight, first, steps), maxInflight)
  {
    if steps != [] {
      LanesFit(maxInflight, first, steps[..|steps| - 1]);
    }
  }

  /**
   In every run no lane is ever over its depth, and a frame sent is put on its lane if
   and only if there is room. Without room a typing or presence frame is dropped and
   changes nothing; any other frame closes the connection and changes nothing else.
   */
  lemma NothingElseIsDropped(maxInflight: nat, first: nat, steps: seq<Step>, f: Frame)
    ensures
      var s, s' := Run(maxInflight, first, steps), Run(maxInflight, first, steps + [Produce(f)]);
      var depth := if Ephemeral(f.typ) then EPHEMERAL_LANE else maxInflight;
      var queued := if Ephemeral(f.typ) then s.c.lo else if Control(f.typ) then s.c.hi else s.c.mid;
      && Fits(s, maxInflight)
      && (s'.c.accepted == s.c.accepted + [f] <==> |queued| < depth)
      && (|queued| >= depth ==> s' == if Ephemeral(f.typ) then s else s.(c := s.c.(closed := true)))
  {
    LanesFit(maxInflight, first, steps);
    assert (steps + [Produce(f)])[..|steps|] == steps;
    hide Run;
    var s := Run(maxInflight, first, steps);
    assert s.c.accepted != s.c.accepted + [f];
  }

  /**
   Over every run: a connection once closed stays closed, the writer stops only on a closed
   connection, and from then on nothing is written and no number is used, whatever is
   still sent, received or closed again.
   */
  lemma {:induction false} ClosingIsFinal(maxInflight: nat, first: nat, a: seq<Step>, b: seq<Step>)
    ensures
      var s, s' := Run(maxInflight, first, a), RunFrom(Run(maxInflight, first, a), b);
      && (s.c.closed ==> s'.c.closed)
      && (s.pc.Stopped? ==>
            s.c.closed && s'.pc == s.pc && s'.c.written == s.c.written && s'.c.outSeq == s.c.outSeq)
  {
    RunKeeps(maxInflight, first, a);
    if b != [] {
      ClosingIsFinal(maxInflight, first, a, b[..|b| - 1]);
      StepStaysClosed(RunFrom(Run(maxInflight, first, a), b[..|b| - 1]), b[|b| - 1]);
    }
    hide Apply, Consecutive, InOrder, Run;
  }

  lemma StepStaysClosed(s: State, step: Step)
    ensures
      var s' := Apply(s, step);
      && (s.c.closed ==> s'.c.closed)
      && (s.pc.Stopped? ==> s'.pc == s.pc && s'.c.written == s.c.written && s'.c.outSeq == s.c.outSeq)
  {
  }

  // --- priority ---

  function LowerMay(pc: Pc): nat {
    match pc
    case Outer => 0
    case Middle => 1
    case Inner => 1
    case Writing(f) => if OnLane(f) == Hi then 0 else 1
    case Stopped(_) => 0
  }

  /** `ws` is what has been written since a control frame was queued. */
  ghost predicate Prompt(s: State, ws: seq<Numbered>) {
    || (exists i :: 0 <= i < |ws| && i < 2 && OnLane(ws[i].f) == Hi)
    || (|ws| + LowerMay(s.pc) <= 1 && (s.c.hi != [] || (s.pc.Writing? && OnLane(s.pc.f) == Hi) || s.pc.Stopped?))
  }

  lemma StepIsPrompt(s: State, step: Step, ws: seq<Numbered>)
    requires Lanes(s) && Prompt(s, ws)
    ensures
      var s' := Apply(s, step);
      s.c.written <= s'.c.written && Prompt(s', ws + s'.c.written[|s.c.written|..])
  {
    var s' := Apply(s, step);
    var new' := s'.c.written[|s.c.written|..];
    var ws' := ws + new';
    if i :| 0 <= i < |ws| && i < 2 && OnLane(ws[i].f) == Hi {
      assert ws'[i] == ws[i];
    } else {
      match step
      case Default => if NothingReady(s) { assert Queue(s.c, Hi) == [] || !Listens(s.pc, Hi); }
      case Finish(ok) =>
        if s.pc.Writing? && ok {
          assert new' == [Numbered(s.c.outSeq + 1, s.pc.f)];
          assert ws'[|ws|].f == s.pc.f;
        }
      case _ =>
    }
  }

  lemma {:induction false} RunIsPrompt(s: State, steps: seq<Step>, first: nat)
    requires Inv(s, first) && s.c.hi != []
    ensures
      var s' := RunFrom(s, steps);
      Inv(s', first) && s.c.written <= s'.c.written && Prompt(s', s'.c.written[|s.c.written|..])
  {
    if steps == [] {
      assert s.c.written[|s.c.written|..] == [];
    } else {
      var before := RunFrom(s, steps[..|steps| - 1]);
      var step := steps[|steps| - 1];
      RunIsPrompt(s, steps[..|steps| - 1], first);
      assert Lanes(before) && RunFrom(s, steps) == Apply(before, step);
      hide *;
      StepIsPrompt(before, step, before.c.written[|s.c.written|..]);
      StepKeeps(before, step, first);
      SlicesJoin(s.c.written, before.c.written, Apply(before, step).c.written);
    }
  }

  lemma SlicesJoin(a: seq<Numbered>, b: seq<Numbered>, c: seq<Numbered>)
    requires a <= b <= c
    ensures b[|a|..] + c[|b|..] == c[|a|..]
  {
  }

  /** What an idle writer takes next if nobody interferes: the head of the highest lane that is not empty. */
  function Highest(c: Conn): (r: Lane) {
    if c.hi != [] then Hi else if c.mid != [] then Mid else Lo
  }

  /**
   From any idle state of an open connection, each select falls through exactly when it
   has nothing ready; left alone, the writer takes the head of the highest lane that
   is not empty.
   */
  lemma TakesHighestFirst(s: State)
    requires s.pc.Outer? && !s.c.closed && !(s.c.hi == [] && s.c.mid == [] && s.c.lo == [])
    ensures
      var lane := Highest(s.c);
      var falls := if lane == Hi then [] else if lane == Mid then [Default] else [Default, Default];
      var q := Queue(s.c, lane);
      && q != []
      && RunFrom(s, falls + [Receive(lane)]) == State(WithQueue(s.c, lane, q[1..]), Writing(q[0]))
      && Apply(RunFrom(s, falls), Default) == RunFrom(s, falls)
      && (forall other: Lane :: other != lane && Queue(s.c, other) != [] && lane != Lo ==>
            Apply(s, Receive(other)) == s)
  {
    var lane := Highest(s.c);
    if lane == Hi {
      assert Listens(s.pc, Hi) && Queue(s.c, Hi) != [];
      assert [] + [Receive(Hi)] == [Receive(Hi)];
      assert [Receive(Hi)][..0] == [];
    } else {
      var s1 := s.(pc := Middle);
      assert NothingReady(s);
      assert [Default][..0] == [];
      assert RunFrom(s, [Default]) == s1;
      if lane == Mid {
        assert Listens(s1.pc, Mid) && Queue(s1.c, Mid) != [];
        assert ([Default] + [Receive(Mid)])[..1] == [Default];
      } else {
        var s2 := s.(pc := Inner);
        assert NothingReady(s1);
        assert [Default, Default][..1] == [Default];
        assert RunFrom(s, [Default, Default]) == s2;
        assert ([Default, Default] + [Receive(Lo)])[..2] == [Default, Default];
      }
    }
  }

  lemma ControlIsHigh(s: State, first: nat, lane: Lane, i: nat)
    requires Inv(s, first) && i < |Queue(s.c, lane)| && Control(Queue(s.c, lane)[i].typ)
    ensures s.c.hi != []
  {
    hide InOrder, Consecutive;
    assert AllOn(Queue(s.c, lane), lane);
  }

  /**
   From any reachable state with a control frame queued on any lane, whatever the producers
   and the writer do next, at most one other frame is written before a control frame:
   among any two frames written from then on, the first two include one.
   */
  lemma AtMostOneFrameBeforeControl(maxInflight: nat, first: nat, a: seq<Step>, b: seq<Step>, lane: Lane, i: nat)
    requires
      var q := Queue(Run(maxInflight, first, a).c, lane);
      i < |q| && Control(q[i].typ)
    ensures
      var s := Run(maxInflight, first, a);
      var s' := RunFrom(s, b);
      && s.c.written <= s'.c.written
      && var ws := s'.c.written[|s.c.written|..];
         |ws| >= 2 ==> Control(ws[0].f.typ) || Control(ws[1].f.typ)
  {
    hide Inv, Apply, Run;
    RunKeeps(maxInflight, first, a);
    ControlIsHigh(Run(maxInflight, first, a), first, lane, i);
    RunIsPrompt(Run(maxInflight, first, a), b, first);
  }
}
