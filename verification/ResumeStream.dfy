/**
 The per-session replay buffer, reduced to the contract the gateway relies on:
 `Append` adds a frame at the end, `Since` returns the later frames in order, and
 `HighWater` is the number of the last frame, or 0 when there is none.
 */
module ReplayBuffer {
  datatype Frame = Frame(num: nat, payload: int)

  ghost predicate Ascending(fs: seq<Frame>) {
    forall i, j :: 0 <= i < j < |fs| ==> fs[i].num < fs[j].num
  }

  function Since(fs: seq<Frame>, after: nat): (r: seq<Frame>)
    decreases |fs|
  {
    if fs == [] then []
    else if fs[0].num > after then [fs[0]] + Since(fs[1..], after)
    else Since(fs[1..], after)
  }

  function HighWater(fs: seq<Frame>): nat {
    if fs == [] then 0 else fs[|fs| - 1].num
  }

  /** Where the buffer splits at `after`, `Since` is exactly the upper part. */
  lemma {:induction false} SinceIsSuffix(fs: seq<Frame>, after: nat, k: nat)
    requires k <= |fs|
    requires forall i :: 0 <= i < k ==> fs[i].num <= after
    requires forall i :: k <= i < |fs| ==> fs[i].num > after
    ensures Since(fs, after) == fs[k..]
  {
    if fs == [] {
    } else if k == 0 {
      SinceIsSuffix(fs[1..], after, 0);
      assert fs == [fs[0]] + fs[1..];
    } else {
      SinceIsSuffix(fs[1..], after, k - 1);
      assert fs[1..][k - 1..] == fs[k..];
    }
  }

  /** `Since` keeps exactly the frames above `after`. */
  lemma {:induction false} SinceMember(fs: seq<Frame>, after: nat, f: Frame)
    ensures f in Since(fs, after) <==> f in fs && f.num > after
    decreases |fs|
  {
    if fs != [] {
      SinceMember(fs[1..], after, f);
      assert fs == [fs[0]] + fs[1..];
    }
  }

  lemma SinceBelowHighWater(fs: seq<Frame>, after: nat, i: nat)
    requires Ascending(fs) && i < |Since(fs, after)|
    ensures Since(fs, after)[i].num <= HighWater(fs)
  {
    SinceMember(fs, after, Since(fs, after)[i]);
  }
}

/**
 Sequence numbers across a session: login, live writes, disconnects and resumes by
 an honest client. AUTH_OK and RESUME_OK consume a number but are never recorded in
 the replay buffer, so the numbering is continuous only because a client that holds
 the live resume token must already have seen every unrecorded number.
 */
module ResumeStream {
  import opened Wrappers
  import opened ReplayBuffer

  type Token = nat

  datatype Kind = AuthOK(token: Token) | ResumeOK(token: Token) | Push(payload: int)

  datatype Wire = Wire(num: nat, kind: Kind)

  function AsWire(f: Frame): Wire { Wire(f.num, Push(f.payload)) }

  function Pushes(fs: seq<Frame>): (r: seq<Wire>)
    ensures |r| == |fs|
    ensures forall i :: 0 <= i < |fs| ==> r[i] == AsWire(fs[i])
  {
    seq(|fs|, i requires 0 <= i < |fs| => AsWire(fs[i]))
  }

  /** Everything a resume puts on the wire before live traffic starts. */
  function ResumeBurst(buffer: Option<seq<Frame>>, lastAck: nat, next: Token): seq<Wire> {
    match buffer
    case None => [Wire(lastAck + 1, ResumeOK(next))]
    case Some(fs) => Pushes(Since(fs, lastAck)) + [Wire(HighWater(fs) + 1, ResumeOK(next))]
  }

  /** One server-side connection: its outbound counter and what it has written. */
  class Conn {
    var outSeq: nat
    var written: seq<Wire>

    constructor ()
      ensures outSeq == 0 && written == []
    {
      outSeq, written := 0, [];
    }

    method NextSeq() returns (n: nat)
      modifies this`outSeq
      ensures n == outSeq == old(outSeq) + 1
    {
      outSeq := outSeq + 1;
      n := outSeq;
    }

    method DoAuth(token: Token)
      requires outSeq == 0
      modifies this
      ensures outSeq == 1
      ensures written == old(written) + [Wire(1, AuthOK(token))]
    {
      var n := NextSeq();
      written := written + [Wire(n, AuthOK(token))];
    }

    /**
     Replays what the client missed, adopts the server's own high-water mark and
     answers with RESUME_OK. `buffer` is None when no replay store is configured.
     */
    method DoResume(buffer: Option<seq<Frame>>, lastAck: nat, next: Token)
      requires buffer.Some? ==> Ascending(buffer.value)
      requires outSeq == 0 && written == []
      modifies this
      ensures written == ResumeBurst(buffer, lastAck, next)
      ensures buffer.None? ==> written == [Wire(lastAck + 1, ResumeOK(next))]
      ensures outSeq == written[|written| - 1].num
    {
      var maxSeq := 0;
      if buffer.Some? {
        var frames := Since(buffer.value, lastAck);
        var hw := HighWater(buffer.value);
        for i := 0 to |frames|
          invariant maxSeq <= hw
          invariant written == Pushes(frames)[..i]
        {
          SinceBelowHighWater(buffer.value, lastAck, i);
          if frames[i].num > maxSeq {
            maxSeq := frames[i].num;
          }
          written := written + [AsWire(frames[i])];
        }
        if hw > maxSeq {
          maxSeq := hw;
        }
      } else {
        maxSeq := lastAck;
      }
      outSeq := maxSeq;
      var n := NextSeq();
      written := written + [Wire(n, ResumeOK(next))];
    }

    /**
     The single writer's step: number the frame, write it, record it. A failed
     write consumes the number but records nothing.
     */
    method WriteOne(buffer: seq<Frame>, payload: int, failed: bool) returns (buffer': seq<Frame>)
      requires Ascending(buffer) && HighWater(buffer) <= outSeq
      modifies this
      ensures outSeq == old(outSeq) + 1
      ensures failed ==> buffer' == buffer && written == old(written)
      ensures !failed ==> buffer' == buffer + [Frame(outSeq, payload)]
      ensures !failed ==> written == old(written) + [Wire(outSeq, Push(payload))]
      ensures Ascending(buffer')
    {
      var n := NextSeq();
      if failed {
        return buffer;
      }
      written := written + [Wire(n, Push(payload))];
      buffer' := buffer + [Frame(n, payload)];
    }
  }

  /**
   A session and its client. `hs`, `mark`, `sent` and `under` are history: the number of
   the latest handshake frame, how much of the buffer predates it, the last number that
   left the current connection, and the recorded frames that took a number the client
   had read before. `wire` holds what the current connection has sent and the client has
   not yet read.
   */
  datatype State = State(
    live: Token,            // the resume token that would be accepted now
    consumed: set<Token>,   // tokens already rotated away
    next: Token,            // a token not yet handed out
    ended: bool,            // revoked or expired
    buffer: seq<Frame>,
    hs: nat,
    mark: nat,
    sent: nat,
    under: set<Frame>,
    open: bool,             // the server's writer is still running
    outSeq: nat,
    up: bool,               // the client is still reading this connection
    wire: seq<Wire>,
    token: Option<Token>,   // what the client holds
    cursor: nat,            // the highest number it has read
    log: seq<Wire>)         // every frame it ever read

  /** A fresh login: AUTH_OK is in flight and nothing has been recorded. */
  function Login(): State {
    State(0, {}, 1, false, [], 1, 0, 1, {}, true, 1, true, [Wire(1, AuthOK(0))], None, 0, [])
  }

  datatype Step =
    | Write(payload: int)        // a frame is written and recorded
    | WriteFails                 // a write fails; the connection closes
    | WriteTears(payload: int)   // a write fails although its bytes are on their way
    | Close                      // the server closes for any other reason
    | Read                       // the client reads one frame
    | Disconnect                 // the client stops reading; what is in flight is lost
    | Resume                     // the client reconnects with its token and cursor
    | Present(stale: Token)      // anybody presents a consumed token
    | Expire                     // the session is revoked or expires

  function TokenOf(w: Wire, held: Option<Token>): Option<Token> {
    match w.kind
    case AuthOK(t) => Some(t)
    case ResumeOK(t) => Some(t)
    case Push(_) => held
  }

  function Max(a: nat, b: nat): nat { if a < b then b else a }

  /** The live token is accepted: it rotates, and numbering restarts after the
      recorded high-water mark. */
  function Accepted(s: State): State {
    var number := HighWater(s.buffer) + 1;
    s.(live := s.next, consumed := s.consumed + {s.live}, next := s.next + 1,
       wire := ResumeBurst(Some(s.buffer), s.cursor, s.next),
       hs := number, mark := |s.buffer|, sent := number, open := true, outSeq := number, up := true)
  }

  /** A resume is attempted only after the old connection is gone on both sides. */
  function ResumeStep(s: State): State {
    if s.open || s.up || s.token.None? then s
    else if s.token.value != s.live then
      if s.token.value in s.consumed then s.(ended := true) else s
    else if s.ended then s
    else Accepted(s)
  }

  function Apply(s: State, step: Step): State {
    match step
    case Write(p) =>
      if !s.open then s
      else
        var f := Frame(s.outSeq + 1, p);
        s.(outSeq := f.num, sent := f.num, buffer := s.buffer + [f], wire := s.wire + [AsWire(f)],
           under := if f.num <= s.cursor then s.under + {f} else s.under)
    case WriteFails => if !s.open then s else s.(outSeq := s.outSeq + 1, open := false)
    case WriteTears(p) =>
      if !s.open then s
      else s.(outSeq := s.outSeq + 1, sent := s.outSeq + 1, open := false,
              wire := s.wire + [Wire(s.outSeq + 1, Push(p))])
    case Close => s.(open := false)
    case Read =>
      if !s.up || s.wire == [] then s
      else s.(wire := s.wire[1..], log := s.log + [s.wire[0]],
              token := TokenOf(s.wire[0], s.token), cursor := Max(s.cursor, s.wire[0].num))
    case Disconnect => s.(up := false)
    case Resume => ResumeStep(s)
    case Present(t) => if t in s.consumed then s.(ended := true) else s
    case Expire => s.(ended := true)
  }

  function Run(steps: seq<Step>): State {
    if steps == [] then Login()
    else Apply(Run(steps[..|steps| - 1]), steps[|steps| - 1])
  }

  // --- which resume is accepted ---

  lemma RunSnoc(steps: seq<Step>, step: Step)
    ensures Run(steps + [step]) == Apply(Run(steps), step)
  {
    assert (steps + [step])[..|steps|] == steps;
  }

  /**
   In every run a client that comes back is accepted if and only if it holds the live token
   and the session has not ended. If its token was rotated away, because it never read
   the last handshake, the session ends; otherwise nothing changes.
   */
  lemma ResumeAcceptedExactlyWhen(steps: seq<Step>)
    requires
      var s := Run(steps);
      !s.open && !s.up && s.token.Some?
    ensures
      var s, s' := Run(steps), Run(steps + [Resume]);
      && (s'.up <==> s.token.value == s.live && !s.ended)
      && (s'.up ==> s'.live == s.next && s.live in s'.consumed && s'.log == s.log)
      && (!s'.up ==> s' == s.(ended := s.ended || (s.token.value != s.live && s.token.value in s.consumed)))
  {
    RunSnoc(steps, Resume);
    hide Run;
  }

  /** Once a session has ended nothing is ever accepted again: its token stays, and no handshake follows. */
  lemma {:induction false} EndedIsFinal(a: seq<Step>, b: seq<Step>)
    requires Run(a).ended
    ensures
      var s, s' := Run(a), Run(a + b);
      s'.ended && s'.live == s.live && s'.hs == s.hs && s'.next == s.next
  {
    if b == [] {
      assert a + b == a;
    } else {
      var n := |b| - 1;
      hide Run, Apply;
      EndedIsFinal(a, b[..n]);
      assert a + b == (a + b[..n]) + [b[n]];
      RunSnoc(a + b[..n], b[n]);
      StepStaysEnded(Run(a + b[..n]), b[n]);
    }
  }

  lemma StepStaysEnded(s: State, step: Step)
    requires s.ended
    ensures
      var s' := Apply(s, step);
      s'.ended && s'.live == s.live && s'.hs == s.hs && s'.next == s.next
  {
    hide AsWire, TokenOf, Accepted;
  }

  // --- what a run keeps ---

  /**
   `ws` continues a stream whose highest number is `c`: no frame skips a number, and only
   a RESUME_OK goes back, by one.
   */
  ghost predicate Chain(c: nat, ws: seq<Wire>)
    decreases |ws|
  {
    ws == [] || (Follows(c, ws[0]) && Chain(Max(c, ws[0].num), ws[1..]))
  }

  predicate Follows(c: nat, w: Wire) {
    w.num == c + 1 || w.num == c > 0 || (w.kind.ResumeOK? && w.num + 1 == c)
  }

  function Highest(c: nat, ws: seq<Wire>): nat
    decreases |ws|
  {
    if ws == [] then c else Highest(Max(c, ws[0].num), ws[1..])
  }

  lemma {:induction false} ChainSnoc(c: nat, ws: seq<Wire>, w: Wire)
    ensures Chain(c, ws + [w]) <==> Chain(c, ws) && Follows(Highest(c, ws), w)
    ensures Highest(c, ws + [w]) == Max(Highest(c, ws), w.num)
    decreases |ws|
  {
    if ws == [] {
      assert ws + [w] == [w];
      assert [w][1..] == [];
    } else {
      ChainSnoc(Max(c, ws[0].num), ws[1..], w);
      assert (ws + [w])[1..] == ws[1..] + [w];
    }
  }

  /** The last number the current connection has used for its handshake or recorded. */
  function Top(s: State): nat
    requires s.mark <= |s.buffer|
  {
    s.hs + |s.buffer| - s.mark
  }

  /** Recorded numbers: everything before the handshake is below it, everything
      after it is consecutive, and the handshake took the number after the old
      high-water mark. At most one number was sent beyond them, by a torn write. */
  ghost predicate Recorded(s: State) {
    && s.hs >= 1
    && s.mark <= |s.buffer|
    && (s.mark == 0 ==> s.hs == 1)
    && (s.mark > 0 ==> s.buffer[s.mark - 1].num == s.hs - 1)
    && (forall i, j :: 0 <= i < j < s.mark ==> s.buffer[i].num < s.buffer[j].num)
    && (forall i :: s.mark <= i < |s.buffer| ==> s.buffer[i].num == s.hs + 1 + (i - s.mark))
    && Top(s) <= s.sent <= Top(s) + 1
    && (s.open ==> s.outSeq == s.sent == Top(s))
  }

  /** Holding the live token means having read the latest handshake. */
  ghost predicate Tokens(s: State) {
    && s.live < s.next && s.live !in s.consumed
    && (forall t :: t in s.consumed ==> t < s.next)
    && (s.token.Some? ==> s.token.value == s.live || s.token.value in s.consumed)
    && (s.token == Some(s.live) ==> s.hs <= s.cursor)
  }

  /** The cursor is the highest number read, at most one beyond what is recorded; while
      the connection is open it is beyond only before anything is recorded on it. */
  ghost predicate Cursor(s: State)
    requires s.mark <= |s.buffer|
  {
    && Chain(0, s.log) && s.cursor == Highest(0, s.log) <= Top(s) + 1
    && (s.open && s.cursor == Top(s) + 1 ==> s.mark == |s.buffer|)
  }

  /** The client has read every recorded frame up to its cursor, but for those that took
      a number it had read before. */
  ghost predicate Logged(s: State) {
    forall i :: 0 <= i < |s.buffer| && s.buffer[i].num <= s.cursor ==>
      AsWire(s.buffer[i]) in s.log || s.buffer[i] in s.under
  }

  /** What is in flight is a run of consecutive numbers up to the last one sent, starting
      next to the cursor, and holds every recorded frame above the cursor. */
  ghost predicate InFlight(s: State) {
    s.up ==>
      && (forall i :: 0 <= i < |s.wire| ==> s.wire[i].num == s.sent + 1 - |s.wire| + i)
      && 1 <= s.sent + 1 - |s.wire| && s.cursor - 1 <= s.sent + 1 - |s.wire| <= s.cursor + 1
      && (s.sent + 1 - |s.wire| < s.cursor ==> s.wire != [] && s.wire[0].kind.ResumeOK?)
      && (forall i :: 0 <= i < |s.buffer| && s.buffer[i].num > s.cursor ==> AsWire(s.buffer[i]) in s.wire)
  }

  /** A handshake frame in flight is the latest one, and is there unless read. */
  ghost predicate Handshake(s: State) {
    s.up ==>
      && (forall i :: 0 <= i < |s.wire| && !s.wire[i].kind.Push? ==>
        s.wire[i].num == s.hs && s.wire[i].kind.token == s.live)
      && (s.token == Some(s.live) || exists i :: 0 <= i < |s.wire| && !s.wire[i].kind.Push?)
  }

  ghost predicate Inv(s: State) {
    Recorded(s) && Tokens(s) && Cursor(s) && Logged(s) && InFlight(s) && Handshake(s)
  }

  lemma HandshakeAppends(s: State, s': State, w: Wire)
    requires Handshake(s) && s'.wire == s.wire + [w] && w.kind.Push?
    requires s'.up == s.up && s'.hs == s.hs && s'.live == s.live && s'.token == s.token
    ensures Handshake(s')
  {
    if s.up && s.token != Some(s.live) {
      var i :| 0 <= i < |s.wire| && !s.wire[i].kind.Push?;
      assert s'.wire[i] == s.wire[i];
    }
  }

  lemma WriteKeepsRecorded(s: State, p: int)
    requires Recorded(s) && Tokens(s) && Cursor(s) && s.open
    ensures Recorded(Apply(s, Write(p))) && Tokens(Apply(s, Write(p))) && Cursor(Apply(s, Write(p)))
  {
    hide Chain, Highest;
  }

  lemma WriteKeepsLog(s: State, p: int)
    requires Logged(s)
    ensures Logged(Apply(s, Write(p)))
  {
  }

  lemma WriteKeepsFlight(s: State, p: int)
    requires Recorded(s) && InFlight(s) && s.open
    ensures InFlight(Apply(s, Write(p)))
  {
    var s' := Apply(s, Write(p));
    hide Recorded;
    assert s.outSeq == s.sent by { assert Recorded(s); OpenSent(s); }
    if s.up {
      assert s'.wire[|s.wire|] == AsWire(s'.buffer[|s.buffer|]);
      forall i | 0 <= i < |s'.buffer| && s'.buffer[i].num > s'.cursor ensures AsWire(s'.buffer[i]) in s'.wire {
        if i < |s.buffer| { assert AsWire(s.buffer[i]) in s.wire; }
      }
    }
  }

  lemma OpenSent(s: State)
    requires Recorded(s) && s.open
    ensures s.outSeq == s.sent
  {
  }

  lemma WriteKeepsInv(s: State, p: int)
    requires Inv(s) && s.open
    ensures Inv(Apply(s, Write(p)))
  {
    var s' := Apply(s, Write(p));
    HandshakeAppends(s, s', Wire(s.outSeq + 1, Push(p)));
    WriteKeepsRecorded(s, p);
    WriteKeepsLog(s, p);
    WriteKeepsFlight(s, p);
    hide Recorded, Tokens, Cursor, Logged, InFlight, Handshake;
  }

  lemma TearKeepsInv(s: State, p: int)
    requires Inv(s) && s.open
    ensures Inv(Apply(s, WriteTears(p)))
  {
    var s' := Apply(s, WriteTears(p));
    HandshakeAppends(s, s', Wire(s.outSeq + 1, Push(p)));
    hide Handshake, Chain, Highest;
    assert InFlight(s');
  }

  /** Every recorded number is at most the top. */
  lemma BelowTop(s: State)
    requires Recorded(s)
    ensures Ascending(s.buffer)
    ensures forall i :: 0 <= i < |s.buffer| ==> s.buffer[i].num <= Top(s)
    ensures forall i :: 0 <= i < s.mark ==> s.buffer[i].num < s.hs
    ensures HighWater(s.buffer) == if |s.buffer| == s.mark then s.hs - 1 else Top(s)
  {
    forall i | 0 <= i < s.mark ensures s.buffer[i].num < s.hs {
      if i < s.mark - 1 { assert s.buffer[i].num < s.buffer[s.mark - 1].num; }
    }
  }

  lemma ReadKeepsCursor(s: State)
    requires Recorded(s) && Cursor(s) && InFlight(s) && s.up && s.wire != []
    ensures Cursor(Apply(s, Read))
  {
    ChainSnoc(0, s.log, s.wire[0]);
    hide Chain, Highest;
    assert s.wire[0].num <= s.sent;
    assert s.wire[0].num == s.sent + 1 - |s.wire|;
  }

  lemma ReadKeepsLog(s: State)
    requires Logged(s) && InFlight(s) && s.up && s.wire != []
    ensures Logged(Apply(s, Read))
  {
    var s', w := Apply(s, Read), s.wire[0];
    forall i | 0 <= i < |s.buffer| && s.buffer[i].num <= s'.cursor
      ensures AsWire(s.buffer[i]) in s'.log || s.buffer[i] in s'.under
    {
      if s.buffer[i].num > s.cursor {
        var k :| 0 <= k < |s.wire| && s.wire[k] == AsWire(s.buffer[i]);
        assert k == 0;
        assert s'.log[|s.log|] == w;
      }
    }
  }

  lemma ReadKeepsFlight(s: State)
    requires InFlight(s) && s.up && s.wire != []
    ensures InFlight(Apply(s, Read))
  {
    var s', w := Apply(s, Read), s.wire[0];
    forall i | 0 <= i < |s.buffer| && s.buffer[i].num > s'.cursor
      ensures AsWire(s.buffer[i]) in s'.wire
    {
      var k :| 0 <= k < |s.wire| && s.wire[k] == AsWire(s.buffer[i]);
      assert s'.wire[k - 1] == s.wire[k];
    }
  }

  lemma ReadKeepsHandshake(s: State)
    requires Tokens(s) && Handshake(s) && s.up && s.wire != []
    ensures Tokens(Apply(s, Read)) && Handshake(Apply(s, Read))
  {
    var s', w := Apply(s, Read), s.wire[0];
    if w.kind.Push? && s.token != Some(s.live) {
      var k :| 0 <= k < |s.wire| && !s.wire[k].kind.Push?;
      assert s'.wire[k - 1] == s.wire[k];
    }
  }

  lemma ReadKeepsInv(s: State)
    requires Inv(s) && s.up && s.wire != []
    ensures Inv(Apply(s, Read))
  {
    ReadKeepsCursor(s);
    ReadKeepsLog(s);
    ReadKeepsFlight(s);
    ReadKeepsHandshake(s);
    hide Cursor, Logged, InFlight, Handshake, Tokens;
  }

  /**
   What a resume with the live token replays: exactly the numbers after the cursor, up to
   the last recorded one. RESUME_OK continues that run if something was recorded since
   the client's last handshake and the cursor is not beyond it. Otherwise there is
   nothing to replay and it repeats the cursor, or goes below it when nothing was
   recorded and yet the cursor is past the handshake.
   */
  lemma ResumeNumbers(s: State)
    requires Recorded(s) && s.hs <= s.cursor <= Top(s) + 1
    ensures
      var late, number := Since(s.buffer, s.cursor), HighWater(s.buffer) + 1;
      && (forall i :: 0 <= i < |late| ==> late[i].num == s.cursor + 1 + i)
      && (s.cursor <= Top(s) ==> s.cursor + |late| == Top(s))
      && (s.cursor > Top(s) ==> late == [])
      && number == (if s.mark < |s.buffer| then Top(s) + 1 else s.hs)
  {
    BelowTop(s);
    SinceIsSuffix(s.buffer, s.cursor, if s.cursor <= Top(s) then s.mark + (s.cursor - s.hs) else |s.buffer|);
  }

  /** The frames of a burst. */
  lemma BurstShape(fs: seq<Frame>, cursor: nat, next: Token)
    ensures
      var late, number := Since(fs, cursor), HighWater(fs) + 1;
      var burst := ResumeBurst(Some(fs), cursor, next);
      && |burst| == |late| + 1
      && (forall i :: 0 <= i < |late| ==> burst[i] == AsWire(late[i]))
      && burst[|late|] == Wire(number, ResumeOK(next))
  {
  }

  lemma BurstHolds(fs: seq<Frame>, cursor: nat, next: Token, i: nat)
    requires i < |fs| && fs[i].num > cursor
    ensures
      var burst := ResumeBurst(Some(fs), cursor, next);
      AsWire(fs[i]) in burst[..|burst| - 1]
  {
    var late := Since(fs, cursor);
    SinceMember(fs, cursor, fs[i]);
    var j :| 0 <= j < |late| && late[j] == fs[i];
    var burst := ResumeBurst(Some(fs), cursor, next);
    assert burst[..|burst| - 1][j] == AsWire(fs[i]);
  }

  lemma AcceptedKeepsRecorded(s: State)
    requires Inv(s) && s.token == Some(s.live)
    ensures Recorded(Accepted(s)) && Tokens(Accepted(s)) && Cursor(Accepted(s)) && Logged(Accepted(s))
  {
    hide Chain, Highest, Since, ResumeBurst, InFlight, Handshake;
    ResumeNumbers(s);
    BelowTop(s);
  }

  lemma AcceptedKeepsFlight(s: State)
    requires Recorded(s) && s.hs <= s.cursor <= Top(s) + 1
    ensures InFlight(Accepted(s)) && Handshake(Accepted(s))
  {
    var s' := Accepted(s);
    ResumeNumbers(s);
    BurstShape(s.buffer, s.cursor, s.next);
    hide Since, ResumeBurst, Recorded;
    assert s'.wire[|s'.wire| - 1] == Wire(s'.hs, ResumeOK(s'.live));
    forall i | 0 <= i < |s'.buffer| && s'.buffer[i].num > s'.cursor
      ensures AsWire(s'.buffer[i]) in s'.wire
    {
      BurstHolds(s.buffer, s.cursor, s.next, i);
    }
  }

  lemma ResumeKeepsInv(s: State)
    requires Inv(s)
    ensures Inv(ResumeStep(s))
  {
    if s.token == Some(s.live) {
      AcceptedKeepsRecorded(s);
      AcceptedKeepsFlight(s);
    }
    hide Chain, Highest, Accepted;
  }

  /** `s'` is `s` but for a connection closed, on either side, or a session ended. */
  predicate OnlyCloses(s: State, s': State) {
    && s' == s.(open := s'.open, outSeq := s'.outSeq, up := s'.up, ended := s'.ended)
    && (s'.open ==> s.open && s'.outSeq == s.outSeq) && (s'.up ==> s.up)
  }

  lemma ClosingKeepsRecorded(s: State, s': State)
    requires OnlyCloses(s, s') && Recorded(s) && Tokens(s) && Cursor(s)
    ensures Recorded(s') && Tokens(s') && Cursor(s')
  {
    hide Chain, Highest;
  }

  lemma ClosingKeepsFlight(s: State, s': State)
    requires OnlyCloses(s, s') && Logged(s) && InFlight(s) && Handshake(s)
    ensures Logged(s') && InFlight(s') && Handshake(s')
  {
  }

  lemma QuietKeepsInv(s: State, step: Step)
    requires Inv(s) && (step.WriteFails? || step.Close? || step.Disconnect? || step.Present? || step.Expire?)
    ensures Inv(Apply(s, step))
  {
    assert OnlyCloses(s, Apply(s, step)) by { hide Inv; }
    ClosingKeepsRecorded(s, Apply(s, step));
    ClosingKeepsFlight(s, Apply(s, step));
    hide Recorded, Tokens, Cursor, Logged, InFlight, Handshake, Apply;
  }

  lemma StepKeepsInv(s: State, step: Step)
    requires Inv(s)
    ensures Inv(Apply(s, step))
  {
    hide Inv;
    match step
    case Write(p) => if s.open { WriteKeepsInv(s, p); }
    case WriteTears(p) => if s.open { TearKeepsInv(s, p); }
    case Read => if s.up && s.wire != [] { ReadKeepsInv(s); }
    case Resume => ResumeKeepsInv(s);
    case _ => QuietKeepsInv(s, step);
  }

  lemma {:induction false} RunKeepsInv(steps: seq<Step>)
    ensures Inv(Run(steps))
  {
    if steps == [] {
      assert Login().wire[0] == Wire(1, AuthOK(0));
    } else {
      RunKeepsInv(steps[..|steps| - 1]);
      StepKeepsInv(Run(steps[..|steps| - 1]), steps[|steps| - 1]);
    }
  }

  // --- the theorems ---

  /**
   Over every run, torn writes included: no number is ever skipped. Each frame the client
   reads takes the number after the highest it has read, or repeats that one; only a
   RESUME_OK goes below it, by one.
   */
  lemma ClientNeverSeesAGap(steps: seq<Step>)
    ensures
      var log := Run(steps).log;
      forall i :: 0 <= i < |log| ==>
        var high := Highest(0, log[..i]);
        log[i].num == high + 1 || log[i].num == high > 0 || (log[i].kind.ResumeOK? && log[i].num + 1 == high)
  {
    RunKeepsInv(steps);
    var log := Run(steps).log;
    forall i | 0 <= i < |log| ensures Follows(Highest(0, log[..i]), log[i]) {
      ChainPrefix(log, i);
    }
  }

  lemma {:induction false} ChainPrefix(ws: seq<Wire>, i: nat)
    requires Chain(0, ws) && i < |ws|
    ensures Follows(Highest(0, ws[..i]), ws[i])
    decreases |ws|
  {
    var n := |ws| - 1;
    assert ws == ws[..n] + [ws[n]];
    ChainSnoc(0, ws[..n], ws[n]);
    if i < n {
      ChainPrefix(ws[..n], i);
      assert ws[..n][..i] == ws[..i];
    }
  }

  /** `ws` is a run of recorded payloads taking the numbers after `c`, and all there are. */
  ghost predicate Replays(c: nat, ws: seq<Wire>, fs: seq<Frame>) {
    && (forall i :: 0 <= i < |ws| ==>
          ws[i].num == c + 1 + i && ws[i].kind.Push? && Frame(ws[i].num, ws[i].kind.payload) in fs)
    && (forall i :: 0 <= i < |fs| && fs[i].num > c ==> AsWire(fs[i]) in ws)
  }

  lemma BurstReplays(fs: seq<Frame>, cursor: nat, next: Token)
    requires
      var late := Since(fs, cursor);
      forall i :: 0 <= i < |late| ==> late[i].num == cursor + 1 + i
    ensures
      var burst := ResumeBurst(Some(fs), cursor, next);
      Replays(cursor, burst[..|burst| - 1], fs)
  {
    var late := Since(fs, cursor);
    var burst := ResumeBurst(Some(fs), cursor, next);
    var ws := burst[..|burst| - 1];
    assert ws == Pushes(late);
    forall i | 0 <= i < |ws|
      ensures ws[i].num == cursor + 1 + i && ws[i].kind.Push? && Frame(ws[i].num, ws[i].kind.payload) in fs
    {
      assert Frame(ws[i].num, ws[i].kind.payload) == late[i];
      SinceMember(fs, cursor, late[i]);
    }
    forall i | 0 <= i < |fs| && fs[i].num > cursor ensures AsWire(fs[i]) in ws {
      BurstHolds(fs, cursor, next, i);
    }
  }

  lemma ResumeReplays(s: State)
    requires Inv(s) && s.token == Some(s.live)
    ensures
      var ws := Accepted(s).wire;
      var k := |ws| - 1;
      && k >= 0
      && Replays(s.cursor, ws[..k], s.buffer)
      && ws[k] == Wire(HighWater(s.buffer) + 1, ResumeOK(s.next))
      && (k > 0 ==> s.mark < |s.buffer| && s.cursor < Top(s))
      && (s.cursor <= Top(s) ==> k == Top(s) - s.cursor)
  {
    ResumeNumbers(s);
    BurstShape(s.buffer, s.cursor, s.next);
    BurstReplays(s.buffer, s.cursor, s.next);
  }

  /** The three numbers a RESUME_OK can take, and when. */
  lemma ResumeNumberIs(s: State)
    requires Inv(s) && s.token == Some(s.live)
    ensures
      var k, high := |Accepted(s).wire| - 1, HighWater(s.buffer);
      && (high + 1 == s.cursor + k + 1 <==> s.hs < high && s.cursor <= high)
      && (high + 1 == s.cursor - 1 <==> high < s.hs < s.cursor)
      && (high + 1 == s.cursor + k + 1 || high + 1 == s.cursor - 1 || (k == 0 && high + 1 == s.cursor))
  {
    ResumeReplays(s);
    BelowTop(s);
    hide Accepted, Replays, Logged, InFlight, Handshake, Chain, Highest;
  }

  /**
   How a resume from `s` answers in `s'`. The replay is exactly cursor+1, cursor+2, ... up
   to the high-water mark with the recorded payloads, and leaves no recorded frame above
   the cursor out. With hs the number of the client's last handshake, RESUME_OK takes the
   next number if and only if something was recorded after hs and the client has read no
   further than that; goes one below the cursor if and only if nothing was recorded
   after hs and yet the cursor is past hs; and otherwise repeats the cursor.
   */
  ghost predicate GapFree(s: State, s': State) {
    var k, high := |s'.wire| - 1, HighWater(s.buffer);
    && k >= 0
    && Replays(s.cursor, s'.wire[..k], s.buffer)
    && s'.wire[k].kind == ResumeOK(s'.live)
    && (s'.wire[k].num == s.cursor + k + 1 <==> s.hs < high && s.cursor <= high)
    && (s'.wire[k].num == s.cursor - 1 <==> high < s.hs < s.cursor)
    && (s'.wire[k].num == s.cursor + k + 1 || s'.wire[k].num == s.cursor - 1 || (k == 0 && s'.wire[k].num == s.cursor))
  }

  lemma AcceptedIsGapFree(s: State)
    requires Inv(s) && s.token == Some(s.live)
    ensures GapFree(s, Accepted(s))
  {
    ResumeReplays(s);
    ResumeNumberIs(s);
    assert Accepted(s).live == s.next;
    hide Accepted, Inv, Replays, HighWater;
  }

  /**
   Over every run, torn writes included: whenever a client holding the live token resumes
   a session that has not ended, the answer is gap-free in the sense above.
   */
  lemma ResumeIsGapFree(steps: seq<Step>)
    requires
      var s := Run(steps);
      !s.open && !s.up && !s.ended && s.token == Some(s.live)
    ensures GapFree(Run(steps), Run(steps + [Resume]))
  {
    hide *;
    RunKeepsInv(steps);
    RunSnoc(steps, Resume);
    ResumeAccepts(Run(steps));
    AcceptedIsGapFree(Run(steps));
  }

  lemma ResumeAccepts(s: State)
    requires !s.open && !s.up && !s.ended && s.token == Some(s.live)
    ensures Apply(s, Resume) == Accepted(s)
  {
  }

  /**
   Over every run: each recorded frame numbered at or below the client's cursor has been
   read by it, or took a number that a torn write had already used and the client had
   read. That happens only to the first frame recorded after a RESUME_OK that went back.
   */
  lemma RecordedFramesAreRead(steps: seq<Step>)
    ensures
      var s := Run(steps);
      forall i :: 0 <= i < |s.buffer| && s.buffer[i].num <= s.cursor ==>
        AsWire(s.buffer[i]) in s.log || s.buffer[i] in s.under
  {
    RunKeepsInv(steps);
  }

  /** A frame is recorded under a number already read exactly when it is the first on its
      connection and the cursor was past that connection's handshake. */
  lemma NumberReusedExactlyWhen(steps: seq<Step>, p: int)
    requires Run(steps).open
    ensures
      var s, s' := Run(steps), Run(steps + [Write(p)]);
      var f := s'.buffer[|s.buffer|];
      && |s'.buffer| == |s.buffer| + 1
      && (f.num <= s.cursor <==> HighWater(s.buffer) < s.hs < s.cursor)
      && (f.num <= s.cursor ==> f in s'.under)
  {
    RunKeepsInv(steps);
    assert (steps + [Write(p)])[..|steps|] == steps;
    BelowTop(Run(steps));
  }

  /** Recorded at or below the cursor, not read, and no longer on its way. */
  ghost predicate Gone(s: State, f: Frame) {
    f in s.buffer && f.num <= s.cursor && AsWire(f) !in s.log && (s.up ==> AsWire(f) !in s.wire)
  }

  lemma StepKeepsGone(s: State, step: Step, f: Frame)
    requires Inv(s) && Gone(s, f)
    ensures Gone(Apply(s, step), f)
  {
    BelowTop(s);
    hide Chain, Highest, Handshake, Tokens, Logged;
    if step.Resume? {
      var burst := ResumeBurst(Some(s.buffer), s.cursor, s.next);
      BurstShape(s.buffer, s.cursor, s.next);
      forall i | 0 <= i < |burst| ensures burst[i] != AsWire(f) {
        if i < |burst| - 1 {
          SinceMember(s.buffer, s.cursor, Since(s.buffer, s.cursor)[i]);
        }
      }
    }
  }

  /** Such a frame is never read: no later resume replays it. */
  lemma {:induction false} GoneForGood(steps: seq<Step>, more: seq<Step>, f: Frame)
    requires Gone(Run(steps), f)
    ensures Gone(Run(steps + more), f)
  {
    if more == [] {
      assert steps + more == steps;
    } else {
      hide *;
      var n := |more| - 1;
      GoneForGood(steps, more[..n], f);
      assert steps + more == (steps + more[..n]) + [more[n]];
      RunSnoc(steps + more[..n], more[n]);
      RunKeepsInv(steps + more[..n]);
      StepKeepsGone(Run(steps + more[..n]), more[n], f);
    }
  }

  // --- runs without torn writes ---

  ghost predicate NoTears(steps: seq<Step>) { forall i :: 0 <= i < |steps| ==> !steps[i].WriteTears? }

  /** The next number, or a RESUME_OK that repeats the highest. */
  predicate Continues(c: nat, w: Wire) { w.num == c + 1 || (w.kind.ResumeOK? && w.num == c > 0) }

  ghost predicate Unbroken(log: seq<Wire>) {
    forall i :: 0 <= i < |log| ==> Continues(Highest(0, log[..i]), log[i])
  }

  ghost predicate Whole(s: State)
    requires s.mark <= |s.buffer|
  {
    && s.sent == Top(s) && s.cursor <= Top(s) && s.under == {} && Unbroken(s.log)
    && (s.up && s.wire != [] ==> Continues(s.cursor, s.wire[0]))
  }

  lemma ReadKeepsWhole(s: State)
    requires Inv(s) && Whole(s) && s.up && s.wire != []
    ensures Whole(Apply(s, Read))
  {
    hide Chain, Logged, Handshake, Tokens;
    var s' := Apply(s, Read);
    assert s.wire[0].num == s.sent + 1 - |s.wire|;
    hide Highest;
    forall i | 0 <= i < |s'.log| ensures Continues(Highest(0, s'.log[..i]), s'.log[i]) {
      assert i < |s.log| ==> s'.log[..i] == s.log[..i];
      assert i == |s.log| ==> s'.log[..i] == s.log;
    }
  }

  lemma AcceptedKeepsWhole(s: State)
    requires Inv(s) && Whole(s) && s.token == Some(s.live)
    ensures Whole(Accepted(s))
  {
    hide Chain, Highest, Logged, Handshake, InFlight, Unbroken;
    ResumeNumbers(s);
    BurstShape(s.buffer, s.cursor, s.next);
    BelowTop(s);
    hide ResumeBurst, Since, HighWater;
  }

  lemma StepKeepsWhole(s: State, step: Step)
    requires Inv(s) && Whole(s) && !step.WriteTears?
    ensures Inv(Apply(s, step)) && Whole(Apply(s, step))
  {
    StepKeepsInv(s, step);
    if step.Read? {
      if s.up && s.wire != [] { ReadKeepsWhole(s); }
    } else if step.Resume? {
      if s.token == Some(s.live) { AcceptedKeepsWhole(s); }
      hide Accepted;
    }
    hide Chain, Highest, Logged, Handshake, Tokens, Unbroken;
  }

  lemma {:induction false} RunIsWhole(steps: seq<Step>)
    requires NoTears(steps)
    ensures Inv(Run(steps)) && Whole(Run(steps))
  {
    RunKeepsInv(steps);
    if steps != [] {
      RunIsWhole(steps[..|steps| - 1]);
      StepKeepsWhole(Run(steps[..|steps| - 1]), steps[|steps| - 1]);
    }
  }

  /**
   Over every run without a torn write: what the client reads is one unbroken stream from
   1, which nothing but a RESUME_OK repeats and nothing takes back; and each recorded
   frame up to the cursor has been read, no payload number twice.
   */
  lemma RecordedFramesReadOnce(steps: seq<Step>)
    requires NoTears(steps)
    ensures
      var s := Run(steps);
      && Unbroken(s.log)
      && (forall i :: 0 <= i < |s.buffer| && s.buffer[i].num <= s.cursor ==> AsWire(s.buffer[i]) in s.log)
      && (forall i, j :: 0 <= i < j < |s.log| && s.log[j].kind.Push? ==> s.log[i].num < s.log[j].num)
  {
    RunIsWhole(steps);
    var log := Run(steps).log;
    forall i, j | 0 <= i < j < |log| && log[j].kind.Push? ensures log[i].num < log[j].num {
      BelowHighest(0, log[..j], i);
    }
  }

  lemma {:induction false} BelowHighest(c: nat, ws: seq<Wire>, i: nat)
    requires i < |ws|
    ensures c <= Highest(c, ws) && ws[i].num <= Highest(c, ws)
    decreases |ws|
  {
    if i > 0 {
      BelowHighest(Max(c, ws[0].num), ws[1..], i - 1);
    } else if |ws| > 1 {
      BelowHighest(Max(c, ws[0].num), ws[1..], 0);
    }
  }

  // --- torn writes, concretely ---

  lemma Snoc(steps: seq<Step>, i: nat)
    requires i < |steps|
    ensures Run(steps[..i + 1]) == Apply(Run(steps[..i]), steps[i])
  {
    assert steps[..i + 1][..i] == steps[..i];
  }

  /** The run: log in, read a torn frame 2, resume; then a frame is recorded that the
      client does not get to read before it resumes once more. */
  const TORN_RUN: seq<Step> :=
    [Read, WriteTears(9), Read, Disconnect, Resume, Write(5), Read, Close, Disconnect, Resume, Read]

  lemma TornWriteIsRead()
    ensures
      var s := Run(TORN_RUN[..4]);
      && !s.open && !s.up && !s.ended && s.token == Some(0) && s.live == 0 && s.next == 1
      && s.cursor == 2 && s.buffer == []
      && s.log == [Wire(1, AuthOK(0)), Wire(2, Push(9))]
  {
    var r := TORN_RUN;
    assert r[..0] == [];
    assert Run([]) == Login();
    hide Run;
    Snoc(r, 0);
    Snoc(r, 1);
    Snoc(r, 2);
    Snoc(r, 3);
  }

  /** The shortest step back: RESUME_OK as number 1 after frame 2. */
  lemma TornWriteGoesBackwards()
    ensures
      var s := Run(TORN_RUN[..5]);
      && s.cursor == 2 && s.wire == [Wire(1, ResumeOK(1))] && s.open && s.up && s.live == 1 && s.next == 2
      && s.log == [Wire(1, AuthOK(0)), Wire(2, Push(9))] && s.buffer == [] && s.outSeq == 1 && !s.ended
  {
    TornWriteIsRead();
    hide Run;
    Snoc(TORN_RUN, 4);
    assert Since([], 2) == [] && Pushes([]) == [];
  }

  lemma TornWriteReusesANumber()
    ensures
      var s := Run(TORN_RUN[..9]);
      && !s.open && !s.up && !s.ended && s.token == Some(1) && s.live == 1 && s.next == 2
      && s.buffer == [Frame(2, 5)] && s.cursor == 2
      && s.log == [Wire(1, AuthOK(0)), Wire(2, Push(9)), Wire(1, ResumeOK(1))]
  {
    var r := TORN_RUN;
    TornWriteGoesBackwards();
    hide Run;
    Snoc(r, 5);
    Snoc(r, 6);
    Snoc(r, 7);
    Snoc(r, 8);
  }

  /** And the frame recorded next, under number 2 again, is never read. */
  lemma TornWriteLosesAFrame()
    ensures
      var s := Run(TORN_RUN);
      s.cursor == 3 && Frame(2, 5) in s.buffer && Gone(s, Frame(2, 5))
  {
    var r := TORN_RUN;
    TornWriteReusesANumber();
    hide Run;
    var s9 := Run(r[..9]);
    Snoc(r, 9);
    SinceIsSuffix(s9.buffer, 2, 1);
    assert s9.buffer[1..] == [] && Pushes([]) == [];
    assert HighWater(s9.buffer) == 2;
    assert ResumeBurst(Some(s9.buffer), 2, 2) == [Wire(3, ResumeOK(2))];
    hide ResumeBurst, Since;
    Snoc(r, 10);
    assert r[..11] == r;
  }
}
