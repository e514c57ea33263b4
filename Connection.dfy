/** CmdServerHandler: one client connection. `handle()` loops reading a line,
    classifying it, running the command's immediate handler, and queueing
    the queued handler, replying at once or after waiting on the
    connection's own reply queue `_myq`. One loop iteration is one step
    here; the wait on `_myq.get()` ends the step, and the posted result is
    delivered by a second step. */
module Connection {
  import opened Types
  import opened Wire
  import opened Commands
  import opened Server

  /** What one `recv(512)` produced. */
  datatype Event =
    | Data(raw: seq<byte>)     // the bytes read (empty at end of stream)
    | Timeout                  // socket.timeout
    | SockError(desc: string)  // any other exception, as "<type>:<text>"

  /** How the loop goes on after a step. */
  datatype Next =
    | Loop               // `continue`, or the end of the body: test `_active` again
    | Stop               // `break`: handle() returns
    | Await              // blocked in `_myq.get()`
    | Raise(desc: string) // an exception escapes handle(); the connection is dropped

  /** The connection's state: `_active`, `_myq` (present or None), and the
      local `msg` of handle(), which keeps its value from one iteration to
      the next (None: not yet assigned). */
  datatype Conn = Conn(active: bool, myq: Option<ChanId>, msg: Option<Json>)

  /** What one step does: the new state, the reply sent (if any), the entry
      appended to the shared queue (if any), and how the loop goes on. */
  datatype StepResult = StepResult(conn: Conn, reply: Option<Reply>, push: Option<QEntry>, next: Next)

  /** The rendering of the UnboundLocalError raised by reading `msg` before
      any iteration has assigned it. */
  const UNBOUND_MSG: string := "<class 'UnboundLocalError'>: local variable 'msg' referenced before assignment"

  /** The loop ends after this step: it broke out, raised, or continued with
      `_active` cleared. */
  predicate Ends(s: StepResult) {
    Halted(s.conn, s.next)
  }

  predicate Halted(c: Conn, next: Next) {
    next.Stop? || next.Raise? || (next.Loop? && !c.active)
  }

  /** The queued stage of one handled read, for a registered command:
      reply at once, refuse when the queue is full, or put `(args, _myq)`. */
  function QueueStage(reg: Registry, qsize: nat, c: Conn, args: seq<string>): (s: StepResult)
    requires |args| >= 1 && args[0] in reg.table
    ensures s.conn.active == c.active && s.conn.myq == c.myq
    ensures s.push.Some? ==> s.push == Some(QEntry(args, c.myq))
  {
    var e := reg.table[args[0]];
    if e.funcQ.None? then
      var msg2 := args[0] + ": func_q is None .. ignored";
      match c.msg
      case None => StepResult(c, None, None, Raise(UNBOUND_MSG))
      case Some(m) => StepResult(c, Some(Reply(OK, if m.Null? then Str(msg2) else m)), None, Loop)
    else if qsize > QUEUE_CEILING then
      var m := Str("qsize=" + NatToString(qsize) + ": server busy");
      StepResult(c.(msg := Some(m)), Some(Reply(NG, m)), None, Loop)
    else
      var entry := QEntry(args, c.myq);
      if c.myq.None? then
        match c.msg
        case None => StepResult(c, None, Some(entry), Raise(UNBOUND_MSG))
        case Some(m) => StepResult(c, Some(Reply(OK, m)), Some(entry), Loop)
      else StepResult(c, None, Some(entry), Await)
  }

  /** The immediate stage of one handled read: run the command's immediate
      handler, then reply, or hand over to the queued stage. */
  function ImmediateStage(reg: Registry, qsize: nat, c: Conn, args: seq<string>, lib: Lib): StepResult
    requires |args| >= 1 && args[0] in reg.table && reg.Valid()
  {
    var e := reg.table[args[0]];
    if e.funcI.None? then QueueStage(reg, qsize, c, args)
    else match Invoke(e.funcI.value, args, reg, lib)
      case Raised(d) => StepResult(c, None, None, Raise(d))
      case Returned(r) =>
        var c1 := c.(msg := Some(r.msg), active := if args[0] == CMD_EXIT then false else c.active);
        if r.rc != CONTINUE && r.rc != ACCEPT then StepResult(c1, Some(r), None, Loop)
        else QueueStage(reg, qsize, if r.rc == ACCEPT then c1.(myq := None) else c1, args)
  }

  /** Classifying one stripped read: close, decode, split, look up. */
  function LineStep(reg: Registry, qsize: nat, c: Conn, line: seq<byte>, lib: Lib): StepResult
    requires reg.Valid()
  {
    if |line| == 0 || line == [4] then StepResult(c, None, None, Stop)
    else match lib.decode(line)
      case DecodeError(d) =>
        var m := Str(d + " .. ignored");
        StepResult(c.(msg := Some(m)), Some(Reply(NG, m)), None, Stop)
      case Text(text) =>
        var args := Split(text);
        if args == [] then
          var m := Str("no command");
          StepResult(c.(msg := Some(m)), Some(Reply(NG, m)), None, Stop)
        else if args[0] !in reg.table then
          var m := Str(args[0] + ": no such command .. ignored");
          StepResult(c.(msg := Some(m)), Some(Reply(NG, m)), None, Loop)
        else ImmediateStage(reg, qsize, c, args, lib)
  }

  /** One iteration of `handle()`'s loop, up to a reply or the wait. */
  function HandleStep(reg: Registry, svrActive: bool, qsize: nat, c: Conn, ev: Event, lib: Lib): StepResult
    requires reg.Valid()
  {
    match ev
    case Timeout =>
      if svrActive then StepResult(c, None, None, Loop)
      else StepResult(c, Some(Reply(NG, Str("server is dead !"))), None, Stop)
    case SockError(d) =>
      var m := Str("error " + d);
      StepResult(c.(msg := Some(m)), Some(Reply(NG, m)), None, Stop)
    case Data(raw) => LineStep(reg, qsize, c, Strip(raw), lib)
  }

  /** The end of the wait: the worker's (or the drain's) result arrives on `_myq`
      and is relayed to the client. */
  function Resume(c: Conn, r: Reply): StepResult {
    StepResult(c.(msg := Some(r.msg)), Some(r), None, Loop)
  }

  /** The bytes written for a reply: every send_reply in handle() uses the
      default `cont=False`, so every reply ends with EOT. */
  function ReplyWire(reply: Option<Reply>, lib: Lib): Option<string> {
    match reply
    case None => None
    case Some(r) => Some(SendReply(r.rc, r.msg, false, lib.dumpStr))
  }

  function PushSeq(push: Option<QEntry>): seq<QEntry> {
    match push
    case None => []
    case Some(e) => [e]
  }

  function OptWire(w: Option<string>): seq<string> {
    match w
    case None => []
    case Some(x) => [x]
  }

  /** What running `handle()`'s loop over a series of reads produces: the
      final state, the frames written, the entries queued, how the loop
      stopped, and how many reads it took. */
  datatype RunResult = RunResult(conn: Conn, wires: seq<string>, pushes: seq<QEntry>, next: Next, used: nat)

  /** `RunResult` r preceded by frames, entries and reads already done. */
  function After(wires: seq<string>, pushes: seq<QEntry>, used: nat, r: RunResult): RunResult {
    RunResult(r.conn, wires + r.wires, pushes + r.pushes, r.next, used + r.used)
  }

  /** `while self._active:` over the reads `evs`, as long as each iteration
      ends by continuing. The loop stops when `_active` is cleared, when an
      iteration breaks, raises or waits on `_myq`, or when the reads run out
      (next == Loop with the connection still active). The shared queue
      grows only by this connection's own entries here. */
  function Run(reg: Registry, svrActive: bool, qsize: nat, c: Conn, evs: seq<Event>, lib: Lib): RunResult
    requires reg.Valid()
    decreases |evs|, 2
  {
    if !c.active || evs == [] then RunResult(c, [], [], Loop, 0)
    else RunFrom(reg, svrActive, qsize, c, evs, lib)
  }

  /** Run, once the loop test has passed and a read is available. */
  function RunFrom(reg: Registry, svrActive: bool, qsize: nat, c: Conn, evs: seq<Event>, lib: Lib): RunResult
    requires reg.Valid() && evs != []
    decreases |evs|, 1
  {
    Continue(reg, svrActive, qsize, evs, lib, HandleStep(reg, svrActive, qsize, c, evs[0], lib))
  }

  /** Run after the iteration on `evs[0]` has produced `s`. */
  function Continue(reg: Registry, svrActive: bool, qsize: nat, evs: seq<Event>, lib: Lib, s: StepResult): RunResult
    requires reg.Valid() && evs != []
    decreases |evs|, 0
  {
    var w := OptWire(ReplyWire(s.reply, lib));
    var p := PushSeq(s.push);
    if s.next != Loop then RunResult(s.conn, w, p, s.next, 1)
    else After(w, p, 1, Run(reg, svrActive, qsize + |p|, s.conn, evs[1..], lib))
  }

  // ---------------------------------------------------------------------
  // Properties of one step
  // ---------------------------------------------------------------------

  /** Input classification: a read that strips to nothing (StripEmptyIff:
      exactly an all-whitespace read, the end of stream included) or to the
      single EOT byte (StripPaddedEot: also one padded with whitespace)
      closes the connection without a reply; one that strips to a doubled
      EOT is not a close request, since strip() keeps control bytes. */
  lemma EmptyOrEotCloses(reg: Registry, svrActive: bool, qsize: nat, c: Conn, raw: seq<byte>, lib: Lib)
    requires reg.Valid()
    requires Strip(raw) == [] || Strip(raw) == [4]
    ensures HandleStep(reg, svrActive, qsize, c, Data(raw), lib) == StepResult(c, None, None, Stop)
  {
  }

  /** A line whose characters are all whitespace to `str.split()` (which
      counts \x1c-\x1f, unlike `bytes.strip()`) gets NG "no command" and
      the connection closes. */
  lemma NoTokensCloses(reg: Registry, qsize: nat, c: Conn, line: seq<byte>, text: string, lib: Lib)
    requires reg.Valid()
    requires |line| > 0 && line != [4]
    requires lib.decode(line) == Text(text)
    requires forall i :: 0 <= i < |text| ==> IsSpace(text[i])
    ensures var s := LineStep(reg, qsize, c, line, lib);
      s.reply == Some(Reply(NG, Str("no command"))) && s.next == Stop && s.push == None
  {
    SplitEmptyIff(text);
  }

  /** An unregistered command name gets NG "<name>: no such command ..
      ignored"; `msg` becomes that text, the connection stays open, keeps
      its flag and channel, and the queue is untouched. */
  lemma UnknownCommandContinues(reg: Registry, qsize: nat, c: Conn, line: seq<byte>, text: string, lib: Lib)
    requires reg.Valid()
    requires |line| > 0 && line != [4]
    requires lib.decode(line) == Text(text)
    requires Split(text) != [] && Split(text)[0] !in reg.table
    ensures var m := Str(Split(text)[0] + ": no such command .. ignored");
      LineStep(reg, qsize, c, line, lib) == StepResult(c.(msg := Some(m)), Some(Reply(NG, m)), None, Loop)
    ensures var s := LineStep(reg, qsize, c, line, lib);
      && s.next == Loop && s.push == None
      && s.conn.active == c.active && s.conn.myq == c.myq
  {
  }

  /** Immediate stage: a final status from the immediate handler (anything
      but CONTINUE and ACCEPT) is replied as it is and nothing is queued;
      only the `exit` command clears the active flag. */
  lemma ImmediateFinalReply(reg: Registry, qsize: nat, c: Conn, args: seq<string>, lib: Lib)
    requires reg.Valid() && |args| >= 1 && args[0] in reg.table
    requires reg.table[args[0]].funcI.Some?
    requires Invoke(reg.table[args[0]].funcI.value, args, reg, lib).Returned?
    requires var rc := Invoke(reg.table[args[0]].funcI.value, args, reg, lib).reply.rc;
      rc != CONTINUE && rc != ACCEPT
    ensures var s := ImmediateStage(reg, qsize, c, args, lib);
      && s.reply == Some(Invoke(reg.table[args[0]].funcI.value, args, reg, lib).reply)
      && s.push == None && s.next == Loop
      && s.conn.myq == c.myq
      && s.conn.active == (c.active && args[0] != CMD_EXIT)
  {
  }

  /** `exit`, on the built-in registry or any registry that keeps its
      built-in immediate handler: OK with no message, and the loop ends
      after this reply. */
  lemma ExitCloses(reg: Registry, qsize: nat, c: Conn, line: seq<byte>, lib: Lib)
    requires reg.Valid()
    requires reg == Builtins() || (CMD_EXIT in reg.table && reg.table[CMD_EXIT].funcI == Some(ExitI))
    requires |line| > 0 && line != [4]
    requires lib.decode(line) == Text(CMD_EXIT)
    ensures var s := LineStep(reg, qsize, c, line, lib);
      s.reply == Some(Reply(OK, Null)) && s.push == None && Ends(s)
  {
    assert CMD_EXIT in reg.table && reg.table[CMD_EXIT].funcI == Some(ExitI) by {
      if reg == Builtins() {
        BuiltinsShape();
      }
    }
    ExitToken();
    KnownName(reg, qsize, c, line, CMD_EXIT, lib);
    ExitFinal(reg, qsize, c, [CMD_EXIT], lib);
  }

  lemma ExitFinal(reg: Registry, qsize: nat, c: Conn, args: seq<string>, lib: Lib)
    requires reg.Valid() && |args| >= 1 && args[0] == CMD_EXIT
    requires CMD_EXIT in reg.table && reg.table[CMD_EXIT].funcI == Some(ExitI)
    ensures var s := ImmediateStage(reg, qsize, c, args, lib);
      s.reply == Some(Reply(OK, Null)) && s.push == None && s.next == Loop && !s.conn.active
  {
    assert Invoke(ExitI, args, reg, lib) == Returned(Reply(OK, Null));
    ImmediateFinalReply(reg, qsize, c, args, lib);
  }

  lemma ExitToken()
    ensures Split(CMD_EXIT) == [CMD_EXIT]
  {
    assert CMD_EXIT == ['e', 'x', 'i', 't'];
    PrintableIsToken(CMD_EXIT);
    SplitSingle(CMD_EXIT);
  }

  lemma KnownName(reg: Registry, qsize: nat, c: Conn, line: seq<byte>, text: string, lib: Lib)
    requires reg.Valid()
    requires |line| > 0 && line != [4]
    requires lib.decode(line) == Text(text)
    requires Split(text) != [] && Split(text)[0] in reg.table
    ensures LineStep(reg, qsize, c, line, lib) == ImmediateStage(reg, qsize, c, Split(text), lib)
  {
  }

  /** No queued handler: OK is replied with the immediate handler's message
      (or the "func_q is None" text when that message is None); nothing is
      queued. */
  lemma NoQueuedHandlerRepliesOk(reg: Registry, qsize: nat, c: Conn, args: seq<string>, lib: Lib)
    requires reg.Valid() && |args| >= 1 && args[0] in reg.table
    requires reg.table[args[0]].funcQ.None?
    requires reg.table[args[0]].funcI.Some?
    requires Invoke(reg.table[args[0]].funcI.value, args, reg, lib).Returned?
    ensures var r := Invoke(reg.table[args[0]].funcI.value, args, reg, lib).reply;
      var s := ImmediateStage(reg, qsize, c, args, lib);
      && s.push == None && s.next == Loop
      && (r.rc == CONTINUE || r.rc == ACCEPT ==>
            s.reply == Some(Reply(OK, if r.msg.Null? then Str(args[0] + ": func_q is None .. ignored") else r.msg)))
  {
  }

  /** Backpressure: with more than 100 entries queued, the submission is
      refused with NG "qsize=N: server busy" and nothing is appended; with
      100 or fewer it is appended at the tail with the connection's channel. */
  lemma Backpressure(reg: Registry, qsize: nat, c: Conn, args: seq<string>)
    requires |args| >= 1 && args[0] in reg.table && reg.table[args[0]].funcQ.Some?
    ensures var s := QueueStage(reg, qsize, c, args);
      && (qsize > 100 ==>
            s.reply == Some(Reply(NG, Str("qsize=" + NatToString(qsize) + ": server busy")))
            && s.push == None && s.next == Loop)
      && (qsize <= 100 ==> s.push == Some(QEntry(args, c.myq)))
  {
  }

  /** `_myq` is never restored: a step leaves it as it was or sets it to None
      (only an ACCEPT does), so once None it stays None, and a connection
      without a channel never waits. */
  lemma ChannelOnlyDropped(reg: Registry, svrActive: bool, qsize: nat, c: Conn, ev: Event, lib: Lib)
    requires reg.Valid()
    ensures var s := HandleStep(reg, svrActive, qsize, c, ev, lib);
      && (s.conn.myq == c.myq || s.conn.myq == None)
      && (c.myq == None ==> s.conn.myq == None && s.next != Await)
  {
    match ev
    case Timeout =>
    case SockError(_) =>
    case Data(raw) =>
      var line := Strip(raw);
      if |line| != 0 && line != [4] && lib.decode(line).Text? {
        var args := Split(lib.decode(line).s);
        if args != [] && args[0] in reg.table {
          ImmediateChannel(reg, qsize, c, args, lib);
        }
      }
  }

  lemma ImmediateChannel(reg: Registry, qsize: nat, c: Conn, args: seq<string>, lib: Lib)
    requires |args| >= 1 && args[0] in reg.table && reg.Valid()
    ensures var s := ImmediateStage(reg, qsize, c, args, lib);
      && (s.conn.myq == c.myq || s.conn.myq == None)
      && (s.next == Await ==>
            && s.conn.myq.Some? && s.conn.myq == c.myq
            && s.reply == None && s.push.Some? && s.push.value.chan == s.conn.myq)
      && (s.next == Loop ==> s.reply.Some?)
  {
    var e := reg.table[args[0]];
    if e.funcI.None? {
      QueueShape(reg, qsize, c, args);
    } else {
      var o := Invoke(e.funcI.value, args, reg, lib);
      if o.Returned? && (o.reply.rc == CONTINUE || o.reply.rc == ACCEPT) {
        var c1 := c.(msg := Some(o.reply.msg), active := if args[0] == CMD_EXIT then false else c.active);
        var c2 := if o.reply.rc == ACCEPT then c1.(myq := None) else c1;
        assert ImmediateStage(reg, qsize, c, args, lib) == QueueStage(reg, qsize, c2, args);
        QueueShape(reg, qsize, c2, args);
      }
    }
  }

  /** The queued stage waits only with a channel, after appending the entry
      that carries it and before any reply; when it goes on it has replied. */
  lemma QueueShape(reg: Registry, qsize: nat, c: Conn, args: seq<string>)
    requires |args| >= 1 && args[0] in reg.table
    ensures var s := QueueStage(reg, qsize, c, args);
      && (s.next == Await ==> s.reply == None && c.myq.Some? && s.push == Some(QEntry(args, c.myq)))
      && (s.next == Loop ==> s.reply.Some?)
  {
  }

  /** A step waits only after queueing exactly one entry that carries the
      connection's channel, and with no reply sent yet; every other step that
      handled a command line and goes on looping has sent exactly one reply. */
  lemma WaitOnlyAfterSubmit(reg: Registry, svrActive: bool, qsize: nat, c: Conn, ev: Event, lib: Lib)
    requires reg.Valid()
    ensures var s := HandleStep(reg, svrActive, qsize, c, ev, lib);
      && (s.next == Await ==>
            && s.reply == None && s.conn.myq.Some?
            && s.push.Some? && s.push.value.chan == s.conn.myq)
      && (s.next == Loop && ev.Data? ==> s.reply.Some?)
  {
    if ev.Data? {
      LineWait(reg, qsize, c, Strip(ev.raw), lib);
    }
  }

  lemma LineWait(reg: Registry, qsize: nat, c: Conn, line: seq<byte>, lib: Lib)
    requires reg.Valid()
    ensures var s := LineStep(reg, qsize, c, line, lib);
      && (s.next == Await ==>
            && s.reply == None && s.conn.myq.Some?
            && s.push.Some? && s.push.value.chan == s.conn.myq)
      && (s.next == Loop ==> s.reply.Some?)
  {
    var s := LineStep(reg, qsize, c, line, lib);
    if |line| == 0 || line == [4] {
      assert s.next == Stop;
    } else if lib.decode(line).DecodeError? {
      assert s.next == Stop;
    } else {
      var args := Split(lib.decode(line).s);
      if args == [] {
        assert s.next == Stop;
      } else if args[0] !in reg.table {
        assert s.next == Loop && s.reply.Some?;
      } else {
        ImmediateChannel(reg, qsize, c, args, lib);
        assert s == ImmediateStage(reg, qsize, c, args, lib);
      }
    }
  }

  /** The loop takes reads until it stops: it either uses them all with
      the connection still active, or stops at its last read by ending or
      by waiting on `_myq`. */
  lemma RunStopsOnlyWhenDone(reg: Registry, svrActive: bool, qsize: nat, c: Conn, evs: seq<Event>, lib: Lib)
    requires reg.Valid()
    ensures var r := Run(reg, svrActive, qsize, c, evs, lib);
      && r.used <= |evs|
      && (r.used == 0 <==> !c.active || evs == [])
      && (r.next == Loop && r.conn.active ==> r.used == |evs|)
      && (r.used < |evs| ==> Halted(r.conn, r.next) || r.next == Await)
  {
    if c.active && evs != [] {
      var s := RunIsContinue(reg, svrActive, qsize, c, evs, lib);
      ContinueStopsOnlyWhenDone(reg, svrActive, qsize, evs, lib, s);
    }
  }

  lemma {:induction false} ContinueStopsOnlyWhenDone(reg: Registry, svrActive: bool, qsize: nat, evs: seq<Event>, lib: Lib, s: StepResult)
    requires reg.Valid() && evs != []
    ensures var r := Continue(reg, svrActive, qsize, evs, lib, s);
      && 1 <= r.used <= |evs|
      && (r.next == Loop && r.conn.active ==> r.used == |evs|)
      && (r.used < |evs| ==> Halted(r.conn, r.next) || r.next == Await)
    decreases |evs|
  {
    var q := qsize + |PushSeq(s.push)|;
    if s.next == Loop && s.conn.active && |evs| > 1 {
      var rest := evs[1..];
      var s' := RunIsContinue(reg, svrActive, q, s.conn, rest, lib);
      ContinueStopsOnlyWhenDone(reg, svrActive, q, rest, lib, s');
    }
  }

  /** Every frame in `ws` parses back as one complete, final reply. */
  predicate FramesComplete(ws: seq<string>) {
    forall i :: 0 <= i < |ws| ==> ParseFrame(ws[i]).Some? && !ParseFrame(ws[i]).value.1
  }

  /** Every frame the loop writes parses back as one complete reply with the
      end-of-transmission marker, provided the string encoder never emits a
      line break or EOT. */
  lemma RunFramesComplete(reg: Registry, svrActive: bool, qsize: nat, c: Conn, evs: seq<Event>, lib: Lib)
    requires reg.Valid() && DumpStrSafe(lib.dumpStr)
    ensures FramesComplete(Run(reg, svrActive, qsize, c, evs, lib).wires)
  {
    if c.active && evs != [] {
      var s := RunIsContinue(reg, svrActive, qsize, c, evs, lib);
      ContinueFramesComplete(reg, svrActive, qsize, evs, lib, s);
    }
  }

  lemma {:induction false} ContinueFramesComplete(reg: Registry, svrActive: bool, qsize: nat, evs: seq<Event>, lib: Lib, s: StepResult)
    requires reg.Valid() && evs != [] && DumpStrSafe(lib.dumpStr)
    ensures FramesComplete(Continue(reg, svrActive, qsize, evs, lib, s).wires)
    decreases |evs|
  {
    ContinueUnfold(reg, svrActive, qsize, evs, lib, s);
    var w := OptWire(ReplyWire(s.reply, lib));
    FramesOfReply(s.reply, lib);
    if s.next == Loop {
      var q := qsize + |PushSeq(s.push)|;
      var rest := evs[1..];
      var r := Run(reg, svrActive, q, s.conn, rest, lib);
      if s.conn.active && rest != [] {
        var s' := RunIsContinue(reg, svrActive, q, s.conn, rest, lib);
        ContinueFramesComplete(reg, svrActive, q, rest, lib, s');
      } else {
        assert r.wires == [];
      }
      FramesConcat(w, r.wires);
    }
  }


  lemma FramesOfReply(reply: Option<Reply>, lib: Lib)
    requires DumpStrSafe(lib.dumpStr)
    ensures FramesComplete(OptWire(ReplyWire(reply, lib)))
  {
    if reply.Some? {
      ReplyFrameRoundTrip(reply.value.rc, reply.value.msg, false, lib.dumpStr);
    }
  }

  lemma FramesConcat(a: seq<string>, b: seq<string>)
    requires FramesComplete(a) && FramesComplete(b)
    ensures FramesComplete(a + b)
  {
    forall i | 0 <= i < |a + b|
      ensures ParseFrame((a + b)[i]).Some? && !ParseFrame((a + b)[i]).value.1
    {
      if i < |a| {
        assert (a + b)[i] == a[i];
      } else {
        assert (a + b)[i] == b[i - |a|];
      }
    }
  }

  /** After an ACCEPT (for instance `shutdown9999 10`) has cleared `_myq`,
      a later `sleep` on the same connection is not waited for: OK is
      replied at once with the immediate handler's message while the
      entry is queued. */
  lemma SleepAfterAcceptDoesNotWait(qsize: nat, c: Conn, args: seq<string>, lib: Lib)
    requires c.myq == None && qsize <= 100
    requires |args| >= 2 && args[0] == "sleep" && lib.parseFloat(args[1]).Float?
    ensures var s := ImmediateStage(Builtins(), qsize, c, args, lib);
      && s.reply == Some(Reply(OK, Str("sleep_sec=" + lib.parseFloat(args[1]).repr)))
      && s.push == Some(QEntry(args, None))
      && s.next == Loop
  {
    BuiltinsShape();
  }

  /** ACCEPT: with a queued handler and room in the queue, the connection
      drops its channel, queues the entry without one, and replies OK with
      the immediate handler's message at once; the loop goes on. */
  lemma AcceptRepliesAtOnce(reg: Registry, qsize: nat, c: Conn, args: seq<string>, lib: Lib)
    requires reg.Valid() && |args| >= 1 && args[0] in reg.table
    requires reg.table[args[0]].funcI.Some? && reg.table[args[0]].funcQ.Some?
    requires Invoke(reg.table[args[0]].funcI.value, args, reg, lib).Returned?
    requires Invoke(reg.table[args[0]].funcI.value, args, reg, lib).reply.rc == ACCEPT
    requires qsize <= 100
    ensures var r := Invoke(reg.table[args[0]].funcI.value, args, reg, lib).reply;
      var s := ImmediateStage(reg, qsize, c, args, lib);
      && s.conn.myq == None && s.conn.msg == Some(r.msg)
      && s.push == Some(QEntry(args, None))
      && s.reply == Some(Reply(OK, r.msg))
      && s.next == Loop
  {
  }

  /** CONTINUE: with a queued handler, room in the queue and a channel, the
      entry is queued with the connection's channel and the loop blocks on
      it without replying. */
  lemma ContinueWaits(reg: Registry, qsize: nat, c: Conn, args: seq<string>, lib: Lib)
    requires reg.Valid() && |args| >= 1 && args[0] in reg.table
    requires reg.table[args[0]].funcI.Some? && reg.table[args[0]].funcQ.Some?
    requires Invoke(reg.table[args[0]].funcI.value, args, reg, lib).Returned?
    requires Invoke(reg.table[args[0]].funcI.value, args, reg, lib).reply.rc == CONTINUE
    requires c.myq.Some? && qsize <= 100
    ensures var r := Invoke(reg.table[args[0]].funcI.value, args, reg, lib).reply;
      var s := ImmediateStage(reg, qsize, c, args, lib);
      && s.conn.myq == c.myq && s.conn.msg == Some(r.msg)
      && s.push == Some(QEntry(args, c.myq))
      && s.reply == None
      && s.next == Await
  {
  }

  /** `sleep` with a duration `time.sleep` refuses (`sleep -1`): the
      immediate handler accepts it, so the connection queues it with its
      channel and blocks; the worker then dies on the entry without posting,
      so nothing ever arrives on the channel. */
  lemma RefusedSleepStrandsClient(qsize: nat, c: Conn, args: seq<string>, lib: Lib)
    requires c.myq.Some? && qsize <= 100
    requires |args| >= 2 && args[0] == "sleep" && lib.parseFloat(args[1]).Float?
    requires lib.sleep(lib.parseFloat(args[1]).repr).Some?
    ensures var s := ImmediateStage(Builtins(), qsize, c, args, lib);
      && s.next == Await && s.reply == None
      && s.push == Some(QEntry(args, c.myq))
      && WorkerStepSpec(Builtins(), s.push.value, lib) == Crashed(lib.sleep(lib.parseFloat(args[1]).repr).value)
  {
    BuiltinsShape();
  }

  /** While the server is active, a run of receive timeouts uses every read
      and neither replies nor queues anything. */
  lemma {:induction false} TimeoutsWhileActive(reg: Registry, qsize: nat, c: Conn, evs: seq<Event>, lib: Lib)
    requires reg.Valid() && c.active
    requires forall i :: 0 <= i < |evs| ==> evs[i] == Timeout
    ensures Run(reg, true, qsize, c, evs, lib) == RunResult(c, [], [], Loop, |evs|)
    decreases |evs|
  {
    if evs != [] {
      var s := HandleStep(reg, true, qsize, c, evs[0], lib);
      assert s == StepResult(c, None, None, Loop);
      assert Run(reg, true, qsize, c, evs, lib) == Continue(reg, true, qsize, evs, lib, s);
      ContinueUnfold(reg, true, qsize, evs, lib, s);
      TimeoutsWhileActive(reg, qsize, c, evs[1..], lib);
      AfterNothing(Run(reg, true, qsize, c, evs[1..], lib));
    }
  }

  /** Once the server is no longer active, the first receive timeout
      replies NG "server is dead !" and ends the loop. */
  lemma TimeoutAfterShutdown(reg: Registry, qsize: nat, c: Conn, evs: seq<Event>, lib: Lib)
    requires reg.Valid() && c.active && evs != [] && evs[0] == Timeout
    ensures Run(reg, false, qsize, c, evs, lib)
      == RunResult(c, [SendReply(NG, Str("server is dead !"), false, lib.dumpStr)], [], Stop, 1)
  {
    var s := HandleStep(reg, false, qsize, c, evs[0], lib);
    assert s == StepResult(c, Some(Reply(NG, Str("server is dead !"))), None, Stop);
    assert Run(reg, false, qsize, c, evs, lib) == Continue(reg, false, qsize, evs, lib, s);
    ContinueUnfold(reg, false, qsize, evs, lib, s);
  }

  /** A line that is one token naming no registered command gets NG
      "<name>: no such command .. ignored", and the loop goes on. */
  lemma UnknownToken(reg: Registry, svrActive: bool, qsize: nat, c: Conn, raw: seq<byte>, w: string, lib: Lib)
    requires reg.Valid()
    requires Strip(raw) == raw && raw != [] && raw != [4]
    requires lib.decode(raw) == Text(w) && IsToken(w) && w !in reg.table
    ensures var m := Str(w + ": no such command .. ignored");
      HandleStep(reg, svrActive, qsize, c, Data(raw), lib) == StepResult(c.(msg := Some(m)), Some(Reply(NG, m)), None, Loop)
  {
    SplitSingle(w);
    UnknownCommandContinues(reg, qsize, c, raw, w, lib);
  }

  /** Control bytes other than whitespace are not stripped: a doubled EOT is
      taken as a command name, answered NG when no such command is
      registered (as in the built-in registry, EotNotBuiltin), and the
      connection stays open. */
  lemma DoubledEotIsACommand(reg: Registry, svrActive: bool, qsize: nat, c: Conn, raw: seq<byte>, w: string, lib: Lib)
    requires reg.Valid() && w !in reg.table
    requires |raw| == 2 && raw[0] == 4 && raw[1] == 4
    requires |w| == 2 && w[0] == EOT && w[1] == EOT
    requires lib.decode(raw) == Text(w)
    ensures var s := HandleStep(reg, svrActive, qsize, c, Data(raw), lib);
      && s.reply == Some(Reply(NG, Str(w + ": no such command .. ignored")))
      && s.next == Loop && s.push == None
  {
    EotBytesKept(raw);
    EotCharsToken(w);
    UnknownToken(reg, svrActive, qsize, c, raw, w, lib);
  }

  lemma EotBytesKept(raw: seq<byte>)
    requires |raw| == 2 && raw[0] == 4 && raw[1] == 4
    ensures Strip(raw) == raw && raw != [4]
  {
    StripEmptyIff(raw);
  }

  lemma EotCharsToken(w: string)
    requires |w| == 2 && w[0] == EOT && w[1] == EOT
    ensures IsToken(w)
  {
  }

  /** The built-in registry has no command named by a doubled EOT. */
  lemma EotNotBuiltin(w: string)
    requires |w| == 2 && w[0] == EOT && w[1] == EOT
    ensures w !in Builtins().table
  {
    BuiltinsShape();
    assert w !in Builtins().order;
  }

  /** HandleStep by the kind of read. */
  lemma HandleCases(reg: Registry, svrActive: bool, qsize: nat, c: Conn, ev: Event, lib: Lib)
    requires reg.Valid()
    ensures var s := HandleStep(reg, svrActive, qsize, c, ev, lib);
      && (ev.Timeout? && svrActive ==> s == StepResult(c, None, None, Loop))
      && (ev.Timeout? && !svrActive ==> s == StepResult(c, Some(Reply(NG, Str("server is dead !"))), None, Stop))
      && (ev.SockError? ==>
            s == StepResult(c.(msg := Some(Str("error " + ev.desc))), Some(Reply(NG, Str("error " + ev.desc))), None, Stop))
      && (ev.Data? ==> s == LineStep(reg, qsize, c, Strip(ev.raw), lib))
  {
  }

  /** An active run with a read to take is the continuation of some step. */
  lemma RunIsContinue(reg: Registry, svrActive: bool, qsize: nat, c: Conn, evs: seq<Event>, lib: Lib)
    returns (s: StepResult)
    requires reg.Valid() && c.active && evs != []
    ensures Run(reg, svrActive, qsize, c, evs, lib) == Continue(reg, svrActive, qsize, evs, lib, s)
  {
    s := HandleStep(reg, svrActive, qsize, c, evs[0], lib);
  }

  /** Continue's definition, for a step result that is not unfolded further. */
  lemma ContinueUnfold(reg: Registry, svrActive: bool, qsize: nat, evs: seq<Event>, lib: Lib, s: StepResult)
    requires reg.Valid() && evs != []
    ensures Continue(reg, svrActive, qsize, evs, lib, s)
      == if s.next != Loop then RunResult(s.conn, OptWire(ReplyWire(s.reply, lib)), PushSeq(s.push), s.next, 1)
         else After(OptWire(ReplyWire(s.reply, lib)), PushSeq(s.push), 1,
                    Run(reg, svrActive, qsize + |PushSeq(s.push)|, s.conn, evs[1..], lib))
  {
  }

  lemma AfterNothing(r: RunResult)
    ensures After([], [], 0, r) == r
  {
    assert [] + r.wires == r.wires && [] + r.pushes == r.pushes;
  }

  lemma AfterAfter(w1: seq<string>, p1: seq<QEntry>, u1: nat, w2: seq<string>, p2: seq<QEntry>, u2: nat, r: RunResult)
    ensures After(w1, p1, u1, After(w2, p2, u2, r)) == After(w1 + w2, p1 + p2, u1 + u2, r)
  {
    assert w1 + (w2 + r.wires) == (w1 + w2) + r.wires;
    assert p1 + (p2 + r.pushes) == (p1 + p2) + r.pushes;
  }

  // ---------------------------------------------------------------------
  // The handler object
  // ---------------------------------------------------------------------

  /** Class CmdServerHandler: one connection's `_active` flag, its reply
      queue `_myq`, and the local `msg` that handle() carries from one
      iteration to the next; `waiting` is set while blocked in `_myq.get()`. */
  class CmdServerHandler {
    var active: bool
    var myq: Option<ChanId>
    var msg: Option<Json>
    var waiting: bool
    const chan: ChanId

    function State(): Conn
      reads this
    {
      Conn(active, myq, msg)
    }

    /** `__init__` followed by `setup()`: a fresh reply queue, `_active` set. */
    constructor (chan: ChanId)
      ensures State() == Conn(true, Some(chan), None) && !waiting && this.chan == chan
    {
      this.chan := chan;
      active := true;
      myq := Some(chan);
      msg := None;
      waiting := false;
    }

    /** `finish()`: clears `_active`. */
    method Finish()
      modifies this
      ensures !active && myq == old(myq) && msg == old(msg) && waiting == old(waiting)
    {
      active := false;
    }

    /** The reply of one step, written to the client. */
    method SendReply(rc: Rc, m: Json, lib: Lib) returns (wire: Option<string>)
      ensures wire == ReplyWire(Some(Reply(rc, m)), lib)
    {
      wire := Some(Wire.SendReply(rc, m, false, lib.dumpStr));
    }

    /** The queued stage on the object: reply, refuse, or put `(args, _myq)`. */
    method RunQueueStage(app: CmdServerApp, args: seq<string>, lib: Lib) returns (wire: Option<string>, next: Next)
      requires app.Valid() && |args| >= 1 && args[0] in app.cmd.cmds.table
      modifies this, app
      ensures app.Valid() && app.consumed == old(app.consumed) && app.workerAlive == old(app.workerAlive)
      ensures var s := QueueStage(old(app.cmd.cmds), old(|app.cmdq|), old(State()), args);
        && State() == s.conn && next == s.next && wire == ReplyWire(s.reply, lib)
        && app.cmdq == old(app.cmdq) + PushSeq(s.push)
        && waiting == old(waiting)
    {
      if app.cmd.cmds.table[args[0]].funcQ.None? {
        var msg2 := args[0] + ": func_q is None .. ignored";
        if msg.None? {
          return None, Raise(UNBOUND_MSG);
        }
        if msg.value.Null? {
          wire := SendReply(OK, Str(msg2), lib);
        } else {
          wire := SendReply(OK, msg.value, lib);
        }
        return wire, Loop;
      }
      var qsize := app.QSize();
      if qsize > QUEUE_CEILING {
        msg := Some(Str("qsize=" + NatToString(qsize) + ": server busy"));
        wire := SendReply(NG, msg.value, lib);
        return wire, Loop;
      }
      app.Submit(QEntry(args, myq));
      if myq.None? {
        if msg.None? {
          return None, Raise(UNBOUND_MSG);
        }
        wire := SendReply(OK, msg.value, lib);
        return wire, Loop;
      }
      return None, Await;
    }

    /** The handling of one stripped read, on the object. */
    method RunLine(app: CmdServerApp, line: seq<byte>, lib: Lib) returns (wire: Option<string>, next: Next)
      requires app.Valid()
      modifies this, app
      ensures app.Valid() && app.consumed == old(app.consumed) && app.workerAlive == old(app.workerAlive)
      ensures var s := LineStep(old(app.cmd.cmds), old(|app.cmdq|), old(State()), line, lib);
        && State() == s.conn && next == s.next && wire == ReplyWire(s.reply, lib)
        && app.cmdq == old(app.cmdq) + PushSeq(s.push)
        && waiting == old(waiting)
    {
      if |line| == 0 || line == [4] {
        return None, Stop;
      }
      var decoded := lib.decode(line);
      if decoded.DecodeError? {
        msg := Some(Str(decoded.desc + " .. ignored"));
        wire := SendReply(NG, msg.value, lib);
        return wire, Stop;
      }
      var args := Split(decoded.s);
      if |args| == 0 {
        msg := Some(Str("no command"));
        wire := SendReply(NG, msg.value, lib);
        return wire, Stop;
      }
      var reg := app.cmd.cmds;
      if args[0] !in reg.table {
        msg := Some(Str(args[0] + ": no such command .. ignored"));
        wire := SendReply(NG, msg.value, lib);
        return wire, Loop;
      }
      assert LineStep(reg, |app.cmdq|, State(), line, lib) == ImmediateStage(reg, |app.cmdq|, State(), args, lib);
      wire, next := RunImmediate(app, args, lib);
    }

    /** The immediate handler, then the queued stage, on the object. */
    method RunImmediate(app: CmdServerApp, args: seq<string>, lib: Lib) returns (wire: Option<string>, next: Next)
      requires app.Valid() && |args| >= 1 && args[0] in app.cmd.cmds.table
      modifies this, app
      ensures app.Valid() && app.consumed == old(app.consumed) && app.workerAlive == old(app.workerAlive)
      ensures var s := ImmediateStage(old(app.cmd.cmds), old(|app.cmdq|), old(State()), args, lib);
        && State() == s.conn && next == s.next && wire == ReplyWire(s.reply, lib)
        && app.cmdq == old(app.cmdq) + PushSeq(s.push)
        && waiting == old(waiting)
    {
      var reg := app.cmd.cmds;
      var fi := reg.table[args[0]].funcI;
      if fi.Some? {
        var o := Invoke(fi.value, args, reg, lib);
        if o.Raised? {
          return None, Raise(o.desc);
        }
        var r := o.reply;
        msg := Some(r.msg);
        if args[0] == CMD_EXIT {
          active := false;
        }
        if r.rc != CONTINUE && r.rc != ACCEPT {
          wire := SendReply(r.rc, r.msg, lib);
          return wire, Loop;
        }
        if r.rc == ACCEPT {
          myq := None;
        }
      }
      wire, next := RunQueueStage(app, args, lib);
    }

    /** One iteration of `handle()`'s loop, up to a reply or the wait on
        `_myq`: the new state, the bytes written and the queue are exactly
        those HandleStep describes. */
    method Handle(app: CmdServerApp, ev: Event, lib: Lib) returns (wire: Option<string>, next: Next)
      requires app.Valid() && !waiting
      modifies this, app
      ensures app.Valid() && app.consumed == old(app.consumed) && app.workerAlive == old(app.workerAlive)
      ensures var s := HandleStep(old(app.cmd.cmds), old(app.svr.active), old(|app.cmdq|), old(State()), ev, lib);
        && State() == s.conn && next == s.next && wire == ReplyWire(s.reply, lib)
        && app.cmdq == old(app.cmdq) + PushSeq(s.push)
      ensures waiting <==> next == Await
    {
      ghost var reg, svrActive, qsize, c := app.cmd.cmds, app.svr.active, |app.cmdq|, State();
      HandleCases(reg, svrActive, qsize, c, ev, lib);
      match ev {
        case Timeout =>
          if app.svr.active {
            return None, Loop;
          }
          wire := SendReply(NG, Str("server is dead !"), lib);
          return wire, Stop;
        case SockError(d) =>
          msg := Some(Str("error " + d));
          wire := SendReply(NG, msg.value, lib);
          return wire, Stop;
        case Data(raw) =>
          wire, next := RunLine(app, Strip(raw), lib);
          waiting := next == Await;
      }
    }

    /** One iteration of `handle()`'s loop on the first of the reads `rest`:
        the run over `rest` is Continue applied to the result `s` of this
        iteration, and the object's new state is that of `s`. */
    method Iterate(app: CmdServerApp, rest: seq<Event>, lib: Lib) returns (w: Option<string>, nx: Next, ghost s: StepResult)
      requires app.Valid() && !waiting && active && rest != []
      modifies this, app
      ensures app.Valid() && app.consumed == old(app.consumed) && app.workerAlive == old(app.workerAlive)
      ensures app.cmd.cmds == old(app.cmd.cmds) && app.svr.active == old(app.svr.active)
      ensures Run(app.cmd.cmds, app.svr.active, old(|app.cmdq|), old(State()), rest, lib)
        == Continue(app.cmd.cmds, app.svr.active, old(|app.cmdq|), rest, lib, s)
      ensures State() == s.conn && nx == s.next && w == ReplyWire(s.reply, lib)
      ensures app.cmdq == old(app.cmdq) + PushSeq(s.push)
      ensures waiting <==> nx == Await
    {
      s := HandleStep(app.cmd.cmds, app.svr.active, |app.cmdq|, State(), rest[0], lib);
      w, nx := Handle(app, rest[0], lib);
    }

    /** `handle()`'s loop, run over the reads `evs` until it stops (see Run). */
    method Serve(app: CmdServerApp, evs: seq<Event>, lib: Lib) returns (wires: seq<string>, next: Next, used: nat)
      requires app.Valid() && !waiting
      modifies this, app
      ensures app.Valid() && app.consumed == old(app.consumed) && app.workerAlive == old(app.workerAlive)
      ensures var r := Run(old(app.cmd.cmds), old(app.svr.active), old(|app.cmdq|), old(State()), evs, lib);
        && State() == r.conn && wires == r.wires && next == r.next && used == r.used
        && app.cmdq == old(app.cmdq) + r.pushes
      ensures waiting <==> next == Await
    {
      ghost var reg := app.cmd.cmds;
      ghost var svrActive := app.svr.active;
      ghost var total := Run(reg, svrActive, |app.cmdq|, State(), evs, lib);
      ghost var pushes: seq<QEntry> := [];
      wires, next, used := [], Loop, 0;
      assert evs[0..] == evs;
      AfterNothing(total);
      while active && used < |evs|
        invariant used <= |evs|
        invariant app.Valid() && app.consumed == old(app.consumed) && app.workerAlive == old(app.workerAlive)
        invariant app.cmdq == old(app.cmdq) + pushes
        invariant !waiting && next == Loop
        invariant app.cmd.cmds == reg && app.svr.active == svrActive
        invariant total == After(wires, pushes, used, Run(reg, svrActive, |app.cmdq|, State(), evs[used..], lib))
        decreases |evs| - used
      {
        assert evs[used..][1..] == evs[used + 1..];
        ghost var q := |app.cmdq|;
        var w, nx, s := Iterate(app, evs[used..], lib);
        ContinueUnfold(reg, svrActive, q, evs[used..], lib, s);
        ghost var p := PushSeq(s.push);
        Associative(old(app.cmdq), pushes, p);
        if nx == Loop {
          AfterAfter(wires, pushes, used, OptWire(w), p, 1, Run(reg, svrActive, q + |p|, State(), evs[used + 1..], lib));
        }
        wires, pushes, used := wires + OptWire(w), pushes + p, used + 1;
        if nx != Loop {
          next := nx;
          return;
        }
      }
    }

    /** `rc, msg = self._myq.get()` followed by `send_reply(rc, msg)`: the
        posted result is relayed and the loop goes on. */
    method Deliver(r: Reply, lib: Lib) returns (wire: string)
      requires waiting
      modifies this
      ensures State() == Resume(old(State()), r).conn && !waiting
      ensures Some(wire) == ReplyWire(Resume(old(State()), r).reply, lib)
    {
      msg := Some(r.msg);
      waiting := false;
      wire := Wire.SendReply(r.rc, r.msg, false, lib.dumpStr);
    }
  }
}
