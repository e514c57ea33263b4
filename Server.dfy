/** CmdServer and CmdServerApp: the shared command queue, one iteration of
    the single worker that executes queued handlers, and the shutdown drain. */
module Server {
  import opened Types
  import opened Commands

  /** What the worker computes for one queue entry, before posting it:
      NG when the name is not registered, NG when it has no queued handler,
      otherwise whatever the queued handler does. */
  function ResolveQueued(reg: Registry, args: seq<string>, lib: Lib): (o: Outcome)
    requires |args| >= 1 && reg.Valid()
    ensures args[0] !in reg.table ==> o == Returned(Reply(NG, Str(args[0] + ": no such command .. ignored")))
    ensures args[0] in reg.table && reg.table[args[0]].funcQ.None? ==>
      o == Returned(Reply(NG, Str(args[0] + ": no such func_q .. ignored")))
    ensures args[0] in reg.table && reg.table[args[0]].funcQ.Some? ==>
      o == Invoke(reg.table[args[0]].funcQ.value, args, reg, lib)
    ensures o.Raised? ==> args[0] in reg.table && reg.table[args[0]].funcQ.Some?
  {
    if args[0] in reg.table then
      match reg.table[args[0]].funcQ
      case Some(h) => Invoke(h, args, reg, lib)
      case None => Returned(Reply(NG, Str(args[0] + ": no such func_q .. ignored")))
    else Returned(Reply(NG, Str(args[0] + ": no such command .. ignored")))
  }

  /** Result of one iteration of `cmd_worker`'s loop. */
  datatype WorkerOut =
    | Idle                                              // queue empty: blocked in get()
    | Done(post: Option<(ChanId, Reply)>, stop: bool)   // result posted (if any); loop left?
    | Crashed(desc: string)                             // the handler raised: the thread dies

  /** The worker's treatment of one entry: it posts the result to the
      entry's reply channel if and only if it has one, and it leaves its loop
      exactly after the shutdown command. */
  function WorkerStepSpec(reg: Registry, e: QEntry, lib: Lib): (o: WorkerOut)
    requires |e.args| >= 1 && reg.Valid()
    ensures !o.Idle?
    ensures o.Done? ==> (o.post.Some? <==> e.chan.Some?)
    ensures o.Done? && o.post.Some? ==> o.post.value.0 == e.chan.value
    ensures o.Done? ==> (o.stop <==> e.args[0] == CMD_SHUTDOWN)
    ensures o.Crashed? <==> ResolveQueued(reg, e.args, lib).Raised?
    ensures o.Done? && o.post.Some? ==> o.post.value.1 == ResolveQueued(reg, e.args, lib).reply
  {
    match ResolveQueued(reg, e.args, lib)
    case Raised(d) => Crashed(d)
    case Returned(r) =>
      Done(if e.chan.Some? then Some((e.chan.value, r)) else None, e.args[0] == CMD_SHUTDOWN)
  }

  /** The reply every entry still queued at shutdown receives. */
  const TERMINATED: Reply := Reply(NG, Str("terminated"))

  /** The posts `CmdServerApp.end` makes while emptying the queue. */
  function DrainPosts(q: seq<QEntry>): seq<(ChanId, Reply)> {
    if q == [] then []
    else (if q[0].chan.Some? then [(q[0].chan.value, TERMINATED)] else []) + DrainPosts(q[1..])
  }

  /** The reply channels of the queued entries that have one, in queue order. */
  function Channels(q: seq<QEntry>): seq<ChanId> {
    if q == [] then [] else (if q[0].chan.Some? then [q[0].chan.value] else []) + Channels(q[1..])
  }

  lemma {:induction false} DrainPostsSnoc(q: seq<QEntry>, e: QEntry)
    ensures DrainPosts(q + [e]) == DrainPosts(q) + (if e.chan.Some? then [(e.chan.value, TERMINATED)] else [])
  {
    if q == [] {
      SnocEmpty(e);
    } else {
      var head := if q[0].chan.Some? then [(q[0].chan.value, TERMINATED)] else [];
      var last := if e.chan.Some? then [(e.chan.value, TERMINATED)] else [];
      SnocTail(q, e);
      DrainPostsSnoc(q[1..], e);
      assert DrainPosts(q + [e]) == head + DrainPosts(q[1..] + [e]);
      Associative(head, DrainPosts(q[1..]), last);
    }
  }

  /** Moving the head of `q` to the end of `a` keeps the concatenation. */
  lemma MoveHead<T>(a: seq<T>, q: seq<T>)
    requires q != []
    ensures a + q == (a + [q[0]]) + q[1..]
  {
    assert q == [q[0]] + q[1..];
  }

  lemma SnocEmpty<T>(e: T)
    ensures [e][1..] == [] && ([] + [e])[0] == e && [] + [e] == [e]
  {
  }

  lemma SnocTail<T>(q: seq<T>, e: T)
    requires q != []
    ensures (q + [e])[1..] == q[1..] + [e] && (q + [e])[0] == q[0]
  {
  }

  /** Shutdown drain: the i-th post goes to the i-th pending reply channel in
      queue order and carries (NG, 'terminated'), so every entry with a
      channel gets exactly one post and entries without one get none. */
  lemma {:induction false} DrainPostsInOrder(q: seq<QEntry>)
    ensures |DrainPosts(q)| == |Channels(q)|
    ensures forall i :: 0 <= i < |DrainPosts(q)| ==> DrainPosts(q)[i] == (Channels(q)[i], TERMINATED)
  {
    if q != [] {
      DrainPostsInOrder(q[1..]);
      var head := if q[0].chan.Some? then [(q[0].chan.value, TERMINATED)] else [];
      var chans := if q[0].chan.Some? then [q[0].chan.value] else [];
      var posts, rest := DrainPosts(q), DrainPosts(q[1..]);
      assert posts == head + rest;
      assert Channels(q) == chans + Channels(q[1..]);
      forall i | 0 <= i < |posts|
        ensures posts[i] == (Channels(q)[i], TERMINATED)
      {
        if i >= |head| {
          assert posts[i] == rest[i - |head|];
          assert Channels(q)[i] == Channels(q[1..])[i - |chans|];
        }
      }
    }
  }

  /** Number of posts addressed to a channel. */
  function PostsTo(posts: seq<(ChanId, Reply)>, c: ChanId): nat {
    if posts == [] then 0 else (if posts[0].0 == c then 1 else 0) + PostsTo(posts[1..], c)
  }

  /** Number of queue entries carrying a channel. */
  function EntriesWith(q: seq<QEntry>, c: ChanId): nat {
    if q == [] then 0 else (if q[0].chan == Some(c) then 1 else 0) + EntriesWith(q[1..], c)
  }

  /** A channel receives as many drain posts as there are queued entries
      carrying it: one for a connection blocked on its single pending entry,
      none for a channel with nothing queued. */
  lemma {:induction false} DrainDeliversOncePerEntry(q: seq<QEntry>, c: ChanId)
    ensures PostsTo(DrainPosts(q), c) == EntriesWith(q, c)
  {
    if q != [] {
      DrainDeliversOncePerEntry(q[1..], c);
      var head := if q[0].chan.Some? then [(q[0].chan.value, TERMINATED)] else [];
      PostsToConcat(head, DrainPosts(q[1..]), c);
    }
  }

  lemma {:induction false} PostsToConcat(a: seq<(ChanId, Reply)>, b: seq<(ChanId, Reply)>, c: ChanId)
    ensures PostsTo(a + b, c) == PostsTo(a, c) + PostsTo(b, c)
  {
    if a != [] {
      assert (a + b)[1..] == a[1..] + b;
      PostsToConcat(a[1..], b, c);
    } else {
      assert a + b == b;
    }
  }

  /** Class CmdServer: the TCP server; only its `_active` flag is modelled. */
  class CmdServer {
    var active: bool

    /** After the bind in `CmdServer.__init__` succeeds, `_active` is set. */
    constructor ()
      ensures active
    {
      active := true;
    }

    /** `CmdServer.end`: stops serve_forever and clears `_active`, which the
        connection loops consult when a read times out. */
    method End()
      modifies this
      ensures !active
    {
      active := false;
    }
  }

  /** Class CmdServerApp: owns the Cmd object, the server and the shared
      FIFO command queue `_cmdq`. Two ghost logs record every entry ever
      submitted and every entry ever taken off the queue (by the worker or
      by the drain); their relation is the global ordering guarantee. */
  class CmdServerApp {
    const cmd: Cmd
    const svr: CmdServer
    var cmdq: seq<QEntry>
    var workerAlive: bool
    ghost var submitted: seq<QEntry>
    ghost var consumed: seq<QEntry>

    /** Entries leave the queue in exactly the order they entered it, each
        once: what was taken so far followed by what is still queued is what
        was submitted. Every entry names a command. */
    ghost predicate Valid()
      reads this, cmd
    {
      && cmd.Valid()
      && submitted == consumed + cmdq
      && (forall i :: 0 <= i < |cmdq| ==> |cmdq[i].args| >= 1)
    }

    /** `CmdServerApp.__init__`: an empty queue, a Cmd built with the given
        port (DEF_PORT when None), and a bound server. */
    constructor (port: Option<int>)
      ensures Valid()
      ensures cmdq == [] && submitted == [] && consumed == []
      ensures cmd.cmds == Builtins() && cmd.active
      ensures cmd.port == (if port.None? then DEF_PORT else port.value)
      ensures svr.active && workerAlive
      ensures fresh(cmd) && fresh(svr)
    {
      cmd := new Cmd(port);
      svr := new CmdServer();
      cmdq := [];
      workerAlive := true;
      submitted := [];
      consumed := [];
    }

    /** `_cmdq.qsize()`. */
    function QSize(): nat
      reads this
    {
      |cmdq|
    }

    /** `_cmdq.put(entry, block=False)`: the queue is unbounded, so the put
        always succeeds and appends at the tail. */
    method Submit(e: QEntry)
      requires Valid() && |e.args| >= 1
      modifies this
      ensures Valid()
      ensures cmdq == old(cmdq) + [e]
      ensures submitted == old(submitted) + [e] && consumed == old(consumed)
      ensures workerAlive == old(workerAlive)
    {
      cmdq := cmdq + [e];
      submitted := submitted + [e];
    }

    /** One iteration of `cmd_worker`'s loop: take the head entry, run its
        queued handler, post the result to the entry's channel, and after
        the shutdown command leave the loop and call `Cmd.stop_main`. */
    method CmdWorkerStep(lib: Lib) returns (out: WorkerOut)
      requires Valid() && workerAlive
      modifies this, cmd
      ensures Valid()
      ensures old(cmdq) == [] ==> out == Idle && cmdq == [] && consumed == old(consumed)
      ensures old(cmdq) != [] ==>
        && out == WorkerStepSpec(old(cmd.cmds), old(cmdq[0]), lib)
        && cmdq == old(cmdq[1..])
        && consumed == old(consumed) + [old(cmdq[0])]
      ensures submitted == old(submitted)
      ensures workerAlive == (out.Idle? || (out.Done? && !out.stop))
      ensures cmd.active == (old(cmd.active) && !(out.Done? && out.stop))
      ensures cmd.cmds == old(cmd.cmds) && cmd.port == old(cmd.port)
    {
      if cmdq == [] {
        return Idle;
      }
      var e := cmdq[0];
      cmdq := cmdq[1..];
      consumed := consumed + [e];
      var args := e.args;
      var res: Outcome;
      if args[0] in cmd.cmds.table {
        var fq := cmd.cmds.table[args[0]].funcQ;
        if fq.Some? {
          res := Invoke(fq.value, args, cmd.cmds, lib);
        } else {
          res := Returned(Reply(NG, Str(args[0] + ": no such func_q .. ignored")));
        }
      } else {
        res := Returned(Reply(NG, Str(args[0] + ": no such command .. ignored")));
      }
      if res.Raised? {
        workerAlive := false;
        return Crashed(res.desc);
      }
      var post: Option<(ChanId, Reply)> := None;
      if e.chan.Some? {
        post := Some((e.chan.value, res.reply));
      }
      if args[0] == CMD_SHUTDOWN {
        workerAlive := false;
        cmd.StopMain();
        return Done(post, true);
      }
      return Done(post, false);
    }

    /** `CmdServerApp.end`: take every entry still queued, post
        (NG, 'terminated') to each reply channel among them, then end the
        server (`CmdServer.end`); `Cmd.end` does nothing. */
    method End() returns (posts: seq<(ChanId, Reply)>)
      requires Valid()
      modifies this, svr
      ensures Valid()
      ensures cmdq == [] && posts == DrainPosts(old(cmdq))
      ensures consumed == old(consumed) + old(cmdq) && submitted == old(submitted)
      ensures !svr.active
      ensures workerAlive == old(workerAlive)
    {
      posts := [];
      ghost var taken: seq<QEntry> := [];
      while cmdq != []
        invariant old(cmdq) == taken + cmdq
        invariant posts == DrainPosts(taken)
        invariant consumed == old(consumed) + taken
        invariant submitted == old(submitted)
        invariant forall i :: 0 <= i < |cmdq| ==> |cmdq[i].args| >= 1
        invariant workerAlive == old(workerAlive)
        decreases |cmdq|
      {
        var e := cmdq[0];
        MoveHead(taken, cmdq);
        MoveHead(consumed, cmdq);
        cmdq := cmdq[1..];
        consumed := consumed + [e];
        DrainPostsSnoc(taken, e);
        taken := taken + [e];
        if e.chan.Some? {
          posts := posts + [(e.chan.value, TERMINATED)];
        }
      }
      assert taken == old(cmdq);
      svr.End();
    }
  }
}
