/** Class Cmd: the command registry (name -> immediate handler, queued
    handler, help text, in registration order), its built-in handlers, and
    the dispatch of a handler value to what it computes. */
module Commands {
  import opened Types

  /** The dict `Cmd._cmd`. Python dicts iterate in insertion order, so the
      registry keeps the names in the order they were first added. */
  datatype Registry = Registry(order: seq<string>, table: map<string, Entry>) {

    /** The order lists every registered name exactly once. */
    ghost predicate Valid() {
      && (forall i, j :: 0 <= i < j < |order| ==> order[i] != order[j])
      && (forall n :: n in table <==> n in order)
    }
  }

  const EmptyRegistry: Registry := Registry([], map[])

  /** `self._cmd[name] = {...}`: an assignment to a dict key. A new name goes
      to the end of the iteration order; an existing one is overwritten in
      place, keeping its position, and no error is raised. */
  function Add(reg: Registry, name: string, e: Entry): (r: Registry)
    ensures name in r.table && r.table[name] == e
    ensures forall n :: n != name ==> (n in r.table <==> n in reg.table)
    ensures forall n :: n != name && n in reg.table ==> r.table[n] == reg.table[n]
    ensures name in reg.table ==> r.order == reg.order
    ensures name !in reg.table ==> r.order == reg.order + [name]
  {
    Registry(if name in reg.table then reg.order else reg.order + [name], reg.table[name := e])
  }

  /** Registration keeps the order duplicate-free and in step with the table. */
  lemma AddKeepsValid(reg: Registry, name: string, e: Entry)
    requires reg.Valid()
    ensures Add(reg, name, e).Valid()
  {
  }

  /** Looking up a name after registering it yields exactly what was
      registered, and every other name keeps its entry and its place. */
  lemma AddThenLookup(reg: Registry, name: string, e: Entry, other: string)
    requires reg.Valid()
    ensures Add(reg, name, e).table[name] == e
    ensures other != name ==> (other in Add(reg, name, e).table <==> other in reg.table)
    ensures other != name && other in reg.table ==> Add(reg, name, e).table[other] == reg.table[other]
    ensures forall i :: 0 <= i < |reg.order| ==> Add(reg, name, e).order[i] == reg.order[i]
    ensures |Add(reg, name, e).order| == |reg.order| + (if name in reg.table then 0 else 1)
  {
  }

  /** Registering the same name twice leaves one entry, the second, at the
      position of the first. */
  lemma ReAddReplaces(reg: Registry, name: string, e1: Entry, e2: Entry)
    requires reg.Valid()
    ensures var r := Add(Add(reg, name, e1), name, e2);
      && r.table == reg.table[name := e2]
      && r.order == Add(reg, name, e1).order
      && r.Valid()
  {
    var r1 := Add(reg, name, e1);
    assert name in r1.table;
  }

  // ---------------------------------------------------------------------
  // Built-in handlers
  // ---------------------------------------------------------------------

  /** The rendering of the IndexError raised by `args[1]` on a one-element list. */
  const INDEX_ERROR: string := "<class 'IndexError'>: list index out of range"

  /** One `[name, help]` pair per name, in the given order. */
  function HelpPairs(names: seq<string>, table: map<string, Entry>): (items: seq<Json>)
    requires forall n :: n in names ==> n in table
    ensures |items| == |names|
    ensures forall i :: 0 <= i < |names| ==> items[i] == Arr([Str(names[i]), Str(table[names[i]].help)])
  {
    if names == [] then []
    else [Arr([Str(names[0]), Str(table[names[0]].help)])] + HelpPairs(names[1..], table)
  }

  /** `cmd_i_help`: with a second argument, the help text of that command or
      NG when it is not registered; otherwise the list of every command. */
  function CmdIHelp(reg: Registry, args: seq<string>): (r: Reply)
    requires reg.Valid()
    ensures r.rc == OK || r.rc == NG
    ensures r.rc == NG <==> |args| >= 2 && args[1] !in reg.table
    ensures |args| >= 2 && args[1] in reg.table ==> r.msg == Str(reg.table[args[1]].help)
    ensures |args| >= 2 && args[1] !in reg.table ==> r.msg == Str(args[1] + ": no such command")
    ensures |args| < 2 ==> r.msg.Arr? && |r.msg.items| == |reg.order|
    ensures |args| < 2 ==> forall i :: 0 <= i < |reg.order| ==>
      r.msg.items[i] == Arr([Str(reg.order[i]), Str(reg.table[reg.order[i]].help)])
  {
    if |args| >= 2 then
      if args[1] in reg.table then Reply(OK, Str(reg.table[args[1]].help))
      else Reply(NG, Str(args[1] + ": no such command"))
    else
      Reply(OK, Arr(HelpPairs(reg.order, reg.table)))
  }

  /** The listing names every registered command exactly once. */
  lemma HelpListsEachCommandOnce(reg: Registry, name: string)
    requires reg.Valid()
    ensures var items := CmdIHelp(reg, ["help"]).msg.items;
      name in reg.table <==> exists i :: 0 <= i < |items| && items[i].items[0] == Str(name)
    ensures var items := CmdIHelp(reg, ["help"]).msg.items;
      forall i, j :: 0 <= i < j < |items| ==> items[i].items[0] != items[j].items[0]
  {
    var items := CmdIHelp(reg, ["help"]).msg.items;
    if name in reg.table {
      var i :| 0 <= i < |reg.order| && reg.order[i] == name;
      assert items[i].items[0] == Str(name);
    }
    forall i, j | 0 <= i < j < |items| ensures items[i].items[0] != items[j].items[0] {
      assert items[i].items[0] == Str(reg.order[i]);
      assert items[j].items[0] == Str(reg.order[j]);
    }
  }

  /** `cmd_i_sleep`: only checks that `args[1]` parses as a float; CONTINUE
      lets the queued stage run and makes the client wait for it. */
  function CmdISleep(args: seq<string>, parseFloat: string -> FloatParse): (r: Reply)
    requires |args| >= 1
    ensures r.rc == CONTINUE || r.rc == NG
    ensures r.rc == CONTINUE <==> |args| >= 2 && parseFloat(args[1]).Float?
    ensures r.rc == NG && |args| < 2 ==> r.msg == Str(args[0] + ": " + INDEX_ERROR)
  {
    if |args| < 2 then Reply(NG, Str(args[0] + ": " + INDEX_ERROR))
    else match parseFloat(args[1])
      case Float(v) => Reply(CONTINUE, Str("sleep_sec=" + v))
      case FloatError(d) => Reply(NG, Str(args[0] + ": " + d))
  }

  /** `cmd_q_sleep`: converts `args[1]` again (raising if it cannot),
      sleeps, which raises when `time.sleep` refuses the duration, and then
      returns OK. */
  function CmdQSleep(args: seq<string>, parseFloat: string -> FloatParse, sleep: string -> Option<string>): (o: Outcome)
    requires |args| >= 1
    ensures o.Returned? ==> o.reply.rc == OK
    ensures o.Returned? <==> |args| >= 2 && parseFloat(args[1]).Float? && sleep(parseFloat(args[1]).repr).None?
    ensures SleepRefusal(args, parseFloat, sleep).Some? ==> o == Raised(SleepRefusal(args, parseFloat, sleep).value)
  {
    if |args| < 2 then Raised(INDEX_ERROR)
    else match parseFloat(args[1])
      case Float(v) =>
        (match sleep(v)
         case Some(d) => Raised(d)
         case None => Returned(Reply(OK, Str(args[0] + ": sleep_sec=" + v))))
      case FloatError(d) => Raised(d)
  }

  /** The exception `time.sleep` raises for the duration `args[1]`, when
      there is one, it parses, and the sleep refuses it. */
  function SleepRefusal(args: seq<string>, parseFloat: string -> FloatParse, sleep: string -> Option<string>): Option<string>
    requires |args| >= 1
  {
    if |args| >= 2 && parseFloat(args[1]).Float? then sleep(parseFloat(args[1]).repr) else None
  }

  /** `cmd_i_exit`: acknowledges with OK and no message; the connection loop
      is what closes the session. */
  function CmdIExit(args: seq<string>): (r: Reply)
    ensures r.rc == OK
    ensures r.msg.Null?
  {
    Reply(OK, Null)
  }

  /** `cmd_i_shutdown`: accepts with no argument or a float argument, so the
      client is answered at once and the queued stage shuts the server down. */
  function CmdIShutdown(args: seq<string>, parseFloat: string -> FloatParse): (r: Reply)
    requires |args| >= 1
    ensures r.rc == ACCEPT || r.rc == NG
    ensures r.rc == ACCEPT <==> |args| == 1 || parseFloat(args[1]).Float?
    ensures |args| == 1 ==> r.msg == Str("sleep_sec=0")
  {
    if |args| == 1 then Reply(ACCEPT, Str("sleep_sec=0"))
    else match parseFloat(args[1])
      case Float(v) => Reply(ACCEPT, Str("sleep_sec=" + v))
      case FloatError(d) => Reply(NG, Str(args[0] + ": " + d))
  }

  /** `cmd_q_shutdown`: sleeps the requested time (none without an
      argument, and `time.sleep(0)` always returns), raising when the sleep
      refuses the duration, and returns OK; the worker recognises the
      command name and stops. */
  function CmdQShutdown(args: seq<string>, parseFloat: string -> FloatParse, sleep: string -> Option<string>): (o: Outcome)
    requires |args| >= 1
    ensures o.Returned? ==> o.reply.rc == OK
    ensures o.Returned? <==> |args| == 1 || (parseFloat(args[1]).Float? && sleep(parseFloat(args[1]).repr).None?)
    ensures SleepRefusal(args, parseFloat, sleep).Some? ==> o == Raised(SleepRefusal(args, parseFloat, sleep).value)
  {
    if |args| == 1 then Returned(Reply(OK, Str(args[0] + ": sleep_sec=0")))
    else match parseFloat(args[1])
      case Float(v) =>
        (match sleep(v)
         case Some(d) => Raised(d)
         case None => Returned(Reply(OK, Str(args[0] + ": sleep_sec=" + v))))
      case FloatError(d) => Raised(d)
  }

  /** Calling a registered handler with the argument list. */
  function Invoke(h: Handler, args: seq<string>, reg: Registry, lib: Lib): Outcome
    requires |args| >= 1
    requires reg.Valid()
  {
    match h
    case HelpI => Returned(CmdIHelp(reg, args))
    case SleepI => Returned(CmdISleep(args, lib.parseFloat))
    case SleepQ => CmdQSleep(args, lib.parseFloat, lib.sleep)
    case ExitI => Returned(CmdIExit(args))
    case ShutdownI => Returned(CmdIShutdown(args, lib.parseFloat))
    case ShutdownQ => CmdQShutdown(args, lib.parseFloat, lib.sleep)
    case Custom(f) => f(args)
  }

  /** The registry `Cmd.__init__` builds: sleep, help, exit, shutdown9999. */
  function Builtins(): (r: Registry)
    ensures r.Valid()
  {
    var e0 := Entry(Some(SleepI), Some(SleepQ), "sleep");
    var e1 := Entry(Some(HelpI), None, "command help");
    var e2 := Entry(Some(ExitI), None, "disconnect");
    var e3 := Entry(Some(ShutdownI), Some(ShutdownQ), "shutdown server");
    AddKeepsValid(EmptyRegistry, "sleep", e0);
    AddKeepsValid(Add(EmptyRegistry, "sleep", e0), CMD_HELP, e1);
    AddKeepsValid(Add(Add(EmptyRegistry, "sleep", e0), CMD_HELP, e1), CMD_EXIT, e2);
    AddKeepsValid(Add(Add(Add(EmptyRegistry, "sleep", e0), CMD_HELP, e1), CMD_EXIT, e2), CMD_SHUTDOWN, e3);
    Add(Add(Add(Add(EmptyRegistry, "sleep", e0), CMD_HELP, e1), CMD_EXIT, e2), CMD_SHUTDOWN, e3)
  }

  lemma BuiltinsShape()
    ensures Builtins().order == ["sleep", "help", "exit", "shutdown9999"]
    ensures Builtins().table["sleep"] == Entry(Some(SleepI), Some(SleepQ), "sleep")
    ensures Builtins().table["help"] == Entry(Some(HelpI), None, "command help")
    ensures Builtins().table["exit"] == Entry(Some(ExitI), None, "disconnect")
    ensures Builtins().table["shutdown9999"] == Entry(Some(ShutdownI), Some(ShutdownQ), "shutdown server")
  {
    assert "help" != "sleep";
    assert "exit" != "sleep" && "exit" != "help";
    assert "shutdown9999" != "sleep" && "shutdown9999" != "help" && "shutdown9999" != "exit";
    AddFour("sleep", Entry(Some(SleepI), Some(SleepQ), "sleep"),
            CMD_HELP, Entry(Some(HelpI), None, "command help"),
            CMD_EXIT, Entry(Some(ExitI), None, "disconnect"),
            CMD_SHUTDOWN, Entry(Some(ShutdownI), Some(ShutdownQ), "shutdown server"));
  }

  /** Four registrations of distinct names on an empty registry. */
  lemma AddFour(n0: string, e0: Entry, n1: string, e1: Entry, n2: string, e2: Entry, n3: string, e3: Entry)
    requires n1 != n0 && n2 != n0 && n2 != n1 && n3 != n0 && n3 != n1 && n3 != n2
    ensures var r := Add(Add(Add(Add(EmptyRegistry, n0, e0), n1, e1), n2, e2), n3, e3);
      && r.order == [n0, n1, n2, n3]
      && r.table[n0] == e0 && r.table[n1] == e1 && r.table[n2] == e2 && r.table[n3] == e3
  {
  }

  /** `help` on a fresh registry lists the four built-in commands in the
      order `__init__` registers them. */
  lemma BuiltinsHelp()
    ensures CmdIHelp(Builtins(), [CMD_HELP]) == Reply(OK, Arr([
      Arr([Str("sleep"), Str("sleep")]),
      Arr([Str("help"), Str("command help")]),
      Arr([Str("exit"), Str("disconnect")]),
      Arr([Str("shutdown9999"), Str("shutdown server")])]))
  {
    BuiltinsShape();
    HelpOfFour(Builtins(), [CMD_HELP], "sleep", "help", "exit", "shutdown9999",
               "sleep", "command help", "disconnect", "shutdown server");
  }

  /** The listing of a registry of four commands. */
  lemma HelpOfFour(reg: Registry, args: seq<string>, n0: string, n1: string, n2: string, n3: string,
                   h0: string, h1: string, h2: string, h3: string)
    requires reg.Valid() && |args| == 1 && reg.order == [n0, n1, n2, n3]
    requires reg.table[n0].help == h0 && reg.table[n1].help == h1
    requires reg.table[n2].help == h2 && reg.table[n3].help == h3
    ensures CmdIHelp(reg, args) == Reply(OK, Arr([
      Arr([Str(n0), Str(h0)]), Arr([Str(n1), Str(h1)]), Arr([Str(n2), Str(h2)]), Arr([Str(n3), Str(h3)])]))
  {
    var items := CmdIHelp(reg, args).msg.items;
    assert items[0] == Arr([Str(n0), Str(h0)]);
    assert items[1] == Arr([Str(n1), Str(h1)]);
    assert items[2] == Arr([Str(n2), Str(h2)]);
    assert items[3] == Arr([Str(n3), Str(h3)]);
  }

  /** For the built-in commands, an immediate handler defers (CONTINUE or
      ACCEPT) only when a queued handler is registered, and the queued
      handler then returns OK, unless `time.sleep` refuses the duration
      (`sleep -1`, `shutdown9999 nan`), in which case it raises that
      exception. */
  lemma BuiltinsDeferOnlyToQueued(args: seq<string>, lib: Lib)
    requires |args| >= 1 && args[0] in Builtins().table
    ensures var e := Builtins().table[args[0]];
      e.funcI.Some? ==>
        var o := Invoke(e.funcI.value, args, Builtins(), lib);
        o.Returned? && (o.reply.rc == CONTINUE || o.reply.rc == ACCEPT) ==>
          && e.funcQ.Some?
          && DeferredOutcome(Invoke(e.funcQ.value, args, Builtins(), lib), SleepRefusal(args, lib.parseFloat, lib.sleep))
  {
    var reg := Builtins();
    var e := reg.table[args[0]];
    assert BuiltinPair(e) by {
      BuiltinsShape();
      assert args[0] in reg.order;
    }
    PairDefersOnlyToQueued(e, args, reg, lib);
  }

  /** A queued handler's outcome after a deferral: the sleep's exception when
      the duration is refused, OK otherwise. */
  predicate DeferredOutcome(q: Outcome, refusal: Option<string>) {
    match refusal
    case Some(d) => q == Raised(d)
    case None => q.Returned? && q.reply.rc == OK
  }

  /** The handler pairs `Cmd.__init__` registers. */
  predicate BuiltinPair(e: Entry) {
    || (e.funcI == Some(SleepI) && e.funcQ == Some(SleepQ))
    || (e.funcI == Some(HelpI) && e.funcQ.None?)
    || (e.funcI == Some(ExitI) && e.funcQ.None?)
    || (e.funcI == Some(ShutdownI) && e.funcQ == Some(ShutdownQ))
  }

  lemma PairDefersOnlyToQueued(e: Entry, args: seq<string>, reg: Registry, lib: Lib)
    requires |args| >= 1 && reg.Valid() && BuiltinPair(e)
    ensures e.funcI.Some? ==>
        var o := Invoke(e.funcI.value, args, reg, lib);
        o.Returned? && (o.reply.rc == CONTINUE || o.reply.rc == ACCEPT) ==>
          && e.funcQ.Some?
          && DeferredOutcome(Invoke(e.funcQ.value, args, reg, lib), SleepRefusal(args, lib.parseFloat, lib.sleep))
  {
  }

  /** Class Cmd: the registry plus the `_active` flag and the listening port. */
  class Cmd {
    var port: int
    var active: bool
    var cmds: Registry

    ghost predicate Valid()
      reads this
    {
      cmds.Valid()
    }

    /** `Cmd.__init__`: the port defaults to DEF_PORT when None is given, and
        the four built-in commands are registered. */
    constructor (port: Option<int>)
      ensures Valid()
      ensures this.port == (if port.None? then DEF_PORT else port.value)
      ensures active
      ensures cmds == Builtins()
    {
      this.port := if port.None? then DEF_PORT else port.value;
      active := true;
      cmds := EmptyRegistry;
      new;
      AddCmd("sleep", Some(SleepI), Some(SleepQ), "sleep");
      AddCmd(CMD_HELP, Some(HelpI), None, "command help");
      AddCmd(CMD_EXIT, Some(ExitI), None, "disconnect");
      AddCmd(CMD_SHUTDOWN, Some(ShutdownI), Some(ShutdownQ), "shutdown server");
    }

    /** `add_cmd`: writes the entry under `name`, replacing any previous one. */
    method AddCmd(name: string, funcI: Option<Handler>, funcQ: Option<Handler>, help: string)
      requires Valid()
      modifies this
      ensures Valid()
      ensures cmds == Add(old(cmds), name, Entry(funcI, funcQ, help))
      ensures port == old(port) && active == old(active)
    {
      AddKeepsValid(cmds, name, Entry(funcI, funcQ, help));
      var order := if name in cmds.table then cmds.order else cmds.order + [name];
      cmds := Registry(order, cmds.table[name := Entry(funcI, funcQ, help)]);
    }

    /** `stop_main`: clears `_active`, which ends `Cmd.main`'s polling loop. */
    method StopMain()
      modifies this
      ensures !active
      ensures cmds == old(cmds) && port == old(port)
    {
      active := false;
    }
  }
}
