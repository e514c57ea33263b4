/** `add_cmd` as written keys the help text with the class attribute
    `HELP_STR`, which class Cmd never defines, while `cmd_i_help` reads the
    key 'help'. This module models the registration as written and the
    corrected one side by side. */
module Findings {
  import opened Types
  import opened Commands

  /** The dict `add_cmd` stores, as written: the help text sits under
      whatever key `self.HELP_STR` evaluates to. */
  datatype RawEntry = RawEntry(funcI: Option<Handler>, funcQ: Option<Handler>, helpKey: string, help: string)

  datatype AddResult = Added(table: map<string, RawEntry>) | AddRaised(desc: string)

  const NO_HELP_STR: string := "<class 'AttributeError'>: 'Cmd' object has no attribute 'HELP_STR'"

  /** `add_cmd` as written. `helpStr` is the value of the attribute
      `HELP_STR` on the object, None when no class defines it; evaluating
      the dict display then raises before anything is stored. */
  function AddCmdAsWritten(table: map<string, RawEntry>, name: string, funcI: Option<Handler>,
                           funcQ: Option<Handler>, help: string, helpStr: Option<string>): (r: AddResult)
    ensures helpStr.None? <==> r.AddRaised?
    ensures helpStr.Some? ==> r.table == table[name := RawEntry(funcI, funcQ, helpStr.value, help)]
  {
    match helpStr
    case None => AddRaised(NO_HELP_STR)
    case Some(k) => Added(table[name := RawEntry(funcI, funcQ, k, help)])
  }

  /** `self._cmd[c]['help']` on a stored dict: a KeyError (None) unless the
      help text was stored under 'help'. */
  function HelpOf(e: RawEntry): (h: Option<string>)
    ensures h.Some? <==> e.helpKey == CMD_HELP
    ensures h.Some? ==> h.value == e.help
  {
    if e.helpKey == CMD_HELP then Some(e.help) else None
  }

  /** `Cmd.__init__` as written: its first `add_cmd` (of 'sleep') raises
      AttributeError, so no Cmd, and hence no server, can be constructed. */
  lemma InitAsWrittenRaises(helpStr: Option<string>)
    requires helpStr.None?
    ensures AddCmdAsWritten(map[], "sleep", Some(SleepI), Some(SleepQ), "sleep", helpStr)
      == AddRaised(NO_HELP_STR)
  {
  }

  /** Even where a subclass defined HELP_STR, any value other than 'help'
      makes `help <name>` raise KeyError for every command added. */
  lemma HelpKeyMismatch(table: map<string, RawEntry>, name: string, funcI: Option<Handler>,
                        funcQ: Option<Handler>, help: string, k: string)
    requires k != CMD_HELP
    ensures var r := AddCmdAsWritten(table, name, funcI, funcQ, help, Some(k));
      r.Added? && name in r.table && HelpOf(r.table[name]).None?
  {
  }

  /** Corrected registration (Commands.Add stores the text under 'help'):
      `help <name>` right after registering `name` returns OK and exactly
      the registered help text, whatever was registered before. */
  lemma HelpAfterAdd(reg: Registry, name: string, e: Entry, args: seq<string>)
    requires reg.Valid() && |args| >= 2 && args[1] == name
    ensures CmdIHelp(Add(reg, name, e), args) == Reply(OK, Str(e.help))
  {
  }

  /** Corrected registration: the listing after an add ends with the new
      command's pair when the name is new, and keeps every other pair. */
  lemma HelpListAfterAdd(reg: Registry, name: string, e: Entry)
    requires reg.Valid() && name !in reg.table
    ensures var items := CmdIHelp(Add(reg, name, e), [CMD_HELP]).msg.items;
      && |items| == |reg.order| + 1
      && items[|reg.order|] == Arr([Str(name), Str(e.help)])
      && items[..|reg.order|] == CmdIHelp(reg, [CMD_HELP]).msg.items
  {
    var r := Add(reg, name, e);
    var items := CmdIHelp(r, [CMD_HELP]).msg.items;
    var old_items := CmdIHelp(reg, [CMD_HELP]).msg.items;
    assert r.order == reg.order + [name];
    forall i | 0 <= i < |reg.order|
      ensures items[i] == old_items[i]
    {
      assert r.order[i] == reg.order[i];
      assert reg.order[i] != name;
    }
  }
}
