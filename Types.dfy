/** Values shared by every part of the TcpCmd dispatch engine: the status codes,
    the JSON-able messages handlers return, the registry entry of one command,
    queue entries, and the library collaborators the engine delegates to. */
module Types {

  datatype Option<+T> = None | Some(value: T)

  /** Status code of a handler invocation (class attributes Cmd.RC_*). */
  datatype Rc = OK | NG | CONTINUE | ACCEPT | NONE

  /** The string each status code is written as on the wire. */
  function RcName(rc: Rc): string {
    match rc
    case OK => "OK"
    case NG => "NG"
    case CONTINUE => "CONTINUE"
    case ACCEPT => "ACCEPT"
    case NONE => "NONE"
  }

  /** Distinct status codes are written as distinct names, so a reader of
      the wire recovers the code from its name. */
  lemma RcNamesDistinct(a: Rc, b: Rc)
    requires RcName(a) == RcName(b)
    ensures a == b
  {
  }

  /** A JSON-able Python value, as handlers return it in `msg`:
      None, a str, a list, or a dict with string keys (in insertion order). */
  datatype Json = Null | Str(s: string) | Arr(items: seq<Json>) | Obj(fields: seq<(string, Json)>)

  /** The `(rc, msg)` pair every handler returns. */
  datatype Reply = Reply(rc: Rc, msg: Json)

  /** What calling a Python handler does: it returns a pair, or it raises
      (the description stands for the exception's type and text). */
  datatype Outcome = Returned(reply: Reply) | Raised(desc: string)

  /** The built-in handlers of class Cmd, and any handler a subclass registers,
      the latter as an arbitrary function of the argument list. */
  datatype Handler =
    | HelpI       // cmd_i_help
    | SleepI      // cmd_i_sleep
    | SleepQ      // cmd_q_sleep
    | ExitI       // cmd_i_exit
    | ShutdownI   // cmd_i_shutdown
    | ShutdownQ   // cmd_q_shutdown
    | Custom(f: seq<string> -> Outcome)

  /** One registry entry: `{'func_i': …, 'func_q': …, 'help': …}`. */
  datatype Entry = Entry(funcI: Option<Handler>, funcQ: Option<Handler>, help: string)

  /** Identity of one connection's reply queue (`CmdServerHandler._myq`). */
  type ChanId = nat

  /** One element of the shared command queue: `(args, repq)`. */
  datatype QEntry = QEntry(args: seq<string>, chan: Option<ChanId>)

  newtype byte = x: int | 0 <= x < 256

  /** Result of Python's `float(s)`: the `str()` of the parsed value, or the
      rendering `"<type>: <text>"` of the exception it raised. */
  datatype FloatParse = Float(repr: string) | FloatError(desc: string)

  /** Result of `bytes.decode('utf-8')`: the text, or the rendering
      `"<type>:<text>"` of the UnicodeDecodeError. */
  datatype Decoded = Text(s: string) | DecodeError(desc: string)

  /** Library code the engine calls but does not implement: float parsing,
      UTF-8 decoding, JSON string escaping (`json.dumps` of one str), and
      `time.sleep` on the float whose `str()` is given, which returns (None)
      or refuses the duration, as for a negative, NaN or infinite one, with
      the rendering of the exception it raises (ValueError, OverflowError). */
  datatype Lib = Lib(
    parseFloat: string -> FloatParse,
    decode: seq<byte> -> Decoded,
    dumpStr: string -> string,
    sleep: string -> Option<string>)

  const DEF_PORT: int := 59001
  const CMD_HELP: string := "help"
  const CMD_EXIT: string := "exit"
  const CMD_SHUTDOWN: string := "shutdown9999"

  /** `CmdServerHandler.EOF`, the end-of-transmission character. */
  const EOT: char := '\U{4}'

  /** Queue depth above which a submission is refused. */
  const QUEUE_CEILING: nat := 100

  /** Decimal rendering of a natural number, as `'%d' % n`. */
  function NatToString(n: nat): (s: string)
    ensures |s| >= 1
    ensures forall i :: 0 <= i < |s| ==> '0' <= s[i] <= '9'
  {
    if n < 10 then [Digit(n)] else NatToString(n / 10) + [Digit(n % 10)]
  }

  /** The number a string of decimal digits denotes. */
  function DecimalValue(s: string): nat
    requires forall i :: 0 <= i < |s| ==> '0' <= s[i] <= '9'
  {
    if s == [] then 0 else 10 * DecimalValue(s[..|s| - 1]) + (s[|s| - 1] as int - '0' as int)
  }

  /** NatToString renders n: its digits denote n, with no leading zero. */
  lemma {:induction false} NatToStringValue(n: nat)
    ensures DecimalValue(NatToString(n)) == n
    ensures NatToString(n)[0] != '0' || n == 0
  {
    var s := NatToString(n);
    if n < 10 {
      assert s[..|s| - 1] == [];
    } else {
      NatToStringValue(n / 10);
      assert s[..|s| - 1] == NatToString(n / 10);
    }
  }

  function Digit(d: nat): (c: char)
    requires d < 10
    ensures '0' <= c <= '9' && c as int - '0' as int == d
  {
    "0123456789"[d]
  }

  /** Sequence concatenation is associative. */
  lemma Associative<T>(a: seq<T>, b: seq<T>, c: seq<T>)
    ensures (a + b) + c == a + (b + c)
  {
  }
}
