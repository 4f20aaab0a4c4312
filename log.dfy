/**
 * The logging library of src/log.h: the level table, parsing a level name,
 * the per-message filters of `_log` (stderr) and `_sys_log` (syslog), and the
 * settings `log_init` derives from its arguments and the environment.
 */
module Log {
  import opened Common

  /** `enum log_class`, most critical first. */
  datatype LogClass = NoneClass | Error | Warning | Info | Debug

  /** The numeric value of each class (LOG_CLASS_NONE = 0 ... LOG_CLASS_DEBUG = 4). */
  function Ord(c: LogClass): (n: nat)
    ensures n < 5
  {
    match c
    case NoneClass => 0
    case Error => 1
    case Warning => 2
    case Info => 3
    case Debug => 4
  }

  function FromOrd(n: nat): (c: LogClass)
    requires n < 5
    ensures Ord(c) == n
  {
    if n == 0 then NoneClass else if n == 1 then Error else if n == 2 then Warning
    else if n == 3 then Info else Debug
  }

  /** The `name` column of `log_level_map`, indexed by class value. */
  const LEVEL_NAMES: seq<string> := ["none", "error", "warning", "info", "debug"]

  /** The name a class has in `log_level_map`. */
  function Name(c: LogClass): string {
    LEVEL_NAMES[Ord(c)]
  }

  /** The `syslog_equivalent` column: -1 for none, syslog.h's LOG_ERR ... LOG_DEBUG otherwise. */
  function SyslogEquivalent(c: LogClass): (l: int)
    ensures l < 0 <==> c == NoneClass
  {
    match c
    case NoneClass => -1
    case Error => 3
    case Warning => 4
    case Info => 6
    case Debug => 7
  }

  /** Reference reading of a level name: the class whose table name it is. */
  function ParseLevel(s: string): (c: Option<LogClass>)
    ensures c.Some? <==> s in LEVEL_NAMES
    ensures c.Some? ==> Name(c.value) == s
  {
    if s == "none" then Some(NoneClass)
    else if s == "error" then Some(Error)
    else if s == "warning" then Some(Warning)
    else if s == "info" then Some(Info)
    else if s == "debug" then Some(Debug)
    else None
  }

  /** Parsing a class's own name gives back that class. */
  lemma ParseName(c: LogClass)
    ensures ParseLevel(Name(c)) == Some(c)
  {
  }

  /**
   * log_level_from_string: -1 for the empty string, otherwise the index of the
   * first table row whose name equals `str` exactly, or -1 when none does.
   */
  method LevelFromString(str: string) returns (r: int)
    requires IsCString(str)
    ensures str == "" ==> r == -1
    ensures r == -1 <==> ParseLevel(str).None?
    ensures r != -1 ==> 0 <= r < 5 && LEVEL_NAMES[r] == str && FromOrd(r) == ParseLevel(str).value
  {
    if str == "" {
      return -1;
    }
    var i := 0;
    var n := |LEVEL_NAMES|;
    while i < n
      invariant 0 <= i <= n == 5
      invariant forall j :: 0 <= j < i ==> LEVEL_NAMES[j] != str
    {
      if str == LEVEL_NAMES[i] {
        ParseName(FromOrd(i));
        return i;
      }
      i := i + 1;
    }
    return -1;
  }

  /** What happens to one message: an assertion failure (BUG), or where it is written. */
  datatype Routing = Bug | Emit(stderr: bool, syslog: bool)

  /**
   * `_log` followed by `_sys_log` for a message of class value `c`: a class
   * outside ERROR..DEBUG trips `xassert` (BUG aborts); otherwise the message goes
   * to stderr when its class is at most the configured level, and to syslog
   * when, in addition, syslog is on.
   */
  function Route(c: int, level: LogClass, doSyslog: bool): (d: Routing)
    ensures d.Bug? <==> !(0 < c < 5)
    ensures d.Emit? ==> (d.stderr <==> c <= Ord(level))
    ensures d.Emit? ==> (d.syslog <==> doSyslog && c <= Ord(level))
  {
    if c <= Ord(NoneClass) || c >= |LEVEL_NAMES| then Bug
    else Emit(c <= Ord(level), doSyslog && c <= Ord(level))
  }

  /** At level `none` no valid message is written anywhere. */
  lemma SilentAtNone(c: int, doSyslog: bool)
    requires 0 < c < 5
    ensures Route(c, NoneClass, doSyslog) == Emit(false, false)
  {
  }

  /** Raising the level never hides a message that a lower level showed. */
  lemma RouteMonotone(c: int, lo: LogClass, hi: LogClass, doSyslog: bool)
    requires Ord(lo) <= Ord(hi)
    requires Route(c, lo, doSyslog) == Emit(true, true) || Route(c, lo, doSyslog) == Emit(true, false)
    ensures Route(c, hi, doSyslog).Emit? && Route(c, hi, doSyslog).stderr
    ensures Route(c, hi, doSyslog).syslog == Route(c, lo, doSyslog).syslog
  {
  }

  datatype Colorize = Never | Always | Auto
  datatype Facility = User | DaemonFacility

  /** The parts of the process environment `log_init` consults. */
  datatype Environment = Environment(noColor: Option<string>, stderrIsTty: bool)

  /** The text a C reader sees in `s`: everything before the first NUL. */
  function CText(s: string): (t: string)
    ensures t <= s && '\0' !in t
    ensures |t| < |s| ==> s[|t|] == '\0'
  {
    if s == [] || s[0] == '\0' then [] else [s[0]] + CText(s[1..])
  }

  /** NO_COLOR counts exactly when it is set and, read as a C string, not empty. */
  function NoColor(env: Environment): (b: bool)
    ensures b <==> env.noColor.Some? && CText(env.noColor.value) != ""
    ensures b ==> env.noColor.Some? && |env.noColor.value| > 0
    ensures env.noColor.None? || env.noColor == Some("") ==> !b
  {
    env.noColor.Some? && env.noColor.value != "" && env.noColor.value[0] != '\0'
  }

  /** The outcome of `log_fatal_va`: the message is routed at ERROR class, then the process aborts. */
  datatype Fatal = Aborted(routing: Routing)

  /** The static state of the logging library. */
  class Logger {
    var colorize: bool
    var doSyslog: bool
    var level: LogClass
    /** The facility and mask passed to openlog/setlogmask, when syslog was opened. */
    ghost var syslogOpened: Option<(Facility, int)>

    /** The initial values of the statics: no colour, no syslog, level none. */
    constructor ()
      ensures !colorize && !doSyslog && level == NoneClass && syslogOpened == None
    {
      colorize := false;
      doSyslog := false;
      level := NoneClass;
      syslogOpened := None;
    }

    /**
     * log_init: colour when asked ALWAYS, or AUTO with NO_COLOR unset or empty
     * and stderr a terminal; syslog as asked, except that level none forces it off.
     */
    method Init(mode: Colorize, wantSyslog: bool, facility: Facility, newLevel: LogClass, env: Environment)
      modifies this
      ensures colorize <==> mode == Always || (mode == Auto && !NoColor(env) && env.stderrIsTty)
      ensures doSyslog <==> wantSyslog && newLevel != NoneClass
      ensures level == newLevel
      ensures syslogOpened == if doSyslog then Some((facility, SyslogEquivalent(newLevel))) else old(syslogOpened)
    {
      var noColor := env.noColor.Some? && env.noColor.value != [] && env.noColor.value[0] != '\0';
      colorize := mode == Always || (mode == Auto && !noColor && env.stderrIsTty);
      doSyslog := wantSyslog;
      level := newLevel;
      var slvl := SyslogEquivalent(newLevel);
      if slvl < 0 {
        doSyslog := false;
      }
      if doSyslog {
        syslogOpened := Some((facility, slvl));
      }
    }

    /** Where a message of class value `c` goes under the current settings. */
    function Routes(c: int): (d: Routing)
      reads this
      ensures d.Emit? ==> (d.syslog ==> doSyslog)
    {
      Route(c, level, doSyslog)
    }

    /** log_fatal_va: route at ERROR class, then abort; there is no returning outcome. */
    function LogFatal(): (f: Fatal)
      reads this
      ensures f.routing.Emit?
      ensures f.routing.stderr <==> level != NoneClass
    {
      Aborted(Routes(Ord(Error)))
    }
  }
}
