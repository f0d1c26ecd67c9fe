// The Python bridge plugin: init's required script and default method
// name, the module name derived from the script path, how a call's return
// value becomes a status, and the publish counters. The interpreter is an
// oracle: whether the module imported, which names in it are callable, and
// what each call returned.
module PythonPublisher {
  import opened Wrappers
  import opened CText
  import opened CdcTypes
  import opened PluginConfig

  // ---------------------------------------------------------------------
  // The module name

  /** The text after the last '/', or the whole path when there is none. */
  function BaseName(path: string): (b: string)
  {
    match LastIndexOf(path, '/')
    case Some(i) => path[i + 1..]
    case None => path
  }

  /** ".py" is cut off when the last '.' of the name starts exactly that suffix. */
  function StripPy(name: string): (m: string)
  {
    match LastIndexOf(name, '.')
    case Some(d) => if name[d..] == ".py" then name[..d] else name
    case None => name
  }

  /** The name handed to PyImport_Import. */
  function ModuleName(scriptPath: string): string
  {
    StripPy(BaseName(scriptPath))
  }

  /** The base name holds no '/' and is a suffix of the path. */
  lemma BaseNameRule(path: string)
    ensures forall j :: 0 <= j < |BaseName(path)| ==> BaseName(path)[j] != '/'
    ensures path[|path| - |BaseName(path)|..] == BaseName(path)
    ensures (forall j :: 0 <= j < |path| ==> path[j] != '/') ==> BaseName(path) == path
  {
    match LastIndexOf(path, '/')
    case Some(i) =>
      var b := path[i + 1..];
      forall j | 0 <= j < |b|
        ensures b[j] != '/'
      {
        assert b[j] == path[i + 1 + j];
      }
    case None =>
  }

  /** Stripping removes exactly a trailing ".py" and nothing else. */
  lemma StripPyRule(name: string)
    ensures |name| >= 3 && name[|name| - 3..] == ".py" ==> StripPy(name) == name[..|name| - 3]
    ensures !(|name| >= 3 && name[|name| - 3..] == ".py") ==> StripPy(name) == name
  {
    var n := |name|;
    if n >= 3 && name[n - 3..] == ".py" {
      assert name[n - 3] == '.' && name[n - 2] == 'p' && name[n - 1] == 'y';
      assert LastIndexOf(name, '.') == Some(n - 3);
    }
  }

  /**
   * The imported name is the base name less a trailing ".py": so
   * "dir/tool.py" imports "tool", while "tool.py.bak" and "tool.PY" keep
   * their names. It never holds a '/'.
   */
  lemma ModuleNameRule(path: string)
    ensures var b := BaseName(path);
            ModuleName(path) == if |b| >= 3 && b[|b| - 3..] == ".py" then b[..|b| - 3] else b
    ensures forall j :: 0 <= j < |ModuleName(path)| ==> ModuleName(path)[j] != '/'
  {
    BaseNameRule(path);
    StripPyRule(BaseName(path));
  }

  // ---------------------------------------------------------------------
  // call_python_method

  /** What PyObject_CallObject produced: an exception (NULL), an int, or any other object. */
  datatype PyReturn = Raised | PyInt(v: int) | PyOther

  /** The outcome of call_python_method: -1, or 0 with the integer left in `*result`. */
  datatype Call = Failed | Returned(result: int)

  const LONG_MIN: int := -0x8000_0000_0000_0000
  const LONG_MAX: int := 0x7fff_ffff_ffff_ffff

  /**
   * An exception fails the call; an int becomes (int)PyLong_AsLong(ret),
   * which is -1 for a value beyond `long` and the low 32 bits otherwise;
   * any other object leaves 0. (Python's True and False are ints.)
   */
  function CallMethod(ret: PyReturn): (c: Call)
    ensures c.Failed? <==> ret.Raised?
    ensures c.Returned? ==> -0x8000_0000 <= c.result < 0x8000_0000
  {
    match ret
    case Raised => Failed
    case PyOther => Returned(0)
    case PyInt(v) => Returned(if v < LONG_MIN || v > LONG_MAX then -1 else ToInt32(v))
  }

  /** Small ints come through unchanged; only exactly 0 means success to the callers. */
  lemma CallMapping(ret: PyReturn)
    ensures ret.PyInt? && -0x8000_0000 <= ret.v < 0x8000_0000 ==> CallMethod(ret) == Returned(ret.v)
    ensures ret.PyOther? ==> CallMethod(ret) == Returned(0)
    ensures CallMethod(PyInt(0x1_0000_0000)) == Returned(0)
    ensures CallMethod(PyInt(LONG_MAX + 1)) == Returned(-1)
  {
  }

  /** A hook succeeds when it ran without an exception and its value maps to 0. */
  predicate HookOk(c: Call)
  {
    c == Returned(0)
  }

  // ---------------------------------------------------------------------
  // init

  datatype Settings = Settings(
    scriptPath: string,
    moduleName: string,
    eventMethodName: string,
    startMethod: Option<string>,
    stopMethod: Option<string>,
    cleanupMethod: Option<string>,
    healthMethod: Option<string>)

  /** An optional hook: configured under `key` and callable in the module. */
  function OptionalMethod(entries: seq<ConfigEntry>, key: string, callables: set<string>): (m: Option<string>)
    ensures m.Some? ==> m.value in callables && GetConfig(entries, key) == m
  {
    match GetConfig(entries, key)
    case Some(name) => if name in callables then Some(name) else None
    case None => None
  }

  /**
   * init. `imported` is whether the module imported, `callables` the names
   * in it that are callable, and `initRet` what on_init_method returned
   * when there is one.
   */
  function Init(entries: seq<ConfigEntry>, imported: bool, callables: set<string>, initRet: PyReturn): (r: Option<Settings>)
    ensures r.Some? ==> GetConfig(entries, "python_script") == Some(r.value.scriptPath)
    ensures r.Some? ==> r.value.eventMethodName in callables
    ensures r.Some? ==> r.value.moduleName == ModuleName(r.value.scriptPath)
  {
    match GetConfig(entries, "python_script")
    case None => None
    case Some(script) =>
      var eventName := GetConfig(entries, "on_event_method").GetOr("on_event");
      if !imported || eventName !in callables then None
      else if OptionalMethod(entries, "on_init_method", callables).Some? && !HookOk(CallMethod(initRet)) then None
      else Some(Settings(script, ModuleName(script), eventName,
                         OptionalMethod(entries, "on_start_method", callables),
                         OptionalMethod(entries, "on_stop_method", callables),
                         OptionalMethod(entries, "on_cleanup_method", callables),
                         OptionalMethod(entries, "on_health_method", callables)))
  }

  /**
   * init needs python_script, an importable module and a callable event
   * method (by default "on_event"); an init hook that raises or returns
   * non-zero makes it fail too.
   */
  lemma InitRequirements(entries: seq<ConfigEntry>, imported: bool, callables: set<string>, initRet: PyReturn)
    ensures Init(entries, imported, callables, initRet).Some? <==>
              GetConfig(entries, "python_script").Some? && imported &&
              GetConfig(entries, "on_event_method").GetOr("on_event") in callables &&
              (OptionalMethod(entries, "on_init_method", callables).Some? ==> HookOk(CallMethod(initRet)))
    ensures GetConfig(entries, "on_event_method").None? && Init(entries, imported, callables, initRet).Some? ==>
              Init(entries, imported, callables, initRet).value.eventMethodName == "on_event"
  {
  }

  // ---------------------------------------------------------------------
  // publish

  datatype Counters = Counters(published: nat, failed: nat)

  /** publish's result: `dictOk` is whether the event dict was built, `ret` what the method returned. */
  function PublishRc(dictOk: bool, ret: PyReturn): int
  {
    if dictOk && HookOk(CallMethod(ret)) then OK else FAIL
  }

  function PublishStep(c: Counters, dictOk: bool, ret: PyReturn): Counters
  {
    if PublishRc(dictOk, ret) == OK then c.(published := c.published + 1) else c.(failed := c.failed + 1)
  }

  /** Every publish counts once: as published exactly when it returns 0. */
  lemma OneCountPerPublish(c: Counters, dictOk: bool, ret: PyReturn)
    ensures var c' := PublishStep(c, dictOk, ret);
            c'.published + c'.failed == c.published + c.failed + 1 &&
            (c'.published == c.published + 1 <==> PublishRc(dictOk, ret) == OK)
    ensures ret.Raised? || ret == PyInt(1) ==> PublishRc(dictOk, ret) == FAIL
    ensures dictOk && ret.PyOther? ==> PublishRc(dictOk, ret) == OK
  {
  }

  /** The result of start or stop: 0 without a hook, else 0 iff the hook returned 0. */
  function HookRc(hook: Option<string>, ret: PyReturn): int
  {
    if hook.None? || HookOk(CallMethod(ret)) then OK else FAIL
  }

  /** health_check: 0 without a hook, -1 when it raises, else the value it mapped to. */
  function HealthRc(hook: Option<string>, ret: PyReturn): (rc: int)
    ensures hook.None? ==> rc == OK
    ensures hook.Some? && ret.Raised? ==> rc == FAIL
    ensures hook.Some? && ret.PyOther? ==> rc == OK
  {
    if hook.None? then OK
    else match CallMethod(ret)
      case Failed => FAIL
      case Returned(v) => v
  }

  // ---------------------------------------------------------------------
  // The plugin's private data

  class Publisher {
    const settings: Settings
    var eventsPublished: nat
    var eventsFailed: nat

    function Stats(): Counters
      reads this
    {
      Counters(eventsPublished, eventsFailed)
    }

    constructor (s: Settings)
      ensures settings == s && Stats() == Counters(0, 0)
    {
      settings := s;
      eventsPublished, eventsFailed := 0, 0;
    }

    method Start(ret: PyReturn) returns (rc: int)
      ensures rc == HookRc(settings.startMethod, ret)
    {
      rc := OK;
      if settings.startMethod.Some? {
        var c := CallMethod(ret);
        if c.Failed? || c.result != 0 {
          rc := FAIL;
        }
      }
    }

    /** publish: `dict` is the dict handed to the event method, None when it could not be built. */
    method Publish(event: CdcEvent, dictOk: bool, ret: PyReturn) returns (rc: int, dict: Option<seq<(string, string)>>)
      modifies this
      ensures rc == PublishRc(dictOk, ret)
      ensures Stats() == PublishStep(old(Stats()), dictOk, ret)
      ensures dict == if dictOk then Some(EventFields(event)) else None
    {
      if !dictOk {
        eventsFailed := eventsFailed + 1;
        return FAIL, None;
      }
      dict := Some(EventFields(event));
      var c := CallMethod(ret);
      if c.Failed? || c.result != 0 {
        eventsFailed := eventsFailed + 1;
        return FAIL, dict;
      }
      eventsPublished := eventsPublished + 1;
      rc := OK;
    }

    method Stop(ret: PyReturn) returns (rc: int)
      ensures rc == HookRc(settings.stopMethod, ret)
    {
      rc := OK;
      if settings.stopMethod.Some? {
        var c := CallMethod(ret);
        if c.Failed? || c.result != 0 {
          rc := FAIL;
        }
      }
    }

    method HealthCheck(ret: PyReturn) returns (rc: int)
      ensures rc == HealthRc(settings.healthMethod, ret)
    {
      if settings.healthMethod.None? {
        return OK;
      }
      var c := CallMethod(ret);
      rc := if c.Failed? then FAIL else c.result;
    }
  }
}
