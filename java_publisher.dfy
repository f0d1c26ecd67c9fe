// The Java bridge plugin: init's required class and default method name,
// the strtok split of jvm_args into at most 32 custom options, the JVM
// option array, the in-place dot-to-slash rewrite of the class name, the
// config map handed to the init hook, and the publish, start, stop and
// health results. The JVM is an oracle: whether each JNI step succeeded,
// which methods the class has, and what each call returned.
module JavaPublisher {
  import opened Wrappers
  import opened CText
  import opened CdcTypes
  import opened PluginConfig

  // ---------------------------------------------------------------------
  // strtok(jvm_args, " ")

  /** The length of the run of non-' ' characters that starts `s`. */
  function TokenLength(s: string): (n: nat)
    ensures n <= |s| && (n < |s| ==> s[n] == ' ')
  {
    if s == [] || s[0] == ' ' then 0 else 1 + TokenLength(s[1..])
  }

  /** The characters before the first ' ' are all non-' '. */
  lemma {:induction false} TokenLengthWord(s: string)
    ensures forall j :: 0 <= j < TokenLength(s) ==> s[j] != ' '
  {
    if s != [] && s[0] != ' ' {
      TokenLengthWord(s[1..]);
      assert forall j :: 0 < j < TokenLength(s) ==> s[j] == s[1..][j - 1];
    }
  }

  /** What remains once the leading delimiters are skipped. */
  function SkipDelims(s: string): (r: string)
    ensures |r| <= |s| && r == s[|s| - |r|..]
    ensures r != [] ==> r[0] != ' '
  {
    if s != [] && s[0] == ' ' then SkipDelims(s[1..]) else s
  }

  /**
   * One strtok call: the next token, and the text the following call
   * resumes on (just past the delimiter it overwrote with NUL).
   */
  function Strtok(s: string): (r: Option<(string, string)>)
    ensures r.Some? ==> |r.value.1| < |s| && r.value.0 != []
  {
    var t := SkipDelims(s);
    if t == [] then None
    else
      var n := TokenLength(t);
      Some((t[..n], if n < |t| then t[n + 1..] else []))
  }

  /** Every token the strtok loop would produce with no limit. */
  function Tokens(s: string): seq<string>
    decreases |s|
  {
    match Strtok(s)
    case None => []
    case Some((token, rest)) => [token] + Tokens(rest)
  }

  /** The characters of `s` other than ' ', in order. */
  function NonSpaces(s: string): string
  {
    if s == [] then [] else (if s[0] == ' ' then [] else [s[0]]) + NonSpaces(s[1..])
  }

  function Concat(ts: seq<string>): string
  {
    if ts == [] then [] else ts[0] + Concat(ts[1..])
  }

  lemma {:induction false} NonSpacesAppend(a: string, b: string)
    ensures NonSpaces(a + b) == NonSpaces(a) + NonSpaces(b)
  {
    if a == [] {
      assert a + b == b;
    } else {
      assert (a + b)[1..] == a[1..] + b;
      NonSpacesAppend(a[1..], b);
    }
  }

  lemma {:induction false} NonSpacesOfWord(w: string)
    requires forall j :: 0 <= j < |w| ==> w[j] != ' '
    ensures NonSpaces(w) == w
  {
    if w != [] {
      NonSpacesOfWord(w[1..]);
    }
  }

  lemma {:induction false} NonSpacesOfSkip(s: string)
    ensures NonSpaces(SkipDelims(s)) == NonSpaces(s)
  {
    if s != [] && s[0] == ' ' {
      NonSpacesOfSkip(s[1..]);
    }
  }

  /** One strtok call peels the first token off the list. */
  lemma TokensStep(s: string)
    ensures Strtok(s).None? ==> Tokens(s) == []
    ensures Strtok(s).Some? ==> Tokens(s) == [Strtok(s).value.0] + Tokens(Strtok(s).value.1)
  {
  }

  /** A token: non-empty, without ' '. */
  predicate Word(w: string)
  {
    w != [] && forall j :: 0 <= j < |w| ==> w[j] != ' '
  }

  lemma {:induction false} TokensAreWords(s: string)
    ensures forall i :: 0 <= i < |Tokens(s)| ==> Word(Tokens(s)[i])
    decreases |s|
  {
    TokensStep(s);
    if Strtok(s).Some? {
      var t := SkipDelims(s);
      var tok := Strtok(s).value.0;
      var rest := Strtok(s).value.1;
      TokensAreWords(rest);
      TokenLengthWord(t);
      assert tok == t[..TokenLength(t)];
      assert Word(tok);
      var ts := Tokens(s);
      var more := Tokens(rest);
      assert ts == [tok] + more;
      forall i | 0 <= i < |ts|
        ensures Word(ts[i])
      {
        if i > 0 {
          assert ts[i] == more[i - 1];
        }
      }
    }
  }

  lemma SplitAt(t: string, n: nat)
    requires n <= |t|
    ensures t == t[..n] + t[n..]
  {
  }

  lemma {:induction false} NonSpacesAfterWord(t: string, n: nat, rest: string)
    requires n <= |t| && (forall j :: 0 <= j < n ==> t[j] != ' ')
    requires n < |t| ==> t[n] == ' ' && rest == t[n + 1..]
    requires n == |t| ==> rest == []
    ensures NonSpaces(t) == t[..n] + NonSpaces(rest)
  {
    SplitAt(t, n);
    NonSpacesAppend(t[..n], t[n..]);
    NonSpacesOfWord(t[..n]);
    if n < |t| {
      assert t[n..][1..] == rest;
    } else {
      assert t[n..] == [];
    }
  }

  /** The text one strtok call consumes holds its token and delimiters only. */
  lemma StrtokSplits(s: string)
    requires Strtok(s).Some?
    ensures NonSpaces(s) == Strtok(s).value.0 + NonSpaces(Strtok(s).value.1)
  {
    var t := SkipDelims(s);
    var n := TokenLength(t);
    TokenLengthWord(t);
    NonSpacesOfSkip(s);
    NonSpacesAfterWord(t, n, Strtok(s).value.1);
  }

  lemma ConcatCons(w: string, ts: seq<string>)
    ensures Concat([w] + ts) == w + Concat(ts)
  {
    assert ([w] + ts)[1..] == ts;
  }

  /** Together the tokens spell out the argument text with its spaces removed. */
  lemma {:induction false} TokensSpellArgs(s: string)
    ensures Concat(Tokens(s)) == NonSpaces(s)
    decreases |s|
  {
    TokensStep(s);
    if Strtok(s).Some? {
      var rest := Strtok(s).value.1;
      TokensSpellArgs(rest);
      StrtokSplits(s);
      ConcatCons(Strtok(s).value.0, Tokens(rest));
    } else {
      NonSpacesOfSkip(s);
    }
  }

  lemma AppendAssoc(a: seq<string>, b: seq<string>, c: seq<string>)
    ensures a + (b + c) == (a + b) + c
  {
  }

  /** The custom option limit: `char *custom_args[32]`. */
  const MAX_CUSTOM_ARGS: nat := 32

  /** The custom options init passes: the first 32 tokens of jvm_args. */
  function CustomArgs(jvmArgs: Option<string>): (c: seq<string>)
    ensures |c| <= MAX_CUSTOM_ARGS
  {
    match jvmArgs
    case None => []
    case Some(a) => if |Tokens(a)| <= MAX_CUSTOM_ARGS then Tokens(a) else Tokens(a)[..MAX_CUSTOM_ARGS]
  }

  /** The loop stops when strtok runs dry or the slots are full: the slots then hold the custom options. */
  lemma SplitDone(jvmArgs: string, done: seq<string>, pending: string)
    requires |done| <= MAX_CUSTOM_ARGS && Tokens(jvmArgs) == done + Tokens(pending)
    requires Strtok(pending).None? || |done| == MAX_CUSTOM_ARGS
    ensures done == CustomArgs(Some(jvmArgs))
  {
    TokensStep(pending);
    if Strtok(pending).None? {
      assert Tokens(jvmArgs) == done;
    } else {
      assert Tokens(jvmArgs)[..|done|] == done;
    }
  }

  /** `custom_args[count] = token`: the filled prefix grows by the token. */
  method StoreToken(a: array<string>, i: nat, token: string, ghost filled: seq<string>)
    requires i < a.Length && a[..i] == filled
    modifies a
    ensures a[..i + 1] == filled + [token]
  {
    a[i] := token;
    assert a[..i + 1] == a[..i] + [a[i]];
  }

  /** The strtok loop of init, filling `custom_args` until the tokens or the 32 slots run out. */
  method SplitJvmArgs(jvmArgs: string) returns (customArgs: array<string>, count: nat)
    ensures fresh(customArgs) && customArgs.Length == MAX_CUSTOM_ARGS
    ensures count <= MAX_CUSTOM_ARGS && customArgs[..count] == CustomArgs(Some(jvmArgs))
  {
    customArgs := new string[MAX_CUSTOM_ARGS];
    count := 0;
    var pending := jvmArgs;
    var token := Strtok(pending);
    ghost var all := Tokens(jvmArgs);
    ghost var done: seq<string> := [];
    ghost var rest := all;
    while token.Some? && count < MAX_CUSTOM_ARGS
      invariant 0 <= count <= MAX_CUSTOM_ARGS && |done| == count
      invariant token == Strtok(pending)
      invariant rest == Tokens(pending)
      invariant all == done + rest
      invariant customArgs[..count] == done
      decreases |pending|
    {
      TokensStep(pending);
      AppendAssoc(done, [token.value.0], rest[1..]);
      StoreToken(customArgs, count, token.value.0, done);
      done := done + [token.value.0];
      count := count + 1;
      pending := token.value.1;
      rest := rest[1..];
      token := Strtok(pending);
    }
    SplitDone(jvmArgs, done, pending);
  }

  // ---------------------------------------------------------------------
  // The JVM options

  /** The classpath option in its 512-byte buffer; "." when no classpath is configured. */
  function ClasspathOption(classpath: Option<string>): (o: string)
    ensures |o| < 512
  {
    Bounded("-Djava.class.path=" + classpath.GetOr("."), 512)
  }

  /** The three mandatory options, then the custom ones in order. */
  function JvmOptions(classpath: Option<string>, custom: seq<string>): seq<string>
  {
    [ClasspathOption(classpath), "-Xrs", "-Djava.awt.headless=true"] + custom
  }

  lemma OptionsLayout(classpath: Option<string>, custom: seq<string>)
    ensures var o := JvmOptions(classpath, custom);
            |o| == 3 + |custom| && o[3..] == custom &&
            o[0][..18] == "-Djava.class.path=" && o[1] == "-Xrs" && o[2] == "-Djava.awt.headless=true"
    ensures classpath.None? ==> JvmOptions(classpath, custom)[0] == "-Djava.class.path=."
  {
    var o := "-Djava.class.path=" + classpath.GetOr(".");
    assert o[..18] == "-Djava.class.path=";
  }

  /** The `opt_idx`-indexed fill of the options array. */
  method BuildOptions(classpath: Option<string>, customArgs: array<string>, count: nat) returns (options: array<string>)
    requires count <= customArgs.Length
    ensures fresh(options) && options[..] == JvmOptions(classpath, customArgs[..count])
  {
    options := new string[3 + count](_ => "");
    var optIdx := 0;
    options[optIdx] := ClasspathOption(classpath);
    optIdx := optIdx + 1;
    options[optIdx] := "-Xrs";
    optIdx := optIdx + 1;
    options[optIdx] := "-Djava.awt.headless=true";
    optIdx := optIdx + 1;
    for i := 0 to count
      invariant optIdx == 3 + i
      invariant options[..optIdx] == JvmOptions(classpath, customArgs[..i])
    {
      options[optIdx] := customArgs[i];
      assert customArgs[..i + 1] == customArgs[..i] + [customArgs[i]];
      optIdx := optIdx + 1;
    }
    assert options[..] == options[..optIdx];
  }

  // ---------------------------------------------------------------------
  // The class name

  /** The JNI form of a class name: every '.' becomes '/'. */
  function DotsToSlashes(s: string): (r: string)
    ensures |r| == |s|
  {
    seq(|s|, i requires 0 <= i < |s| => if s[i] == '.' then '/' else s[i])
  }

  /** No '.' is left, every other character stays, and a second pass changes nothing. */
  lemma SlashedName(s: string)
    ensures forall i :: 0 <= i < |s| ==> DotsToSlashes(s)[i] != '.'
    ensures forall i :: 0 <= i < |s| && s[i] != '.' ==> DotsToSlashes(s)[i] == s[i]
    ensures DotsToSlashes(DotsToSlashes(s)) == DotsToSlashes(s)
  {
  }

  /** The loop over the strdup'd class name, rewriting it in place. */
  method ConvertClassName(a: array<char>)
    modifies a
    ensures a[..] == DotsToSlashes(old(a[..]))
  {
    var p := 0;
    while p < a.Length
      invariant 0 <= p <= a.Length
      invariant a[..p] == DotsToSlashes(old(a[..]))[..p]
      invariant a[p..] == old(a[..])[p..]
    {
      if a[p] == '.' {
        a[p] := '/';
      }
      p := p + 1;
    }
  }

  // ---------------------------------------------------------------------
  // The config map for the init hook

  /** The keys create_config_map looks up, in order. */
  const CONFIG_MAP_KEYS: seq<string> := [
    "java_class", "java_classpath", "on_event_method", "on_init_method", "on_start_method",
    "on_stop_method", "on_cleanup_method", "on_health_method", "jvm_args",
    "output_file", "batch_size", "timeout", "max_retries"]

  function ConfigMap(entries: seq<ConfigEntry>, keys: seq<string>): seq<(string, string)>
  {
    if keys == [] then []
    else (match GetConfig(entries, keys[0])
          case Some(v) => [(keys[0], v)]
          case None => []) + ConfigMap(entries, keys[1..])
  }

  /** The map holds exactly the listed keys that are configured, with their configured values. */
  lemma {:induction false} ConfigMapContents(entries: seq<ConfigEntry>, keys: seq<string>, k: string, v: string)
    ensures (k, v) in ConfigMap(entries, keys) <==> k in keys && GetConfig(entries, k) == Some(v)
  {
    if keys != [] {
      ConfigMapContents(entries, keys[1..], k, v);
      assert k in keys <==> k == keys[0] || k in keys[1..];
    }
  }

  // ---------------------------------------------------------------------
  // init

  /** The JNI signatures the plugin asks for. */
  const MAP_TO_INT: string := "(Ljava/util/Map;)I"
  const VOID_TO_INT: string := "()I"
  const VOID_TO_VOID: string := "()V"

  /**
   * What the JVM answers during init: whether JNI_CreateJavaVM, FindClass,
   * the default constructor lookup and NewObject succeeded, and the
   * (name, signature) pairs of the class's methods.
   */
  datatype Jvm = Jvm(created: bool, classFound: bool, hasConstructor: bool, instantiated: bool,
                     methods: set<(string, string)>)

  /** A call into Java: an exception, or the jint it returned. */
  datatype JavaCall = Threw | ReturnedInt(v: int)

  predicate HookOk(c: JavaCall)
  {
    c == ReturnedInt(0)
  }

  datatype Settings = Settings(
    className: string,
    eventMethodName: string,
    jvmOptions: seq<string>,
    classPath: string,       // the name handed to FindClass
    startMethod: bool,
    stopMethod: bool,
    cleanupMethod: bool,
    healthMethod: bool)

  /** An optional hook: configured under `key` and found with signature `sig`. */
  predicate HasHook(entries: seq<ConfigEntry>, key: string, sig: string, jvm: Jvm)
  {
    GetConfig(entries, key).Some? && (GetConfig(entries, key).value, sig) in jvm.methods
  }

  function Init(entries: seq<ConfigEntry>, jvm: Jvm, initRet: JavaCall): (r: Option<Settings>)
    ensures r.Some? ==> GetConfig(entries, "java_class") == Some(r.value.className)
    ensures r.Some? ==> (r.value.eventMethodName, MAP_TO_INT) in jvm.methods
  {
    match GetConfig(entries, "java_class")
    case None => None
    case Some(className) =>
      var eventName := GetConfig(entries, "on_event_method").GetOr("onEvent");
      if !jvm.created || !jvm.classFound || !jvm.hasConstructor || !jvm.instantiated then None
      else if (eventName, MAP_TO_INT) !in jvm.methods then None
      else if HasHook(entries, "on_init_method", MAP_TO_INT, jvm) && !HookOk(initRet) then None
      else Some(Settings(className, eventName,
                         JvmOptions(GetConfig(entries, "java_classpath"), CustomArgs(GetConfig(entries, "jvm_args"))),
                         DotsToSlashes(className),
                         HasHook(entries, "on_start_method", VOID_TO_INT, jvm),
                         HasHook(entries, "on_stop_method", VOID_TO_INT, jvm),
                         HasHook(entries, "on_cleanup_method", VOID_TO_VOID, jvm),
                         HasHook(entries, "on_health_method", VOID_TO_INT, jvm)))
  }

  /**
   * init needs java_class, a working JVM, the class, an instance of it and
   * an event method taking a Map and returning int ("onEvent" unless
   * configured); the JVM gets 3 + (custom count) options, at most 35.
   */
  lemma InitRequirements(entries: seq<ConfigEntry>, jvm: Jvm, initRet: JavaCall)
    ensures Init(entries, jvm, initRet).Some? <==>
              GetConfig(entries, "java_class").Some? &&
              jvm.created && jvm.classFound && jvm.hasConstructor && jvm.instantiated &&
              (GetConfig(entries, "on_event_method").GetOr("onEvent"), MAP_TO_INT) in jvm.methods &&
              (HasHook(entries, "on_init_method", MAP_TO_INT, jvm) ==> HookOk(initRet))
    ensures Init(entries, jvm, initRet).Some? ==>
              var o := Init(entries, jvm, initRet).value.jvmOptions;
              |o| == 3 + |CustomArgs(GetConfig(entries, "jvm_args"))| && |o| <= 35
  {
  }

  // ---------------------------------------------------------------------
  // publish, start, stop, health_check

  datatype Counters = Counters(published: nat, failed: nat)

  /**
   * publish's result: `envOk` is whether the thread got a JNIEnv, `mapOk`
   * whether the event map was created, `ret` what the event method did.
   */
  function PublishRc(envOk: bool, mapOk: bool, ret: JavaCall): int
  {
    if envOk && mapOk && HookOk(ret) then OK else FAIL
  }

  function PublishStep(c: Counters, envOk: bool, mapOk: bool, ret: JavaCall): Counters
  {
    if PublishRc(envOk, mapOk, ret) == OK then c.(published := c.published + 1) else c.(failed := c.failed + 1)
  }

  /** Every publish counts once: as published exactly when it returns 0. */
  lemma OneCountPerPublish(c: Counters, envOk: bool, mapOk: bool, ret: JavaCall)
    ensures var c' := PublishStep(c, envOk, mapOk, ret);
            c'.published + c'.failed == c.published + c.failed + 1 &&
            (c'.published == c.published + 1 <==> PublishRc(envOk, mapOk, ret) == OK)
    ensures ret.Threw? || ret == ReturnedInt(1) ==> PublishRc(envOk, mapOk, ret) == FAIL
  {
  }

  /** start and stop: -1 without a JVM or JNIEnv; with a hook, 0 iff it returned 0. */
  function HookRc(hasJvm: bool, envOk: bool, hook: bool, ret: JavaCall): int
  {
    if !hasJvm || !envOk then FAIL
    else if !hook || HookOk(ret) then OK
    else FAIL
  }

  /** health_check: -1 without a JVM, 0 without a hook, else the hook's value (-1 when it throws). */
  function HealthRc(hasJvm: bool, envOk: bool, hook: bool, ret: JavaCall): (rc: int)
    ensures !hasJvm || !envOk ==> rc == FAIL
    ensures hasJvm && envOk && !hook ==> rc == OK
    ensures hasJvm && envOk && hook && ret.ReturnedInt? ==> rc == ret.v
    ensures hasJvm && envOk && hook && ret.Threw? ==> rc == FAIL
  {
    if !hasJvm || !envOk then FAIL
    else if !hook then OK
    else match ret
      case Threw => FAIL
      case ReturnedInt(v) => v
  }

  // ---------------------------------------------------------------------
  // The plugin's private data

  class Publisher {
    const settings: Settings
    const hasJvm: bool
    var eventsPublished: nat
    var eventsFailed: nat

    function Stats(): Counters
      reads this
    {
      Counters(eventsPublished, eventsFailed)
    }

    constructor (s: Settings)
      ensures settings == s && hasJvm && Stats() == Counters(0, 0)
    {
      settings := s;
      hasJvm := true;
      eventsPublished, eventsFailed := 0, 0;
    }

    method Start(envOk: bool, ret: JavaCall) returns (rc: int)
      ensures rc == HookRc(hasJvm, envOk, settings.startMethod, ret)
    {
      if !hasJvm || !envOk {
        return FAIL;
      }
      rc := OK;
      if settings.startMethod && (ret.Threw? || ret.v != 0) {
        rc := FAIL;
      }
    }

    /** publish: `eventMap` is the map handed to the event method, None when none was made. */
    method Publish(event: CdcEvent, envOk: bool, mapOk: bool, ret: JavaCall) returns (rc: int, eventMap: Option<seq<(string, string)>>)
      modifies this
      ensures rc == PublishRc(envOk, mapOk, ret)
      ensures Stats() == PublishStep(old(Stats()), envOk, mapOk, ret)
      ensures eventMap == if envOk && mapOk then Some(EventFields(event)) else None
    {
      if !envOk || !mapOk {
        eventsFailed := eventsFailed + 1;
        return FAIL, None;
      }
      eventMap := Some(EventFields(event));
      if ret.Threw? || ret.v != 0 {
        eventsFailed := eventsFailed + 1;
        return FAIL, eventMap;
      }
      eventsPublished := eventsPublished + 1;
      rc := OK;
    }

    method Stop(envOk: bool, ret: JavaCall) returns (rc: int)
      ensures rc == HookRc(hasJvm, envOk, settings.stopMethod, ret)
    {
      if !hasJvm || !envOk {
        return FAIL;
      }
      rc := OK;
      if settings.stopMethod && (ret.Threw? || ret.v != 0) {
        rc := FAIL;
      }
    }

    method HealthCheck(envOk: bool, ret: JavaCall) returns (rc: int)
      ensures rc == HealthRc(hasJvm, envOk, settings.healthMethod, ret)
    {
      if !hasJvm || !envOk {
        return FAIL;
      }
      if !settings.healthMethod {
        return OK;
      }
      rc := if ret.Threw? then FAIL else ret.v;
    }
  }
}
