// The logger: level names, the 32-slot callback table that log_log walks,
// and the byte accounting of the rotating log file. What a callback does
// with an event is its own business; log_log's model reports which slots
// receive the event and whether it goes to stderr.
module Logger {
  import opened Wrappers

  const LOG_TRACE: int := 0
  const LOG_DEBUG: int := 1
  const LOG_INFO: int := 2
  const LOG_WARN: int := 3
  const LOG_ERROR: int := 4
  const LOG_FATAL: int := 5

  const MAX_CALLBACKS: nat := 32

  /** `char line[4096]` in rotating_file_callback. */
  const LINE_BUFFER: nat := 4096

  /** log_level_string: the level's name, "UNKNOWN" outside TRACE..FATAL. */
  function LevelName(level: int): (s: string)
    ensures s == "UNKNOWN" <==> level < LOG_TRACE || level > LOG_FATAL
  {
    if level < LOG_TRACE || level > LOG_FATAL then "UNKNOWN"
    else ["TRACE", "DEBUG", "INFO", "WARN", "ERROR", "FATAL"][level]
  }

  /** One callback registration: the function/udata pair and its own level. */
  datatype Callback = Callback(sink: nat, level: int)

  /** The static `L` structure: global level, quiet flag and callback slots. */
  class Log {
    var level: int
    var quiet: bool
    const slots: array<Option<Callback>>
    /** The number of filled slots, which always form a prefix of the table. */
    ghost var filled: nat

    ghost predicate Valid()
      reads this, slots
    {
      slots.Length == MAX_CALLBACKS && filled <= MAX_CALLBACKS &&
      forall i :: 0 <= i < MAX_CALLBACKS ==> (slots[i].Some? <==> i < filled)
    }

    /** The zero-initialised static structure. */
    constructor ()
      ensures Valid() && filled == 0 && level == LOG_TRACE && !quiet
      ensures fresh(slots)
    {
      level := LOG_TRACE;
      quiet := false;
      slots := new Option<Callback>[MAX_CALLBACKS](_ => None);
      filled := 0;
    }

    method SetLevel(l: int)
      modifies this
      ensures level == l && quiet == old(quiet) && filled == old(filled)
    {
      level := l;
    }

    method SetQuiet(q: bool)
      modifies this
      ensures quiet == q && level == old(level) && filled == old(filled)
    {
      quiet := q;
    }

    /**
     * log_add_callback: the first empty slot takes the callback (0); with
     * all slots full nothing changes (-1).
     */
    method AddCallback(cb: Callback) returns (rc: int)
      requires Valid()
      modifies this, slots
      ensures Valid()
      ensures level == old(level) && quiet == old(quiet)
      ensures rc == 0 <==> old(filled) < MAX_CALLBACKS
      ensures rc == 0 ==> filled == old(filled) + 1 && slots[old(filled)] == Some(cb)
      ensures rc == 0 ==> forall i :: 0 <= i < MAX_CALLBACKS && i != old(filled) ==> slots[i] == old(slots[i])
      ensures rc != 0 ==> rc == -1 && filled == old(filled) && slots[..] == old(slots[..])
    {
      var i := 0;
      while i < MAX_CALLBACKS
        invariant i <= MAX_CALLBACKS && i <= filled
        invariant Valid() && slots[..] == old(slots[..])
      {
        if slots[i].None? {
          slots[i] := Some(cb);
          filled := filled + 1;
          return 0;
        }
        i := i + 1;
      }
      return -1;
    }

    /**
     * log_log: whether the event goes to stderr, and the slots whose
     * callback runs, in slot order. The walk stops at the first empty slot.
     */
    method Dispatch(eventLevel: int) returns (toStderr: bool, receivers: seq<nat>)
      requires Valid()
      ensures toStderr <==> !quiet && eventLevel >= level
      ensures forall k: nat :: k in receivers <==> k < filled && eventLevel >= slots[k].value.level
      ensures forall a, b :: 0 <= a < b < |receivers| ==> receivers[a] < receivers[b]
    {
      toStderr := !quiet && eventLevel >= level;
      receivers := [];
      var i := 0;
      while i < MAX_CALLBACKS && slots[i].Some?
        invariant i <= filled
        invariant forall k: nat :: k in receivers <==> k < i && eventLevel >= slots[k].value.level
        invariant forall a, b :: 0 <= a < b < |receivers| ==> receivers[a] < receivers[b]
        invariant forall a :: 0 <= a < |receivers| ==> receivers[a] < i
      {
        if eventLevel >= slots[i].value.level {
          receivers := receivers + [i];
        }
        i := i + 1;
      }
    }
  }

  /** The bytes of the line rotating_file_callback writes: capped, plus the newline. */
  function LineLength(headerLen: nat, messageLen: nat): (len: nat)
    ensures 1 <= len <= LINE_BUFFER - 1
    ensures headerLen + messageLen < LINE_BUFFER - 2 ==> len == headerLen + messageLen + 1
  {
    var body := headerLen + messageLen;
    (if body >= LINE_BUFFER - 2 then LINE_BUFFER - 2 else body) + 1
  }

  function Max(a: nat, b: nat): nat
  {
    if a < b then b else a
  }

  /** log_file_t: the rotating log file's settings and byte count. */
  class RotatingFile {
    var path: string
    var maxBytes: nat
    var maxFiles: int
    var curBytes: nat
    /** fp != NULL */
    var isOpen: bool

    /** Rotation can take place: a path and a positive number of files. */
    predicate CanRotate()
      reads this
    {
      path != [] && maxFiles > 0
    }

    constructor ()
      ensures path == [] && maxBytes == 0 && maxFiles == 0 && curBytes == 0 && !isOpen
    {
      path := [];
      maxBytes := 0;
      maxFiles := 0;
      curBytes := 0;
      isOpen := false;
    }

    /**
     * log_add_rotating_file. A NULL path or max_files <= 0 is rejected
     * before anything is touched; the file then has to open; a positive
     * ftell of the existing file seeds the byte count; the path is kept to
     * 511 characters. Last, rotating_file_callback is registered in the
     * callback table, and its result is the call's result: -1 when all
     * MAX_CALLBACKS slots are taken, with the file left open.
     */
    method Open(p: Option<string>, maxB: nat, maxF: int, openOk: bool, seekOk: bool, tellPos: int,
                log: Log, sink: nat, lvl: int)
      returns (rc: int)
      requires log.Valid()
      modifies this, log, log.slots
      ensures log.Valid() && log.level == old(log.level) && log.quiet == old(log.quiet)
      ensures rc == 0 <==> p.Some? && maxF > 0 && openOk && old(log.filled) < MAX_CALLBACKS
      ensures rc != 0 ==> rc == -1
      ensures p.None? || maxF <= 0 ==>
                path == old(path) && maxBytes == old(maxBytes) && maxFiles == old(maxFiles) &&
                curBytes == old(curBytes) && isOpen == old(isOpen)
      ensures p.Some? && maxF > 0 ==>
                path == p.value[..if |p.value| < 511 then |p.value| else 511] &&
                maxBytes == maxB && maxFiles == maxF && isOpen == openOk
      ensures p.Some? && maxF > 0 && openOk ==> curBytes == (if seekOk && tellPos > 0 then tellPos else 0)
      ensures p.Some? && maxF > 0 && !openOk ==> curBytes == 0
      ensures rc == 0 ==> log.filled == old(log.filled) + 1 && log.slots[old(log.filled)] == Some(Callback(sink, lvl))
      ensures rc == 0 ==> forall i :: 0 <= i < MAX_CALLBACKS && i != old(log.filled) ==> log.slots[i] == old(log.slots[i])
      ensures rc != 0 ==> log.filled == old(log.filled) && log.slots[..] == old(log.slots[..])
    {
      if p.None? || maxF <= 0 {
        return -1;
      }
      var s := p.value;
      path := s[..if |s| < 511 then |s| else 511];
      maxBytes := maxB;
      maxFiles := maxF;
      curBytes := 0;
      isOpen := openOk;
      if !openOk {
        return -1;
      }
      if seekOk && tellPos > 0 {
        curBytes := tellPos;
      }
      rc := log.AddCallback(Callback(sink, lvl));
    }

    /**
     * rotate_files, as far as the byte count and the open handle go: without
     * a path or with max_files <= 0 nothing happens; otherwise the file is
     * reopened (reopenOk) and the count restarts at 0 either way.
     */
    method Rotate(reopenOk: bool)
      modifies this
      ensures path == old(path) && maxBytes == old(maxBytes) && maxFiles == old(maxFiles)
      ensures !old(CanRotate()) ==> curBytes == old(curBytes) && isOpen == old(isOpen)
      ensures old(CanRotate()) ==> curBytes == 0 && isOpen == reopenOk
    {
      if path == [] || maxFiles <= 0 {
        return;
      }
      isOpen := reopenOk;
      curBytes := 0;
    }

    /**
     * rotating_file_callback: builds the capped line, rotates first when
     * max_bytes > 0 and the line would take the count past it, then adds
     * what fwrite reports written. `written` is fwrite's result.
     */
    method Write(headerLen: nat, messageLen: nat, reopenOk: bool, written: nat) returns (lineLen: nat)
      requires written <= LineLength(headerLen, messageLen)
      modifies this
      ensures lineLen == LineLength(headerLen, messageLen) && lineLen <= LINE_BUFFER - 1
      ensures path == old(path) && maxBytes == old(maxBytes) && maxFiles == old(maxFiles)
      ensures !old(isOpen) ==> curBytes == old(curBytes) && !isOpen
      ensures old(isOpen) && !(maxBytes > 0 && old(curBytes) + lineLen > maxBytes) ==>
                curBytes == old(curBytes) + written && isOpen
      ensures old(isOpen) && maxBytes > 0 && old(curBytes) + lineLen > maxBytes && old(CanRotate()) ==>
                isOpen == reopenOk && curBytes == (if reopenOk then written else 0)
      ensures old(isOpen) && maxBytes > 0 && old(curBytes) + lineLen > maxBytes && !old(CanRotate()) ==>
                isOpen && curBytes == old(curBytes) + written
      ensures old(isOpen) && maxBytes > 0 && CanRotate() && old(curBytes) <= Max(maxBytes, LINE_BUFFER - 1) ==>
                curBytes <= Max(maxBytes, LINE_BUFFER - 1)
    {
      lineLen := LineLength(headerLen, messageLen);
      if !isOpen {
        return;
      }
      if maxBytes > 0 && curBytes + lineLen > maxBytes {
        Rotate(reopenOk);
        if !isOpen {
          return;
        }
      }
      if written > 0 {
        curBytes := curBytes + written;
      }
    }
  }
}
