/**
 * Package log (entry.go, logger.go): the Logger with its threshold and handler,
 * and the Entry that callers build by chaining before a leveled call hands its
 * finalized snapshot to the handler.
 *
 * Clock reads are parameters: `now` is the value the replaceable `Now` returns
 * when an entry is finalized; `startNow` and `sinceNow` are the reads of
 * `time.Now()` in Trace and Stop. All are nanosecond counts.
 */
module Log {
  import opened Wrappers
  import opened Fields

  /** Severity, ordered Debug < Info < Warn < Error < Fatal. */
  datatype Level = DebugLevel | InfoLevel | WarnLevel | ErrorLevel | FatalLevel

  function Rank(l: Level): nat
  {
    match l
    case DebugLevel => 0
    case InfoLevel => 1
    case WarnLevel => 2
    case ErrorLevel => 3
    case FatalLevel => 4
  }

  /** Go's `a < b` on levels: nothing is below Debug, and Fatal is below nothing. */
  function Below(a: Level, b: Level): (r: bool)
    ensures r ==> a != b && a != FatalLevel && b != DebugLevel
  {
    Rank(a) < Rank(b)
  }

  /** What a handler observes of the finalized entry it is given. */
  datatype Record = Record(name: string, fields: Fields, level: Level, timestamp: int, message: string)

  /** `Duration.Milliseconds()`: nanoseconds to milliseconds, truncated toward zero. */
  function Milliseconds(d: int): (ms: int)
    ensures d >= 0 ==> 0 <= ms * 1000000 <= d < ms * 1000000 + 1000000
    ensures d < 0 ==> ms * 1000000 - 1000000 < d <= ms * 1000000 <= 0
  {
    if d >= 0 then d / 1000000 else -((-d) / 1000000)
  }

  /** Fatal records pass every threshold, so a Fatal call is never dropped. */
  lemma FatalNeverBelow(threshold: Level)
    ensures !Below(FatalLevel, threshold)
  {
  }

  /** `<` on levels is a strict total order: the gate compares any two levels consistently. */
  lemma BelowStrictTotal(a: Level, b: Level, c: Level)
    ensures !Below(a, a)
    ensures Below(a, b) && Below(b, c) ==> Below(a, c)
    ensures a != b ==> Below(a, b) || Below(b, a)
  {
  }

  /**
   * What Stop's finalized entry holds after a Trace: Trace pushed an empty layer
   * (the building entry's `Fields`), which changes nothing, so the record carries
   * the traced entry's fields with "duration" on top.
   */
  lemma TraceThenStop(stack: seq<Fields>, ms: int)
    ensures Merge(stack + [map[]] + [map["duration" := Int(ms)]]) == Merge(stack)["duration" := Int(ms)]
  {
    MergeEmptyLayer(stack, [map["duration" := Int(ms)]]);
    MergePush(stack, map["duration" := Int(ms)]);
  }

  /**
   * The same with a non-nil error: "duration", then "error", then the error's
   * own fields, each overriding what came before.
   */
  lemma TraceThenStopFailed(stack: seq<Fields>, ms: int, e: Failure)
    ensures Merge(stack + [map[]] + [map["duration" := Int(ms)]] + ErrorLayers(e)) ==
            Merge(stack)["duration" := Int(ms)]["error" := Err(e)] +
            (if e.context.Some? then e.context.value else map[])
  {
    TraceThenStop(stack, ms);
    ErrorLayersMerge(stack + [map[]] + [map["duration" := Int(ms)]], e);
  }

  /** Stop's `*error` argument: a nil pointer, or a pointer to a possibly nil error. */
  datatype ErrorRef = NilRef | Ref(target: Option<Failure>)

  /** The line `log` prints through the standard logger when the handler fails. */
  function Diagnostic(err: Option<Failure>): (lines: seq<string>)
    ensures |lines| == if err.Some? then 1 else 0
    ensures err.Some? ==> |lines[0]| == 15 + |err.value.text|
    ensures err.Some? ==> lines[0][..15] == "error logging: " && lines[0][15..] == err.value.text
  {
    if err.Some? then ["error logging: " + err.value.text] else []
  }

  /**
   * The effect of one leveled call through `l` on an entry with this name and
   * field stack: nothing at all below the threshold, otherwise exactly one
   * record delivered to the handler and one diagnostic line if it failed.
   */
  twostate predicate Emitted(l: Logger, lv: Level, name: string, stack: seq<Fields>, msg: string, now: int)
    reads l, l.handler
  {
    if Below(lv, old(l.level)) then
      l.handler.received == old(l.handler.received) && l.diagnostics == old(l.diagnostics)
    else
      var r := Record(name, Merge(stack), lv, now, msg);
      l.handler.received == old(l.handler.received) + [r] &&
      l.diagnostics == old(l.diagnostics) + Diagnostic(l.handler.Respond(r))
  }

  /**
   * A Handler: `respond` is the handler's behaviour (a `HandlerFunc`, or any
   * other sink reduced to whether it fails on a record), and `received` records
   * every entry it was given.
   */
  class Handler {
    const respond: Record -> Option<Failure>
    var received: seq<Record>

    /** `HandlerFunc(f)`: a handler that answers with `f`. */
    constructor (f: Record -> Option<Failure>)
      ensures respond == f && received == []
    {
      respond := f;
      received := [];
    }

    /** The outcome the handler reports for record `r`; it depends on nothing but `r`. */
    function Respond(r: Record): Option<Failure>
    {
      respond(r)
    }

    /** `HandleLog(e)`: delivers the entry once and reports the handler's outcome. */
    method HandleLog(e: Entry) returns (err: Option<Failure>)
      modifies this`received
      ensures received == old(received) + [e.Snapshot()]
      ensures err == Respond(e.Snapshot())
    {
      received := received + [e.Snapshot()];
      err := respond(e.Snapshot());
    }
  }

  /**
   * A Logger: a handler and a mutable threshold. `diagnostics` stands for the
   * standard logger's output and `exited` for `os.Exit(1)`, process-wide effects
   * recorded here because the model has no global state.
   */
  class Logger {
    const handler: Handler
    var level: Level
    var diagnostics: seq<string>
    var exited: bool

    constructor (h: Handler, threshold: Level)
      ensures handler == h && level == threshold && diagnostics == [] && !exited
    {
      handler := h;
      level := threshold;
      diagnostics := [];
      exited := false;
    }

    /** `log`: the gate, then one handler call with the finalized entry; failures only print. */
    method Log(lv: Level, e: Entry, msg: string, now: int)
      modifies this`diagnostics, handler`received
      ensures Emitted(this, lv, e.name, e.stack, msg, now)
    {
      if Below(lv, level) {
        return;
      }
      var f := e.Finalize(lv, msg, now);
      var err := handler.HandleLog(f);
      diagnostics := diagnostics + Diagnostic(err);
    }

    method WithFields(f: Fielder) returns (r: Entry)
      requires f.Valid()
      ensures fresh(r) && r.logger == this && r.name == "" && r.stack == [FieldsOf(f)] && r.Building()
    {
      var e := NewEntry(this);
      r := e.WithFields(Plain(FieldsOf(f)));
    }

    method WithField(key: string, value: Value) returns (r: Entry)
      ensures fresh(r) && r.logger == this && r.name == "" && r.stack == [map[key := value]] && r.Building()
    {
      var e := NewEntry(this);
      r := e.WithField(key, value);
    }

    method WithDuration(d: int) returns (r: Entry)
      ensures fresh(r) && r.logger == this && r.name == ""
      ensures r.stack == [map["duration" := Int(Milliseconds(d))]] && r.Building()
    {
      var e := NewEntry(this);
      r := e.WithDuration(d);
    }

    /** With a nil error the result is the fresh entry itself, with no layers. */
    method WithError(err: Option<Failure>) returns (r: Entry)
      ensures fresh(r) && r.logger == this && r.name == "" && r.Building()
      ensures r.stack == if err.Some? then ErrorLayers(err.value) else []
    {
      var e := NewEntry(this);
      r := e.WithError(err);
    }

    /** Named on a fresh entry always takes the in-place branch: the name is exactly `n`. */
    method Named(n: string) returns (r: Entry)
      ensures fresh(r) && r.logger == this && r.name == n && r.stack == [] && r.Building()
    {
      var e := NewEntry(this);
      r := e.Named(n);
    }

    method Debug(msg: string, now: int)
      modifies this`diagnostics, handler`received
      ensures Emitted(this, DebugLevel, "", [], msg, now)
    {
      var e := NewEntry(this);
      e.Debug(msg, now);
    }

    method Info(msg: string, now: int)
      modifies this`diagnostics, handler`received
      ensures Emitted(this, InfoLevel, "", [], msg, now)
    {
      var e := NewEntry(this);
      e.Info(msg, now);
    }

    method Warn(msg: string, now: int)
      modifies this`diagnostics, handler`received
      ensures Emitted(this, WarnLevel, "", [], msg, now)
    {
      var e := NewEntry(this);
      e.Warn(msg, now);
    }

    method Error(msg: string, now: int)
      modifies this`diagnostics, handler`received
      ensures Emitted(this, ErrorLevel, "", [], msg, now)
    {
      var e := NewEntry(this);
      e.Error(msg, now);
    }

    method Fatal(msg: string, now: int)
      modifies this`diagnostics, this`exited, handler`received
      ensures Emitted(this, FatalLevel, "", [], msg, now) && exited
    {
      var e := NewEntry(this);
      e.Fatal(msg, now);
    }

    method Trace(msg: string, now: int, startNow: int) returns (v: Entry)
      modifies this`diagnostics, handler`received
      ensures Emitted(this, InfoLevel, "", [], msg, now)
      ensures fresh(v) && v.logger == this && v.name == "" && v.stack == [map[]]
      ensures v.message == msg && v.start == startNow
      ensures v.fields == map[] && v.level == DebugLevel && v.timestamp == 0
    {
      var e := NewEntry(this);
      v := e.Trace(msg, now, startNow);
    }
  }

  /** `NewEntry(l)`: an entry with no name, no fields and zero values elsewhere. */
  method NewEntry(l: Logger) returns (e: Entry)
    ensures fresh(e) && e.logger == l && e.name == "" && e.stack == [] && e.Building()
  {
    e := new Entry(l, "", []);
  }

  /**
   * An Entry. `stack` is Go's unexported `fields` (the layers not yet merged);
   * `fields`, `level`, `timestamp` and `message` are the finalized data, and
   * `start` the time Trace recorded.
   */
  class Entry {
    const logger: Logger
    var name: string
    var fields: Fields
    var level: Level
    var timestamp: int
    var message: string
    var start: int
    var stack: seq<Fields>

    /** The struct literal `&Entry{Logger: l, Name: name, fields: stack}`. */
    constructor (l: Logger, name: string, stack: seq<Fields>)
      ensures logger == l && this.name == name && this.stack == stack && Building()
    {
      logger := l;
      this.name := name;
      this.stack := stack;
      fields := map[];
      level := DebugLevel;
      timestamp := 0;
      message := "";
      start := 0;
    }

    /** Everything other than logger, name and stack still has its zero value. */
    predicate Building()
      reads this
    {
      fields == map[] && level == DebugLevel && timestamp == 0 && message == "" && start == 0
    }

    function Snapshot(): Record
      reads this
    {
      Record(name, fields, level, timestamp, message)
    }

    /** `WithFields` / `withFields`: a new entry with one more layer; the receiver is untouched. */
    method WithFields(f: Fielder) returns (r: Entry)
      requires f.Valid()
      ensures fresh(r) && r.logger == logger && r.name == name && r.stack == stack + [FieldsOf(f)]
      ensures r.Building()
    {
      r := new Entry(logger, name, stack + [FieldsOf(f)]);
    }

    method WithField(key: string, value: Value) returns (r: Entry)
      ensures fresh(r) && r.logger == logger && r.name == name && r.stack == stack + [map[key := value]]
      ensures r.Building()
    {
      r := WithFields(Plain(map[key := value]));
    }

    method WithDuration(d: int) returns (r: Entry)
      ensures fresh(r) && r.logger == logger && r.name == name
      ensures r.stack == stack + [map["duration" := Int(Milliseconds(d))]]
      ensures r.Building()
    {
      r := WithField("duration", Int(Milliseconds(d)));
    }

    /** A nil error returns the receiver itself; otherwise "error" and then the error's own fields. */
    method WithError(err: Option<Failure>) returns (r: Entry)
      ensures err.None? ==> r == this
      ensures err.Some? ==> fresh(r) && r.logger == logger && r.name == name && r.Building()
      ensures err.Some? ==> r.stack == stack + ErrorLayers(err.value)
    {
      if err.None? {
        return this;
      }
      var ctx := WithField("error", Err(err.value));
      if err.value.context.Some? {
        ctx := ctx.WithFields(Plain(FieldsOf(Structured(err.value))));
      }
      r := ctx;
    }

    /**
     * A named receiver yields a new entry named `name/n`; an unnamed one is
     * renamed in place and returned itself.
     */
    method Named(n: string) returns (r: Entry)
      modifies this`name
      ensures old(name) != "" ==> fresh(r) && r.logger == logger && r.name == old(name) + "/" + n
      ensures old(name) != "" ==> r.stack == stack && r.Building() && name == old(name)
      ensures old(name) == "" ==> r == this && name == n
    {
      if name != "" {
        r := new Entry(logger, name + "/" + n, stack);
        return;
      }
      name := n;
      r := this;
    }

    method Debug(msg: string, now: int)
      modifies logger`diagnostics, logger.handler`received
      ensures Emitted(logger, DebugLevel, name, stack, msg, now)
    {
      logger.Log(DebugLevel, this, msg, now);
    }

    method Info(msg: string, now: int)
      modifies logger`diagnostics, logger.handler`received
      ensures Emitted(logger, InfoLevel, name, stack, msg, now)
    {
      logger.Log(InfoLevel, this, msg, now);
    }

    method Warn(msg: string, now: int)
      modifies logger`diagnostics, logger.handler`received
      ensures Emitted(logger, WarnLevel, name, stack, msg, now)
    {
      logger.Log(WarnLevel, this, msg, now);
    }

    method Error(msg: string, now: int)
      modifies logger`diagnostics, logger.handler`received
      ensures Emitted(logger, ErrorLevel, name, stack, msg, now)
    {
      logger.Log(ErrorLevel, this, msg, now);
    }

    /** Dispatch at FatalLevel (never below any threshold), then exit with status 1. */
    method Fatal(msg: string, now: int)
      modifies logger`diagnostics, logger`exited, logger.handler`received
      ensures Emitted(logger, FatalLevel, name, stack, msg, now) && logger.exited
    {
      logger.Log(FatalLevel, this, msg, now);
      logger.exited := true;
    }

    /**
     * Logs `msg` at Info, then returns a new entry that layers this entry's
     * finalized `fields` (empty while building), carries `msg` and the start time.
     */
    method Trace(msg: string, now: int, startNow: int) returns (v: Entry)
      modifies logger`diagnostics, logger.handler`received
      ensures Emitted(logger, InfoLevel, name, stack, msg, now)
      ensures fresh(v) && v.logger == logger && v.name == name && v.stack == stack + [fields]
      ensures v.message == msg && v.start == startNow
      ensures v.fields == map[] && v.level == DebugLevel && v.timestamp == 0
    {
      Info(msg, now);
      v := WithFields(Plain(fields));
      v.message := msg;
      v.start := startNow;
    }

    /**
     * Completes a Trace: Info with a "duration" layer when there is no error,
     * Error with "duration" and the error's layers otherwise.
     */
    method Stop(err: ErrorRef, sinceNow: int, now: int)
      modifies logger`diagnostics, logger.handler`received
      ensures var layer := map["duration" := Int(Milliseconds(sinceNow - start))];
              if err.NilRef? || err.target.None? then
                Emitted(logger, InfoLevel, name, stack + [layer], message, now)
              else
                Emitted(logger, ErrorLevel, name, stack + [layer] + ErrorLayers(err.target.value), message, now)
    {
      var d := WithDuration(sinceNow - start);
      if err.NilRef? || err.target.None? {
        d.Info(message, now);
      } else {
        var e := d.WithError(err.target);
        e.Error(message, now);
      }
    }

    /** `mergedFields`: the stack applied layer by layer, key by key. */
    method MergedFields() returns (f: Fields)
      ensures f == Merge(stack)
    {
      f := map[];
      var i := 0;
      while i < |stack|
        invariant 0 <= i <= |stack|
        invariant f == Merge(stack[..i])
      {
        var layer := stack[i];
        var todo := layer.Keys;
        while todo != {}
          invariant todo <= layer.Keys
          invariant f == Merge(stack[..i]) + (map k | k in layer.Keys - todo :: layer[k])
          decreases todo
        {
          var k :| k in todo;
          f := f[k := layer[k]];
          todo := todo - {k};
        }
        assert (map k | k in layer.Keys - todo :: layer[k]) == layer;
        MergePush(stack[..i], layer);
        assert stack[..i + 1] == stack[..i] + [layer];
        i := i + 1;
      }
      assert stack[..i] == stack;
    }

    /** `finalize`: a new entry with the merged fields, the level, the message and the time. */
    method Finalize(lv: Level, msg: string, now: int) returns (r: Entry)
      ensures fresh(r) && r.logger == logger && r.name == name && r.stack == []
      ensures r.fields == Merge(stack) && r.level == lv && r.message == msg && r.timestamp == now
      ensures r.start == 0
      ensures r.Snapshot() == Record(name, Merge(stack), lv, now, msg)
    {
      var merged := MergedFields();
      r := new Entry(logger, name, []);
      r.fields := merged;
      r.level := lv;
      r.message := msg;
      r.timestamp := now;
    }
  }
}
