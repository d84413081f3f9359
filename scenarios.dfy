/**
 * End-to-end uses of the logging core, each checked against the model: what a
 * recording handler has received and what the logger printed afterwards.
 */
module Scenarios {
  import opened Wrappers
  import opened Fields
  import opened Log
  import Multi

  /** A Debug call on a logger with an Info threshold reaches no handler. */
  method DebugBelowInfo(now: int)
  {
    var h := new Handler(r => None);
    var l := new Logger(h, InfoLevel);
    l.Debug("dropped", now);
    assert h.received == [] && l.diagnostics == [];
  }

  /** `WithField("user", "a").Info("hello")` delivers one record holding that field. */
  method FieldThenInfo(now: int)
  {
    var h := new Handler(r => None);
    var l := new Logger(h, InfoLevel);
    var e := l.WithField("user", Str("a"));
    e.Info("hello", now);
    MergePush([], map["user" := Str("a")]);
    assert [] + [map["user" := Str("a")]] == [map["user" := Str("a")]];
    assert map[] + map["user" := Str("a")] == map["user" := Str("a")];
    assert h.received == [Record("", map["user" := Str("a")], InfoLevel, now, "hello")];
    assert l.diagnostics == [];
  }

  /** `Named("db").Named("pool")` joins the names with a slash. */
  method NamedTwice()
  {
    var h := new Handler(r => None);
    var l := new Logger(h, InfoLevel);
    var db := l.Named("db");
    var pool := db.Named("pool");
    assert pool.name == "db/pool" && db.name == "db";
  }

  /** An error carrying its own fields contributes "error" and each of those fields. */
  method StructuredError(now: int)
  {
    var h := new Handler(r => None);
    var l := new Logger(h, InfoLevel);
    var failure := Failure("timeout", Some(map["retries" := Int(3)]));
    var e := l.WithError(Some(failure));
    e.Error("request failed", now);
    ErrorLayersMerge([], failure);
    assert [] + ErrorLayers(failure) == ErrorLayers(failure);
    var fields := h.received[0].fields;
    assert fields == map["error" := Err(failure), "retries" := Int(3)];
  }

  /** A failing handler is called once and its error is only printed. */
  method FailingHandler(now: int)
  {
    var h := new Handler(r => Some(Failure("disk full", None)));
    var l := new Logger(h, DebugLevel);
    l.Warn("low space", now);
    assert |h.received| == 1;
    assert h.Respond(h.received[0]) == Some(Failure("disk full", None));
    assert "error logging: " + "disk full" == "error logging: disk full";
    assert l.diagnostics == ["error logging: disk full"];
  }

  /** Trace then Stop(nil): an Info record at the start, then an Info record with "duration". */
  method TraceAndStop(start: int, now: int, finish: int)
  {
    var h := new Handler(r => None);
    var l := new Logger(h, InfoLevel);
    var t := l.Trace("upload", now, start);
    t.Stop(NilRef, start + 1500000, finish);
    TraceThenStop([], 1);
    assert Milliseconds(1500000) == 1;
    assert h.received == [Record("", map[], InfoLevel, now, "upload"),
                          Record("", map["duration" := Int(1)], InfoLevel, finish, "upload")];
  }

  /** The fan-out stops at the first failing handler: the second one is never called. */
  method FanOutStops(now: int)
  {
    var first := new Handler(r => Some(Failure("closed", None)));
    var second := new Handler(r => None);
    var fan := new Multi.Handler([first, second]);
    var l := new Logger(first, DebugLevel);
    var e := NewEntry(l);
    ghost var r := e.Snapshot();
    ghost var before := Multi.Received(fan.handlers);
    var err := fan.HandleLog(e);
    Multi.StopsAt(fan.handlers, r, 0);
    assert err == Some(Failure("closed", None));
    Multi.DeliveredOnce(fan.handlers, before, r, 1, 0);
    Multi.DeliveredNone(fan.handlers, before, r, 1, 1);
    assert Multi.Received(fan.handlers)[0] == first.received;
    assert Multi.Received(fan.handlers)[1] == second.received;
    assert first.received == [r] && second.received == [];
  }
}
