/** Package multi: a handler that passes each entry to several handlers in turn. */
module Multi {
  import opened Wrappers
  import opened Fields
  import Log

  /** The outcome each handler would report for record `r`. */
  function Outcomes(hs: seq<Log.Handler>, r: Log.Record): (outs: seq<Option<Failure>>)
    ensures |outs| == |hs|
  {
    seq(|hs|, i requires 0 <= i < |hs| => hs[i].Respond(r))
  }

  /** The position of the first failure, or the length when every outcome is a success. */
  function FirstFailure(outs: seq<Option<Failure>>): (k: nat)
    ensures k <= |outs|
    ensures forall i :: 0 <= i < k ==> outs[i].None?
    ensures k < |outs| ==> outs[k].Some?
  {
    if outs == [] then 0
    else if outs[0].Some? then 0
    else 1 + FirstFailure(outs[1..])
  }

  /** How many handlers are called: up to and including the first failing one. */
  function Reached(outs: seq<Option<Failure>>): (n: nat)
    ensures n <= |outs|
  {
    var k := FirstFailure(outs);
    if k < |outs| then k + 1 else k
  }

  /** What the fan-out returns: the first failure, or nil. */
  function Verdict(outs: seq<Option<Failure>>): (err: Option<Failure>)
    ensures err.None? <==> forall i :: 0 <= i < |outs| ==> outs[i].None?
    ensures err.Some? ==> err == outs[FirstFailure(outs)]
  {
    var k := FirstFailure(outs);
    if k < |outs| then outs[k] else None
  }

  /** How many of the first `n` positions of `hs` hold handler `h`. */
  function Count(hs: seq<Log.Handler>, h: Log.Handler, n: nat): (c: nat)
    requires n <= |hs|
    ensures c <= n
  {
    if n == 0 then 0
    else Count(hs, h, n - 1) + if hs[n - 1] == h then 1 else 0
  }

  /** `n` copies of `r`. */
  function Repeat(r: Log.Record, n: nat): (s: seq<Log.Record>)
    ensures |s| == n
  {
    if n == 0 then [] else Repeat(r, n - 1) + [r]
  }

  /** One more delivery of `r` extends the received sequence by one copy. */
  lemma DeliveryStep(start: seq<Log.Record>, before: seq<Log.Record>, after: seq<Log.Record>,
                     r: Log.Record, c: nat, called: bool)
    requires before == start + Repeat(r, c)
    requires after == if called then before + [r] else before
    ensures after == start + Repeat(r, c + if called then 1 else 0)
  {
    if called {
      assert Repeat(r, c + 1) == Repeat(r, c) + [r];
    }
  }

  /** The first failure is at `i` when all before it succeed and `i` fails. */
  lemma FirstFailureAt(outs: seq<Option<Failure>>, i: int)
    requires 0 <= i < |outs| && outs[i].Some?
    requires forall j :: 0 <= j < i ==> outs[j].None?
    ensures FirstFailure(outs) == i
  {
  }

  /** When the handler at `i` is the first to fail, the fan-out reports its error after reaching `i + 1` handlers. */
  lemma StopsAt(hs: seq<Log.Handler>, r: Log.Record, i: int)
    requires 0 <= i < |hs| && hs[i].Respond(r).Some?
    requires forall j :: 0 <= j < i ==> hs[j].Respond(r).None?
    ensures Verdict(Outcomes(hs, r)) == hs[i].Respond(r)
    ensures Reached(Outcomes(hs, r)) == i + 1
  {
    FirstFailureAt(Outcomes(hs, r), i);
  }

  /** When no handler fails, the fan-out reports nil after reaching all of them. */
  lemma AllSucceed(hs: seq<Log.Handler>, r: Log.Record)
    requires forall j :: 0 <= j < |hs| ==> hs[j].Respond(r).None?
    ensures Verdict(Outcomes(hs, r)) == None
    ensures Reached(Outcomes(hs, r)) == |hs|
  {
    assert forall j :: 0 <= j < |hs| ==> Outcomes(hs, r)[j].None?;
  }

  /** A handler that appears at exactly one position is called exactly once when all are reached. */
  lemma {:induction false} CountUnique(hs: seq<Log.Handler>, i: int, n: nat)
    requires 0 <= i < n <= |hs|
    requires forall j :: 0 <= j < |hs| && j != i ==> hs[j] != hs[i]
    ensures Count(hs, hs[i], n) == 1
  {
    if n - 1 > i {
      CountUnique(hs, i, n - 1);
    } else {
      CountAbsent(hs, hs[i], n - 1);
    }
  }

  /** A handler at none of the first `n` positions is counted zero times. */
  lemma {:induction false} CountAbsent(hs: seq<Log.Handler>, h: Log.Handler, n: nat)
    requires n <= |hs|
    requires forall j :: 0 <= j < n ==> hs[j] != h
    ensures Count(hs, h, n) == 0
  {
    if n > 0 {
      CountAbsent(hs, h, n - 1);
    }
  }

  /** What each handler of `hs` has received so far, position by position. */
  ghost function Received(hs: seq<Log.Handler>): (rs: seq<seq<Log.Record>>)
    reads hs
    ensures |rs| == |hs|
  {
    seq(|hs|, j requires 0 <= j < |hs| reads hs => hs[j].received)
  }

  /**
   * What every handler of `hs` holds once `r` has been delivered to the first `n`
   * positions, starting from `start`: one more copy of `r` per position reached.
   */
  ghost function Expected(hs: seq<Log.Handler>, start: seq<seq<Log.Record>>, r: Log.Record, n: nat)
    : (rs: seq<seq<Log.Record>>)
    requires |start| == |hs| && n <= |hs|
    ensures |rs| == |hs|
  {
    seq(|hs|, j requires 0 <= j < |hs| => start[j] + Repeat(r, Count(hs, hs[j], n)))
  }

  /** Before any delivery, every handler holds what it held at the start. */
  lemma ExpectedNone(hs: seq<Log.Handler>, start: seq<seq<Log.Record>>, r: Log.Record)
    requires |start| == |hs|
    ensures Expected(hs, start, r, 0) == start
  {
    var rs := Expected(hs, start, r, 0);
    forall j | 0 <= j < |hs| ensures rs[j] == start[j] {
      assert Repeat(r, 0) == [];
    }
  }

  /** A handler listed at one position only, and reached, gets exactly one copy of `r`. */
  lemma DeliveredOnce(hs: seq<Log.Handler>, start: seq<seq<Log.Record>>, r: Log.Record, n: nat, i: int)
    requires |start| == |hs| && 0 <= i < n <= |hs|
    requires forall j :: 0 <= j < |hs| && j != i ==> hs[j] != hs[i]
    ensures Expected(hs, start, r, n)[i] == start[i] + [r]
  {
    CountUnique(hs, i, n);
    assert Repeat(r, 1) == [r];
  }

  /** A handler at none of the first `n` positions gets nothing. */
  lemma DeliveredNone(hs: seq<Log.Handler>, start: seq<seq<Log.Record>>, r: Log.Record, n: nat, i: int)
    requires |start| == |hs| && n <= |hs| && 0 <= i < |hs|
    requires forall j :: 0 <= j < n ==> hs[j] != hs[i]
    ensures Expected(hs, start, r, n)[i] == start[i]
  {
    CountAbsent(hs, hs[i], n);
  }

  /**
   * Since the current call began, every handler of `hs` has received `r` once for
   * each of its positions among the first `n`, and nothing else.
   */
  twostate predicate DeliveredUpTo(hs: seq<Log.Handler>, r: Log.Record, n: nat)
    requires n <= |hs|
    reads hs
  {
    Received(hs) == Expected(hs, old(Received(hs)), r, n)
  }

  /** The fan-out handler: `New(h...)` keeps the handlers in the given order. */
  class Handler {
    const handlers: seq<Log.Handler>

    constructor (hs: seq<Log.Handler>)
      ensures handlers == hs
    {
      handlers := hs;
    }

    /**
     * `HandleLog(e)`: calls the handlers in order with the same entry and stops
     * at the first failure, whose error it returns. A handler listed at several
     * positions is called once per position reached.
     */
    method HandleLog(e: Log.Entry) returns (err: Option<Failure>)
      modifies handlers
      ensures err == Verdict(Outcomes(handlers, e.Snapshot()))
      ensures DeliveredUpTo(handlers, e.Snapshot(), Reached(Outcomes(handlers, e.Snapshot())))
    {
      ghost var r := e.Snapshot();
      ghost var start := Received(handlers);
      ExpectedNone(handlers, start, r);
      var i := 0;
      while i < |handlers|
        invariant 0 <= i <= |handlers|
        invariant e.Snapshot() == r
        invariant forall j :: 0 <= j < i ==> handlers[j].Respond(r).None?
        invariant Received(handlers) == Expected(handlers, start, r, i)
      {
        err := Deliver(e, i, r, start);
        if err.Some? {
          StopsAt(handlers, r, i);
          return;
        }
        i := i + 1;
      }
      AllSucceed(handlers, r);
      err := None;
    }

    /** One step of the fan-out: the handler at position `i` gets the entry. */
    method Deliver(e: Log.Entry, i: nat, ghost r: Log.Record, ghost start: seq<seq<Log.Record>>)
      returns (err: Option<Failure>)
      requires i < |handlers| && e.Snapshot() == r
      requires |start| == |handlers| && Received(handlers) == Expected(handlers, start, r, i)
      modifies handlers[i]
      ensures e.Snapshot() == r
      ensures err == handlers[i].Respond(r)
      ensures Received(handlers) == Expected(handlers, start, r, i + 1)
    {
      var h := handlers[i];
      err := h.HandleLog(e);
      forall j | 0 <= j < |handlers|
        ensures Received(handlers)[j] == Expected(handlers, start, r, i + 1)[j]
      {
        assert old(Received(handlers))[j] == old(handlers[j].received);
        assert Expected(handlers, start, r, i)[j] == start[j] + Repeat(r, Count(handlers, handlers[j], i));
        assert Received(handlers)[j] == handlers[j].received;
        assert Expected(handlers, start, r, i + 1)[j] == start[j] + Repeat(r, Count(handlers, handlers[j], i + 1));
        DeliveryStep(start[j], old(handlers[j].received), handlers[j].received,
                     r, Count(handlers, handlers[j], i), handlers[j] == h);
      }
    }
  }
}
