/** The watch loop (`watchEvents`): a single interleaved script of what the events
    channel and the errors channel deliver, run until either channel reports closed.
    The outcomes of the master-pid lookup and of the reload signal are inputs carried
    by each event; the loop records which calls it makes. */
module EventLoop {
  import opened Results
  import opened Paths
  import opened ProcessLocator

  /** An fsnotify operation bitmask (fsnotify's `Op` is a uint32). */
  type Op = bv32

  /** fsnotify's Create bit; Write, Remove, Rename and Chmod are the next four bits. */
  const CREATE: Op := 1
  const WRITE: Op := 2

  /** The entry an atomic config-map update creates last. */
  const CONFIG_MAP_MARKER: string := "..data"

  /** An event starts a reload when its op has the Create bit and its base name is
      the marker. */
  predicate IsReloadTrigger(op: Op, name: string)
  {
    op & CREATE == CREATE && Base(name) == CONFIG_MAP_MARKER
  }

  /** What the operating system answers if the event triggers a reload: the result of
      the master-pid lookup, and the error (if any) of the reload signal. */
  datatype Replies = Replies(lookup: Result<int32>, signal: Option<Error>)

  /** One thing the loop receives: an event, a watcher error, or a channel closing. */
  datatype Input =
    | Event(op: Op, name: string, replies: Replies)
    | WatcherError(error: Error)
    | EventsClosed
    | ErrorsClosed
  {
    predicate IsClose()
    {
      EventsClosed? || ErrorsClosed?
    }
  }

  /** A call the loop makes: a master-pid lookup, or a reload signal to a pid. */
  datatype Call = LookupCall(found: Result<int32>) | SignalCall(pid: int32, sent: Option<Error>)

  datatype LoopState = Running | Stopped

  /** The calls made, whether the loop has returned, and how many inputs it consumed. */
  datatype Trace = Trace(calls: seq<Call>, state: LoopState, handled: nat)

  /** The calls one event causes. */
  function Reaction(op: Op, name: string, replies: Replies): seq<Call>
  {
    if !IsReloadTrigger(op, name) then []
    else
      match replies.lookup
      case Failure(_) => [LookupCall(replies.lookup)]
      case Success(pid) => [LookupCall(replies.lookup), SignalCall(pid, replies.signal)]
  }

  /** The loop run over `script`. */
  function Run(script: seq<Input>): (t: Trace)
    ensures t.handled <= |script|
    decreases |script|
  {
    if script == [] then Trace([], Running, 0)
    else
      match script[0]
      case EventsClosed => Trace([], Stopped, 1)
      case ErrorsClosed => Trace([], Stopped, 1)
      case WatcherError(_) =>
        var rest := Run(script[1..]);
        Trace(rest.calls, rest.state, rest.handled + 1)
      case Event(op, name, replies) =>
        var rest := Run(script[1..]);
        Trace(Reaction(op, name, replies) + rest.calls, rest.state, rest.handled + 1)
  }

  /** `rest` continued after `n` inputs that made `calls`. */
  function Resumed(calls: seq<Call>, n: nat, rest: Trace): Trace
  {
    Trace(calls + rest.calls, rest.state, n + rest.handled)
  }

  /** The calls an input makes when it does not end the loop. */
  function Effect(item: Input): seq<Call>
  {
    if item.Event? then Reaction(item.op, item.name, item.replies) else []
  }

  /** A script whose first input does not close a channel runs that input, then the rest. */
  lemma RunHead(rest: seq<Input>)
    requires rest != [] && !rest[0].IsClose()
    ensures Run(rest) == Resumed(Effect(rest[0]), 1, Run(rest[1..]))
  {
  }

  /** Resuming in two steps is resuming once with both steps' calls. */
  lemma ResumedTwice(calls: seq<Call>, k: nat, made: seq<Call>, rest: Trace)
    ensures Resumed(calls, k, Resumed(made, 1, rest)) == Resumed(calls + made, k + 1, rest)
  {
    assert calls + (made + rest.calls) == (calls + made) + rest.calls;
  }

  /** After `k` inputs that made `calls`, input `k` neither closes a channel nor ends
      the loop: the run so far grows by what that input makes. */
  lemma RunContinues(script: seq<Input>, k: nat, calls: seq<Call>, made: seq<Call>)
    requires k < |script| && !script[k].IsClose()
    requires made == Effect(script[k])
    requires Run(script) == Resumed(calls, k, Run(script[k..]))
    ensures Run(script) == Resumed(calls + made, k + 1, Run(script[k + 1..]))
  {
    var rest := script[k..];
    assert rest[0] == script[k] && rest[1..] == script[k + 1..];
    RunHead(rest);
    ResumedTwice(calls, k, made, Run(script[k + 1..]));
  }

  /** After `k` inputs that made `calls`, a closing input `k` ends the loop there. */
  lemma RunStopsAt(script: seq<Input>, k: nat, calls: seq<Call>)
    requires k < |script| && script[k].IsClose()
    requires Run(script) == Resumed(calls, k, Run(script[k..]))
    ensures Run(script) == Trace(calls, Stopped, k + 1)
  {
  }

  /** The body of the loop's event case: the calls one event makes. A failed lookup
      skips the signal, as the loop's `continue` does. */
  method HandleEvent(op: Op, name: string, replies: Replies) returns (made: seq<Call>)
    ensures made == Reaction(op, name, replies)
  {
    made := [];
    if op & CREATE == CREATE {
      if Base(name) == CONFIG_MAP_MARKER {
        made := [LookupCall(replies.lookup)];
        if replies.lookup.Failure? {
          return;
        }
        made := made + [SignalCall(replies.lookup.value, replies.signal)];
      }
    }
  }

  /** The loop itself. A script that runs out leaves it Running (it would block
      waiting for more). */
  method WatchEvents(script: seq<Input>) returns (calls: seq<Call>, state: LoopState, handled: nat)
    ensures Trace(calls, state, handled) == Run(script)
  {
    calls, handled := [], 0;
    while handled < |script|
      invariant handled <= |script|
      invariant Run(script) == Resumed(calls, handled, Run(script[handled..]))
    {
      var item := script[handled];
      match item {
        case EventsClosed =>
          RunStopsAt(script, handled, calls);
          return calls, Stopped, handled + 1;
        case ErrorsClosed =>
          RunStopsAt(script, handled, calls);
          return calls, Stopped, handled + 1;
        case WatcherError(_) =>
          RunContinues(script, handled, calls, []);
        case Event(op, name, replies) =>
          var made := HandleEvent(op, name, replies);
          RunContinues(script, handled, calls, made);
          calls := calls + made;
      }
      handled := handled + 1;
    }
    assert script[handled..] == [];
    return calls, Running, handled;
  }

  /** The trigger in terms of the path itself: the Create bit is set (whatever other
      bits are) and the path ends in the marker, possibly followed by slashes. */
  lemma ReloadTriggerCharacterized(op: Op, name: string)
    ensures IsReloadTrigger(op, name) <==>
              op & CREATE != 0 && exists j :: ElementAt(name, CONFIG_MAP_MARKER, j)
    ensures IsReloadTrigger(op, name) == IsReloadTrigger(op & CREATE, name)
  {
    BaseIsLastElement(name, CONFIG_MAP_MARKER);
  }

  /** The loop returns exactly at the first input that reports a closed channel and
      never before; without one it consumes the whole script and keeps running. */
  lemma {:induction false} LoopEndsExactlyAtClose(script: seq<Input>)
    ensures Run(script).state == Stopped <==> exists k :: 0 <= k < |script| && script[k].IsClose()
    ensures Run(script).state == Stopped ==> 0 < Run(script).handled && script[Run(script).handled - 1].IsClose()
    ensures Run(script).state == Running ==> Run(script).handled == |script|
    ensures forall k :: 0 <= k < Run(script).handled - 1 ==> !script[k].IsClose()
    decreases |script|
  {
    if script != [] && !script[0].IsClose() {
      var rest := script[1..];
      LoopEndsExactlyAtClose(rest);
      if exists k :: 0 <= k < |script| && script[k].IsClose() {
        var k :| 0 <= k < |script| && script[k].IsClose();
        assert rest[k - 1].IsClose();
      }
      forall k | 0 <= k < Run(script).handled - 1
        ensures !script[k].IsClose()
      {
        if k > 0 {
          assert script[k] == rest[k - 1];
        }
      }
    }
  }

  /** Watcher errors, failed lookups and failed signals never end the loop: run over
      inputs that hold no closing, it goes on to the rest of the script as if it had
      started there. */
  lemma {:induction false} RunWithoutCloseComposes(prefix: seq<Input>, rest: seq<Input>)
    requires forall k :: 0 <= k < |prefix| ==> !prefix[k].IsClose()
    ensures Run(prefix).state == Running
    ensures Run(prefix + rest) == Resumed(Run(prefix).calls, |prefix|, Run(rest))
    decreases |prefix|
  {
    if prefix == [] {
      assert prefix + rest == rest;
    } else {
      assert (prefix + rest)[1..] == prefix[1..] + rest;
      RunWithoutCloseComposes(prefix[1..], rest);
    }
  }

  /** Number of lookups among `calls`. */
  function Lookups(calls: seq<Call>): nat
  {
    if calls == [] then 0 else (if calls[0].LookupCall? then 1 else 0) + Lookups(calls[1..])
  }

  /** Number of signals among `calls`. */
  function Signals(calls: seq<Call>): nat
  {
    if calls == [] then 0 else (if calls[0].SignalCall? then 1 else 0) + Signals(calls[1..])
  }

  /** Number of events among `items` that trigger a reload. */
  function Triggers(items: seq<Input>): nat
  {
    if items == [] then 0
    else (if items[0].Event? && IsReloadTrigger(items[0].op, items[0].name) then 1 else 0) + Triggers(items[1..])
  }

  /** Number of triggering events among `items` whose lookup succeeds. */
  function FoundTriggers(items: seq<Input>): nat
  {
    if items == [] then 0
    else
      (if items[0].Event? && IsReloadTrigger(items[0].op, items[0].name) && items[0].replies.lookup.Success?
       then 1 else 0)
      + FoundTriggers(items[1..])
  }

  lemma {:induction false} CountsDistribute(a: seq<Call>, b: seq<Call>)
    ensures Lookups(a + b) == Lookups(a) + Lookups(b)
    ensures Signals(a + b) == Signals(a) + Signals(b)
    decreases |a|
  {
    if a == [] {
      assert a + b == b;
    } else {
      assert (a + b)[1..] == a[1..] + b;
      CountsDistribute(a[1..], b);
    }
  }

  /** No coalescing: every triggering event consumed makes its own lookup, and every
      one whose lookup succeeds its own signal. */
  lemma {:induction false} LookupsMatchTriggers(script: seq<Input>)
    ensures Lookups(Run(script).calls) == Triggers(script[..Run(script).handled])
    ensures Signals(Run(script).calls) == FoundTriggers(script[..Run(script).handled])
    decreases |script|
  {
    if script != [] {
      var t := Run(script);
      var rest := script[1..];
      var item := script[0];
      if item.IsClose() {
        assert script[..1][1..] == [];
      } else {
        LookupsMatchTriggers(rest);
        assert script[..t.handled][1..] == rest[..Run(rest).handled];
        if item.Event? {
          CountsDistribute(Reaction(item.op, item.name, item.replies), Run(rest).calls);
        }
      }
    }
  }

  /** Every signal goes right after a successful lookup, to the pid that lookup found
      (0 included), and every successful lookup is followed by that signal. */
  ghost predicate SignalsPairedWithLookups(calls: seq<Call>)
  {
    && (forall j :: 0 <= j < |calls| && calls[j].SignalCall? ==>
          0 < j && calls[j - 1] == LookupCall(Success(calls[j].pid)))
    && (forall j :: 0 <= j < |calls| && calls[j].LookupCall? && calls[j].found.Success? ==>
          j + 1 < |calls| && calls[j + 1].SignalCall? && calls[j + 1].pid == calls[j].found.value)
  }

  /** One event's calls are paired: a lookup, then a signal only when it succeeded. */
  lemma ReactionIsPaired(op: Op, name: string, replies: Replies)
    ensures SignalsPairedWithLookups(Reaction(op, name, replies))
    ensures Reaction(op, name, replies) == [] || Reaction(op, name, replies)[0].LookupCall?
  {
  }

  /** Paired calls followed by paired calls that start with a lookup stay paired: a
      successful lookup in `a` already has its signal inside `a`. */
  lemma PairedConcat(a: seq<Call>, b: seq<Call>)
    requires SignalsPairedWithLookups(a) && SignalsPairedWithLookups(b)
    requires b == [] || b[0].LookupCall?
    ensures SignalsPairedWithLookups(a + b)
  {
  }

  /** A lookup that fails skips the signal; one that succeeds is followed by a signal
      to the pid it returned. */
  lemma {:induction false} SignalsFollowSuccessfulLookups(script: seq<Input>)
    ensures SignalsPairedWithLookups(Run(script).calls)
    ensures Run(script).calls == [] || Run(script).calls[0].LookupCall?
    decreases |script|
  {
    if script != [] && !script[0].IsClose() {
      var item := script[0];
      var rest := Run(script[1..]).calls;
      SignalsFollowSuccessfulLookups(script[1..]);
      RunHead(script);
      if item.Event? {
        ReactionIsPaired(item.op, item.name, item.replies);
        PairedConcat(Effect(item), rest);
      }
    }
  }

  /** In a watched directory `dir`, creating the marker starts a reload, with other
      bits set or with a trailing slash too; creating another name, or only writing
      the marker, does not. */
  lemma MarkerEventsInDirectory(dir: string)
    ensures IsReloadTrigger(CREATE, dir + "/" + CONFIG_MAP_MARKER)
    ensures IsReloadTrigger(CREATE | WRITE, dir + "/" + CONFIG_MAP_MARKER + "/")
    ensures !IsReloadTrigger(CREATE, dir + "/other")
    ensures !IsReloadTrigger(WRITE, dir + "/" + CONFIG_MAP_MARKER)
  {
    var marker := dir + "/" + CONFIG_MAP_MARKER;
    var nested := marker + "/";
    var other := dir + "/other";
    assert marker[|dir| + 1..] == CONFIG_MAP_MARKER;
    ElementIsBase(marker, CONFIG_MAP_MARKER, |dir| + 1);
    assert nested[|dir| + 1..|dir| + 7] == CONFIG_MAP_MARKER;
    ElementIsBase(nested, CONFIG_MAP_MARKER, |dir| + 1);
    assert other[|dir| + 1..] == "other";
    ElementIsBase(other, "other", |dir| + 1);
  }

  /** A reload whose lookup fails, then one whose lookup succeeds: both lookups are
      made, and only the second is followed by a signal, whatever that signal's
      outcome; the loop then goes on with the rest. */
  lemma FailedLookupThenReload(a: Input, b: Input, rest: seq<Input>)
    requires a.Event? && IsReloadTrigger(a.op, a.name) && a.replies.lookup.Failure?
    requires b.Event? && IsReloadTrigger(b.op, b.name) && b.replies.lookup.Success?
    ensures Run([a, b] + rest) == Resumed([
              LookupCall(a.replies.lookup),
              LookupCall(b.replies.lookup), SignalCall(b.replies.lookup.value, b.replies.signal)
            ], 2, Run(rest))
  {
  }
}
