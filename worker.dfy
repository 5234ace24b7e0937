/**
 * The worker supervisor `GameWorker` (dweam/worker.py): bounded retry with
 * doubling timeouts, lazy start, one-line request / one-line response
 * commands, guarded teardown and last-output-line tracking.
 *
 * The OS process and the socket are an environment: each start attempt has an
 * `Attempt` outcome, each read of the control channel a `Reply`, and the
 * effects on the process are recorded, in order, as `Action`s in `trace`.
 * Process handles are numbered by the order in which this worker spawned them.
 */
module Worker {
  import opened Wrappers
  import opened Commands

  const MaxRetries: nat := 3
  const BaseTimeout: nat := 5
  /** Grace period between terminate and kill during cleanup, in seconds. */
  const TerminateGrace: nat := 5

  function Pow2(n: nat): (r: nat)
    ensures r >= 1
  {
    if n == 0 then 1 else 2 * Pow2(n - 1)
  }

  /** `base_timeout * (2 ** attempt)` */
  function AttemptTimeout(attempt: nat): nat
  {
    BaseTimeout * Pow2(attempt)
  }

  /** What happens to one `_establish_connection` attempt. */
  datatype Attempt =
    | Connected            // the worker connected back: returns True
    | ExitedEarly          // the process exited before connecting: returns False
    | TimedOut             // neither within the timeout: raises TimeoutError
    | Raised(spawned: bool) // any other exception, before or after the spawn

  datatype Action =
    | Spawn(pid: nat, timeout: nat)
    | MonitorOutput(pid: nat, stream: string)
    | Kill(pid: nat)
    | Write(message: Json)
    | CloseWriter
    | Terminate(pid: nat)

  /** What the supervisor raises. */
  datatype WorkerError =
    | NotStarted                   // RuntimeError: no reader / writer
    | ProcessClosed                // RuntimeError: empty read
    | InvalidReply(e: DecodeError) // ValidationError on the response line
    | ErrorReply(message: string)  // ValueError(error) from an ErrorResponse
    | InvalidParams                // ValidationError building UpdateParamsCommand
    | InvalidOffer                 // ValidationError building OfferData
    | MalformedAnswer              // KeyError, TypeError or ValueError reading the answer
    | ConnectTimeout               // the final attempt timed out
    | ConnectError                 // the final attempt raised something else
    | RetriesExhausted             // RuntimeError after three failed attempts

  /** A `readline` on the control channel: EOF (b"") or one line. */
  datatype Reply = Eof | Line(message: Json)

  datatype WorkerState = WorkerState(
    process: Option<nat>,
    connected: bool,   // reader and writer are set
    spawned: nat,
    cleanupScheduled: bool,
    trace: seq<Action>)

  // ---------------------------------------------------------------------
  // start

  function AfterSpawn(st: WorkerState, o: Attempt, attempt: nat): WorkerState
  {
    if o.Raised? && !o.spawned then st
    else st.(process := Some(st.spawned), spawned := st.spawned + 1,
             trace := st.trace + [Spawn(st.spawned, AttemptTimeout(attempt))])
  }

  function KillCurrent(st: WorkerState): WorkerState
  {
    if st.process.Some? then st.(trace := st.trace + [Kill(st.process.value)]) else st
  }

  /** Where the retry loop goes after one attempt. */
  datatype AttemptEnd =
    | NextAttempt(state: WorkerState)
    | Returned(state: WorkerState, result: Result<(), WorkerError>)

  /** One iteration of the retry loop of `start` (dweam/worker.py:235-261). */
  function AttemptStep(st: WorkerState, o: Attempt, attempt: nat): AttemptEnd
  {
    var s := AfterSpawn(st, o, attempt);
    match o
    case Connected =>
      Returned(s.(connected := true,
                  trace := s.trace + [MonitorOutput(s.spawned - 1, "stdout"), MonitorOutput(s.spawned - 1, "stderr")]),
               Success(()))
    case ExitedEarly => NextAttempt(s)
    case _ =>
      if attempt == MaxRetries - 1 then
        Returned(KillCurrent(s), Failure(if o.TimedOut? then ConnectTimeout else ConnectError))
      else NextAttempt(s)
  }

  /** The retry loop of `start`, from attempt `attempt` on (dweam/worker.py:231-263). */
  function StartFrom(st: WorkerState, outcomes: seq<Attempt>, attempt: nat): (WorkerState, Result<(), WorkerError>)
    requires |outcomes| == MaxRetries && attempt <= MaxRetries
    decreases MaxRetries - attempt
  {
    if attempt == MaxRetries then (st, Failure(RetriesExhausted))
    else
      match AttemptStep(st, outcomes[attempt], attempt)
      case NextAttempt(s) => StartFrom(s, outcomes, attempt + 1)
      case Returned(s, r) => (s, r)
  }

  function StartSpec(st: WorkerState, outcomes: seq<Attempt>): (WorkerState, Result<(), WorkerError>)
    requires |outcomes| == MaxRetries
  {
    StartFrom(st, outcomes, 0)
  }

  /** `run`, `get_params_schema` and `update_params` start the worker only when no process exists. */
  function LazyStart(st: WorkerState, outcomes: seq<Attempt>): (WorkerState, Result<(), WorkerError>)
    requires |outcomes| == MaxRetries
  {
    if st.process.None? then StartSpec(st, outcomes) else (st, Success(()))
  }

  // ---------------------------------------------------------------------
  // Session descriptions

  /** The `type` values aiortc's `RTCSessionDescription` accepts; its constructor raises ValueError for any other. */
  const DescriptionTypes: set<string> := {"offer", "pranswer", "answer", "rollback"}

  /** An `RTCSessionDescription`: its `sdp` is whatever value it was given, its `type` one of `DescriptionTypes`. */
  datatype Description = Description(sdp: Json, kind: string)

  /** `RTCSessionDescription(sdp=sdp, type=kind)`: `None` where the constructor raises. */
  function MakeDescription(sdp: Json, kind: Json): Option<Description>
  {
    if kind.JStr? && kind.s in DescriptionTypes then Some(Description(sdp, kind.s)) else None
  }

  /**
   * `RTCSessionDescription(sdp=data["sdp"], type=data["type"])`: indexing
   * anything but a dict holding both keys raises as well.
   */
  function ReadDescription(data: Json): Option<Description>
  {
    if data.JObject? && "sdp" in data.fields && "type" in data.fields
    then MakeDescription(data.fields["sdp"], data.fields["type"])
    else None
  }

  /** A description as a JSON object with its `sdp` and `type`. */
  function EncodeDescription(d: Description): Json
  {
    JObject(map["sdp" := d.sdp, "type" := JStr(d.kind)])
  }

  /**
   * A description is read back exactly from an object whose `type` is one of
   * the four values, whatever its `sdp`; a valid description survives the
   * round trip through its JSON form.
   */
  lemma ReadDescriptionContract(data: Json, d: Description)
    ensures ReadDescription(data).Some? <==>
      && data.JObject? && "sdp" in data.fields && "type" in data.fields
      && data.fields["type"].JStr? && data.fields["type"].s in DescriptionTypes
    ensures ReadDescription(data).Some? ==>
      && ReadDescription(data).value.sdp == data.fields["sdp"]
      && JStr(ReadDescription(data).value.kind) == data.fields["type"]
    ensures d.kind in DescriptionTypes <==> ReadDescription(EncodeDescription(d)) == Some(d)
  {
    var j := EncodeDescription(d);
    assert "sdp" in j.fields && "type" in j.fields && j.fields["type"] == JStr(d.kind);
  }

  /** An answer with a number for its `sdp` is accepted; one with an unknown `type` is not. */
  lemma AnswerChecksOnlyType()
    ensures ReadDescription(JObject(map["sdp" := JInt(1), "type" := JStr("answer")])) == Some(Description(JInt(1), "answer"))
    ensures ReadDescription(JObject(map["sdp" := JStr("x"), "type" := JStr("bogus")])) == None
  {
    assert "answer" in DescriptionTypes;
    assert "bogus" !in DescriptionTypes;
  }

  // ---------------------------------------------------------------------
  // _send_command and the commands built on it

  /** `_send_command` (dweam/worker.py:279-297). */
  function SendSpec(st: WorkerState, cmd: Command, reply: Reply): (WorkerState, Result<Json, WorkerError>)
  {
    if !st.connected then (st, Failure(NotStarted))
    else
      var written := st.(trace := st.trace + [Write(EncodeCommand(cmd))]);
      match reply
      case Eof => (written, Failure(ProcessClosed))
      case Line(j) =>
        match DecodeResponse(j)
        case Failure(e) => (written, Failure(InvalidReply(e)))
        case Success(ErrorResponse(msg)) => (written, Failure(ErrorReply(msg)))
        case Success(SuccessResponse(data)) => (written, Success(data))
  }

  /** A start followed, if it succeeded, by one command. */
  function StartThenSend(st: WorkerState, outcomes: seq<Attempt>, cmd: Command, reply: Reply): (WorkerState, Result<Json, WorkerError>)
    requires |outcomes| == MaxRetries
  {
    var started := LazyStart(st, outcomes);
    if started.1.Failure? then (started.0, Failure(started.1.error))
    else SendSpec(started.0, cmd, reply)
  }

  /**
   * `run` (dweam/worker.py:265-277): building `OfferData` after the start
   * validates the offer's `sdp` as a string; the answer is read from the
   * reply's data as a description, with no check on its `sdp`.
   */
  function RunSpec(st: WorkerState, offer: Description, outcomes: seq<Attempt>, reply: Reply): (WorkerState, Result<Description, WorkerError>)
    requires |outcomes| == MaxRetries
  {
    var started := LazyStart(st, outcomes);
    if started.1.Failure? then (started.0, Failure(started.1.error))
    else if !offer.sdp.JStr? then (started.0, Failure(InvalidOffer))
    else
    var sent := SendSpec(started.0, HandleOfferCommand(OfferData(offer.sdp.s, offer.kind)), reply);
    match sent.1
    case Failure(e) => (sent.0, Failure(e))
    case Success(data) =>
      match ReadDescription(data)
      case None => (sent.0, Failure(MalformedAnswer))
      case Some(answer) => (sent.0, Success(answer))
  }

  /** `get_params_schema` (dweam/worker.py:299-303). */
  function SchemaSpec(st: WorkerState, outcomes: seq<Attempt>, reply: Reply): (WorkerState, Result<Json, WorkerError>)
    requires |outcomes| == MaxRetries
  {
    StartThenSend(st, outcomes, SchemaCommand, reply)
  }

  /** `update_params`: the command is built, and its `data` validated, after the start. */
  function UpdateSpec(st: WorkerState, params: Json, outcomes: seq<Attempt>, reply: Reply): (WorkerState, Result<Json, WorkerError>)
    requires |outcomes| == MaxRetries
  {
    var started := LazyStart(st, outcomes);
    if started.1.Failure? then (started.0, Failure(started.1.error))
    else if !params.JObject? then (started.0, Failure(InvalidParams))
    else SendSpec(started.0, UpdateParamsCommand(params.fields), reply)
  }

  // ---------------------------------------------------------------------
  // cleanup

  /**
   * The world during one cleanup: the stop reply, whether closing the writer
   * raises, whether the process still runs, whether it exits in the grace period.
   */
  datatype CleanupEnv = CleanupEnv(stopReply: Reply, closeRaises: bool, running: bool, exitsInGrace: bool)

  /**
   * `cleanup` (dweam/worker.py:311-338).  An exception from closing the writer
   * leaves the outer `try`: the handler only logs it, so the process is
   * neither terminated nor killed.
   */
  function CleanupSpec(st: WorkerState, env: CleanupEnv): WorkerState
  {
    if st.cleanupScheduled then st
    else
      var s0 := st.(cleanupScheduled := true);
      var s1 := if s0.connected then
          var stopped := SendSpec(s0, StopCommand, env.stopReply).0;   // errors swallowed
          stopped.(trace := stopped.trace + [CloseWriter])
        else s0;
      if s0.connected && env.closeRaises then s1
      else if s1.process.Some? && env.running then
        var pid := s1.process.value;
        s1.(trace := s1.trace + [Terminate(pid)] + (if env.exitsInGrace then [] else [Kill(pid)]))
      else s1
  }

  function CleanupAll(st: WorkerState, envs: seq<CleanupEnv>): WorkerState
    decreases |envs|
  {
    if envs == [] then st else CleanupAll(CleanupSpec(st, envs[0]), envs[1..])
  }

  /** The teardown stages, in the order cleanup runs them. */
  function Stage(a: Action): nat
  {
    match a
    case Write(_) => 0
    case CloseWriter => 1
    case Terminate(_) => 2
    case Kill(_) => 3
    case _ => 4
  }

  ghost predicate StrictlyStaged(actions: seq<Action>)
  {
    forall i, j :: 0 <= i < j < |actions| ==> Stage(actions[i]) < Stage(actions[j])
  }

  // ---------------------------------------------------------------------
  // _monitor_process_output

  /** Python's `str.isspace`: the characters `rstrip()` and `strip()` remove. */
  predicate IsSpace(c: char)
  {
    ('\t' <= c <= '\r') || ('\U{001C}' <= c <= ' ') || c == '\U{0085}' || c == '\U{00A0}'
    || c == '\U{1680}' || ('\U{2000}' <= c <= '\U{200A}') || c == '\U{2028}' || c == '\U{2029}'
    || c == '\U{202F}' || c == '\U{205F}' || c == '\U{3000}'
  }

  predicate Blank(s: string)
  {
    forall i :: 0 <= i < |s| ==> IsSpace(s[i])
  }

  /** `str.rstrip()`: the longest prefix not ending in whitespace. */
  function RStrip(s: string): (r: string)
    ensures |r| <= |s| && r == s[..|r|]
    ensures r == [] || !IsSpace(r[|r| - 1])
    ensures forall i :: |r| <= i < |s| ==> IsSpace(s[i])
  {
    if s == [] || !IsSpace(s[|s| - 1]) then s else RStrip(s[..|s| - 1])
  }

  /** A line has non-blank text iff its right-stripped form does. */
  lemma RStripBlank(s: string)
    ensures Blank(RStrip(s)) <==> Blank(s)
    ensures Blank(s) <==> RStrip(s) == []
  {
    var r := RStrip(s);
    if !Blank(r) {
      var i :| 0 <= i < |r| && !IsSpace(r[i]);
      assert s[i] == r[i];
    }
  }

  /** The lines a monitor processes: those before the first empty read (EOF). */
  function UntilEof(received: seq<string>): (r: seq<string>)
    ensures |r| <= |received| && r == received[..|r|]
    ensures forall i :: 0 <= i < |r| ==> r[i] != []
    ensures |r| < |received| ==> received[|r|] == []
  {
    if received == [] || received[0] == [] then [] else [received[0]] + UntilEof(received[1..])
  }

  /** `last_log_line` after the monitor has read `lines`. */
  function LastLogLine(previous: Option<string>, lines: seq<string>): Option<string>
  {
    if lines == [] then previous
    else if !Blank(lines[|lines| - 1]) then Some(RStrip(lines[|lines| - 1]))
    else LastLogLine(previous, lines[..|lines| - 1])
  }

  // ---------------------------------------------------------------------
  // Properties

  lemma TimeoutSchedule()
    ensures AttemptTimeout(0) == 5 && AttemptTimeout(1) == 10 && AttemptTimeout(2) == 20
  {
  }

  /** `start` succeeds exactly when some attempt among the three connects. */
  lemma {:induction false} StartSucceedsIff(st: WorkerState, outcomes: seq<Attempt>, attempt: nat)
    requires |outcomes| == MaxRetries && attempt <= MaxRetries
    ensures StartFrom(st, outcomes, attempt).1.Success? <==>
      exists i :: attempt <= i < MaxRetries && outcomes[i] == Connected
    decreases MaxRetries - attempt
  {
    if attempt < MaxRetries {
      match AttemptStep(st, outcomes[attempt], attempt)
      case NextAttempt(s) => StartSucceedsIff(s, outcomes, attempt + 1);
      case Returned(_, _) =>
    }
  }

  function SpawnTimeouts(actions: seq<Action>): seq<nat>
  {
    if actions == [] then []
    else (if actions[0].Spawn? then [actions[0].timeout] else []) + SpawnTimeouts(actions[1..])
  }

  lemma SpawnTimeoutsCons(x: Action, rest: seq<Action>)
    ensures SpawnTimeouts([x] + rest) == (if x.Spawn? then [x.timeout] else []) + SpawnTimeouts(rest)
  {
    assert ([x] + rest)[1..] == rest;
  }

  lemma {:induction false} SpawnTimeoutsAppend(a: seq<Action>, b: seq<Action>)
    ensures SpawnTimeouts(a + b) == SpawnTimeouts(a) + SpawnTimeouts(b)
    decreases |a|
  {
    if a == [] {
      assert a + b == b;
    } else {
      assert a == [a[0]] + a[1..];
      assert a + b == [a[0]] + (a[1..] + b);
      SpawnTimeoutsCons(a[0], a[1..] + b);
      SpawnTimeoutsCons(a[0], a[1..]);
      SpawnTimeoutsAppend(a[1..], b);
    }
  }

  predicate HasMonitor(actions: seq<Action>)
  {
    exists i :: 0 <= i < |actions| && actions[i].MonitorOutput?
  }

  lemma HasMonitorAppend(a: seq<Action>, b: seq<Action>)
    ensures HasMonitor(a + b) <==> HasMonitor(a) || HasMonitor(b)
  {
    if HasMonitor(a + b) {
      var i :| 0 <= i < |a + b| && (a + b)[i].MonitorOutput?;
      if i >= |a| { assert b[i - |a|].MonitorOutput?; }
    }
    if HasMonitor(a) {
      var i :| 0 <= i < |a| && a[i].MonitorOutput?;
      assert (a + b)[i].MonitorOutput?;
    }
    if HasMonitor(b) {
      var i :| 0 <= i < |b| && b[i].MonitorOutput?;
      assert (a + b)[i + |a|].MonitorOutput?;
    }
  }

  predicate Increasing(s: seq<nat>)
  {
    forall i, j :: 0 <= i < j < |s| ==> s[i] < s[j]
  }

  lemma {:induction false} Pow2Increasing(a: nat, b: nat)
    requires a < b
    ensures Pow2(a) < Pow2(b)
    decreases b
  {
    if a < b - 1 {
      Pow2Increasing(a, b - 1);
    }
  }

  /** Splitting the part of a trace that two successive extensions appended. */
  lemma SuffixSplit(t0: seq<Action>, t1: seq<Action>, t2: seq<Action>)
    requires |t0| <= |t1| <= |t2| && t1[..|t0|] == t0 && t2[..|t1|] == t1
    ensures t2[|t0|..] == t1[|t0|..] + t2[|t1|..]
  {
    assert t2[|t0|..|t1|] == t1[|t0|..];
  }

  /** What one attempt appends to the trace. */
  ghost function Appended(st: WorkerState, o: Attempt, attempt: nat): seq<Action>
  {
    var spawnPart: seq<Action> := if o.Raised? && !o.spawned then [] else [Spawn(st.spawned, AttemptTimeout(attempt))];
    var sp := AfterSpawn(st, o, attempt);
    spawnPart +
      (if o.Connected? then [MonitorOutput(sp.spawned - 1, "stdout"), MonitorOutput(sp.spawned - 1, "stderr")]
       else if !o.ExitedEarly? && attempt == MaxRetries - 1 && sp.process.Some? then [Kill(sp.process.value)]
       else [])
  }

  lemma AttemptStepTrace(st: WorkerState, o: Attempt, attempt: nat)
    ensures AttemptStep(st, o, attempt).state.trace == st.trace + Appended(st, o, attempt)
  {
  }

  lemma AppendedFacts(st: WorkerState, o: Attempt, attempt: nat)
    ensures SpawnTimeouts(Appended(st, o, attempt)) == (if o.Raised? && !o.spawned then [] else [AttemptTimeout(attempt)])
    ensures HasMonitor(Appended(st, o, attempt)) <==> o.Connected?
  {
    var ap := Appended(st, o, attempt);
    var sp := AfterSpawn(st, o, attempt);
    var sw := Spawn(st.spawned, AttemptTimeout(attempt));
    if o.Raised? && !o.spawned {
      if ap != [] {
        assert ap == [Kill(sp.process.value)] + [];
        SpawnTimeoutsCons(Kill(sp.process.value), []);
      }
    } else if o.Connected? {
      var m1, m2 := MonitorOutput(sp.spawned - 1, "stdout"), MonitorOutput(sp.spawned - 1, "stderr");
      assert ap == [sw] + ([m1] + ([m2] + []));
      SpawnTimeoutsCons(m2, []);
      SpawnTimeoutsCons(m1, [m2] + []);
      SpawnTimeoutsCons(sw, [m1] + ([m2] + []));
      assert ap[1].MonitorOutput?;
    } else if ap != [sw] {
      var k := Kill(sp.process.value);
      assert ap == [sw] + ([k] + []);
      SpawnTimeoutsCons(k, []);
      SpawnTimeoutsCons(sw, [k] + []);
    } else {
      assert ap == [sw] + [];
      SpawnTimeoutsCons(sw, []);
    }
  }

  /**
   * One attempt appends to the trace at most the spawn of a process with this
   * attempt's timeout, and launches monitors exactly when it returns success.
   */
  lemma AttemptStepAppends(st: WorkerState, o: Attempt, attempt: nat)
    ensures var s := AttemptStep(st, o, attempt).state;
      && |s.trace| >= |st.trace| && s.trace[..|st.trace|] == st.trace
      && SpawnTimeouts(s.trace[|st.trace|..]) == (if o.Raised? && !o.spawned then [] else [AttemptTimeout(attempt)])
      && (HasMonitor(s.trace[|st.trace|..]) <==> AttemptStep(st, o, attempt) == Returned(s, Success(())))
      && s.cleanupScheduled == st.cleanupScheduled
      && (AttemptStep(st, o, attempt).NextAttempt? ==> s.connected == st.connected)
      && (AttemptStep(st, o, attempt).Returned? ==> (s.connected <==> st.connected || o.Connected?))
  {
    AttemptStepTrace(st, o, attempt);
    AppendedFacts(st, o, attempt);
    var s := AttemptStep(st, o, attempt).state;
    assert s.trace[|st.trace|..] == Appended(st, o, attempt);
  }

  /** `start` only appends to the trace and leaves the cleanup flag alone. */
  lemma {:induction false} StartExtends(st: WorkerState, outcomes: seq<Attempt>, attempt: nat)
    requires |outcomes| == MaxRetries && attempt <= MaxRetries
    ensures var r := StartFrom(st, outcomes, attempt).0;
      && |r.trace| >= |st.trace| && r.trace[..|st.trace|] == st.trace
      && r.cleanupScheduled == st.cleanupScheduled
    decreases MaxRetries - attempt
  {
    if attempt < MaxRetries {
      AttemptStepAppends(st, outcomes[attempt], attempt);
      match AttemptStep(st, outcomes[attempt], attempt)
      case NextAttempt(s) => StartExtends(s, outcomes, attempt + 1);
      case Returned(_, _) =>
    }
  }

  /**
   * The processes `start` spawns carry the timeouts of strictly later attempts
   * (5, 10, 20 s), at most one per remaining attempt.
   */
  lemma {:induction false} StartSpawns(st: WorkerState, outcomes: seq<Attempt>, attempt: nat)
    requires |outcomes| == MaxRetries && attempt <= MaxRetries
    ensures var r := StartFrom(st, outcomes, attempt).0;
      |r.trace| >= |st.trace| && LaterTimeouts(SpawnTimeouts(r.trace[|st.trace|..]), attempt)
    decreases MaxRetries - attempt
  {
    StartExtends(st, outcomes, attempt);
    var r := StartFrom(st, outcomes, attempt).0;
    if attempt == MaxRetries {
      assert r.trace[|st.trace|..] == [];
      return;
    }
    var o := outcomes[attempt];
    AttemptStepAppends(st, o, attempt);
    var e := AttemptStep(st, o, attempt);
    var mine := SpawnTimeouts(e.state.trace[|st.trace|..]);
    if e.Returned? {
      assert r == e.state;
      assert mine == mine + [];
      TimeoutsPrefix(attempt, mine, []);
    } else {
      var s := e.state;
      StartSpawns(s, outcomes, attempt + 1);
      StartExtends(s, outcomes, attempt + 1);
      var rest := r.trace[|s.trace|..];
      SuffixSplit(st.trace, s.trace, r.trace);
      SpawnTimeoutsAppend(s.trace[|st.trace|..], rest);
      TimeoutsPrefix(attempt, mine, SpawnTimeouts(rest));
    }
  }

  /**
   * Timeouts of processes spawned from attempt `attempt` on: strictly
   * increasing, each that of a distinct attempt from `attempt` on.
   */
  ghost predicate LaterTimeouts(timeouts: seq<nat>, attempt: nat)
  {
    && |timeouts| <= MaxRetries - attempt
    && Increasing(timeouts)
    && (forall t :: t in timeouts ==> exists j :: attempt <= j < MaxRetries && t == AttemptTimeout(j))
  }

  /** The timeouts of one attempt followed by those of the later ones. */
  lemma TimeoutsPrefix(attempt: nat, mine: seq<nat>, later: seq<nat>)
    requires attempt < MaxRetries
    requires mine == [] || mine == [AttemptTimeout(attempt)]
    requires LaterTimeouts(later, attempt + 1)
    ensures LaterTimeouts(mine + later, attempt)
  {
    if mine == [] {
      assert mine + later == later;
    } else {
      StartLaterTimeouts(later, attempt);
    }
  }

  /** `start` launches output monitors exactly when it succeeds. */
  lemma {:induction false} MonitorsIffSuccess(st: WorkerState, outcomes: seq<Attempt>, attempt: nat)
    requires |outcomes| == MaxRetries && attempt <= MaxRetries
    ensures var r := StartFrom(st, outcomes, attempt);
      |r.0.trace| >= |st.trace| && (HasMonitor(r.0.trace[|st.trace|..]) <==> r.1.Success?)
    decreases MaxRetries - attempt
  {
    StartExtends(st, outcomes, attempt);
    var r := StartFrom(st, outcomes, attempt);
    if attempt == MaxRetries {
      assert r.0.trace[|st.trace|..] == [];
    } else {
      AttemptStepAppends(st, outcomes[attempt], attempt);
      var e := AttemptStep(st, outcomes[attempt], attempt);
      if e.NextAttempt? {
        var s := e.state;
        MonitorsIffSuccess(s, outcomes, attempt + 1);
        StartExtends(s, outcomes, attempt + 1);
        SuffixSplit(st.trace, s.trace, r.0.trace);
        HasMonitorAppend(s.trace[|st.trace|..], r.0.trace[|s.trace|..]);
      }
    }
  }

  /** A worker not yet connected is connected after `start` exactly when it succeeds. */
  lemma {:induction false} ConnectedIffSuccess(st: WorkerState, outcomes: seq<Attempt>, attempt: nat)
    requires |outcomes| == MaxRetries && attempt <= MaxRetries
    requires !st.connected
    ensures var r := StartFrom(st, outcomes, attempt); r.0.connected <==> r.1.Success?
    decreases MaxRetries - attempt
  {
    if attempt < MaxRetries {
      AttemptStepAppends(st, outcomes[attempt], attempt);
      var e := AttemptStep(st, outcomes[attempt], attempt);
      if e.NextAttempt? {
        ConnectedIffSuccess(e.state, outcomes, attempt + 1);
      }
    }
  }

  /** `start` launches output monitors, and connects a worker that was not connected, exactly when it succeeds. */
  lemma StartMonitors(st: WorkerState, outcomes: seq<Attempt>, attempt: nat)
    requires |outcomes| == MaxRetries && attempt <= MaxRetries
    ensures var r := StartFrom(st, outcomes, attempt);
      && |r.0.trace| >= |st.trace|
      && (HasMonitor(r.0.trace[|st.trace|..]) <==> r.1.Success?)
      && (!st.connected ==> (r.0.connected <==> r.1.Success?))
  {
    MonitorsIffSuccess(st, outcomes, attempt);
    if !st.connected {
      ConnectedIffSuccess(st, outcomes, attempt);
    }
  }

  /**
   * A successful `start` leaves the worker connected to the process spawned
   * last, and the trace ends with the launch of its stdout and stderr monitors.
   */
  lemma {:induction false} StartSuccessShape(st: WorkerState, outcomes: seq<Attempt>, attempt: nat)
    requires |outcomes| == MaxRetries && attempt <= MaxRetries
    requires StartFrom(st, outcomes, attempt).1.Success?
    ensures var r := StartFrom(st, outcomes, attempt).0;
      && r.connected && r.spawned >= 1 && r.process == Some(r.spawned - 1)
      && |r.trace| >= 2
      && r.trace[|r.trace| - 2..] == [MonitorOutput(r.spawned - 1, "stdout"), MonitorOutput(r.spawned - 1, "stderr")]
    decreases MaxRetries - attempt
  {
    match AttemptStep(st, outcomes[attempt], attempt)
    case NextAttempt(s) => StartSuccessShape(s, outcomes, attempt + 1);
    case Returned(s, _) =>
  }

  /**
   * `start` returns at the first attempt that connects: the process it keeps
   * is the one spawned by that attempt, with that attempt's timeout, and no
   * later attempt runs.
   */
  lemma {:induction false} StartReturnsAtFirst(st: WorkerState, outcomes: seq<Attempt>, attempt: nat, i: nat)
    requires |outcomes| == MaxRetries && attempt <= i < MaxRetries && outcomes[i] == Connected
    requires forall j :: attempt <= j < i ==> outcomes[j] != Connected
    ensures var r := StartFrom(st, outcomes, attempt);
      && r.1.Success? && |r.0.trace| >= 3 && r.0.spawned >= 1
      && r.0.trace[|r.0.trace| - 3] == Spawn(r.0.spawned - 1, AttemptTimeout(i))
    decreases i - attempt
  {
    if attempt < i {
      AttemptStepAppends(st, outcomes[attempt], attempt);
      match AttemptStep(st, outcomes[attempt], attempt)
      case NextAttempt(s) => StartReturnsAtFirst(s, outcomes, attempt + 1, i);
      case Returned(_, _) =>
    }
  }

  /** Timeouts of later attempts exceed this attempt's; prefixing it keeps the order. */
  lemma StartLaterTimeouts(later: seq<nat>, attempt: nat)
    requires attempt < MaxRetries
    requires Increasing(later)
    requires forall t :: t in later ==> exists j :: attempt + 1 <= j < MaxRetries && t == AttemptTimeout(j)
    ensures Increasing([AttemptTimeout(attempt)] + later)
  {
    var s := [AttemptTimeout(attempt)] + later;
    forall i, j | 0 <= i < j < |s| ensures s[i] < s[j] {
      if i == 0 {
        assert s[j] in later;
        var k :| attempt + 1 <= k < MaxRetries && s[j] == AttemptTimeout(k);
        Pow2Increasing(attempt, k);
      } else {
        assert s[i] == later[i - 1] && s[j] == later[j - 1];
      }
    }
  }

  /** Three processes that exit before connecting end in RuntimeError, all three spawned. */
  lemma ThreeEarlyExitsFail(st: WorkerState)
    ensures var r := StartSpec(st, [ExitedEarly, ExitedEarly, ExitedEarly]);
      && r.1 == Failure(RetriesExhausted)
      && r.0.trace == st.trace + [Spawn(st.spawned, 5), Spawn(st.spawned + 1, 10), Spawn(st.spawned + 2, 20)]
      && !r.0.connected == !st.connected
  {
    TimeoutSchedule();
  }

  /** No attempt from `attempt` on connects. */
  predicate NoneConnect(outcomes: seq<Attempt>, attempt: nat)
  {
    forall i :: attempt <= i < |outcomes| ==> outcomes[i] != Connected
  }

  /**
   * How a failed `start` ends: with the final attempt's TimeoutError or other
   * exception re-raised when no attempt connected and the last one raised,
   * and with RuntimeError when no attempt connected and the last process
   * exited early.
   */
  lemma {:induction false} StartFailureCause(st: WorkerState, outcomes: seq<Attempt>, attempt: nat)
    requires |outcomes| == MaxRetries && attempt <= MaxRetries
    ensures var r := StartFrom(st, outcomes, attempt).1;
      && (r == Failure(ConnectTimeout) <==>
            attempt < MaxRetries && NoneConnect(outcomes, attempt) && outcomes[MaxRetries - 1] == TimedOut)
      && (r == Failure(ConnectError) <==>
            attempt < MaxRetries && NoneConnect(outcomes, attempt) && outcomes[MaxRetries - 1].Raised?)
      && (r == Failure(RetriesExhausted) <==>
            NoneConnect(outcomes, attempt) && (attempt == MaxRetries || outcomes[MaxRetries - 1] == ExitedEarly))
    decreases MaxRetries - attempt
  {
    if attempt < MaxRetries {
      var o := outcomes[attempt];
      match AttemptStep(st, o, attempt)
      case NextAttempt(s) =>
        assert o != Connected;
        assert NoneConnect(outcomes, attempt) <==> NoneConnect(outcomes, attempt + 1);
        assert attempt + 1 == MaxRetries ==> o == ExitedEarly;
        StartFailureCause(s, outcomes, attempt + 1);
      case Returned(_, _) =>
        if o != Connected {
          assert attempt == MaxRetries - 1;
        }
    }
  }

  /** Only the last action of `actions` may be a kill. */
  ghost predicate KillOnlyLast(actions: seq<Action>)
  {
    forall i :: 0 <= i < |actions| - 1 ==> !actions[i].Kill?
  }

  /**
   * The kills in `added`: only its last action may be one, and it is there
   * exactly when `r` re-raises the final attempt's exception while `process`
   * exists, and kills that process.
   */
  ghost predicate KillShape(added: seq<Action>, r: Result<(), WorkerError>, process: Option<nat>)
  {
    && KillOnlyLast(added)
    && (HasKill(added) <==> (r == Failure(ConnectTimeout) || r == Failure(ConnectError)) && process.Some?)
    && (HasKill(added) ==> added[|added| - 1] == Kill(process.value))
  }

  /**
   * What one attempt appends holds no kill when the loop goes on, and has the
   * kill shape of its result when the loop returns.
   */
  lemma AppendedKill(st: WorkerState, o: Attempt, attempt: nat)
    ensures var e := AttemptStep(st, o, attempt);
      && (e.NextAttempt? ==> !HasKill(Appended(st, o, attempt)))
      && (e.Returned? ==> KillShape(Appended(st, o, attempt), e.result, e.state.process))
  {
    var ap := Appended(st, o, attempt);
    var sp := AfterSpawn(st, o, attempt);
    if attempt == MaxRetries - 1 && !o.Connected? && !o.ExitedEarly? && sp.process.Some? {
      assert ap[|ap| - 1] == Kill(sp.process.value);
    }
  }

  /** Actions with no kill in front of others keep the kill shape of the others. */
  lemma KillsAfter(a: seq<Action>, b: seq<Action>, r: Result<(), WorkerError>, process: Option<nat>)
    requires !HasKill(a) && KillShape(b, r, process)
    ensures KillShape(a + b, r, process)
  {
    if HasKill(a + b) {
      var i :| 0 <= i < |a + b| && (a + b)[i].Kill?;
      assert b[i - |a|].Kill?;
    }
    if HasKill(b) {
      var i :| 0 <= i < |b| && b[i].Kill?;
      assert (a + b)[i + |a|].Kill?;
      assert (a + b)[|a + b| - 1] == b[|b| - 1];
    }
    forall i | 0 <= i < |a + b| - 1 ensures !(a + b)[i].Kill? {
      if i >= |a| { assert (a + b)[i] == b[i - |a|]; }
      else { assert (a + b)[i] == a[i]; }
    }
  }

  /**
   * The only kill `start` issues is the last action of a start that re-raises
   * the final attempt's exception while a process exists, and it kills that
   * process: processes of earlier attempts that timed out or raised are left
   * running.
   */
  lemma {:induction false} StartKills(st: WorkerState, outcomes: seq<Attempt>, attempt: nat)
    requires |outcomes| == MaxRetries && attempt <= MaxRetries
    ensures var r := StartFrom(st, outcomes, attempt);
      |r.0.trace| >= |st.trace| && KillShape(r.0.trace[|st.trace|..], r.1, r.0.process)
    decreases MaxRetries - attempt
  {
    StartExtends(st, outcomes, attempt);
    var r := StartFrom(st, outcomes, attempt);
    if attempt == MaxRetries {
      assert r.0.trace[|st.trace|..] == [];
      return;
    }
    var o := outcomes[attempt];
    AttemptStepTrace(st, o, attempt);
    AppendedKill(st, o, attempt);
    var e := AttemptStep(st, o, attempt);
    assert e.state.trace[|st.trace|..] == Appended(st, o, attempt);
    if e.NextAttempt? {
      var s := e.state;
      StartKills(s, outcomes, attempt + 1);
      StartExtends(s, outcomes, attempt + 1);
      SuffixSplit(st.trace, s.trace, r.0.trace);
      KillsAfter(s.trace[|st.trace|..], r.0.trace[|s.trace|..], r.1, r.0.process);
    }
  }

  /**
   * The exception handling of `start` for every combination of outcomes: the
   * final attempt's TimeoutError or other exception is re-raised exactly when
   * no attempt connected and the final attempt raised it; the trace then ends
   * with the kill of the current process, if one exists, and holds no other
   * kill, so an exception on an earlier attempt is swallowed without a kill.
   */
  lemma ExceptionHandling(st: WorkerState, outcomes: seq<Attempt>)
    requires |outcomes| == MaxRetries
    ensures var r := StartSpec(st, outcomes);
      && (r.1 == Failure(ConnectTimeout) <==> NoneConnect(outcomes, 0) && outcomes[2] == TimedOut)
      && (r.1 == Failure(ConnectError) <==> NoneConnect(outcomes, 0) && outcomes[2].Raised?)
      && (r.1 == Failure(RetriesExhausted) <==> NoneConnect(outcomes, 0) && outcomes[2] == ExitedEarly)
      && |r.0.trace| >= |st.trace|
      && var added := r.0.trace[|st.trace|..];
      && KillOnlyLast(added)
      && (HasKill(added) <==> (r.1 == Failure(ConnectTimeout) || r.1 == Failure(ConnectError)) && r.0.process.Some?)
      && (HasKill(added) ==> added[|added| - 1] == Kill(r.0.process.value))
  {
    StartFailureCause(st, outcomes, 0);
    StartKills(st, outcomes, 0);
  }

  /** A worker that already has a process is not started again. */
  lemma LazyStartOnlyWithoutProcess(st: WorkerState, outcomes: seq<Attempt>)
    requires |outcomes| == MaxRetries
    ensures st.process.Some? ==> LazyStart(st, outcomes) == (st, Success(()))
    ensures st.process.None? ==> LazyStart(st, outcomes) == StartSpec(st, outcomes)
    ensures LazyStart(st, outcomes).1.Success? ==> LazyStart(st, outcomes).0.process.Some?
  {
    if st.process.None? && StartSpec(st, outcomes).1.Success? {
      StartSuccessShape(st, outcomes, 0);
    }
  }

  /**
   * `_send_command` raises without writing when not connected; otherwise it
   * writes exactly the one encoded command, and returns the data of a success
   * reply, raises ValueError with an error reply's message, and raises on EOF.
   */
  lemma SendContract(st: WorkerState, cmd: Command, reply: Reply)
    ensures var r := SendSpec(st, cmd, reply);
      && (!st.connected ==> r == (st, Failure(NotStarted)))
      && (st.connected ==> r.0 == st.(trace := st.trace + [Write(EncodeCommand(cmd))]))
      && (st.connected && reply == Eof ==> r.1 == Failure(ProcessClosed))
    ensures forall data :: st.connected && reply == Line(EncodeResponse(SuccessResponse(data))) ==>
      SendSpec(st, cmd, reply).1 == Success(data)
    ensures forall msg :: st.connected && reply == Line(EncodeResponse(ErrorResponse(msg))) ==>
      SendSpec(st, cmd, reply).1 == Failure(ErrorReply(msg))
  {
    forall data | st.connected && reply == Line(EncodeResponse(SuccessResponse(data))) {
      ResponseRoundTrip(SuccessResponse(data));
    }
    forall msg | st.connected && reply == Line(EncodeResponse(ErrorResponse(msg))) {
      ResponseRoundTrip(ErrorResponse(msg));
    }
  }

  /** The commands leave the cleanup flag alone and keep the process once one exists. */
  lemma CommandsKeepFlag(st: WorkerState, offer: Description, params: Json, outcomes: seq<Attempt>, reply: Reply)
    requires |outcomes| == MaxRetries
    ensures RunSpec(st, offer, outcomes, reply).0.cleanupScheduled == st.cleanupScheduled
    ensures SchemaSpec(st, outcomes, reply).0.cleanupScheduled == st.cleanupScheduled
    ensures UpdateSpec(st, params, outcomes, reply).0.cleanupScheduled == st.cleanupScheduled
    ensures st.process.Some? ==> UpdateSpec(st, params, outcomes, reply).0.process == st.process
  {
    LazyStartKeepsFlag(st, outcomes);
    RunKeepsFlag(st, offer, outcomes, reply);
    StartThenSendKeepsFlag(st, outcomes, SchemaCommand, reply);
    UpdateKeepsFlag(st, params, outcomes, reply);
  }

  lemma LazyStartKeepsFlag(st: WorkerState, outcomes: seq<Attempt>)
    requires |outcomes| == MaxRetries
    ensures var s := LazyStart(st, outcomes).0;
      s.cleanupScheduled == st.cleanupScheduled && (st.process.Some? ==> s == st)
  {
    StartExtends(st, outcomes, 0);
  }

  lemma RunKeepsFlag(st: WorkerState, offer: Description, outcomes: seq<Attempt>, reply: Reply)
    requires |outcomes| == MaxRetries
    ensures RunSpec(st, offer, outcomes, reply).0.cleanupScheduled == st.cleanupScheduled
  {
    LazyStartKeepsFlag(st, outcomes);
    var started := LazyStart(st, outcomes);
    if started.1.Success? && offer.sdp.JStr? {
      var cmd := HandleOfferCommand(OfferData(offer.sdp.s, offer.kind));
      SendKeepsProcess(started.0, cmd, reply);
      assert RunSpec(st, offer, outcomes, reply).0 == SendSpec(started.0, cmd, reply).0;
    }
  }

  lemma StartThenSendKeepsFlag(st: WorkerState, outcomes: seq<Attempt>, cmd: Command, reply: Reply)
    requires |outcomes| == MaxRetries
    ensures StartThenSend(st, outcomes, cmd, reply).0.cleanupScheduled == st.cleanupScheduled
  {
    LazyStartKeepsFlag(st, outcomes);
    SendKeepsProcess(LazyStart(st, outcomes).0, cmd, reply);
  }

  lemma UpdateKeepsFlag(st: WorkerState, params: Json, outcomes: seq<Attempt>, reply: Reply)
    requires |outcomes| == MaxRetries
    ensures var s := UpdateSpec(st, params, outcomes, reply).0;
      s.cleanupScheduled == st.cleanupScheduled && (st.process.Some? ==> s.process == st.process)
  {
    LazyStartKeepsFlag(st, outcomes);
    if params.JObject? {
      SendKeepsProcess(LazyStart(st, outcomes).0, UpdateParamsCommand(params.fields), reply);
    }
  }

  /** Sending a command changes only the trace. */
  lemma SendKeepsProcess(st: WorkerState, cmd: Command, reply: Reply)
    ensures var s := SendSpec(st, cmd, reply).0;
      s.cleanupScheduled == st.cleanupScheduled && s.process == st.process && s.connected == st.connected
  {
  }

  /**
   * `run`, `get_params_schema` and `update_params` on a worker that has a
   * process send their command straight away; on one without, they start it
   * first, and a failed start is raised without sending anything.
   */
  lemma CommandsStartLazily(st: WorkerState, offer: Description, params: Json, outcomes: seq<Attempt>, reply: Reply)
    requires |outcomes| == MaxRetries
    ensures st.process.Some? ==> SchemaSpec(st, outcomes, reply) == SendSpec(st, SchemaCommand, reply)
    ensures st.process.Some? && params.JObject? ==>
      UpdateSpec(st, params, outcomes, reply) == SendSpec(st, UpdateParamsCommand(params.fields), reply)
    ensures st.process.Some? && !params.JObject? ==> UpdateSpec(st, params, outcomes, reply) == (st, Failure(InvalidParams))
    ensures var s := StartSpec(st, outcomes);
      st.process.None? && s.1.Failure? ==>
        && SchemaSpec(st, outcomes, reply) == (s.0, Failure(s.1.error))
        && UpdateSpec(st, params, outcomes, reply) == (s.0, Failure(s.1.error))
        && RunSpec(st, offer, outcomes, reply) == (s.0, Failure(s.1.error))
    ensures st.process.None? && StartSpec(st, outcomes).1.Success? && !params.JObject? ==>
      UpdateSpec(st, params, outcomes, reply) == (StartSpec(st, outcomes).0, Failure(InvalidParams))
  {
    if st.process.Some? {
      assert LazyStart(st, outcomes) == (st, Success(()));
    } else {
      assert LazyStart(st, outcomes) == StartSpec(st, outcomes);
    }
  }

  /**
   * `run` returns an answer only for an offer with a string `sdp`, after
   * writing the offer, and only from a success reply whose data reads as a
   * description; every answer with one of the four types comes back as sent,
   * whatever its `sdp`.
   */
  lemma RunAnswer(st: WorkerState, offer: Description, outcomes: seq<Attempt>, reply: Reply)
    requires |outcomes| == MaxRetries
    ensures var r := RunSpec(st, offer, outcomes, reply);
      r.1.Success? ==>
        && offer.sdp.JStr? && r.0.connected && reply.Line?
        && DecodeResponse(reply.message).Success? && DecodeResponse(reply.message).value.SuccessResponse?
        && ReadDescription(DecodeResponse(reply.message).value.data) == Some(r.1.value)
        && r.0.trace[|r.0.trace| - 1] == Write(EncodeCommand(HandleOfferCommand(OfferData(offer.sdp.s, offer.kind))))
    ensures forall answer: Description ::
      (st.connected && st.process.Some? && offer.sdp.JStr? && answer.kind in DescriptionTypes
       && reply == Line(EncodeResponse(SuccessResponse(EncodeDescription(answer))))) ==>
      RunSpec(st, offer, outcomes, reply).1 == Success(answer)
  {
    forall answer: Description | st.connected && st.process.Some? && offer.sdp.JStr? && answer.kind in DescriptionTypes
        && reply == Line(EncodeResponse(SuccessResponse(EncodeDescription(answer))))
      ensures RunSpec(st, offer, outcomes, reply).1 == Success(answer)
    {
      ResponseRoundTrip(SuccessResponse(EncodeDescription(answer)));
      ReadDescriptionContract(EncodeDescription(answer), answer);
    }
  }

  /** A second cleanup returns immediately: any number of cleanups act as the first. */
  lemma {:induction false} CleanupIdempotent(st: WorkerState, env: CleanupEnv, later: seq<CleanupEnv>)
    ensures CleanupAll(st, [env] + later) == CleanupSpec(st, env)
    decreases |later|
  {
    var once := CleanupSpec(st, env);
    assert once.cleanupScheduled;
    assert ([env] + later)[1..] == later;
    if later != [] {
      assert CleanupSpec(once, later[0]) == once;
      CleanupIdempotent(st, env, later[1..]);
      assert ([env] + later[1..])[1..] == later[1..];
      assert CleanupAll(once, later) == CleanupAll(once, later[1..]);
    }
  }

  predicate HasTerminate(actions: seq<Action>)
  {
    exists i :: 0 <= i < |actions| && actions[i].Terminate?
  }

  predicate HasKill(actions: seq<Action>)
  {
    exists i :: 0 <= i < |actions| && actions[i].Kill?
  }

  predicate HasClose(actions: seq<Action>)
  {
    exists i :: 0 <= i < |actions| && actions[i] == CloseWriter
  }

  predicate HasStopWrite(actions: seq<Action>)
  {
    exists i :: 0 <= i < |actions| && actions[i] == Write(EncodeCommand(StopCommand))
  }

  /** The actions a first cleanup appends: stop and close when connected, then terminate and maybe kill `pid`. */
  function TeardownActions(connected: bool, pid: Option<nat>, exitsInGrace: bool): seq<Action>
  {
    (if connected then [Write(EncodeCommand(StopCommand)), CloseWriter] else [])
    + (if pid.Some? then [Terminate(pid.value)] + (if exitsInGrace then [] else [Kill(pid.value)]) else [])
  }

  /** The process a first cleanup terminates: the current one, if it still runs and no close raised before. */
  function TerminatedBy(st: WorkerState, env: CleanupEnv): Option<nat>
  {
    if st.process.Some? && env.running && !(st.connected && env.closeRaises) then st.process else None
  }

  /**
   * What the first cleanup appends to the trace: the stop request and the
   * close when connected, then, unless the close raised, terminate and (if it
   * outlives the grace period) kill for a process that still runs.
   */
  lemma CleanupAdded(st: WorkerState, env: CleanupEnv)
    requires !st.cleanupScheduled
    ensures var r := CleanupSpec(st, env);
      r.trace == st.trace + TeardownActions(st.connected, TerminatedBy(st, env), env.exitsInGrace)
      && r.process == st.process && r.connected == st.connected && r.cleanupScheduled
  {
    var w := Write(EncodeCommand(StopCommand));
    var s0 := st.(cleanupScheduled := true);
    var stops: seq<Action> := if st.connected then [w, CloseWriter] else [];
    var s1 := if s0.connected then
        var stopped := SendSpec(s0, StopCommand, env.stopReply).0;
        stopped.(trace := stopped.trace + [CloseWriter])
      else s0;
    if s0.connected {
      var stopped := SendSpec(s0, StopCommand, env.stopReply).0;
      assert stopped.trace == st.trace + [w];
      assert stopped.process == st.process && stopped.connected == st.connected && stopped.cleanupScheduled;
      assert st.trace + [w] + [CloseWriter] == st.trace + stops;
    }
    assert s1.trace == st.trace + stops && s1.process == st.process && s1.connected == st.connected && s1.cleanupScheduled;
    var pid := TerminatedBy(st, env);
    if pid.Some? {
      var tail := [Terminate(pid.value)] + (if env.exitsInGrace then [] else [Kill(pid.value)]);
      assert s1.trace + tail == st.trace + (stops + tail);
    } else {
      assert st.trace + stops == st.trace + (stops + []);
    }
  }

  /** The teardown actions come in stage order, each stage present exactly when its condition holds. */
  lemma TeardownStaged(connected: bool, pid: Option<nat>, exitsInGrace: bool)
    ensures var t := TeardownActions(connected, pid, exitsInGrace);
      && StrictlyStaged(t)
      && (HasStopWrite(t) <==> connected)
      && (HasClose(t) <==> connected)
      && (HasTerminate(t) <==> pid.Some?)
      && (HasKill(t) <==> pid.Some? && !exitsInGrace)
  {
    var t := TeardownActions(connected, pid, exitsInGrace);
    var w := Write(EncodeCommand(StopCommand));
    var kills: seq<Action> := if pid.Some? && !exitsInGrace then [Kill(pid.value)] else [];
    var terms: seq<Action> := if pid.Some? then [Terminate(pid.value)] else [];
    var stops: seq<Action> := if connected then [w, CloseWriter] else [];
    assert t == stops + terms + kills;
    forall i, j | 0 <= i < j < |t|
      ensures Stage(t[i]) < Stage(t[j])
    {
      StageAt(stops, terms, kills, i);
      StageAt(stops, terms, kills, j);
    }
    if connected {
      assert t[0] == w && t[1] == CloseWriter;
    }
    if pid.Some? {
      assert t[|stops|].Terminate?;
      if !exitsInGrace {
        assert t[|stops| + 1].Kill?;
      }
    }
    forall i | 0 <= i < |t|
      ensures (t[i] == w ==> connected) && (t[i] == CloseWriter ==> connected)
      ensures (t[i].Terminate? ==> pid.Some?) && (t[i].Kill? ==> pid.Some? && !exitsInGrace)
    {
      StageAt(stops, terms, kills, i);
    }
  }

  /** Where index `i` of the teardown falls, and its stage. */
  lemma StageAt(stops: seq<Action>, terms: seq<Action>, kills: seq<Action>, i: nat)
    requires |stops| <= 2 && |terms| <= 1 && |kills| <= 1
    requires stops == [] || stops == [Write(EncodeCommand(StopCommand)), CloseWriter]
    requires terms == [] || (|terms| == 1 && terms[0].Terminate?)
    requires kills == [] || (|kills| == 1 && kills[0].Kill? && terms != [])
    requires i < |stops + terms + kills|
    ensures var t := stops + terms + kills;
      && (i < |stops| ==> t[i] == stops[i] && Stage(t[i]) == i)
      && (|stops| <= i < |stops| + |terms| ==> t[i] == terms[0] && Stage(t[i]) == 2)
      && (|stops| + |terms| <= i ==> t[i] == kills[0] && Stage(t[i]) == 3)
      && Stage(t[i]) == (if i < |stops| then i else 2 + i - |stops|)
  {
  }

  /**
   * The first cleanup marks the worker and appends its teardown in stage
   * order: the stop command and the writer close (only when connected),
   * terminate (only for a running process, and not after a close that
   * raised), then kill (only if the process outlives the grace period).
   */
  lemma CleanupTeardown(st: WorkerState, env: CleanupEnv)
    requires !st.cleanupScheduled
    ensures var r := CleanupSpec(st, env);
      && |r.trace| >= |st.trace|
      && var added := r.trace[|st.trace|..];
      && r.cleanupScheduled
      && StrictlyStaged(added)
      && (HasStopWrite(added) <==> st.connected)
      && (HasClose(added) <==> st.connected)
      && (HasTerminate(added) <==> st.process.Some? && env.running && !(st.connected && env.closeRaises))
      && (HasKill(added) <==> st.process.Some? && env.running && !(st.connected && env.closeRaises) && !env.exitsInGrace)
      && r.process == st.process && r.connected == st.connected
  {
    CleanupAdded(st, env);
    var pid := TerminatedBy(st, env);
    var r := CleanupSpec(st, env);
    assert r.trace[|st.trace|..] == TeardownActions(st.connected, pid, env.exitsInGrace);
    TeardownStaged(st.connected, pid, env.exitsInGrace);
  }

  /** Blank lines leave the last log line as it was. */
  lemma {:induction false} LastLogLineAllBlank(previous: Option<string>, lines: seq<string>)
    requires forall i :: 0 <= i < |lines| ==> Blank(lines[i])
    ensures LastLogLine(previous, lines) == previous
  {
    if lines != [] {
      var n := |lines| - 1;
      assert forall i :: 0 <= i < n ==> lines[..n][i] == lines[i];
      LastLogLineAllBlank(previous, lines[..n]);
    }
  }

  /** With a non-blank line present, the last log line is the right-stripped last such line. */
  lemma {:induction false} LastLogLineWitness(previous: Option<string>, lines: seq<string>) returns (i: nat)
    requires exists k :: 0 <= k < |lines| && !Blank(lines[k])
    ensures i < |lines| && !Blank(lines[i]) && LastLogLine(previous, lines) == Some(RStrip(lines[i]))
    ensures forall j :: i < j < |lines| ==> Blank(lines[j])
  {
    var n := |lines| - 1;
    if !Blank(lines[n]) {
      i := n;
    } else {
      var k :| 0 <= k < |lines| && !Blank(lines[k]);
      assert lines[..n][k] == lines[k];
      i := LastLogLineWitness(previous, lines[..n]);
      assert lines[i] == lines[..n][i];
      forall j | i < j < |lines| ensures Blank(lines[j]) {
        if j < n { assert lines[j] == lines[..n][j]; }
      }
    }
  }

  /** The last log line after monitoring is the right-stripped last non-blank line, if any. */
  lemma LastLogLineIsLastNonBlank(previous: Option<string>, lines: seq<string>)
    ensures var r := LastLogLine(previous, lines);
      || ((forall i :: 0 <= i < |lines| ==> Blank(lines[i])) && r == previous)
      || (exists i :: 0 <= i < |lines| && !Blank(lines[i]) && r == Some(RStrip(lines[i]))
            && forall j :: i < j < |lines| ==> Blank(lines[j]))
    ensures LastLogLine(previous, lines) != previous ==> !Blank(LastLogLine(previous, lines).value)
  {
    if forall i :: 0 <= i < |lines| ==> Blank(lines[i]) {
      LastLogLineAllBlank(previous, lines);
    } else {
      var i := LastLogLineWitness(previous, lines);
      RStripBlank(lines[i]);
    }
  }

  /** The reads before the first empty one are exactly the non-empty prefix `received[..n]`. */
  lemma {:induction false} UntilEofPrefix(received: seq<string>, n: nat)
    requires n <= |received|
    requires forall j :: 0 <= j < n ==> received[j] != []
    requires n == |received| || received[n] == []
    ensures UntilEof(received) == received[..n]
  {
    if n > 0 {
      UntilEofPrefix(received[1..], n - 1);
      assert received[..n] == [received[0]] + received[1..][..n - 1];
    }
  }

  // ---------------------------------------------------------------------
  // The supervisor object

  /** `GameWorker` (dweam/worker.py:34-338). */
  class GameWorker {
    const sessionId: string
    const gameType: string
    const gameId: string
    /** Set once at construction; the supervisor never refreshes it. */
    const lastHeartbeat: int

    var process: Option<nat>
    var connected: bool
    var spawned: nat
    var cleanupScheduled: bool
    var trace: seq<Action>
    var lastLogLine: Option<string>

    function State(): WorkerState
      reads this
    {
      WorkerState(process, connected, spawned, cleanupScheduled, trace)
    }

    constructor (sessionId: string, gameType: string, gameId: string, now: int)
      ensures this.sessionId == sessionId && this.gameType == gameType && this.gameId == gameId
      ensures lastHeartbeat == now
      ensures State() == WorkerState(None, false, 0, false, []) && lastLogLine == None
    {
      this.sessionId := sessionId;
      this.gameType := gameType;
      this.gameId := gameId;
      lastHeartbeat := now;
      process := None;
      connected := false;
      spawned := 0;
      cleanupScheduled := false;
      trace := [];
      lastLogLine := None;
    }

    /** `start`: up to three attempts with timeouts of 5, 10 and 20 seconds. */
    method Start(outcomes: seq<Attempt>) returns (r: Result<(), WorkerError>)
      requires |outcomes| == MaxRetries
      modifies this
      ensures (State(), r) == StartSpec(old(State()), outcomes)
      ensures lastLogLine == old(lastLogLine)
    {
      var attempt := 0;
      while attempt < MaxRetries
        invariant 0 <= attempt <= MaxRetries
        invariant StartFrom(State(), outcomes, attempt) == StartSpec(old(State()), outcomes)
        invariant lastLogLine == old(lastLogLine)
        decreases MaxRetries - attempt
      {
        var done;
        done, r := TryAttempt(outcomes[attempt], attempt);
        if done {
          return;
        }
        attempt := attempt + 1;
      }
      r := Failure(RetriesExhausted);
    }

    /** One iteration of the retry loop; `done` when `start` returns with `r`. */
    method TryAttempt(o: Attempt, attempt: nat) returns (done: bool, r: Result<(), WorkerError>)
      modifies this
      ensures var e := AttemptStep(old(State()), o, attempt);
        && State() == e.state && (done <==> e.Returned?) && (done ==> r == e.result)
      ensures lastLogLine == old(lastLogLine)
    {
      var timeout := BaseTimeout * Pow2(attempt);
      if !(o.Raised? && !o.spawned) {
        process := Some(spawned);
        trace := trace + [Spawn(spawned, timeout)];
        spawned := spawned + 1;
      }
      done, r := false, Success(());
      match o {
        case Connected =>
          connected := true;
          trace := trace + [MonitorOutput(spawned - 1, "stdout"), MonitorOutput(spawned - 1, "stderr")];
          done, r := true, Success(());
        case ExitedEarly =>
        case _ =>
          if attempt == MaxRetries - 1 {
            if process.Some? {
              trace := trace + [Kill(process.value)];
            }
            done, r := true, Failure(if o.TimedOut? then ConnectTimeout else ConnectError);
          }
      }
    }

    /** `_send_command`: one line out, one line back. */
    method SendCommand(cmd: Command, reply: Reply) returns (r: Result<Json, WorkerError>)
      modifies this`trace
      ensures (State(), r) == SendSpec(old(State()), cmd, reply)
    {
      if !connected {
        return Failure(NotStarted);
      }
      trace := trace + [Write(EncodeCommand(cmd))];
      match reply {
        case Eof => r := Failure(ProcessClosed);
        case Line(j) =>
          var decoded := DecodeResponse(j);
          match decoded {
            case Failure(e) => r := Failure(InvalidReply(e));
            case Success(ErrorResponse(msg)) => r := Failure(ErrorReply(msg));
            case Success(SuccessResponse(data)) => r := Success(data);
          }
      }
    }

    method EnsureStarted(outcomes: seq<Attempt>) returns (r: Result<(), WorkerError>)
      requires |outcomes| == MaxRetries
      modifies this
      ensures (State(), r) == LazyStart(old(State()), outcomes)
      ensures lastLogLine == old(lastLogLine)
    {
      if process.None? {
        r := Start(outcomes);
      } else {
        r := Success(());
      }
    }

    /** `run`: hands the offer to the game process and returns its answer. */
    method Run(offer: Description, outcomes: seq<Attempt>, reply: Reply) returns (r: Result<Description, WorkerError>)
      requires |outcomes| == MaxRetries
      modifies this
      ensures (State(), r) == RunSpec(old(State()), offer, outcomes, reply)
      ensures lastLogLine == old(lastLogLine)
    {
      var started := EnsureStarted(outcomes);
      if started.Failure? {
        return Failure(started.error);
      }
      if !offer.sdp.JStr? {
        return Failure(InvalidOffer);
      }
      var sent := SendCommand(HandleOfferCommand(OfferData(offer.sdp.s, offer.kind)), reply);
      if sent.Failure? {
        return Failure(sent.error);
      }
      var answer := ReadDescription(sent.value);
      if answer.None? {
        return Failure(MalformedAnswer);
      }
      r := Success(answer.value);
    }

    /** `get_params_schema`. */
    method GetParamsSchema(outcomes: seq<Attempt>, reply: Reply) returns (r: Result<Json, WorkerError>)
      requires |outcomes| == MaxRetries
      modifies this
      ensures (State(), r) == SchemaSpec(old(State()), outcomes, reply)
      ensures lastLogLine == old(lastLogLine)
    {
      var started := EnsureStarted(outcomes);
      if started.Failure? {
        return Failure(started.error);
      }
      r := SendCommand(SchemaCommand, reply);
    }

    /** `update_params`. */
    method UpdateParams(params: Json, outcomes: seq<Attempt>, reply: Reply) returns (r: Result<Json, WorkerError>)
      requires |outcomes| == MaxRetries
      modifies this
      ensures (State(), r) == UpdateSpec(old(State()), params, outcomes, reply)
      ensures lastLogLine == old(lastLogLine)
    {
      var started := EnsureStarted(outcomes);
      if started.Failure? {
        return Failure(started.error);
      }
      if !params.JObject? {
        return Failure(InvalidParams);
      }
      r := SendCommand(UpdateParamsCommand(params.fields), reply);
    }

    /** `cleanup`: guarded by `cleanup_scheduled`; every failure inside is swallowed. */
    method Cleanup(env: CleanupEnv)
      modifies this`cleanupScheduled, this`trace
      ensures State() == CleanupSpec(old(State()), env)
    {
      if cleanupScheduled {
        return;
      }
      cleanupScheduled := true;
      if connected {
        var _ := SendCommand(StopCommand, env.stopReply);
        trace := trace + [CloseWriter];
        if env.closeRaises {
          return;
        }
      }
      if process.Some? && env.running {
        var pid := process.value;
        trace := trace + [Terminate(pid)];
        if !env.exitsInGrace {
          trace := trace + [Kill(pid)];
        }
      }
    }

    /**
     * `_monitor_process_output` on one stream: `stream` holds the stream's
     * successive reads, `None` a missing stream.
     */
    method MonitorProcessOutput(stream: Option<seq<string>>)
      modifies this`lastLogLine
      ensures stream.None? ==> lastLogLine == old(lastLogLine)
      ensures stream.Some? ==> lastLogLine == LastLogLine(old(lastLogLine), UntilEof(stream.value))
    {
      if stream.None? {
        return;
      }
      var received := stream.value;
      var i := 0;
      while i < |received|
        invariant 0 <= i <= |received|
        invariant forall j :: 0 <= j < i ==> received[j] != []
        invariant lastLogLine == LastLogLine(old(lastLogLine), received[..i])
      {
        var line := received[i];
        if line == [] {
          break;
        }
        var output := RStrip(line);
        RStripBlank(line);
        if !Blank(output) {
          lastLogLine := Some(output);
        }
        assert received[..i + 1][..i] == received[..i];
        i := i + 1;
      }
      UntilEofPrefix(received, i);
    }
  }
}
