/**
 * The worker process (dweam/game_process.py): the command dispatcher that
 * answers the supervisor's control messages one line at a time, the
 * connection watchdog, and the peer connection's heartbeat, input routing
 * and guarded cleanup.
 *
 * The WebRTC stack is an environment: the answer to an offer is given with
 * the line that carries it, connection-state changes are calls, and the
 * events posted to pygame's queue are recorded on the connection that posted
 * them.  Time is an integer clock in seconds.  A data-channel text message is
 * given as the JSON value it parses to, if any.
 */
module GameProcess {
  import opened Wrappers
  import opened Commands
  import opened GameLoop
  import opened Entrypoint

  // ---------------------------------------------------------------------
  // Input routing

  /**
   * `JS_TO_PYGAME_KEY_MAP` (dweam/constants.py:5-40): JavaScript key codes
   * to pygame 2 key constants.
   */
  const KeyMap: map<int, int> := map[
    13 := 13, 27 := 27, 32 := 32,
    37 := 1073741904, 38 := 1073741906, 39 := 1073741903, 40 := 1073741905,
    87 := 119, 65 := 97, 83 := 115, 68 := 100, 69 := 101, 77 := 109, 75 := 107,
    73 := 105, 81 := 113, 82 := 114, 84 := 116, 70 := 102, 71 := 103, 72 := 104,
    74 := 106, 76 := 108, 79 := 111, 80 := 112, 85 := 117, 86 := 118, 88 := 120,
    89 := 121, 90 := 122, 190 := 46, 49 := 49, 50 := 50, 51 := 51]

  /** `JS_TO_PYGAME_BUTTON_MAP` (dweam/constants.py:43-48): left, middle, right. */
  const ButtonMap: map<int, int> := map[0 := 1, 1 := 2, 2 := 3]

  /**
   * The dictionary key a JSON value hashes as: Python's `True` and `False`
   * are equal to 1 and 0, so they find the entries of those codes.
   */
  function CodeOf(j: Json): Option<int>
  {
    match j
    case JInt(i) => Some(i)
    case JBool(b) => Some(if b then 1 else 0)
    case _ => None
  }

  /** `table.get(fields[name])`; a missing field (KeyError) finds nothing. */
  function LookupCode(fields: map<string, Json>, name: string, table: map<int, int>): Option<int>
  {
    if name !in fields then None
    else
      var c := CodeOf(fields[name]);
      if c.Some? && c.value in table then Some(table[c.value]) else None
  }

  /** The event `handle_game_input` posts for a message, if any (dweam/game_process.py:91-114). */
  function InputEvent(data: Json): Option<Event>
  {
    if !(data.JObject? && "type" in data.fields) then None
    else
      var f := data.fields;
      var t := f["type"];
      if t == JStr("keydown") then
        var k := LookupCode(f, "key", KeyMap); if k.Some? then Some(KeyDown(k.value)) else None
      else if t == JStr("keyup") then
        var k := LookupCode(f, "key", KeyMap); if k.Some? then Some(KeyUp(k.value)) else None
      else if t == JStr("mousemove") then
        if "movementX" in f && "movementY" in f && f["movementX"].JInt? && f["movementY"].JInt?
        then Some(MouseMotion(f["movementX"].i, f["movementY"].i))
        else None
      else if t == JStr("mousedown") then
        var b := LookupCode(f, "button", ButtonMap); if b.Some? then Some(MouseButtonDown(b.value)) else None
      else if t == JStr("mouseup") then
        var b := LookupCode(f, "button", ButtonMap); if b.Some? then Some(MouseButtonUp(b.value)) else None
      else None
  }

  /** A key message posts an event exactly when its code is in the table, and then the mapped key. */
  lemma KeyRouting(code: int, down: bool)
    ensures var data := JObject(map["type" := JStr(if down then "keydown" else "keyup"), "key" := JInt(code)]);
      && (InputEvent(data).Some? <==> code in KeyMap)
      && (code in KeyMap ==> InputEvent(data) == Some(if down then KeyDown(KeyMap[code]) else KeyUp(KeyMap[code])))
  {
    var data := JObject(map["type" := JStr(if down then "keydown" else "keyup"), "key" := JInt(code)]);
    assert data.fields["type"] == JStr(if down then "keydown" else "keyup");
    assert LookupCode(data.fields, "key", KeyMap) == (if code in KeyMap then Some(KeyMap[code]) else None);
  }

  /** A button message posts an event exactly when its button is in the table, and then the mapped button. */
  lemma ButtonRouting(code: int, down: bool)
    ensures var data := JObject(map["type" := JStr(if down then "mousedown" else "mouseup"), "button" := JInt(code)]);
      && (InputEvent(data).Some? <==> 0 <= code <= 2)
      && (0 <= code <= 2 ==> InputEvent(data) == Some(if down then MouseButtonDown(code + 1) else MouseButtonUp(code + 1)))
  {
    var data := JObject(map["type" := JStr(if down then "mousedown" else "mouseup"), "button" := JInt(code)]);
    assert data.fields["type"] == JStr(if down then "mousedown" else "mouseup");
    assert LookupCode(data.fields, "button", ButtonMap) == (if 0 <= code <= 2 then Some(code + 1) else None);
  }

  /** Every posted key or button event carries a value from the lookup tables. */
  lemma PostedCodesAreMapped(data: Json)
    ensures var e := InputEvent(data);
      && (e.Some? && (e.value.KeyDown? || e.value.KeyUp?) ==> e.value.key in KeyMap.Values)
      && (e.Some? && (e.value.MouseButtonDown? || e.value.MouseButtonUp?) ==> e.value.button in ButtonMap.Values)
  {
    if data.JObject? && "type" in data.fields {
      var f := data.fields;
      var k := LookupCode(f, "key", KeyMap);
      var b := LookupCode(f, "button", ButtonMap);
      assert k.Some? ==> CodeOf(f["key"]).value in KeyMap && k.value == KeyMap[CodeOf(f["key"]).value];
      assert b.Some? ==> CodeOf(f["button"]).value in ButtonMap && b.value == ButtonMap[CodeOf(f["button"]).value];
    }
  }

  // ---------------------------------------------------------------------
  // The peer connection

  /** An aiortc `connectionState`. */
  datatype PcState = New | Connecting | Connected | Disconnected | Failed | Closed

  /** The states in which the connection is given up (dweam/game_process.py:83, 205). */
  predicate Ended(s: PcState)
  {
    s == Failed || s == Closed || s == Disconnected
  }

  /** A heartbeat older than this many seconds makes the connection stale. */
  const HeartbeatTimeout: int := 5

  /** A data-channel message: binary, or text given as the JSON it parses to, if any. */
  datatype ChannelMessage = Binary | Text(parsed: Option<Json>)

  datatype RtcState = RtcState(
    lastHeartbeat: int,
    cleanupScheduled: bool,
    pc: PcState,
    closeCalls: nat,
    posted: seq<Event>)

  /** A `GameRTCConnection` as its constructor leaves it. */
  function NewRtc(now: int): RtcState
  {
    RtcState(now, false, New, 0, [])
  }

  /** `is_stale` (dweam/game_process.py:86-89). */
  predicate IsStale(st: RtcState, now: int)
  {
    now - st.lastHeartbeat > HeartbeatTimeout
  }

  /** `cleanup` (dweam/game_process.py:129-137). */
  function RtcCleanupSpec(st: RtcState): RtcState
  {
    if st.cleanupScheduled then st
    else st.(cleanupScheduled := true, pc := Closed, closeCalls := st.closeCalls + if st.pc != Closed then 1 else 0)
  }

  /** `on_message` (dweam/game_process.py:66-78); every exception is logged and dropped. */
  function OnMessageSpec(st: RtcState, m: ChannelMessage, now: int): RtcState
  {
    match m
    case Binary => st
    case Text(None) => st
    case Text(Some(data)) =>
      if !(data.JObject? && "type" in data.fields) then st
      else if data.fields["type"] == JStr("heartbeat") then st.(lastHeartbeat := now)
      else
        match InputEvent(data)
        case Some(e) => st.(posted := st.posted + [e])
        case None => st
  }

  /** The connection reacting to a new `connectionState` (dweam/game_process.py:80-84). */
  function StateChangeSpec(st: RtcState, s: PcState): RtcState
  {
    var changed := st.(pc := s);
    if Ended(s) then RtcCleanupSpec(changed) else changed
  }

  /** A second cleanup does nothing, and the peer connection is closed at most once. */
  lemma RtcCleanupIdempotent(st: RtcState)
    ensures RtcCleanupSpec(RtcCleanupSpec(st)) == RtcCleanupSpec(st)
    ensures RtcCleanupSpec(st).cleanupScheduled
    ensures !st.cleanupScheduled ==> RtcCleanupSpec(st).pc == Closed
    ensures RtcCleanupSpec(st).closeCalls <= st.closeCalls + 1
    ensures st.cleanupScheduled ==> RtcCleanupSpec(st) == st
  {
  }

  /** Messages leave staleness to heartbeats: a heartbeat at `now` makes the connection fresh for exactly five seconds. */
  lemma HeartbeatFreshness(st: RtcState, now: int, later: int)
    ensures var hb := OnMessageSpec(st, Text(Some(JObject(map["type" := JStr("heartbeat")]))), now);
      hb.lastHeartbeat == now && (IsStale(hb, later) <==> later > now + HeartbeatTimeout)
  {
    var data := JObject(map["type" := JStr("heartbeat")]);
    assert data.fields["type"] == JStr("heartbeat");
  }

  /**
   * Routing of one message: binary and unparsable messages change nothing, a
   * heartbeat only refreshes the heartbeat, anything else only posts the
   * message's input event, if it has one.
   */
  lemma MessageRouting(st: RtcState, m: ChannelMessage, now: int)
    ensures var r := OnMessageSpec(st, m, now);
      && (m.Binary? || m == Text(None) ==> r == st)
      && r.cleanupScheduled == st.cleanupScheduled && r.pc == st.pc && r.closeCalls == st.closeCalls
      && (r.lastHeartbeat != st.lastHeartbeat ==> r.lastHeartbeat == now && r.posted == st.posted)
      && (m.Text? && m.parsed.Some? && m.parsed.value.JObject? && "type" in m.parsed.value.fields
          && m.parsed.value.fields["type"] != JStr("heartbeat") ==>
            r.lastHeartbeat == st.lastHeartbeat
            && r.posted == st.posted + (if InputEvent(m.parsed.value).Some? then [InputEvent(m.parsed.value).value] else []))
  {
  }

  class RtcConnection {
    var lastHeartbeat: int
    var cleanupScheduled: bool
    var pc: PcState
    /** How many times `pc.close()` was awaited. */
    var closeCalls: nat
    /** The events this connection posted to pygame's queue, in order. */
    var posted: seq<Event>

    function State(): RtcState
      reads this
    {
      RtcState(lastHeartbeat, cleanupScheduled, pc, closeCalls, posted)
    }

    constructor (now: int)
      ensures State() == NewRtc(now)
    {
      lastHeartbeat := now;
      cleanupScheduled := false;
      pc := New;
      closeCalls := 0;
      posted := [];
    }

    predicate Stale(now: int)
      reads this
    {
      IsStale(State(), now)
    }

    /** `handle_game_input` (dweam/game_process.py:91-114). */
    method HandleGameInput(data: Json)
      modifies this`posted
      ensures State() == old(State()).(posted := old(posted) + if InputEvent(data).Some? then [InputEvent(data).value] else [])
    {
      var e := InputEvent(data);
      if e.Some? {
        posted := posted + [e.value];
      }
    }

    /** `on_message` (dweam/game_process.py:66-78). */
    method OnMessage(m: ChannelMessage, now: int)
      modifies this`lastHeartbeat, this`posted
      ensures State() == OnMessageSpec(old(State()), m, now)
    {
      if m.Binary? || m.parsed.None? {
        return;
      }
      var data := m.parsed.value;
      if !(data.JObject? && "type" in data.fields) {
        return;
      }
      if data.fields["type"] == JStr("heartbeat") {
        lastHeartbeat := now;
      } else {
        HandleGameInput(data);
      }
    }

    /** `cleanup` (dweam/game_process.py:129-137). */
    method Cleanup()
      modifies this`cleanupScheduled, this`pc, this`closeCalls
      ensures State() == RtcCleanupSpec(old(State()))
    {
      if cleanupScheduled {
        return;
      }
      cleanupScheduled := true;
      if pc != Closed {
        pc := Closed;
        closeCalls := closeCalls + 1;
      }
    }

    /** The `connectionstatechange` handler after aiortc moved to state `s` (dweam/game_process.py:80-84). */
    method ConnectionStateChanged(s: PcState)
      modifies this`cleanupScheduled, this`pc, this`closeCalls
      ensures State() == StateChangeSpec(old(State()), s)
    {
      pc := s;
      if Ended(s) {
        Cleanup();
      }
    }
  }

  // ---------------------------------------------------------------------
  // The command dispatcher

  /** The game instance as the dispatcher sees it: started or stopped, and the parameters it was given. */
  datatype GameInstance = GameInstance(running: bool, updates: seq<Json>)

  /**
   * The implementation class: its `Params` JSON schema (or the text of the
   * exception computing it raises), and `Params` validation of an update's
   * data, giving the parameters or the error text.
   */
  datatype Implementation = Implementation(schema: Result<Json, string>, validate: map<string, Json> -> Result<Json, string>)

  /**
   * One `readline` on the control channel: EOF, a read that raises, or a line
   * with the answer the peer connection produces if it is an offer, the clock
   * at which it is handled, and whether writing the response succeeds.
   */
  datatype Incoming =
    | Eof
    | ReadFailed
    | Line(message: Json, now: int, answer: Result<OfferData, string>, delivered: bool)

  /** The locals of `main` that the command loop and the watchdog share. */
  datatype ProcState = ProcState(
    game: Option<GameInstance>,
    created: nat,
    rtc: Option<RtcState>,
    connections: nat,
    written: seq<Response>,
    shouldExit: bool,
    writerClosed: bool)

  const Initial: ProcState := ProcState(None, 0, None, 0, [], false, false)

  /** `str(e)` for `game.on_params_update` with no game (`game` is None). */
  const NoGameError: string := "'NoneType' object has no attribute 'on_params_update'"

  function StopGame(g: Option<GameInstance>): Option<GameInstance>
  {
    if g.Some? then Some(g.value.(running := false)) else None
  }

  function CleanupRtc(r: Option<RtcState>): Option<RtcState>
  {
    if r.Some? then Some(RtcCleanupSpec(r.value)) else None
  }

  /** The inner `try` of the command loop: the new state and the response (dweam/game_process.py:231-260). */
  function Dispatch(st: ProcState, c: Command, impl: Implementation, now: int,
                    answer: Result<OfferData, string>): (ProcState, Response)
  {
    match c
    case SchemaCommand =>
        (st, if impl.schema.Success? then SuccessResponse(impl.schema.value) else ErrorResponse(impl.schema.error))
    case UpdateParamsCommand(data) =>
      var params := impl.validate(data);
      if params.Failure? then (st, ErrorResponse(params.error))
      else if st.game.None? then (st, ErrorResponse(NoGameError))
      else (st.(game := Some(st.game.value.(updates := st.game.value.updates + [params.value]))), DefaultSuccess)
    case HandleOfferCommand(_) =>
      var withGame := if st.game.None? then st.(game := Some(GameInstance(true, [])), created := st.created + 1) else st;
      var st2 := withGame.(rtc := Some(NewRtc(now)), connections := withGame.connections + 1);
      if answer.Success? then (st2, SuccessResponse(EncodeOffer(answer.value))) else (st2, ErrorResponse(answer.error))
    case StopCommand => (st.(rtc := CleanupRtc(st.rtc), shouldExit := true), DefaultSuccess)
  }

  /** A line that is answered: it parsed as a command and its response was written. */
  predicate Answered(line: Incoming)
  {
    line.Line? && DecodeCommand(line.message).Success? && line.delivered
  }

  /** One iteration of the command loop (dweam/game_process.py:221-267). */
  function LineSpec(st: ProcState, line: Incoming, impl: Implementation): ProcState
  {
    match line
    case Eof => st.(shouldExit := true)
    case ReadFailed => st.(shouldExit := true)
    case Line(m, now, answer, delivered) =>
      match DecodeCommand(m)
      case Failure(_) => st.(shouldExit := true)
      case Success(c) =>
        var (st2, resp) := Dispatch(st, c, impl, now, answer);
        if delivered then st2.(written := st2.written + [resp]) else st2.(shouldExit := true)
  }

  /** The command loop over the lines it reads: the final state and how many lines it read. */
  function ServeFrom(st: ProcState, lines: seq<Incoming>, impl: Implementation): (ProcState, nat)
    decreases |lines|
  {
    if st.shouldExit || lines == [] then (st, 0)
    else
      var r := ServeFrom(LineSpec(st, lines[0], impl), lines[1..], impl);
      (r.0, r.1 + 1)
  }

  /** After `consumed` lines the loop, in state `st`, is on its way to `target`. */
  ghost predicate ServeAt(st: ProcState, lines: seq<Incoming>, consumed: nat, impl: Implementation, target: (ProcState, nat))
  {
    consumed <= |lines| && var r := ServeFrom(st, lines[consumed..], impl); r.0 == target.0 && r.1 + consumed == target.1
  }

  /** A loop that has not ended reads the next line, then carries on from the state after it. */
  lemma ServeAtStep(st: ProcState, lines: seq<Incoming>, consumed: nat, impl: Implementation, target: (ProcState, nat))
    requires ServeAt(st, lines, consumed, impl, target) && !st.shouldExit && consumed < |lines|
    ensures ServeAt(LineSpec(st, lines[consumed], impl), lines, consumed + 1, impl, target)
  {
    assert lines[consumed..][1..] == lines[consumed + 1..];
  }

  /** A loop that has ended, or has no line left, is at its target. */
  lemma ServeAtEnd(st: ProcState, lines: seq<Incoming>, consumed: nat, impl: Implementation, target: (ProcState, nat))
    requires ServeAt(st, lines, consumed, impl, target) && (st.shouldExit || consumed == |lines|)
    ensures st == target.0 && consumed == target.1
  {
  }

  /** The teardown after the loop (dweam/game_process.py:269-275). */
  function FinishSpec(st: ProcState): ProcState
  {
    st.(rtc := CleanupRtc(st.rtc), game := StopGame(st.game), writerClosed := true)
  }

  /** One check of `check_connection` (dweam/game_process.py:203-215). */
  function CheckSpec(st: ProcState, now: int): ProcState
  {
    if st.rtc.Some? && (IsStale(st.rtc.value, now) || Ended(st.rtc.value.pc)) then
      st.(rtc := CleanupRtc(st.rtc), game := StopGame(st.game), writerClosed := true, shouldExit := true)
    else st
  }

  /** The checks of `check_connection` at successive times, until one ends the process. */
  function CheckFrom(st: ProcState, times: seq<int>): ProcState
    decreases |times|
  {
    if st.shouldExit || times == [] then st else CheckFrom(CheckSpec(st, times[0]), times[1..])
  }

  function CountAnswered(lines: seq<Incoming>): nat
  {
    if lines == [] then 0 else CountAnswered(lines[..|lines| - 1]) + if Answered(lines[|lines| - 1]) then 1 else 0
  }

  /**
   * Each line read either is answered with exactly one response, success or
   * error, or ends the loop with none: EOF, a read or parse failure, or a
   * failed write.
   */
  lemma OneResponsePerCommand(st: ProcState, line: Incoming, impl: Implementation)
    ensures var r := LineSpec(st, line, impl);
      && (Answered(line) ==>
            |r.written| == |st.written| + 1 && r.written[..|st.written|] == st.written
            && r.written[|st.written|] == Dispatch(st, DecodeCommand(line.message).value, impl, line.now, line.answer).1)
      && (!Answered(line) ==> r.written == st.written && r.shouldExit)
  {
    if Answered(line) {
      var r := LineSpec(st, line, impl);
      var d := Dispatch(st, DecodeCommand(line.message).value, impl, line.now, line.answer);
      assert r.written == st.written + [d.1];
    }
  }

  /** The loop ends exactly at EOF, a failed read, parse or write, or an answered stop. */
  lemma LineExits(st: ProcState, line: Incoming, impl: Implementation)
    requires !st.shouldExit
    ensures LineSpec(st, line, impl).shouldExit <==>
      !Answered(line) || DecodeCommand(line.message).value.StopCommand?
  {
  }

  /** The loop reads at most the lines it is given and only appends responses. */
  lemma {:induction false} ServeFromKeepsWritten(st: ProcState, lines: seq<Incoming>, impl: Implementation)
    ensures var r := ServeFrom(st, lines, impl);
      && r.1 <= |lines| && |r.0.written| >= |st.written| && r.0.written[..|st.written|] == st.written
    decreases |lines|
  {
    if !(st.shouldExit || lines == []) {
      var next := LineSpec(st, lines[0], impl);
      OneResponsePerCommand(st, lines[0], impl);
      ServeFromKeepsWritten(next, lines[1..], impl);
      var r := ServeFrom(next, lines[1..], impl);
      assert r.0.written[..|next.written|][..|st.written|] == r.0.written[..|st.written|];
    }
  }

  /** The loop writes one response per answered line it reads. */
  lemma {:induction false} ServeFromCount(st: ProcState, lines: seq<Incoming>, impl: Implementation)
    ensures var r := ServeFrom(st, lines, impl);
      r.1 <= |lines| && |r.0.written| == |st.written| + CountAnswered(lines[..r.1])
    decreases |lines|
  {
    if st.shouldExit || lines == [] {
      assert lines[..0] == [];
    } else {
      var next := LineSpec(st, lines[0], impl);
      OneResponsePerCommand(st, lines[0], impl);
      ServeFromCount(next, lines[1..], impl);
      var r := ServeFrom(next, lines[1..], impl);
      CountAnsweredCons(lines[0], lines[1..][..r.1]);
      assert [lines[0]] + lines[1..][..r.1] == lines[..r.1 + 1];
    }
  }

  lemma ServeFromCountsResponses(st: ProcState, lines: seq<Incoming>, impl: Implementation)
    ensures var r := ServeFrom(st, lines, impl);
      && r.1 <= |lines|
      && |r.0.written| == |st.written| + CountAnswered(lines[..r.1])
      && r.0.written[..|st.written|] == st.written
  {
    ServeFromKeepsWritten(st, lines, impl);
    ServeFromCount(st, lines, impl);
  }

  lemma {:induction false} CountAnsweredCons(line: Incoming, rest: seq<Incoming>)
    ensures CountAnswered([line] + rest) == (if Answered(line) then 1 else 0) + CountAnswered(rest)
    decreases |rest|
  {
    if rest == [] {
      assert [line] + rest == [line];
      assert [line][..0] == [];
    } else {
      var init := rest[..|rest| - 1];
      CountAnsweredCons(line, init);
      assert ([line] + rest)[..|[line] + rest| - 1] == [line] + init;
    }
  }

  /** The game is created only while there is none, at most once in the life of the process. */
  ghost predicate CreatedOnce(st: ProcState)
  {
    st.created == if st.game.Some? then 1 else 0
  }

  lemma DispatchCreatesOnce(st: ProcState, c: Command, impl: Implementation, now: int, answer: Result<OfferData, string>)
    requires CreatedOnce(st)
    ensures var r := Dispatch(st, c, impl, now, answer).0;
      CreatedOnce(r) && (st.game.Some? ==> r.game.Some?)
  {
  }

  lemma LineCreatesOnce(st: ProcState, line: Incoming, impl: Implementation)
    requires CreatedOnce(st)
    ensures var r := LineSpec(st, line, impl);
      CreatedOnce(r) && (st.game.Some? ==> r.game.Some?)
  {
    match line {
      case Line(m, now, answer, delivered) =>
        match DecodeCommand(m) {
          case Success(c) => DispatchCreatesOnce(st, c, impl, now, answer);
          case Failure(_) =>
        }
      case _ =>
    }
  }

  lemma {:induction false} ServeCreatesOnce(st: ProcState, lines: seq<Incoming>, impl: Implementation)
    requires CreatedOnce(st)
    ensures var r := ServeFrom(st, lines, impl).0;
      CreatedOnce(r) && r.created <= 1 && (st.game.Some? ==> r.game.Some?)
    decreases |lines|
  {
    if !(st.shouldExit || lines == []) {
      LineCreatesOnce(st, lines[0], impl);
      ServeCreatesOnce(LineSpec(st, lines[0], impl), lines[1..], impl);
    }
  }

  /**
   * Every offer builds a new connection and starts the game only when there
   * is none yet, whether or not the peer connection produces an answer.
   */
  lemma OfferContract(st: ProcState, o: OfferData, impl: Implementation, now: int, answer: Result<OfferData, string>)
    requires !st.shouldExit
    ensures var (r, resp) := Dispatch(st, HandleOfferCommand(o), impl, now, answer);
      && r.connections == st.connections + 1 && r.rtc == Some(NewRtc(now))
      && (st.game.Some? ==> r.game == st.game && r.created == st.created)
      && (st.game.None? ==> r.game == Some(GameInstance(true, [])) && r.created == st.created + 1)
      && (answer.Success? ==> resp == SuccessResponse(EncodeOffer(answer.value)))
      && (answer.Failure? ==> resp == ErrorResponse(answer.error))
      && !r.shouldExit
  {
  }

  /**
   * A schema request changes nothing and answers with the schema when
   * computing it returns; when it raises, the answer is an error carrying
   * the exception's text.  The loop goes on either way.
   */
  lemma SchemaContract(st: ProcState, impl: Implementation, now: int, answer: Result<OfferData, string>)
    requires !st.shouldExit
    ensures var (r, resp) := Dispatch(st, SchemaCommand, impl, now, answer);
      && r == st
      && (resp.SuccessResponse? <==> impl.schema.Success?)
      && (impl.schema.Success? ==> resp == SuccessResponse(impl.schema.value))
      && (impl.schema.Failure? ==> resp == ErrorResponse(impl.schema.error))
  {
  }

  /**
   * An update answers with an error and changes nothing when validation
   * fails or no offer has created the game yet; otherwise the game gets the
   * validated parameters.  The loop goes on either way.
   */
  lemma UpdateContract(st: ProcState, data: map<string, Json>, impl: Implementation, now: int,
                       answer: Result<OfferData, string>)
    requires !st.shouldExit
    ensures var (r, resp) := Dispatch(st, UpdateParamsCommand(data), impl, now, answer);
      && !r.shouldExit
      && (impl.validate(data).Failure? ==> r == st && resp == ErrorResponse(impl.validate(data).error))
      && (impl.validate(data).Success? && st.game.None? ==> r == st && resp == ErrorResponse(NoGameError))
      && (impl.validate(data).Success? && st.game.Some? ==>
            resp == DefaultSuccess
            && r == st.(game := Some(st.game.value.(updates := st.game.value.updates + [impl.validate(data).value]))))
  {
  }

  /** A stop cleans up the connection, if any, answers success and ends the loop with no further line read. */
  lemma StopContract(st: ProcState, now: int, rest: seq<Incoming>, impl: Implementation)
    requires !st.shouldExit
    ensures var line := Line(EncodeCommand(StopCommand), now, Failure(""), true);
      var r := ServeFrom(st, [line] + rest, impl);
      && r.1 == 1
      && r.0.rtc == CleanupRtc(st.rtc)
      && r.0.written == st.written + [DefaultSuccess]
      && r.0.shouldExit && r.0.game == st.game
  {
    var line := Line(EncodeCommand(StopCommand), now, Failure(""), true);
    CommandRoundTrip(StopCommand);
    assert ([line] + rest)[0] == line && ([line] + rest)[1..] == rest;
  }

  /** After the teardown the connection is cleaned up, the game stopped and the writer closed; a stop before it closed the connection already. */
  lemma FinishContract(st: ProcState)
    ensures var r := FinishSpec(st);
      && r.writerClosed && (r.game.Some? ==> !r.game.value.running)
      && (r.rtc.Some? ==> r.rtc.value.cleanupScheduled)
      && (st.rtc.Some? && !st.rtc.value.cleanupScheduled ==> r.rtc.value.pc == Closed)
      && (st.rtc.Some? && st.rtc.value.cleanupScheduled ==> r.rtc == st.rtc)
      && r.written == st.written
  {
  }

  /** The watchdog fires exactly when a connection exists and is stale or given up, and then ends the process. */
  lemma CheckContract(st: ProcState, now: int)
    ensures var r := CheckSpec(st, now);
      && (r.shouldExit && !st.shouldExit ==> st.rtc.Some? && (IsStale(st.rtc.value, now) || Ended(st.rtc.value.pc)))
      && (st.rtc.Some? && (IsStale(st.rtc.value, now) || Ended(st.rtc.value.pc)) ==>
            r == FinishSpec(st).(shouldExit := true))
      && r.written == st.written
  {
  }

  class Dispatcher {
    var game: Option<GameInstance>
    /** How many times the implementation class was instantiated. */
    var created: nat
    var rtc: RtcConnection?
    /** How many `GameRTCConnection`s were built. */
    var connections: nat
    /** The responses written to the supervisor, in order. */
    var written: seq<Response>
    var shouldExit: bool
    var writerClosed: bool
    const impl: Implementation

    function State(): ProcState
      reads this, rtc
    {
      ProcState(game, created, if rtc == null then None else Some(rtc.State()), connections, written, shouldExit, writerClosed)
    }

    constructor (impl: Implementation)
      ensures State() == Initial && this.impl == impl
    {
      this.impl := impl;
      game, created, rtc, connections := None, 0, null, 0;
      written, shouldExit, writerClosed := [], false, false;
    }

    method StopGameInstance()
      modifies this`game
      ensures game == StopGame(old(game))
    {
      if game.Some? {
        game := Some(game.value.(running := false));
      }
    }

    method CleanupConnection()
      modifies rtc
      ensures rtc != null ==> rtc.State() == RtcCleanupSpec(old(rtc.State()))
    {
      if rtc != null {
        rtc.Cleanup();
      }
    }

    /** The inner `try` of the command loop (dweam/game_process.py:231-260). */
    method DispatchCommand(c: Command, now: int, answer: Result<OfferData, string>) returns (resp: Response)
      modifies this, rtc
      ensures (State(), resp) == Dispatch(old(State()), c, impl, now, answer)
      ensures rtc == old(rtc) || fresh(rtc)
    {
      match c {
        case SchemaCommand =>
          if impl.schema.Success? {
            resp := SuccessResponse(impl.schema.value);
          } else {
            resp := ErrorResponse(impl.schema.error);
          }
        case UpdateParamsCommand(data) =>
          var params := impl.validate(data);
          if params.Failure? {
            return ErrorResponse(params.error);
          }
          if game.None? {
            return ErrorResponse(NoGameError);
          }
          game := Some(game.value.(updates := game.value.updates + [params.value]));
          resp := DefaultSuccess;
        case HandleOfferCommand(_) =>
          if game.None? {
            game := Some(GameInstance(true, []));
            created := created + 1;
          }
          rtc := new RtcConnection(now);
          connections := connections + 1;
          resp := if answer.Success? then SuccessResponse(EncodeOffer(answer.value)) else ErrorResponse(answer.error);
        case StopCommand =>
          CleanupConnection();
          resp := DefaultSuccess;
          shouldExit := true;
      }
    }

    /** One iteration of the command loop (dweam/game_process.py:221-267). */
    method HandleLine(line: Incoming)
      modifies this, rtc
      ensures State() == LineSpec(old(State()), line, impl)
      ensures rtc == old(rtc) || fresh(rtc)
    {
      if !line.Line? {
        shouldExit := true;
        return;
      }
      var command := DecodeCommand(line.message);
      if command.Failure? {
        shouldExit := true;
        return;
      }
      var resp := DispatchCommand(command.value, line.now, line.answer);
      if line.delivered {
        written := written + [resp];
      } else {
        shouldExit := true;
      }
    }

    /** The command loop of `main`; `consumed` is how many lines it read (dweam/game_process.py:221-267). */
    method Serve(lines: seq<Incoming>) returns (consumed: nat)
      modifies this, rtc
      ensures (State(), consumed) == ServeFrom(old(State()), lines, impl)
    {
      ghost var target := ServeFrom(State(), lines, impl);
      consumed := 0;
      assert lines[0..] == lines;
      while !shouldExit && consumed < |lines|
        invariant rtc == old(rtc) || fresh(rtc)
        invariant ServeAt(State(), lines, consumed, impl, target)
        decreases |lines| - consumed
      {
        ServeAtStep(State(), lines, consumed, impl, target);
        HandleLine(lines[consumed]);
        consumed := consumed + 1;
      }
      ServeAtEnd(State(), lines, consumed, impl, target);
    }

    /** The teardown after the loop (dweam/game_process.py:269-275). */
    method Finish()
      modifies this`game, this`writerClosed, rtc
      ensures State() == FinishSpec(old(State()))
    {
      CleanupConnection();
      StopGameInstance();
      writerClosed := true;
    }

    /** `check_connection`, one check per time in `times` until one ends the process (dweam/game_process.py:200-215). */
    method CheckConnection(times: seq<int>)
      modifies this`game, this`writerClosed, this`shouldExit, rtc
      ensures State() == CheckFrom(old(State()), times)
    {
      var i := 0;
      while !shouldExit && i < |times|
        invariant i <= |times|
        invariant CheckFrom(State(), times[i..]) == CheckFrom(old(State()), times)
        decreases |times| - i
      {
        assert times[i..][1..] == times[i + 1..];
        if rtc != null && (rtc.Stale(times[i]) || Ended(rtc.pc)) {
          CleanupConnection();
          StopGameInstance();
          writerClosed := true;
          shouldExit := true;
        }
        i := i + 1;
      }
    }
  }

  // ---------------------------------------------------------------------
  // Command-line arguments

  /** The arguments `main` reads: game type, game id, ICE servers and the supervisor's port. */
  datatype Args = Args(gameType: Json, gameId: string, iceServers: Option<Json>, port: int)

  datatype ArgvError =
    | MissingArgument(index: nat) // IndexError
    | InvalidJson(index: nat)     // JSONDecodeError on the ICE servers
    | InvalidPort                 // ValueError from int()

  predicate IsDigit(c: char)
  {
    '0' <= c <= '9'
  }

  function DigitValue(c: char): nat
    requires IsDigit(c)
  {
    c as int - '0' as int
  }

  function DigitsValue(s: string): nat
    requires forall i :: 0 <= i < |s| ==> IsDigit(s[i])
  {
    if s == [] then 0 else 10 * DigitsValue(s[..|s| - 1]) + DigitValue(s[|s| - 1])
  }

  /** `int(s)` on an optionally signed run of ASCII digits. */
  function ParseInt(s: string): Option<int>
  {
    var neg := |s| > 0 && s[0] == '-';
    var digits := if |s| > 0 && (s[0] == '-' || s[0] == '+') then s[1..] else s;
    if digits == [] || !(forall i :: 0 <= i < |digits| ==> IsDigit(digits[i])) then None
    else
      var magnitude: int := DigitsValue(digits);
      var v: int := if neg then 0 - magnitude else magnitude;
      Some(v)
  }

  /** `str(n)` */
  function NatToString(n: nat): (s: string)
    ensures |s| > 0 && forall i :: 0 <= i < |s| ==> IsDigit(s[i])
  {
    if n < 10 then [('0' as int + n) as char]
    else NatToString(n / 10) + [('0' as int + n % 10) as char]
  }

  lemma {:induction false} DigitsOfNat(n: nat)
    ensures DigitsValue(NatToString(n)) == n
  {
    var s := NatToString(n);
    if n >= 10 {
      DigitsOfNat(n / 10);
      assert s[..|s| - 1] == NatToString(n / 10);
    }
  }

  /** `int(str(port))` gives back the port. */
  lemma PortRoundTrip(n: nat)
    ensures ParseInt(NatToString(n)) == Some(n)
  {
    DigitsOfNat(n);
  }

  /**
   * The argument parsing of `main` (dweam/game_process.py:151-159); `decode`
   * is `json.loads`, None where it raises.
   */
  function ParseArgv(argv: seq<string>, decode: string -> Option<Json>): Result<Args, ArgvError>
  {
    if |argv| < 2 then Failure(MissingArgument(1))
    else
      var gameType := match decode(argv[1]) case Some(j) => j case None => JStr(argv[1]);
      if |argv| < 3 then Failure(MissingArgument(2))
      else if |argv| > 3 && decode(argv[3]).None? then Failure(InvalidJson(3))
      else
        var ice := if |argv| > 3 then decode(argv[3]) else None;
        if |argv| < 5 then Failure(MissingArgument(4))
        else
          match ParseInt(argv[4])
          case None => Failure(InvalidPort)
          case Some(port) => Success(Args(gameType, argv[2], ice, port))
  }

  /**
   * The port is read unconditionally, so parsing succeeds only with all four
   * arguments, and the ICE servers are then always present.
   */
  lemma ArgvNeedsAll(argv: seq<string>, decode: string -> Option<Json>)
    ensures ParseArgv(argv, decode).Success? ==> |argv| >= 5 && ParseArgv(argv, decode).value.iceServers.Some?
    ensures |argv| == 4 ==> ParseArgv(argv, decode).Failure?
  {
  }

  /**
   * The command line the supervisor builds (dweam/worker.py:163-169) parses
   * back to its game type, game id, ICE servers and port; a game type that is
   * not JSON is taken as it stands.
   */
  lemma ArgvFromSupervisor(script: string, typeArg: string, gameId: string, iceArg: string, port: nat,
                           decode: string -> Option<Json>)
    requires decode(iceArg).Some?
    ensures var r := ParseArgv([script, typeArg, gameId, iceArg, NatToString(port)], decode);
      && r.Success? && r.value.port == port && r.value.gameId == gameId && r.value.iceServers == decode(iceArg)
      && r.value.gameType == (if decode(typeArg).Some? then decode(typeArg).value else JStr(typeArg))
  {
    PortRoundTrip(port);
  }

  /** Why `main` stops before serving: the game is not in the catalogue. */
  datatype LookupError = UnknownGameType | UnknownGameId

  /** The catalogue lookup of `main` (dweam/game_process.py:181-193). */
  function ResolveGame(games: Catalogue, gameType: Json, gameId: string): (r: Result<Listed, LookupError>)
    ensures r.Success? <==> gameType.JStr? && gameType.s in games && gameId in games[gameType.s]
    ensures r.Success? ==> r.value == games[gameType.s][gameId]
  {
    if !gameType.JStr? || gameType.s !in games then Failure(UnknownGameType)
    else if gameId !in games[gameType.s] then Failure(UnknownGameId)
    else Success(games[gameType.s][gameId])
  }
}
