# Dweam world arcade: supervisor, worker process and game loop in Dafny

This project models the runtime core of the Dweam world arcade. It is a
local service that installs interactive "world model" games and streams
them to a browser over WebRTC. The model covers these parts:

- **The session registry** of the front-facing service (`dweam/server.py`):
  - the `active_workers` map from session id to worker, and `cleanup_worker`;
  - the periodic stale sweep;
  - the `offer`, parameter-update and parameter-schema endpoints;
  - worker teardown at shutdown.
- **The supervisor of one game process** (`GameWorker`, `dweam/worker.py`):
  - three start attempts with 5, 10 and 20 second timeouts;
  - lazy start before the first command;
  - one-line request / one-line response commands;
  - a cleanup that runs once;
  - tracking of the last non-blank output line.
- **The control messages** between the two processes (`dweam/commands.py`):
  the four commands and the two responses, their JSON shape and their
  validation.
- **The worker process** (`dweam/game_process.py`):
  - the command loop, which answers each command with one response;
  - the connection watchdog;
  - the peer connection's heartbeat, staleness, cleanup that runs once,
    and routing of browser input to pygame events through the tables of
    `dweam/constants.py`;
  - command-line parsing and the catalogue lookup.
- **The game loop** (`dweam/game.py`):
  - per-tick coalescing of key, button and mouse-motion input;
  - pause and one-step gating;
  - the frame buffer that holds one frame.
- **Game discovery and installation** (`dweam/utils/entrypoint.py`):
  - the pip and cache paths, marker evaluation, and the git and PyPI
    install specs;
  - the `pip show` location parse and the `module:Class` entrypoint split;
  - the ordered source fallback of `load_games`, with its merge into the
    catalogue where a later entry overrides an earlier one.

Files:

| file | module | contents |
|---|---|---|
| `wrappers.dfy` | `Wrappers` | `Option`, `Result` |
| `commands.dfy` | `Commands` | JSON values, commands, responses, encode/decode |
| `game.dfy` | `GameLoop` | tick specification, lemmas, `class Game` |
| `worker.dfy` | `Worker` | start/command/cleanup specifications, lemmas, `class GameWorker` |
| `entrypoint.dfy` | `Entrypoint` | paths, spec strings, `pip show` parse, loading and merge |
| `server.dfy` | `Server` | registry specifications, lemmas, `class Registry` |
| `game_process.dfy` | `GameProcess` | input routing, `class RtcConnection`, command loop, `class Dispatcher`, argv |

## How the model is built

**Stateful objects become classes.** The objects whose fields the source
updates in place are `GameLoop.Game`, `Worker.GameWorker`,
`Server.Registry`, `GameProcess.RtcConnection` and `GameProcess.Dispatcher`.
In each of them:

- a `State()` function reads the fields into a datatype;
- every method ensures `State() == Spec(old(State()), ...)` for a pure
  specification function;
- the properties the source promises are lemmas about those
  specification functions.

**The outside world becomes parameters.** It is given to each operation as
explicit values:

- **Processes and sockets:**
  - each start attempt has an `Attempt` outcome;
  - each read of the control channel gives a `Reply`;
  - the process effects are recorded in order as `Action`s.
- **Clocks** are integer seconds.
- **pygame's queue** is a sequence of `Event`s per tick, and the frame a game
  renders is an opaque `Frame`.
- **pip, module import and metadata loading** are functions passed in.
- **The WebRTC answer** comes with the line that carries the offer.

## Behaviour modelled as the code has it

Several points follow the code, not its prose description:

- **Key release is not deferred.** A release in the same tick as its press
  is applied in arrival order: the key ends the tick unpressed, and both
  hooks run (`GameLoop.PressReleaseSameTick`).
- **`do_one_step` only suppresses.** It makes the next running tick skip its
  step, and while paused nothing steps either way
  (`GameLoop.OneStepSuppresses`).
- **A worker error reply to `update_params` gives HTTP 500, not 400.** It
  raises `ValueError`, which the endpoint does not catch as a
  `ValidationError` (`Server.UpdateErrorReplyIs500`).
- **Active sessions are still reaped.** `GameWorker.last_heartbeat` is set
  once at construction and never refreshed, so the stale sweep removes
  every session more than 5 s after it was created, however active it
  is (`Server.OfferedSessionReaped`).
- **Three arguments are not enough.** The worker process reads the port
  from `argv[4]` unconditionally, so the branch that treats the ICE servers
  as optional can never lead to a successful parse
  (`GameProcess.ArgvNeedsAll`).
- **A second offer drops the old connection.** The previous peer
  connection is not cleaned up; only the newest one is kept and later
  cleaned (`GameProcess.OfferContract`).
- **JSON `true` and `false` are codes 1 and 0.** Python's `True == 1`, so
  they look up key and button codes 1 and 0; `false` as a button is the
  left button (`GameProcess.CodeOf`).
- **A missing body key gives HTTP 500.** A request to `offer` or
  `update_game_params` without its keys (`sdp`, `type`, `params`) raises
  inside the handler, and the model answers it with 500.
- **An offer's `type` is checked before a worker exists, its `sdp` after
  the start.** `RTCSessionDescription` accepts any `sdp` but only the types
  offer, pranswer, answer and rollback, so a bad type is a 500 with no worker
  (`Server.OfferValidatesBeforeWorker`); a non-string `sdp` fails only when
  `run` builds `OfferData`, after the worker has started.
- **The answer's `sdp` is not checked.** `run` reads `sdp` and `type` from the
  reply without a type check, so an answer whose `sdp` is a number is
  returned, and one with an unknown type raises
  (`Worker.AnswerChecksOnlyType`).
- **A timed-out attempt that is not the last is not killed.** The inner
  handler of `start` swallows the exception and moves on, so only the final
  attempt's process can be killed (`Worker.StartKills`).
- **A close that raises skips the process teardown.** When closing the writer
  raises in `cleanup`, the outer handler only logs it, and the process is
  neither terminated nor killed (`Worker.CleanupTeardown`).
- **A schema that is not an object gives HTTP 500.** The schema handlers are
  declared `-> dict`, so the response validation rejects any other value
  (`Server.SchemaEndpointsAnswerObjects`).

## Model

| member | source | states |
|---|---|---|
| Commands.EncodeCommand | dweam/commands.py:4-22 | the message is an object whose `cmd` is the variant's literal tag, with a `data` field exactly for update and offer |
| Commands.DecodeOffer | dweam/commands.py:14-16 | an offer validates only with string `sdp` and `type`, which it returns |
| Commands.DecodeCommand | dweam/commands.py:4-22 | a validated command carries its own tag in `cmd`; `schema` and `stop` always validate |
| Commands.DecodeResponse | dweam/commands.py:24-31 | a validated response carries its own `status`; a success without `data` has null data |
| Commands.TagDeterminesVariant | dweam/commands.py:4-22 | equal tags mean the same command variant |
| Commands.CommandRoundTrip | dweam/commands.py:4-22 | validating an encoded command gives back the same command |
| Commands.OfferRoundTrip | dweam/commands.py:14-20 | validating an encoded offer gives back the same offer |
| Commands.ResponseRoundTrip | dweam/commands.py:24-31 | validating an encoded response gives back the same response |
| GameLoop.ApplyEvent | dweam/game.py:126-150 | a press of a held key or button and a release of an unheld one change nothing; otherwise the set changes and the hook fires; the key hooks and the mouse-up hook see the updated set, the mouse-down hook sees the set before the button is added; motion and other events change nothing |
| GameLoop.ApplyEventsAppend | dweam/game.py:126-150 | a tick's events are applied strictly in arrival order |
| GameLoop.KeysCoalesced | dweam/game.py:141-150 | a key is held after a tick iff its last edge was a press, or it had none and was held before |
| GameLoop.ButtonsCoalesced | dweam/game.py:131-140 | the same coalescing for mouse buttons |
| GameLoop.ApplyEventsHooks | dweam/game.py:126-150 | event handling only appends key and button hooks, never a step or a motion hook |
| GameLoop.DoublePressFiresOnce | dweam/game.py:141-145 | two presses without a release fire `on_key_down` once |
| GameLoop.PressReleaseSameTick | dweam/game.py:141-150 | press then release in one tick: the key ends unpressed and both hooks fire in order |
| GameLoop.ClickSameTick | dweam/game.py:131-140 | press then release of a button in one tick: unpressed, both hooks in order |
| GameLoop.TickContract | dweam/game.py:116-165 | a tick sets the motion to its deltas' sum, fires the motion hook iff it is non-zero, steps once iff neither paused nor one-step queued and then publishes exactly the new frame, and always clears the one-step flag |
| GameLoop.TickKeepsSingleSlot | dweam/game.py:156-163 | the frame buffer never holds more than one frame |
| GameLoop.OneStepSuppresses | dweam/game.py:156-173 | while paused no tick steps; while running a queued one-step skips exactly the next step |
| GameLoop.NewestFrameWins | dweam/game.py:116-165 | after uninterrupted running ticks the buffer holds only the last tick's frame |
| GameLoop.TakeAfterPublish | dweam/game.py:175-176 | taking from the published buffer returns that frame, then nothing |
| GameLoop.Game.constructor | dweam/game.py:17-51 | no keys, buttons, motion, pause, one-step, frames or thread; stop event clear |
| GameLoop.Game.Start | dweam/game.py:90-96 | attaches a new thread and clears the stop event |
| GameLoop.Game.Stop | dweam/game.py:98-114 | sets the stop event and detaches the thread |
| GameLoop.Game.DoOneStep | dweam/game.py:169-173 | queues a one-step, nothing else |
| GameLoop.Game.Publish | dweam/game.py:160-162 | drains the buffer, then holds only the new frame |
| GameLoop.Game.GetNextFrame | dweam/game.py:175-176 | removes and returns the buffered frame |
| GameLoop.Game.HandleEvent | dweam/game.py:131-150 | the pressed sets and the hooks become the one-event specification of the old ones |
| GameLoop.Game.PollEvents | dweam/game.py:126-150 | the pressed sets and hooks become the events applied in arrival order, and the motion is the sum of the deltas |
| GameLoop.Game.Tick | dweam/game.py:123-163 | the new state is the tick specification of the old one |
| GameLoop.Game.Run | dweam/game.py:116-165 | the state is the run specification; the stop event is set iff it was or some tick stopped |
| Worker.TimeoutSchedule | dweam/worker.py:231-236 | the three attempts time out after 5, 10 and 20 s |
| Worker.StartSucceedsIff | dweam/worker.py:229-263 | `start` succeeds iff some remaining attempt connects |
| Worker.StartExtends | dweam/worker.py:229-263 | `start` only appends to the action trace and keeps the cleanup flag |
| Worker.StartSpawns | dweam/worker.py:229-263 | the processes spawned carry strictly increasing timeouts of distinct later attempts, at most one per attempt |
| Worker.StartMonitors | dweam/worker.py:243-248 | output monitors are launched iff `start` succeeds |
| Worker.MonitorsIffSuccess | dweam/worker.py:243-248 | the remaining attempts launch monitors iff they end in success |
| Worker.ConnectedIffSuccess | dweam/worker.py:239-248 | from a disconnected worker, `start` ends connected iff it succeeds |
| Worker.StartSuccessShape | dweam/worker.py:239-248 | a successful start is connected to the last spawned process and ends with the two monitor launches |
| Worker.StartReturnsAtFirst | dweam/worker.py:240-248 | `start` succeeds at the first attempt that connects: the process it keeps was spawned by that attempt, with that attempt's timeout |
| Worker.ThreeEarlyExitsFail | dweam/worker.py:201-263 | three early exits end in RuntimeError with three spawns |
| Worker.StartFailureCause | dweam/worker.py:229-263 | from any attempt on, `start` re-raises TimeoutError iff no attempt connects and the final one timed out, another exception iff none connects and the final one raised, and RuntimeError iff none connects and the final process exited early |
| Worker.AppendedKill | dweam/worker.py:250-261 | an attempt after which the loop goes on appends no kill; one that ends `start` appends a kill only as its last action, exactly when it re-raises with a process present, and of that process |
| Worker.StartKills | dweam/worker.py:250-261 | the only kill `start` appends is its last action, present exactly when it re-raises the final attempt's exception while a process exists, and it kills that process |
| Worker.ExceptionHandling | dweam/worker.py:229-263 | for all three outcomes: TimeoutError is re-raised iff no attempt connects and the last times out, another error iff the last raises, RuntimeError iff the last exits early; the trace's one possible kill is its last action, present iff one of the first two is raised with a process, and names that process |
| Worker.LazyStartOnlyWithoutProcess | dweam/worker.py:265-309 | the commands start the worker iff it has no process |
| Worker.SendContract | dweam/worker.py:279-297 | without a connection nothing is written and RuntimeError is raised; otherwise exactly the encoded command is written, success data is returned, an error reply raises ValueError with its message, EOF raises |
| Worker.CommandsKeepFlag | dweam/worker.py:265-309 | the commands never touch the cleanup flag and keep an existing process |
| Worker.SendKeepsProcess | dweam/worker.py:279-297 | sending a command leaves the process, the connection and the cleanup flag alone |
| Worker.LazyStartKeepsFlag | dweam/worker.py:301-302 | the lazy start keeps the cleanup flag, and with a process changes nothing |
| Worker.RunKeepsFlag | dweam/worker.py:265-277 | `run` keeps the cleanup flag |
| Worker.StartThenSendKeepsFlag | dweam/worker.py:299-303 | a command sent after a lazy start keeps the cleanup flag |
| Worker.UpdateKeepsFlag | dweam/worker.py:305-309 | `update_params` keeps the cleanup flag and an existing process |
| Worker.CommandsStartLazily | dweam/worker.py:265-309 | with a process the command is sent at once; without one, a failed start is raised before anything is sent |
| Worker.RunSpec | dweam/worker.py:265-277 | the specification of `run`, with no contract of its own: lazy start, the `OfferData` check of the offer's `sdp`, the offer command sent, the answer read as a description; its properties are `RunAnswer`, `RunKeepsFlag` and `CommandsStartLazily` |
| Worker.ReadDescriptionContract | dweam/worker.py:277 | the answer is read iff the data is an object with `sdp` and `type` and the type is offer, pranswer, answer or rollback; it keeps the `sdp` as it is; a description with such a type survives its JSON form |
| Worker.AnswerChecksOnlyType | dweam/worker.py:277 | an answer whose `sdp` is a number is accepted, one whose `type` is unknown is rejected |
| Worker.RunAnswer | dweam/worker.py:265-277 | `run` answers only for an offer with a string `sdp`, after writing it, and only with the description read from a success reply; every answer with a valid type comes back as sent, whatever its `sdp` |
| Worker.CleanupSpec | dweam/worker.py:311-338 | the specification of `cleanup`, with no contract of its own: the guard flag, stop and close when connected, and, unless the close raised, terminate and kill of a running process; its properties are `CleanupIdempotent`, `CleanupAdded` and `CleanupTeardown` |
| Worker.CleanupIdempotent | dweam/worker.py:311-316 | however many cleanups follow, only the first acts |
| Worker.CleanupAdded | dweam/worker.py:311-338 | the first cleanup marks the worker, keeps its process and connection, and appends exactly the stop request and close when connected, then, unless closing raised, terminate for a running process and kill if it outlives the grace period |
| Worker.CleanupTeardown | dweam/worker.py:311-338 | the first cleanup marks the worker and appends its teardown in stage order; stop and close iff connected, terminate iff a process runs and no close raised, kill iff it also outlives the grace period |
| Worker.TeardownStaged | dweam/worker.py:318-335 | the teardown actions come in stage order; stop and close are present iff connected, terminate iff a process is to be stopped, kill iff it outlives the grace period |
| Worker.RStrip | dweam/worker.py:76 | the result is the longest prefix that does not end in whitespace |
| Worker.RStripBlank | dweam/worker.py:76-83 | a line is blank iff its right-stripped form is empty |
| Worker.UntilEof | dweam/worker.py:70-73 | the lines processed are the non-empty reads before the first empty one |
| Worker.UntilEofPrefix | dweam/worker.py:70-73 | those lines are exactly the non-empty prefix of the reads |
| Worker.LastLogLineIsLastNonBlank | dweam/worker.py:64-85 | the last log line is the right-stripped last non-blank line, or the previous one if none |
| Worker.LastLogLineAllBlank | dweam/worker.py:81-83 | blank lines leave the last log line as it was |
| Worker.LastLogLineWitness | dweam/worker.py:70-83 | with some non-blank line, the last log line is the right-stripped last such line |
| Worker.GameWorker.constructor | dweam/worker.py:35-62 | no process, not connected, not cleaned, heartbeat at creation time, no log line |
| Worker.GameWorker.Start | dweam/worker.py:229-263 | the new state and result are the start specification's |
| Worker.GameWorker.TryAttempt | dweam/worker.py:234-261 | the new state is one attempt's specification; it reports done iff the attempt ends `start`, with that attempt's result |
| Worker.GameWorker.SendCommand | dweam/worker.py:279-297 | the new state and result are the send specification's |
| Worker.GameWorker.EnsureStarted | dweam/worker.py:301-302 | starts only when there is no process |
| Worker.GameWorker.Run | dweam/worker.py:265-277 | lazy start, the `OfferData` check of the offer's `sdp`, the offer command, then the answer read as a description; state and result as the run specification |
| Worker.GameWorker.GetParamsSchema | dweam/worker.py:299-303 | lazy start, then the schema command |
| Worker.GameWorker.UpdateParams | dweam/worker.py:305-309 | lazy start, then the update command |
| Worker.GameWorker.Cleanup | dweam/worker.py:311-338 | the new state is the cleanup specification of the old one |
| Worker.GameWorker.MonitorProcessOutput | dweam/worker.py:64-85 | a missing stream leaves the last log line; otherwise it becomes the last non-blank line read before EOF |
| Entrypoint.CacheDir | dweam/utils/entrypoint.py:106-111 | `CACHE_DIR` when set, else `~/.dweam/cache` |
| Entrypoint.PipPath | dweam/utils/entrypoint.py:114-116 | the venv path followed by `Scripts/pip.exe` on Windows, `bin/pip` elsewhere |
| Entrypoint.EvaluateMarkers | dweam/utils/entrypoint.py:119-125 | a missing or empty marker holds; any other is decided by the evaluator |
| Entrypoint.GitSpec | dweam/utils/entrypoint.py:164 | `git+` prefix, `#egg=name` suffix, length of the parts plus 10 |
| Entrypoint.GitSpecInjective | dweam/utils/entrypoint.py:164 | a git spec determines its repository, branch and name when the repository has no `@` and the branch no `#` |
| Entrypoint.PyPISpec | dweam/utils/entrypoint.py:173 | name, `==`, version |
| Entrypoint.PyPISpecInjective | dweam/utils/entrypoint.py:173 | a PyPI spec determines name and version when the name has no `=` |
| Entrypoint.InstallGameSource | dweam/utils/entrypoint.py:128-215 | the specification of `install_game_source`, with no contract of its own: the pip install command for the source, then `pip show`, and the location parsed from its output; an exception inside the `try` gives no location, with only the commands attempted before it; its properties are `InstallContract`, `InstallRaiseStops`, `InstallArgs` and `ParsePipShow` |
| Entrypoint.InstallArgs | dweam/utils/entrypoint.py:142-176 | pip, `install`, the extra index, then `-e path`, the git spec or the PyPI spec |
| Entrypoint.InstallContract | dweam/utils/entrypoint.py:128-215 | a location is returned only when markers hold, pip exists, install and show succeed, nothing raises and show names one; exactly install then show ran |
| Entrypoint.InstallRaiseStops | dweam/utils/entrypoint.py:140-215 | an exception inside the `try` gives no location; one at the source path leaves no command, one in the install leaves the install but no `pip show`, one in `pip show` leaves both |
| Entrypoint.ParsePipShow | dweam/utils/entrypoint.py:196-208 | the loop's result is the location specification |
| Entrypoint.LastFieldIsLast | dweam/utils/entrypoint.py:198-202 | the field comes from the last matching line; none iff no line matches |
| Entrypoint.LastFieldNone | dweam/utils/entrypoint.py:198-202 | no field iff no line starts with the prefix |
| Entrypoint.LastFieldLine | dweam/utils/entrypoint.py:198-202 | a field found is the value of a matching line after which no line matches |
| Entrypoint.SecondFieldOfLine | dweam/utils/entrypoint.py:200-202 | `key: value` yields `value` |
| Entrypoint.PipShowPrefersEditable | dweam/utils/entrypoint.py:196-208 | an editable location wins; a location exists iff some line carries one; it is the package under the field |
| Entrypoint.PipShowPlainLocation | dweam/utils/entrypoint.py:196-208 | a single `Location:` line gives that directory joined with the package |
| Entrypoint.Split | dweam/utils/entrypoint.py:325 | at least one part, none containing the separator |
| Entrypoint.SplitJoin | dweam/utils/entrypoint.py:325 | one part more than separators, and joining restores the string |
| Entrypoint.SplitCount | dweam/utils/entrypoint.py:325 | one part more than there are separators |
| Entrypoint.SplitJoinsBack | dweam/utils/entrypoint.py:325 | joining the parts with the separator restores the string |
| Entrypoint.LoadGameImplementation | dweam/utils/entrypoint.py:322-329 | `load_game_implementation`, with no contract of its own: the entrypoint split on `:`, then the import and attribute lookup; its properties are `LoadImplementationSplit` and `LoadImplementationRoundTrip` |
| Entrypoint.LoadImplementationSplit | dweam/utils/entrypoint.py:322-329 | a load succeeds only with exactly one `:` and resolves its two sides; otherwise ImportError |
| Entrypoint.LoadImplementationRoundTrip | dweam/utils/entrypoint.py:322-329 | `module:Class` loads what resolving that module and class gives |
| Entrypoint.LoadGames | dweam/utils/entrypoint.py:332-387 | the loop's catalogue is the load specification over the packages in order |
| Entrypoint.FirstLoadedIsFirst | dweam/utils/entrypoint.py:344-357 | the metadata merged comes from the first source that yields any; all earlier ones yielded none |
| Entrypoint.NoVenvOneTry | dweam/utils/entrypoint.py:344-357 | without a venv the package loads from its first source or not at all |
| Entrypoint.MergeOverrides | dweam/utils/entrypoint.py:360-368 | each id of the metadata maps to its last entry; everything else is unchanged; nothing is removed |
| Server.SweepSpec | dweam/server.py:194-202 | the registry after a sweep is the old one minus the stale sessions |
| Server.SweepKeepsFresh | dweam/server.py:194-202 | exactly the non-stale sessions remain, unchanged, and none is stale |
| Server.SweepIdempotent | dweam/server.py:194-202 | sweeping again at the same time changes nothing |
| Server.SweepsCompose | dweam/server.py:194-198 | a later sweep subsumes an earlier one |
| Server.SweepAllIsLast | dweam/server.py:190-202 | over non-decreasing times, the loop has the effect of its last sweep |
| Server.OfferValidatesBeforeWorker | dweam/server.py:129-131 | a worker is created iff the game is known and the body has `sdp` and a `type` among the four description types; a rejected body is a 500 that leaves the registry alone |
| Server.SchemaEndpointsAnswerObjects | dweam/server.py:211-236 | the schema endpoint, and the by-session one (302-319), answer with a body iff the worker returned a schema that is a JSON object, and then with that schema |
| Server.OfferRejectsUnknownGame | dweam/server.py:123-126 | 404 iff the type or id is unknown, with the registry untouched |
| Server.OfferFailureCleansUp | dweam/server.py:145-150 | a failed `run` answers 500, unregisters only the new session and leaves its worker cleaned |
| Server.OfferSuccessRegisters | dweam/server.py:143-156 | success registers a connected uncleaned worker under the new id at the current time and answers that id |
| Server.UpdateParamsContract | dweam/server.py:244-263 | 404 iff the session is unknown; only that worker changes, keeping heartbeat and cleanup flag; non-object params give 400 |
| Server.UpdateErrorReplyIs500 | dweam/server.py:254-263 | a worker error reply is answered 500 |
| Server.SchemaWorkerAlwaysCleaned | dweam/server.py:218-236 | 404 iff the game is unknown; otherwise the temporary worker is always cleaned |
| Server.OfferedSessionReaped | dweam/server.py:194-198 | a session created at time c and then updated is removed by any sweep after c + 5 |
| Server.Registry.constructor | dweam/server.py:33-34 | no workers, empty catalogue, loading |
| Server.Registry.LoadCatalogue | dweam/server.py:36-41 | the catalogue is loaded from the configured packages and loading ends |
| Server.Registry.CleanupWorker | dweam/server.py:105-113 | the session is cleaned up and removed; no other worker changes |
| Server.Registry.SweepStep | dweam/server.py:200-202 | one stale session is cleaned up and removed |
| Server.Registry.Sweep | dweam/server.py:194-202 | the registry becomes the sweep specification of the old one; each stale worker is cleaned |
| Server.Registry.ReapLoop | dweam/server.py:190-202 | the registry after the passes is the sweep specification over their times |
| Server.Registry.Offer | dweam/server.py:116-156 | registry, response and created worker are the offer specification's |
| Server.Registry.StartSession | dweam/server.py:134-156 | on success the session is registered with the answer; on failure it is cleaned and removed with 500 |
| Server.Registry.Launch | dweam/server.py:135-146 | a fresh worker is registered under the session id and runs the offer |
| Server.Registry.Register | dweam/server.py:143 | the worker is added under its session id |
| Server.Registry.RunRegistered | dweam/server.py:146 | only the registered worker changes, as the run specification says |
| Server.Registry.UpdateGameParams | dweam/server.py:238-263 | registry and response are the update specification's |
| Server.Registry.GetParamsSchema | dweam/server.py:211-236 | response and worker are the schema specification's; the worker is never registered |
| Server.Registry.GetParamsSchemaBySession | dweam/server.py:302-319 | registry and response are the by-session specification's |
| Server.Registry.Shutdown | dweam/server.py:55-57 | every worker is cleaned up, then the registry is empty |
| Server.Registry.ShutdownStep | dweam/server.py:57 | one worker is cleaned up; every other worker and the registry are unchanged |
| GameProcess.KeyRouting | dweam/game_process.py:94-101 | a key message posts an event iff its code is mapped, and then the mapped key |
| GameProcess.ButtonRouting | dweam/game_process.py:105-112 | a button message posts an event iff its button is 0, 1 or 2 (the table at dweam/constants.py:43-48), and then that button plus one |
| GameProcess.PostedCodesAreMapped | dweam/game_process.py:91-114 | every posted key or button is a value of its table |
| GameProcess.RtcCleanupIdempotent | dweam/game_process.py:129-137 | a second cleanup does nothing; the peer connection is closed at most once |
| GameProcess.HeartbeatFreshness | dweam/game_process.py:86-89 | a heartbeat at t makes the connection stale exactly after t + 5 |
| GameProcess.InputEvent | dweam/game_process.py:91-114 | the event `handle_game_input` posts, with no contract of its own: keys through the key table, buttons through the button table, mouse motion as its deltas; its properties are `KeyRouting`, `ButtonRouting` and `PostedCodesAreMapped` |
| GameProcess.MessageRouting | dweam/game_process.py:66-78 | binary and unparsable messages change nothing; a heartbeat only refreshes; others only post their event |
| GameProcess.RtcConnection.constructor | dweam/game_process.py:47-62 | heartbeat now, not cleaned, state new, nothing posted |
| GameProcess.RtcConnection.HandleGameInput | dweam/game_process.py:91-114 | appends the message's event, if any |
| GameProcess.RtcConnection.OnMessage | dweam/game_process.py:66-78 | the new state is the message specification's |
| GameProcess.RtcConnection.Cleanup | dweam/game_process.py:129-137 | the new state is the cleanup specification's |
| GameProcess.RtcConnection.ConnectionStateChanged | dweam/game_process.py:80-84 | the new state is recorded and an ended state cleans up |
| GameProcess.OneResponsePerCommand | dweam/game_process.py:221-267 | an answered line appends exactly its dispatch response; any other line writes nothing and ends the loop |
| GameProcess.LineExits | dweam/game_process.py:221-267 | the loop ends on a line exactly at EOF, a failed read, parse or write, or a stop |
| GameProcess.ServeFromCountsResponses | dweam/game_process.py:221-267 | the responses written are one per answered line read, after the earlier ones |
| GameProcess.ServeFromKeepsWritten | dweam/game_process.py:221-267 | the loop reads at most its lines and only appends responses |
| GameProcess.ServeFromCount | dweam/game_process.py:221-267 | one response is written per answered line read |
| GameProcess.LineCreatesOnce | dweam/game_process.py:241-247 | the game is created only when there is none |
| GameProcess.DispatchCreatesOnce | dweam/game_process.py:241-247 | a command creates the game only when there is none, and never drops one |
| GameProcess.ServeCreatesOnce | dweam/game_process.py:221-267 | over the whole loop the game is created at most once and never dropped |
| GameProcess.Dispatch | dweam/game_process.py:231-260 | the inner `try` of the command loop, with no contract of its own; its properties are `SchemaContract`, `OfferContract`, `UpdateContract`, `StopContract` and `DispatchCreatesOnce` |
| GameProcess.OfferContract | dweam/game_process.py:241-250 | every offer builds a new connection, creates and starts the game only if absent, and answers the answer or its error |
| GameProcess.SchemaContract | dweam/game_process.py:232-234 | a schema request changes nothing; it answers with the schema iff computing it returns, and otherwise with an error carrying the exception's text (258-260) |
| GameProcess.UpdateContract | dweam/game_process.py:236-239 | validation failure or no game give an error and no change; otherwise the game gets the parameters |
| GameProcess.StopContract | dweam/game_process.py:252-256 | a stop cleans the connection, answers success and ends the loop after that line |
| GameProcess.FinishContract | dweam/game_process.py:269-275 | after teardown the connection is cleaned, the game stopped and the writer closed |
| GameProcess.CheckContract | dweam/game_process.py:200-215 | the watchdog fires iff a connection is stale or ended, and then tears down and exits |
| GameProcess.Dispatcher.constructor | dweam/game_process.py:196-198 | no game, no connection, nothing written |
| GameProcess.Dispatcher.DispatchCommand | dweam/game_process.py:231-260 | state and response are the dispatch specification's |
| GameProcess.Dispatcher.HandleLine | dweam/game_process.py:221-267 | the new state is one loop iteration's specification |
| GameProcess.Dispatcher.Serve | dweam/game_process.py:221-267 | state and lines read are the loop specification's |
| GameProcess.Dispatcher.Finish | dweam/game_process.py:269-275 | the new state is the teardown specification's |
| GameProcess.Dispatcher.CheckConnection | dweam/game_process.py:200-215 | the new state is the watchdog specification over its check times |
| GameProcess.NatToString | dweam/worker.py:169 | a non-empty run of digits |
| GameProcess.ParseInt | dweam/game_process.py:159 | `int()` of the port argument, with no contract of its own: an optionally signed run of ASCII digits; its property is `PortRoundTrip` |
| GameProcess.PortRoundTrip | dweam/game_process.py:159 | `int(str(port))` gives the port back |
| GameProcess.ParseArgv | dweam/game_process.py:151-159 | the argument parsing of `main`, with no contract of its own: the game type decoded as JSON or taken raw, the id, the ICE servers and the port; its properties are `ArgvNeedsAll` and `ArgvFromSupervisor` |
| GameProcess.ArgvNeedsAll | dweam/game_process.py:151-159 | parsing succeeds only with all four arguments, and then the ICE servers are present |
| GameProcess.ArgvFromSupervisor | dweam/worker.py:163-169 | the supervisor's command line parses back to its type, id, ICE servers and port |
| GameProcess.ResolveGame | dweam/game_process.py:181-193 | found iff the type is a known string and the id is in it, and then that entry |

## Left out

- JSON text: a message is modelled as the JSON value it parses to. Floats and text that is not JSON are not modelled; a line that fails to parse behaves as one that fails validation.
- Pydantic's smart-union matching of `Command` and `Response`: validation picks the variant by its literal tag.
- Real time, threads and asyncio scheduling: clocks are integer parameters. The concurrency between the watchdog and the command loop is left out; each runs on its own sequence of inputs.
- `asyncio.sleep` and the infinite `while True` of the stale sweep: the loop is modelled over a finite sequence of pass times.
- The 3 s thread join in `Game.stop`: the thread is detached whether or not it joined.
- The UTF-8 decoding of process output with its lenient fallback: lines are strings.
- Filesystem path normalisation, `absolute()` and Windows path rendering: paths are sequences of components joined with `/`.
- `str.splitlines`: the `pip show` output is given as lines.
- The SDP negotiation of aiortc in `handle_offer`, `GameVideoTrack` and `recv`: the answer is an environment value.
- `ensure_correct_dweam_version`, `run_pip_with_output` and the metadata loaders (`load_metadata_from_module`, `_from_path`, `_from_package`) are environment functions.
- Session-id generation from `uuid4`: the id is a parameter.
- GameProcess.ParseInt: does not model the leading and trailing whitespace or the `_` digit separators that Python's `int()` accepts.
- GameProcess.InputEvent: a `mousemove` whose movement values are not integers posts nothing, while the code posts them as they are.
- GameProcess.Dispatch: does not model an exception raised while the game is built or started, or one from `on_params_update`; those calls always succeed in the model.
- An unparsable request body: the body is given as a JSON value.
- Worker.RunSpec: the KeyError, TypeError and ValueError that reading a bad answer can raise are one error, `MalformedAnswer`. aiortc's `RTCSessionDescription` is not part of this model; its check of `type` against the four values is taken as its documented behaviour.
- Worker.CleanupSpec: does not model a stop reply that never arrives. `_send_command` reads without a timeout, so `cleanup` would then wait forever; in the model the reply is EOF or a line. A raise from `terminate()` is not modelled either; only closing the writer may raise.
- GameLoop.Game.Run: does not model a `step` or an input hook that raises. `run` has no `try`, so that would end the loop and the game thread; in the model every tick completes.
- Logging, and the `/status`, `/game_info` and thumbnail endpoints, which only read the catalogue.
