/**
 * The session registry of the front-facing service (dweam/server.py): the
 * `active_workers` map from session id to `GameWorker`, `cleanup_worker`,
 * the stale sweep, and the endpoints that create, use and tear down workers.
 *
 * Time is an integer clock in seconds.  Each HTTP handler is one method; its
 * response is `Ok(body)` or an HTTP error status.  Every worker-level
 * environment (attempt outcomes, replies, cleanup conditions) is a parameter.
 */
module Server {
  import opened Wrappers
  import opened Commands
  import opened Worker
  import opened Entrypoint

  /** A session is stale once its heartbeat is more than this many seconds old. */
  const StaleAfter: int := 5

  datatype Http<T> = Ok(body: T) | HttpError(status: nat)

  /** What the registry knows of one session: its heartbeat and its worker. */
  datatype Session = Session(lastHeartbeat: int, worker: WorkerState)

  /** The filter of `cleanup_stale_workers` (dweam/server.py:194-198). */
  predicate Stale(s: Session, now: int)
  {
    now - s.lastHeartbeat > StaleAfter && !s.worker.cleanupScheduled
  }

  function StaleSessions(m: map<string, Session>, now: int): set<string>
  {
    set id | id in m && Stale(m[id], now)
  }

  /** The registry after one sweep at `now`. */
  function SweepSpec(m: map<string, Session>, now: int): (r: map<string, Session>)
    ensures r == m - StaleSessions(m, now)
  {
    map id | id in m && !Stale(m[id], now) :: m[id]
  }

  /** Sweeps at successive times. */
  function SweepAll(m: map<string, Session>, times: seq<int>): map<string, Session>
  {
    if times == [] then m else SweepSpec(SweepAll(m, times[..|times| - 1]), times[|times| - 1])
  }

  /** A worker as `GameWorker(...)` constructs it. */
  const Fresh: WorkerState := WorkerState(None, false, 0, false, [])

  /** The answer body of `offer`. */
  function AnswerJson(answer: Description, sessionId: string): Json
  {
    JObject(map["sdp" := answer.sdp, "type" := JStr(answer.kind), "sessionId" := JStr(sessionId)])
  }

  /** The registry after `offer`, its response, and the final state of the worker it created, if any. */
  datatype OfferResult = OfferResult(sessions: map<string, Session>, response: Http<Json>, worker: Option<WorkerState>)

  /** `offer` (dweam/server.py:116-156). */
  function OfferSpec(sessions: map<string, Session>, games: Catalogue, gameType: string, gameId: string,
                     body: Json, sessionId: string, now: int,
                     outcomes: seq<Attempt>, reply: Reply, env: CleanupEnv): OfferResult
    requires |outcomes| == MaxRetries
  {
    if gameType !in games || gameId !in games[gameType] then OfferResult(sessions, HttpError(404), None)
    else if ReadDescription(body).None? then OfferResult(sessions, HttpError(500), None)   // before any worker exists
    else
      var run := RunSpec(Fresh, ReadDescription(body).value, outcomes, reply);
      match run.1
      case Success(answer) =>
        OfferResult(sessions[sessionId := Session(now, run.0)], Ok(AnswerJson(answer, sessionId)), Some(run.0))
      case Failure(_) =>
        OfferResult(sessions - {sessionId}, HttpError(500), Some(CleanupSpec(run.0, env)))
  }

  /** The status `update_game_params` answers a worker error with (dweam/server.py:254-263). */
  function UpdateErrorStatus(e: WorkerError): nat
  {
    match e
    case InvalidParams => 400
    case InvalidReply(_) => 400
    case _ => 500
  }

  /** `update_game_params` (dweam/server.py:238-263). */
  function UpdateParamsSpec(sessions: map<string, Session>, sessionId: string, body: Json,
                            outcomes: seq<Attempt>, reply: Reply): (map<string, Session>, Http<Json>)
    requires |outcomes| == MaxRetries
  {
    if sessionId !in sessions then (sessions, HttpError(404))
    else if !(body.JObject? && "params" in body.fields) then (sessions, HttpError(500))
    else
      var s := sessions[sessionId];
      var u := UpdateSpec(s.worker, body.fields["params"], outcomes, reply);
      (sessions[sessionId := s.(worker := u.0)],
       match u.1
       case Success(_) => Ok(JObject(map["status" := JStr("success")]))
       case Failure(e) => HttpError(UpdateErrorStatus(e)))
  }

  /**
   * The response of a handler declared `-> dict` that returns the worker's
   * schema: a worker error, or a schema that is not an object and so fails
   * the response validation, is a 500.
   */
  function SchemaResponse(schema: Result<Json, WorkerError>): Http<Json>
  {
    if schema.Success? && schema.value.JObject? then Ok(schema.value) else HttpError(500)
  }

  /** `get_params_schema`: the response and the final state of the temporary worker (dweam/server.py:211-236). */
  function SchemaEndpointSpec(games: Catalogue, gameType: string, gameId: string,
                              outcomes: seq<Attempt>, reply: Reply, env: CleanupEnv): (Http<Json>, Option<WorkerState>)
    requires |outcomes| == MaxRetries
  {
    if gameType !in games || gameId !in games[gameType] then (HttpError(404), None)
    else
      var s := SchemaSpec(Fresh, outcomes, reply);
      (SchemaResponse(s.1), Some(CleanupSpec(s.0, env)))
  }

  /** `get_params_schema_by_session` (dweam/server.py:302-319). */
  function SessionSchemaSpec(sessions: map<string, Session>, sessionId: string,
                             outcomes: seq<Attempt>, reply: Reply): (map<string, Session>, Http<Json>)
    requires |outcomes| == MaxRetries
  {
    if sessionId !in sessions then (sessions, HttpError(404))
    else
      var s := sessions[sessionId];
      var r := SchemaSpec(s.worker, outcomes, reply);
      (sessions[sessionId := s.(worker := r.0)], SchemaResponse(r.1))
  }

  /** Taking one element out of the remaining ones adds it to those done. */
  lemma MoveToCleaned<T>(all: set<T>, remaining: set<T>, x: T)
    requires x in remaining && remaining <= all
    ensures all - (remaining - {x}) == (all - remaining) + {x}
  {
  }

  /** Removing one more key after a set of keys removes both. */
  lemma MinusTwice<K, V>(m: map<K, V>, ks: set<K>, k: K)
    ensures (m - ks) - {k} == m - (ks + {k})
  {
  }

  /** A second update of a key replaces the first. */
  lemma UpdatedTwice<K, V>(m: map<K, V>, k: K, v: V, w: V)
    ensures m[k := v][k := w] == m[k := w]
  {
  }

  /** Removing a key forgets what it was last set to. */
  lemma RemoveUpdated<K, V>(m: map<K, V>, k: K, v: V)
    ensures m[k := v] - {k} == m - {k}
  {
  }

  // ---------------------------------------------------------------------
  // The registry object

  class Registry {
    /** `active_workers` */
    var activeWorkers: map<string, GameWorker>
    /** The catalogue `games` and the `is_loading` flag. */
    var games: Catalogue
    var isLoading: bool

    /** Every worker is registered under its own session id, so no worker is registered twice. */
    ghost predicate Valid()
      reads this
    {
      forall id :: id in activeWorkers ==> activeWorkers[id].sessionId == id
    }

    function Sessions(): map<string, Session>
      reads this, activeWorkers.Values
    {
      map id | id in activeWorkers :: Session(activeWorkers[id].lastHeartbeat, activeWorkers[id].State())
    }

    /** The sessions after some were removed and no remaining worker changed. */
    twostate lemma SessionsRemoved(removed: set<string>)
      requires activeWorkers == old(activeWorkers) - removed
      requires forall id :: id in activeWorkers ==> activeWorkers[id].State() == old(activeWorkers[id].State())
      ensures Sessions() == old(Sessions()) - removed
    {
    }

    /** The sessions after the entry `sid` was set or changed and no other worker changed. */
    twostate lemma SessionsReplaced(sid: string)
      requires sid in activeWorkers && activeWorkers.Keys == old(activeWorkers).Keys + {sid}
      requires forall id :: id in activeWorkers && id != sid ==>
        id in old(activeWorkers) && activeWorkers[id] == old(activeWorkers)[id] && activeWorkers[id].State() == old(activeWorkers[id].State())
      ensures Sessions() == old(Sessions())[sid := Session(activeWorkers[sid].lastHeartbeat, activeWorkers[sid].State())]
    {
    }

    constructor ()
      ensures Valid() && activeWorkers == map[] && games == map[] && isLoading
    {
      activeWorkers := map[];
      games := map[];
      isLoading := true;
    }

    /** `_load_games` (dweam/server.py:36-41): loads the configured packages into the catalogue. */
    method LoadCatalogue(venv: Path, env: LoadEnv)
      modifies this`games, this`isLoading
      ensures games == LoadAll(old(games), env, Some(venv), DefaultPackages)
      ensures !isLoading
    {
      games := LoadGames(DefaultPackages, Some(venv), games, env);
      isLoading := false;
    }

    /** `cleanup_worker` (dweam/server.py:105-113). */
    method CleanupWorker(sessionId: string, env: CleanupEnv)
      requires Valid()
      modifies this`activeWorkers, if sessionId in activeWorkers then {activeWorkers[sessionId]} else {}
      ensures Valid()
      ensures activeWorkers == old(activeWorkers) - {sessionId}
      ensures Sessions() == old(Sessions()) - {sessionId}
      ensures forall id :: id in activeWorkers ==> activeWorkers[id].State() == old(activeWorkers[id].State())
      ensures sessionId in old(activeWorkers) ==>
        old(activeWorkers)[sessionId].State() == CleanupSpec(old(activeWorkers[sessionId].State()), env)
    {
      if sessionId !in activeWorkers {
        return;
      }
      var worker := activeWorkers[sessionId];
      worker.Cleanup(env);
      activeWorkers := activeWorkers - {sessionId};
      assert forall id :: id in activeWorkers ==> activeWorkers[id] != worker;
      SessionsRemoved({sessionId});
    }

    /**
     * Progress of a sweep: the sessions in `cleaned` are cleaned up and
     * unregistered, every other worker of `orig` is registered and unchanged.
     */
    ghost predicate SweptSoFar(orig: map<string, GameWorker>, before: map<string, WorkerState>,
                               cleaned: set<string>, envs: string -> CleanupEnv)
      reads this, orig.Values
    {
      && orig.Keys == before.Keys && cleaned <= orig.Keys
      && (forall id :: id in orig ==> orig[id].sessionId == id)
      && activeWorkers == orig - cleaned
      && forall id :: id in orig ==>
        orig[id].State() == if id in cleaned then CleanupSpec(before[id], envs(id)) else before[id]
    }

    /** One step of a sweep: the cleanup of the registered session `id`. */
    method SweepStep(id: string, ghost orig: map<string, GameWorker>, ghost before: map<string, WorkerState>,
                     ghost cleaned: set<string>, envs: string -> CleanupEnv)
      requires SweptSoFar(orig, before, cleaned, envs) && id in orig && id !in cleaned
      modifies this`activeWorkers, activeWorkers.Values
      ensures SweptSoFar(orig, before, cleaned + {id}, envs)
    {
      var w := activeWorkers[id];
      CleanupWorker(id, envs(id));
      MinusTwice(orig, cleaned, id);
      forall k | k in orig
        ensures orig[k].State() == if k in cleaned + {id} then CleanupSpec(before[k], envs(k)) else before[k]
      {
        if k != id {
          assert orig[k].sessionId != w.sessionId;
        }
      }
    }

    /**
     * One pass of `cleanup_stale_workers` (dweam/server.py:194-202): every
     * session that is stale at `now` is cleaned up and removed; `envs(id)`
     * is what the cleanup of session `id` meets.
     */
    method Sweep(now: int, envs: string -> CleanupEnv)
      requires Valid()
      modifies this`activeWorkers, activeWorkers.Values
      ensures Valid()
      ensures activeWorkers == old(activeWorkers) - StaleSessions(old(Sessions()), now)
      ensures Sessions() == SweepSpec(old(Sessions()), now)
      ensures forall id :: id in StaleSessions(old(Sessions()), now) ==>
        old(activeWorkers)[id].State() == CleanupSpec(old(activeWorkers[id].State()), envs(id))
    {
      var stale := StaleSessions(Sessions(), now);
      ghost var orig := activeWorkers;
      ghost var before := map id | id in activeWorkers :: activeWorkers[id].State();
      var remaining := stale;
      while remaining != {}
        invariant remaining <= stale <= orig.Keys
        invariant SweptSoFar(orig, before, stale - remaining, envs)
        decreases remaining
      {
        var id :| id in remaining;
        SweepStep(id, orig, before, stale - remaining, envs);
        MoveToCleaned(stale, remaining, id);
        remaining := remaining - {id};
      }
      SessionsRemoved(stale);
    }

    /** `offer` (dweam/server.py:116-156); `worker` is the worker it created, if any. */
    method Offer(gameType: string, gameId: string, body: Json, sessionId: string, now: int,
                 outcomes: seq<Attempt>, reply: Reply, env: CleanupEnv)
      returns (r: Http<Json>, worker: GameWorker?)
      requires Valid() && |outcomes| == MaxRetries
      modifies this`activeWorkers, activeWorkers.Values
      ensures Valid()
      ensures var spec := OfferSpec(old(Sessions()), games, gameType, gameId, body, sessionId, now, outcomes, reply, env);
        && Sessions() == spec.sessions && r == spec.response
        && (worker == null <==> spec.worker.None?)
        && (worker != null ==> fresh(worker) && worker.sessionId == sessionId && worker.State() == spec.worker.value)
    {
      if gameType !in games || gameId !in games[gameType] {
        return HttpError(404), null;
      }
      var offer := ReadDescription(body);
      if offer.None? {
        return HttpError(500), null;
      }
      r, worker := StartSession(gameType, gameId, offer.value, sessionId, now, outcomes, reply, env);
    }

    /** The part of `offer` after validation: a new worker is registered, runs the offer, and is cleaned up on failure. */
    method StartSession(gameType: string, gameId: string, offer: Description, sessionId: string, now: int,
                        outcomes: seq<Attempt>, reply: Reply, env: CleanupEnv)
      returns (r: Http<Json>, worker: GameWorker)
      requires Valid() && |outcomes| == MaxRetries
      modifies this`activeWorkers, activeWorkers.Values
      ensures Valid() && fresh(worker) && worker.sessionId == sessionId
      ensures var run := RunSpec(Fresh, offer, outcomes, reply);
        run.1.Success? ==>
          && Sessions() == old(Sessions())[sessionId := Session(now, run.0)]
          && r == Ok(AnswerJson(run.1.value, sessionId)) && worker.State() == run.0
      ensures var run := RunSpec(Fresh, offer, outcomes, reply);
        run.1.Failure? ==>
          && Sessions() == old(Sessions()) - {sessionId}
          && r == HttpError(500) && worker.State() == CleanupSpec(run.0, env)
    {
      var answer;
      answer, worker := Launch(gameType, gameId, offer, sessionId, now, outcomes, reply);
      if answer.Failure? {
        ghost var ran := Sessions();
        CleanupWorker(sessionId, env);
        RemoveUpdated(old(Sessions()), sessionId, ran[sessionId]);
        return HttpError(500), worker;
      }
      r := Ok(AnswerJson(answer.value, sessionId));
    }

    /** A new worker for `sessionId` is registered and runs the offer. */
    method Launch(gameType: string, gameId: string, offer: Description, sessionId: string, now: int,
                  outcomes: seq<Attempt>, reply: Reply)
      returns (answer: Result<Description, WorkerError>, worker: GameWorker)
      requires Valid() && |outcomes| == MaxRetries
      modifies this`activeWorkers, activeWorkers.Values
      ensures Valid() && fresh(worker) && worker.sessionId == sessionId
      ensures activeWorkers == old(activeWorkers)[sessionId := worker]
      ensures (worker.State(), answer) == RunSpec(Fresh, offer, outcomes, reply)
      ensures Sessions() == old(Sessions())[sessionId := Session(now, worker.State())]
    {
      worker := new GameWorker(sessionId, gameType, gameId, now);
      Register(worker);
      ghost var registered := Sessions();
      answer := RunRegistered(sessionId, offer, outcomes, reply);
      UpdatedTwice(old(Sessions()), sessionId, registered[sessionId], Session(now, worker.State()));
    }

    /** `active_workers[session_id] = worker` for a worker not registered yet. */
    method Register(worker: GameWorker)
      requires Valid() && worker !in activeWorkers.Values
      modifies this`activeWorkers
      ensures Valid() && activeWorkers == old(activeWorkers)[worker.sessionId := worker]
      ensures Sessions() == old(Sessions())[worker.sessionId := Session(worker.lastHeartbeat, worker.State())]
    {
      activeWorkers := activeWorkers[worker.sessionId := worker];
      SessionsReplaced(worker.sessionId);
    }

    /** `worker.handle_offer(...)` on the worker registered under `sessionId`. */
    method RunRegistered(sessionId: string, offer: Description, outcomes: seq<Attempt>, reply: Reply)
      returns (r: Result<Description, WorkerError>)
      requires Valid() && sessionId in activeWorkers && |outcomes| == MaxRetries
      modifies activeWorkers[sessionId]
      ensures Valid()
      ensures var run := RunSpec(old(activeWorkers[sessionId].State()), offer, outcomes, reply);
        && r == run.1 && activeWorkers[sessionId].State() == run.0
        && Sessions() == old(Sessions())[sessionId := Session(activeWorkers[sessionId].lastHeartbeat, run.0)]
      ensures forall id :: id in activeWorkers && id != sessionId ==> activeWorkers[id].State() == old(activeWorkers[id].State())
    {
      var worker := activeWorkers[sessionId];
      r := worker.Run(offer, outcomes, reply);
      assert forall id :: id in activeWorkers && id != sessionId ==> activeWorkers[id] != worker;
      SessionsReplaced(sessionId);
    }

    /** `update_game_params` (dweam/server.py:238-263). */
    method UpdateGameParams(sessionId: string, body: Json, outcomes: seq<Attempt>, reply: Reply)
      returns (r: Http<Json>)
      requires Valid() && |outcomes| == MaxRetries
      modifies activeWorkers.Values
      ensures Valid()
      ensures (Sessions(), r) == UpdateParamsSpec(old(Sessions()), sessionId, body, outcomes, reply)
    {
      if sessionId !in activeWorkers {
        return HttpError(404);
      }
      var worker := activeWorkers[sessionId];
      if !(body.JObject? && "params" in body.fields) {
        return HttpError(500);
      }
      var u := worker.UpdateParams(body.fields["params"], outcomes, reply);
      assert forall id :: id in activeWorkers && id != sessionId ==> activeWorkers[id] != worker;
      SessionsReplaced(sessionId);
      match u {
        case Success(_) => r := Ok(JObject(map["status" := JStr("success")]));
        case Failure(e) => r := HttpError(UpdateErrorStatus(e));
      }
    }

    /** `get_params_schema` (dweam/server.py:211-236): a temporary worker, never registered, always cleaned up. */
    method GetParamsSchema(gameType: string, gameId: string, sessionId: string, now: int,
                           outcomes: seq<Attempt>, reply: Reply, env: CleanupEnv)
      returns (r: Http<Json>, worker: GameWorker?)
      requires |outcomes| == MaxRetries
      ensures var spec := SchemaEndpointSpec(games, gameType, gameId, outcomes, reply, env);
        && r == spec.0
        && (worker == null <==> spec.1.None?)
        && (worker != null ==> fresh(worker) && worker.State() == spec.1.value)
    {
      if gameType !in games || gameId !in games[gameType] {
        return HttpError(404), null;
      }
      worker := new GameWorker(sessionId, gameType, gameId, now);
      var schema := worker.GetParamsSchema(outcomes, reply);
      worker.Cleanup(env);
      r := if schema.Success? && schema.value.JObject? then Ok(schema.value) else HttpError(500);
    }

    /** `get_params_schema_by_session` (dweam/server.py:302-319). */
    method GetParamsSchemaBySession(sessionId: string, outcomes: seq<Attempt>, reply: Reply)
      returns (r: Http<Json>)
      requires Valid() && |outcomes| == MaxRetries
      modifies activeWorkers.Values
      ensures Valid()
      ensures (Sessions(), r) == SessionSchemaSpec(old(Sessions()), sessionId, outcomes, reply)
    {
      if sessionId !in activeWorkers {
        return HttpError(404);
      }
      var worker := activeWorkers[sessionId];
      var schema := worker.GetParamsSchema(outcomes, reply);
      assert forall id :: id in activeWorkers && id != sessionId ==> activeWorkers[id] != worker;
      SessionsReplaced(sessionId);
      r := if schema.Success? && schema.value.JObject? then Ok(schema.value) else HttpError(500);
    }

    /** Progress of a shutdown: the workers in `done` are cleaned up, the others unchanged, none unregistered. */
    ghost predicate ShutDownSoFar(before: map<string, WorkerState>, done: set<string>, envs: string -> CleanupEnv)
      reads this, activeWorkers.Values
    {
      && Valid() && before.Keys == activeWorkers.Keys && done <= before.Keys
      && forall id :: id in activeWorkers ==>
        activeWorkers[id].State() == if id in done then CleanupSpec(before[id], envs(id)) else before[id]
    }

    /** One step of a shutdown: the cleanup of the worker of session `id`. */
    method ShutdownStep(id: string, ghost before: map<string, WorkerState>, ghost done: set<string>, envs: string -> CleanupEnv)
      requires ShutDownSoFar(before, done, envs) && id in activeWorkers && id !in done
      modifies activeWorkers[id]
      ensures ShutDownSoFar(before, done + {id}, envs)
    {
      var worker := activeWorkers[id];
      worker.Cleanup(envs(id));
      forall k | k in activeWorkers
        ensures activeWorkers[k].State() == if k in done + {id} then CleanupSpec(before[k], envs(k)) else before[k]
      {
        if k != id {
          assert activeWorkers[k].sessionId != worker.sessionId;
        }
      }
    }

    /** The shutdown half of `lifespan` (dweam/server.py:55-57): every worker is cleaned up, then the map is cleared. */
    method Shutdown(envs: string -> CleanupEnv)
      requires Valid()
      modifies this`activeWorkers, activeWorkers.Values
      ensures Valid() && activeWorkers == map[]
      ensures forall id :: id in old(activeWorkers) ==>
        old(activeWorkers)[id].State() == CleanupSpec(old(activeWorkers[id].State()), envs(id))
    {
      var all := activeWorkers.Keys;
      ghost var before := map id | id in activeWorkers :: activeWorkers[id].State();
      var remaining := all;
      while remaining != {}
        invariant activeWorkers == old(activeWorkers) && all == activeWorkers.Keys && remaining <= all
        invariant ShutDownSoFar(before, all - remaining, envs)
        decreases remaining
      {
        var id :| id in remaining;
        ShutdownStep(id, before, all - remaining, envs);
        MoveToCleaned(all, remaining, id);
        remaining := remaining - {id};
      }
      activeWorkers := map[];
    }

    /** The sweep loop of `cleanup_stale_workers`, one pass per element of `times`. */
    method ReapLoop(times: seq<int>, envs: string -> CleanupEnv)
      requires Valid()
      modifies this`activeWorkers, activeWorkers.Values
      ensures Valid()
      ensures Sessions() == SweepAll(old(Sessions()), times)
    {
      for i := 0 to |times|
        invariant Valid()
        invariant activeWorkers.Values <= old(activeWorkers.Values)
        invariant Sessions() == SweepAll(old(Sessions()), times[..i])
      {
        assert times[..i + 1][..i] == times[..i];
        ghost var before := activeWorkers;
        Sweep(times[i], envs);
        assert activeWorkers.Values <= before.Values by {
          forall w | w in activeWorkers.Values ensures w in before.Values {
            var k :| k in activeWorkers && activeWorkers[k] == w;
            assert before[k] == w;
          }
        }
      }
      assert times[..|times|] == times;
    }
  }

  // ---------------------------------------------------------------------
  // Properties

  /** A sweep keeps exactly the sessions that are not stale, unchanged. */
  lemma SweepKeepsFresh(m: map<string, Session>, now: int)
    ensures forall id :: id in SweepSpec(m, now) <==> id in m && !Stale(m[id], now)
    ensures forall id :: id in SweepSpec(m, now) ==> SweepSpec(m, now)[id] == m[id]
    ensures StaleSessions(SweepSpec(m, now), now) == {}
  {
  }

  /** Sweeping again at the same time changes nothing. */
  lemma SweepIdempotent(m: map<string, Session>, now: int)
    ensures SweepSpec(SweepSpec(m, now), now) == SweepSpec(m, now)
  {
    SweepKeepsFresh(m, now);
  }

  /** A session stale at one time is stale at every later one, so a later sweep subsumes an earlier one. */
  lemma SweepsCompose(m: map<string, Session>, t1: int, t2: int)
    requires t1 <= t2
    ensures SweepSpec(SweepSpec(m, t1), t2) == SweepSpec(m, t2)
  {
    var a := SweepSpec(SweepSpec(m, t1), t2);
    var b := SweepSpec(m, t2);
    assert forall id :: id in m && Stale(m[id], t1) ==> Stale(m[id], t2);
    assert a.Keys == b.Keys;
  }

  /** Over non-decreasing times, the sweep loop has the effect of its last sweep alone. */
  lemma {:induction false} SweepAllIsLast(m: map<string, Session>, times: seq<int>)
    requires times != []
    requires forall i, j :: 0 <= i < j < |times| ==> times[i] <= times[j]
    ensures SweepAll(m, times) == SweepSpec(m, times[|times| - 1])
  {
    var n := |times| - 1;
    if n > 0 {
      var front := times[..n];
      SweepAllIsLast(m, front);
      SweepsCompose(m, front[n - 1], times[n]);
    }
  }

  /** `offer` answers 404 for an unknown type or id before any worker exists or any session is registered. */
  lemma OfferRejectsUnknownGame(sessions: map<string, Session>, games: Catalogue, gameType: string, gameId: string,
                                body: Json, sessionId: string, now: int, outcomes: seq<Attempt>, reply: Reply, env: CleanupEnv)
    requires |outcomes| == MaxRetries
    ensures var r := OfferSpec(sessions, games, gameType, gameId, body, sessionId, now, outcomes, reply, env);
      (r.response == HttpError(404)) <==> (gameType !in games || gameId !in games[gameType])
    ensures var r := OfferSpec(sessions, games, gameType, gameId, body, sessionId, now, outcomes, reply, env);
      r.response.HttpError? && r.worker.None? ==> r.sessions == sessions
  {
  }

  /**
   * A body without `sdp` and `type`, or whose `type` is not one of the four
   * description types, is answered 500 before any worker exists, and the
   * registry is left alone; a worker is created exactly for a known game and
   * a body with such a type, whatever its `sdp`.
   */
  lemma OfferValidatesBeforeWorker(sessions: map<string, Session>, games: Catalogue, gameType: string, gameId: string,
                                   body: Json, sessionId: string, now: int, outcomes: seq<Attempt>, reply: Reply, env: CleanupEnv)
    requires |outcomes| == MaxRetries
    ensures var r := OfferSpec(sessions, games, gameType, gameId, body, sessionId, now, outcomes, reply, env);
      r.worker.Some? <==>
        && gameType in games && gameId in games[gameType]
        && body.JObject? && "sdp" in body.fields && "type" in body.fields
        && body.fields["type"].JStr? && body.fields["type"].s in DescriptionTypes
    ensures var r := OfferSpec(sessions, games, gameType, gameId, body, sessionId, now, outcomes, reply, env);
      gameType in games && gameId in games[gameType] && r.worker.None? ==>
        r.response == HttpError(500) && r.sessions == sessions
  {
    ReadDescriptionContract(body, Description(JNull, "offer"));
  }

  /**
   * When `run` fails, the session is gone, no other session changed, and the
   * worker was cleaned up (its stop command sent if it had connected, its
   * process terminated if still running); the response is 500.
   */
  lemma OfferFailureCleansUp(sessions: map<string, Session>, games: Catalogue, gameType: string, gameId: string,
                             body: Json, sessionId: string, now: int, outcomes: seq<Attempt>, reply: Reply, env: CleanupEnv)
    requires |outcomes| == MaxRetries
    ensures var r := OfferSpec(sessions, games, gameType, gameId, body, sessionId, now, outcomes, reply, env);
      r.worker.Some? && r.response.HttpError? ==>
        && r.response == HttpError(500)
        && sessionId !in r.sessions
        && (forall id :: id != sessionId ==> (id in r.sessions <==> id in sessions))
        && (forall id :: id in r.sessions ==> r.sessions[id] == sessions[id])
        && r.worker.value.cleanupScheduled
  {
    var r := OfferSpec(sessions, games, gameType, gameId, body, sessionId, now, outcomes, reply, env);
    if r.worker.Some? && r.response.HttpError? {
      var run := RunSpec(Fresh, ReadDescription(body).value, outcomes, reply);
      CommandsKeepFlag(Fresh, ReadDescription(body).value, JNull, outcomes, reply);
      assert !run.0.cleanupScheduled;
    }
  }

  /** A successful `offer` registers a connected, not yet cleaned worker under the new id with the current time as heartbeat, and answers with that id. */
  lemma OfferSuccessRegisters(sessions: map<string, Session>, games: Catalogue, gameType: string, gameId: string,
                              body: Json, sessionId: string, now: int, outcomes: seq<Attempt>, reply: Reply, env: CleanupEnv)
    requires |outcomes| == MaxRetries
    ensures var r := OfferSpec(sessions, games, gameType, gameId, body, sessionId, now, outcomes, reply, env);
      r.response.Ok? ==>
        && gameType in games && gameId in games[gameType]
        && r.worker.Some? && r.sessions == sessions[sessionId := Session(now, r.worker.value)]
        && r.worker.value.connected && !r.worker.value.cleanupScheduled
        && r.response.body.JObject? && "sessionId" in r.response.body.fields
        && r.response.body.fields["sessionId"] == JStr(sessionId)
  {
    var r := OfferSpec(sessions, games, gameType, gameId, body, sessionId, now, outcomes, reply, env);
    if r.response.Ok? {
      RunAnswer(Fresh, ReadDescription(body).value, outcomes, reply);
      CommandsKeepFlag(Fresh, ReadDescription(body).value, JNull, outcomes, reply);
    }
  }

  /**
   * `update_game_params`: 404 exactly for an unknown session, leaving the
   * registry alone; otherwise only that session's worker changes and keeps
   * its heartbeat; invalid params or reply give 400, other failures 500.
   */
  lemma UpdateParamsContract(sessions: map<string, Session>, sessionId: string, body: Json, outcomes: seq<Attempt>, reply: Reply)
    requires |outcomes| == MaxRetries
    ensures var r := UpdateParamsSpec(sessions, sessionId, body, outcomes, reply);
      && (r.1 == HttpError(404) <==> sessionId !in sessions)
      && (sessionId !in sessions ==> r.0 == sessions)
      && r.0.Keys == sessions.Keys
      && (forall id :: id in sessions && id != sessionId ==> r.0[id] == sessions[id])
      && (sessionId in sessions ==> r.0[sessionId].lastHeartbeat == sessions[sessionId].lastHeartbeat
                                    && r.0[sessionId].worker.cleanupScheduled == sessions[sessionId].worker.cleanupScheduled)
    ensures (sessionId in sessions && body.JObject? && "params" in body.fields && !body.fields["params"].JObject?
             && sessions[sessionId].worker.process.Some?) ==>
      UpdateParamsSpec(sessions, sessionId, body, outcomes, reply).1 == HttpError(400)
  {
    if sessionId in sessions && body.JObject? && "params" in body.fields {
      CommandsKeepFlag(sessions[sessionId].worker, Description(JNull, "offer"), body.fields["params"], outcomes, reply);
    }
  }

  /**
   * A worker error reply to an update is answered 500, not 400: only
   * validation failures on the server side are client errors.
   */
  lemma UpdateErrorReplyIs500(sessions: map<string, Session>, sessionId: string, params: map<string, Json>, msg: string, outcomes: seq<Attempt>)
    requires |outcomes| == MaxRetries
    requires sessionId in sessions && sessions[sessionId].worker.connected && sessions[sessionId].worker.process.Some?
    ensures UpdateParamsSpec(sessions, sessionId, JObject(map["params" := JObject(params)]), outcomes,
                             Line(EncodeResponse(ErrorResponse(msg)))).1 == HttpError(500)
  {
    ResponseRoundTrip(ErrorResponse(msg));
  }

  /**
   * Both schema endpoints answer with a body exactly when the worker returned
   * a schema, and then with that schema, which is a JSON object.
   */
  lemma SchemaEndpointsAnswerObjects(games: Catalogue, gameType: string, gameId: string, sessions: map<string, Session>,
                                     sessionId: string, outcomes: seq<Attempt>, reply: Reply, env: CleanupEnv)
    requires |outcomes| == MaxRetries
    ensures var r := SchemaEndpointSpec(games, gameType, gameId, outcomes, reply, env).0;
      var s := SchemaSpec(Fresh, outcomes, reply).1;
      r.Ok? <==> gameType in games && gameId in games[gameType] && s.Success? && s.value.JObject?
    ensures var r := SchemaEndpointSpec(games, gameType, gameId, outcomes, reply, env).0;
      r.Ok? ==> r.body == SchemaSpec(Fresh, outcomes, reply).1.value && r.body.JObject?
    ensures var r := SessionSchemaSpec(sessions, sessionId, outcomes, reply).1;
      r.Ok? <==> sessionId in sessions && SchemaSpec(sessions[sessionId].worker, outcomes, reply).1.Success?
                 && SchemaSpec(sessions[sessionId].worker, outcomes, reply).1.value.JObject?
    ensures var r := SessionSchemaSpec(sessions, sessionId, outcomes, reply).1;
      r.Ok? ==> r.body == SchemaSpec(sessions[sessionId].worker, outcomes, reply).1.value && r.body.JObject?
  {
  }

  /** The schema endpoint answers 404 for an unknown game; otherwise its temporary worker always ends up cleaned. */
  lemma SchemaWorkerAlwaysCleaned(games: Catalogue, gameType: string, gameId: string, outcomes: seq<Attempt>, reply: Reply, env: CleanupEnv)
    requires |outcomes| == MaxRetries
    ensures var r := SchemaEndpointSpec(games, gameType, gameId, outcomes, reply, env);
      && (r.0 == HttpError(404) <==> gameType !in games || gameId !in games[gameType])
      && (r.1.None? <==> r.0 == HttpError(404))
      && (r.1.Some? ==> r.1.value.cleanupScheduled)
  {
  }

  /**
   * Nothing refreshes a registered worker's heartbeat: a session created by
   * `offer` at time `c` and then updated any number of times is removed by
   * the first sweep later than `c + 5`, however active it is.
   */
  lemma OfferedSessionReaped(sessions: map<string, Session>, games: Catalogue, gameType: string, gameId: string,
                             body: Json, sessionId: string, c: int, outcomes: seq<Attempt>, reply: Reply, env: CleanupEnv,
                             update: Json, outcomes2: seq<Attempt>, reply2: Reply, t: int)
    requires |outcomes| == MaxRetries && |outcomes2| == MaxRetries
    requires OfferSpec(sessions, games, gameType, gameId, body, sessionId, c, outcomes, reply, env).response.Ok?
    requires t > c + StaleAfter
    ensures var afterOffer := OfferSpec(sessions, games, gameType, gameId, body, sessionId, c, outcomes, reply, env).sessions;
      var afterUpdate := UpdateParamsSpec(afterOffer, sessionId, update, outcomes2, reply2).0;
      sessionId in afterUpdate && sessionId !in SweepSpec(afterUpdate, t)
  {
    OfferSuccessRegisters(sessions, games, gameType, gameId, body, sessionId, c, outcomes, reply, env);
    var afterOffer := OfferSpec(sessions, games, gameType, gameId, body, sessionId, c, outcomes, reply, env).sessions;
    UpdateParamsContract(afterOffer, sessionId, update, outcomes2, reply2);
  }
}
