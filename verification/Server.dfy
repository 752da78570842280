/** The server's dispatch (`handleClient`): authentication, the read-only gate, server commands
    and data commands, in the order the source tries them; and what read-only mode guarantees
    over whole runs of any number of clients. */
module Server {
  import opened Text
  import opened Values
  import opened Memory
  import opened Operations
  import opened Commands
  import opened Shape
  import opened Execution
  import opened Eviction
  import opened StoreLimits
  import opened Snapshot
  import opened Recovery
  import opened Datastore
  import opened Registry
  import opened SnapshotFile
  import opened AofFile

  /** What one connection remembers: the selected database and whether it has authenticated. */
  datatype Session = Session(db: nat, authenticated: bool)

  /** What a request makes the server do; `Nothing` covers refusals and pure answers, and Pub/Sub
      requests touch no database. */
  datatype Action =
    | Nothing
    | Authenticate
    | SetReadOnly(on: bool)
    | SelectDb(db: nat)
    | SaveAll
    | ServePubSub
    | RunCommand

  function AuthAction(password: string, tokens: seq<string>): Action {
    if password != "" && |tokens| == 2 && tokens[1] == password then Authenticate else Nothing
  }

  function ReadOnlyAction(tokens: seq<string>): Action {
    if |tokens| == 2 && ToUpper(tokens[1]) == "ON" then SetReadOnly(true)
    else if |tokens| == 2 && ToUpper(tokens[1]) == "OFF" then SetReadOnly(false)
    else Nothing
  }

  function SelectAction(tokens: seq<string>, n: nat): Action {
    if |tokens| == 2 && DatabaseIndex(tokens[1], n).Some? then SelectDb(DatabaseIndex(tokens[1], n).value) else Nothing
  }

  predicate AnswersOnly(name: Name) {
    name == CONFIG || name == COMMAND || name == CLIENT || name == LASTSAVE
  }

  predicate IsPubSub(name: Name) {
    name == SUBSCRIBE || name == UNSUBSCRIBE || name == PUBLISH
  }

  /** The order of the tests in `handleClient`. */
  function Dispatch(password: string, readOnly: bool, session: Session, n: nat, tokens: seq<string>): Action {
    var name := CommandName(tokens);
    if tokens == [] then Nothing
    else if name == AUTH then AuthAction(password, tokens)
    else if !session.authenticated then Nothing
    else if name == READONLY then ReadOnlyAction(tokens)
    else if AnswersOnly(name) then Nothing
    else if name == SAVE then if |tokens| == 1 then SaveAll else Nothing
    else if name == SELECT then SelectAction(tokens, n)
    else if readOnly && !IsAllowedInReadOnly(tokens) then Nothing
    else if IsPubSub(name) then ServePubSub
    else RunCommand
  }

  /** The databases after an action: only commands and saves touch them. */
  ghost predicate Carried(config: Config, action: Action, before: seq<Db>, db: nat, tokens: seq<string>, now: int,
                          after: seq<Db>)
    requires db < |before|
  {
    match action
    case RunCommand => SettledBy(config, Execute(before, db, tokens, now), after)
    case SaveAll => after == PurgeAll(before, now)
    case _ => after == before
  }

  function SessionAfter(session: Session, action: Action): Session {
    match action
    case Authenticate => session.(authenticated := true)
    case SelectDb(db) => session.(db := db)
    case _ => session
  }

  function ReadOnlyAfter(readOnly: bool, action: Action): bool {
    if action.SetReadOnly? then action.on else readOnly
  }

  // ----- read-only mode ------------------------------------------------------------------------------------

  /** With read-only mode on, no request changes what is live, now or later, whatever eviction
      is configured. */
  lemma ReadOnlyRequestIsHarmless(config: Config, password: string, session: Session, tokens: seq<string>, now: int,
                                  before: seq<Db>, after: seq<Db>, t: int)
    requires session.db < |before| && now <= t
    requires Carried(config, Dispatch(password, true, session, |before|, tokens), before, session.db, tokens, now,
                     after)
    ensures SameLive(after, before, t)
  {
    hide CommandName, Execute, Live, IsAllowedInReadOnly, IsAofLogged, Evicted;
    var action := Dispatch(password, true, session, |before|, tokens);
    if action.RunCommand? {
      AllowedIsUnlogged(tokens);
      UnloggedKeepsLive(before, session.db, tokens, now, t);
    } else if action.SaveAll? {
      forall k | 0 <= k < |before| ensures Live(PurgeAll(before, now)[k], t) == Live(before[k], t) {
        LiveOfPurge(before[k], now, t);
      }
    }
  }

  /** The whole server: databases, mode, the sessions of the connected clients, and the commands
      that have passed the gates and have not run yet (each client is served by its own thread,
      which holds no lock from the gate to the command). */
  datatype State = State(dbs: seq<Db>, readOnly: bool, sessions: map<int, Session>, admitted: map<int, seq<string>>)

  /** `Receive` takes a request through the dispatch: a refusal or a server command is done at
      once, a data command is admitted. `Perform` runs the command a client has admitted. */
  datatype ServerEvent =
    | Connect(client: int)
    | Receive(client: int, tokens: seq<string>, now: int)
    | Perform(client: int, now: int)
    | Disconnect(client: int)
    | ExpiryTick(db: nat, now: int)
    | SnapshotTick(now: int)

  predicate Serves(s: State, client: int) {
    client in s.sessions && s.sessions[client].db < |s.dbs|
  }

  function Received(password: string, s: State, client: int, tokens: seq<string>, now: int): State
    requires Serves(s, client)
  {
    var action := Dispatch(password, s.readOnly, s.sessions[client], |s.dbs|, tokens);
    State(if action.SaveAll? then PurgeAll(s.dbs, now) else s.dbs, ReadOnlyAfter(s.readOnly, action),
          s.sessions[client := SessionAfter(s.sessions[client], action)],
          if action.RunCommand? then s.admitted[client := tokens] else s.admitted)
  }

  ghost predicate ServerStep(config: Config, password: string, s: State, e: ServerEvent, s': State) {
    match e
    case Connect(client) =>
      client !in s.sessions && s' == s.(sessions := s.sessions[client := Session(0, password == "")])
    case Disconnect(client) =>
      client !in s.admitted && s' == s.(sessions := s.sessions - {client})
    case Receive(client, tokens, now) =>
      Serves(s, client) && client !in s.admitted && s' == Received(password, s, client, tokens, now)
    case Perform(client, now) =>
      && Serves(s, client) && client in s.admitted
      && s' == s.(dbs := s'.dbs, admitted := s.admitted - {client})
      && SettledBy(config, Execute(s.dbs, s.sessions[client].db, s.admitted[client], now), s'.dbs)
    case ExpiryTick(db, now) => db < |s.dbs| && s' == s.(dbs := s.dbs[db := Purge(s.dbs[db], now)])
    case SnapshotTick(now) => s' == s.(dbs := PurgeAll(s.dbs, now))
  }

  function TimeOf(e: ServerEvent): Option<int> {
    match e
    case Receive(_, _, now) => Some(now)
    case Perform(_, now) => Some(now)
    case ExpiryTick(_, now) => Some(now)
    case SnapshotTick(now) => Some(now)
    case _ => None
  }

  /** `states` are the successive states of a run of `events`, all of them before time `t`. */
  ghost predicate ServerRun(config: Config, password: string, events: seq<ServerEvent>, states: seq<State>, t: int) {
    && |states| == |events| + 1
    && forall j :: 0 <= j < |events| ==>
         && ServerStep(config, password, states[j], events[j], states[j + 1])
         && (TimeOf(events[j]).Some? ==> TimeOf(events[j]).value <= t)
  }

  // ----- read-only mode, over runs -----------------------------------------------------------------------------

  /** No command that writes is past the gate. */
  predicate NoPendingWrite(s: State) {
    forall client :: client in s.admitted ==> !IsAofLogged(s.admitted[client])
  }

  /** With read-only mode on, the gate admits only commands that are not logged. */
  lemma GateAdmitsReads(password: string, session: Session, n: nat, tokens: seq<string>)
    requires Dispatch(password, true, session, n, tokens).RunCommand?
    ensures !IsAofLogged(tokens)
  {
    hide CommandName, IsAllowedInReadOnly, IsAofLogged, IsPubSub, AnswersOnly;
    AllowedIsUnlogged(tokens);
  }

  lemma PurgeAllKeepsLive(dbs: seq<Db>, now: int, t: int)
    requires now <= t
    ensures SameLive(PurgeAll(dbs, now), dbs, t)
  {
    hide Live, Purge;
    forall k | 0 <= k < |dbs| ensures Live(Purge(dbs[k], now), t) == Live(dbs[k], t) { LiveOfPurge(dbs[k], now, t); }
  }

  lemma SameLiveItself(dbs: seq<Db>, t: int)
    ensures SameLive(dbs, dbs, t)
  {
  }

  lemma UnloggedSettles(config: Config, dbs: seq<Db>, db: nat, tokens: seq<string>, now: int, after: seq<Db>, t: int)
    requires db < |dbs| && !IsAofLogged(tokens) && now <= t
    requires SettledBy(config, Execute(dbs, db, tokens, now), after)
    ensures SameLive(after, dbs, t)
  {
    hide Execute, Live, IsAofLogged, Evicted;
    UnloggedKeepsLive(dbs, db, tokens, now, t);
  }

  lemma ReadOnlyStepIsHarmless(config: Config, password: string, s: State, e: ServerEvent, s': State, t: int)
    requires s.readOnly && NoPendingWrite(s) && ServerStep(config, password, s, e, s')
    requires TimeOf(e).Some? ==> TimeOf(e).value <= t
    ensures SameLive(s'.dbs, s.dbs, t) && NoPendingWrite(s')
  {
    hide Dispatch, SameLive, Live, IsAofLogged, SettledBy, Execute, PurgeAll;
    SameLiveItself(s.dbs, t);
    match e {
      case Receive(client, tokens, now) =>
        PurgeAllKeepsLive(s.dbs, now, t);
        if Dispatch(password, true, s.sessions[client], |s.dbs|, tokens).RunCommand? {
          GateAdmitsReads(password, s.sessions[client], |s.dbs|, tokens);
        }
      case Perform(client, now) =>
        UnloggedSettles(config, s.dbs, s.sessions[client].db, s.admitted[client], now, s'.dbs, t);
      case ExpiryTick(db, now) => TickKeepsLive(s.dbs, db, now, t);
      case SnapshotTick(now) => PurgeAllKeepsLive(s.dbs, now, t);
      case _ =>
    }
  }

  lemma TickKeepsLive(dbs: seq<Db>, db: nat, now: int, t: int)
    requires db < |dbs| && now <= t
    ensures SameLive(dbs[db := Purge(dbs[db], now)], dbs, t)
  {
    hide Live, Purge;
    LiveOfPurge(dbs[db], now, t);
  }

  /** Read-only safety. Over any stretch of a run, from state `a` to state `j`, with read-only
      mode on and no write past the gate at its start, whatever any clients send, in any order,
      with any eviction configured, and however threads and workers interleave, the contents of
      every database remain what they were, minus what has expired. */
  lemma {:induction false} ReadOnlyIsSafe(config: Config, password: string, events: seq<ServerEvent>,
                                          states: seq<State>, t: int, a: nat, j: nat)
    requires ServerRun(config, password, events, states, t) && a <= j < |states|
    requires NoPendingWrite(states[a]) && forall i :: a <= i < j ==> states[i].readOnly
    ensures SameLive(states[j].dbs, states[a].dbs, t) && NoPendingWrite(states[j])
    decreases j
  {
    hide ServerStep, Live, NoPendingWrite;
    if j > a {
      ReadOnlyIsSafe(config, password, events, states, t, a, j - 1);
      ReadOnlyStepIsHarmless(config, password, states[j - 1], events[j - 1], states[j], t);
    }
  }

  // ----- a write that slips through ---------------------------------------------------------------------------

  const OPEN: Session := Session(0, true)

  function SlowSet(key: string): seq<string> {
    ["SET", key, ""]
  }

  function ReadOnlyOn(): seq<string> {
    ["READONLY", "ON"]
  }

  /** Client 1 sends SET, client 2 switches read-only mode on, and then the SET runs. */
  function RacingEvents(key: string, now: int): seq<ServerEvent> {
    [Receive(1, SlowSet(key), now), Receive(2, ReadOnlyOn(), now), Perform(1, now)]
  }

  function RacingStates(n: nat, key: string, now: int): (states: seq<State>)
    requires n > 0
    ensures |states| == 4
  {
    var open := map[1 := OPEN, 2 := OPEN];
    var dbs := Emptied(n);
    [State(dbs, false, open, map[]), State(dbs, false, open, map[1 := SlowSet(key)]),
     State(dbs, true, open, map[1 := SlowSet(key)]),
     State(dbs[0 := map[key := StringObject("", now, -1, now)]], true, open, map[])]
  }

  lemma SlowSetIsAdmitted(key: string, n: nat)
    ensures CommandName(SlowSet(key)) == SET && Decode(SlowSet(key)) == Single(key, Set("", -1))
    ensures Dispatch("", false, OPEN, n, SlowSet(key)) == RunCommand
  {
    assert CommandName(SlowSet(key)) == SET by {
      hide ToUpper;
      AlreadyUpper("SET");
      assert NameOf("SET") == SET;
    }
    hide CommandName, ToUpper, ParseInteger;
    assert SlowSet(key)[1..] == [key, ""];
  }

  lemma ReadOnlyOnIs()
    ensures CommandName(ReadOnlyOn()) == READONLY && |ReadOnlyOn()| == 2 && ToUpper(ReadOnlyOn()[1]) == "ON"
  {
    hide ToUpper;
    AlreadyUpper("READONLY");
    AlreadyUpper("ON");
    assert NameOf("READONLY") == READONLY;
  }

  lemma ReadOnlyOnSwitches(n: nat)
    ensures Dispatch("", false, OPEN, n, ReadOnlyOn()) == SetReadOnly(true)
  {
    hide CommandName, ToUpper, ReadOnlyOn;
    ReadOnlyOnIs();
  }

  lemma SlowSetRuns(n: nat, key: string, now: int, config: Config)
    requires n > 0 && Unlimited(config)
    ensures var x := Execute(Emptied(n), 0, SlowSet(key), now);
            SettledBy(config, x, Emptied(n)[0 := map[key := StringObject("", now, -1, now)]])
  {
    SlowSetIsAdmitted(key, n);
    hide CommandName, Decode, SlowSet, Evicted;
    var db := map[key := StringObject("", now, -1, now)];
    assert Execute(Emptied(n), 0, SlowSet(key), now).dbs[0] == db;
    NothingToEvict(config, db);
  }

  lemma NothingToEvict(config: Config, db: Db)
    requires Unlimited(config)
    ensures Evicted(config, db, db)
  {
  }

  lemma FirstIsAdmitted(config: Config, n: nat, key: string, now: int)
    requires n > 0
    ensures var states := RacingStates(n, key, now);
            ServerStep(config, "", states[0], Receive(1, SlowSet(key), now), states[1])
  {
    SlowSetIsAdmitted(key, n);
    hide SlowSet, Dispatch;
    var open := map[1 := OPEN, 2 := OPEN];
    assert open[1 := OPEN] == open;
  }

  lemma SecondSwitches(config: Config, n: nat, key: string, now: int)
    requires n > 0
    ensures var states := RacingStates(n, key, now);
            ServerStep(config, "", states[1], Receive(2, ReadOnlyOn(), now), states[2])
  {
    ReadOnlyOnSwitches(n);
    hide SlowSet, ReadOnlyOn, Dispatch;
    var open := map[1 := OPEN, 2 := OPEN];
    assert open[2 := OPEN] == open;
  }

  lemma FirstRuns(config: Config, n: nat, key: string, now: int)
    requires n > 0 && Unlimited(config)
    ensures ServerStep(config, "", RacingStates(n, key, now)[2], Perform(1, now), RacingStates(n, key, now)[3])
  {
    SlowSetRuns(n, key, now, config);
    hide SlowSet, SettledBy, Execute;
    var waiting := map[1 := SlowSet(key)];
    assert waiting - {1} == map[];
  }

  lemma RacingChanges(n: nat, key: string, now: int)
    requires n > 0
    ensures var states := RacingStates(n, key, now);
            && states[2].readOnly && states[3].readOnly && !NoPendingWrite(states[2])
            && !SameLive(states[3].dbs, states[2].dbs, now)
  {
    var states := RacingStates(n, key, now);
    SlowSetIsAdmitted(key, n);
    hide CommandName, Decode, SlowSet, Dispatch;
    assert 1 in states[2].admitted && IsAofLogged(states[2].admitted[1]);
    assert key in Live(states[3].dbs[0], now) && key !in Live(states[2].dbs[0], now);
  }

  /** The mode does not cover a command that is past the gate: in this run, read-only mode is on
      from state 2 and stays on, and the contents change after that. So the condition of the
      theorem above cannot be dropped. */
  lemma RacingWriteSlipsThrough(config: Config, n: nat, key: string, now: int)
    requires n > 0 && Unlimited(config)
    ensures var states := RacingStates(n, key, now);
            && ServerRun(config, "", RacingEvents(key, now), states, now)
            && states[2].readOnly && states[3].readOnly && !NoPendingWrite(states[2])
            && !SameLive(states[3].dbs, states[2].dbs, now)
  {
    hide ServerStep, RacingStates, SlowSet, ReadOnlyOn, SameLive, NoPendingWrite, ServerRun, Unlimited;
    FirstIsAdmitted(config, n, key, now);
    SecondSwitches(config, n, key, now);
    FirstRuns(config, n, key, now);
    RacingChanges(n, key, now);
    ThreeServerSteps(config, RacingEvents(key, now), RacingStates(n, key, now), now);
  }

  lemma ThreeServerSteps(config: Config, events: seq<ServerEvent>, states: seq<State>, t: int)
    requires |events| == 3 && |states| == 4 && ServerStep(config, "", states[0], events[0], states[1])
    requires ServerStep(config, "", states[1], events[1], states[2]) && TimeOf(events[0]) == Some(t)
    requires ServerStep(config, "", states[2], events[2], states[3]) && TimeOf(events[1]) == Some(t)
    requires TimeOf(events[2]) == Some(t)
    ensures ServerRun(config, "", events, states, t)
  {
    hide ServerStep;
  }

  // ----- shape --------------------------------------------------------------------------------------------

  lemma EvictedIsShaped(config: Config, before: Db, after: Db)
    requires Evicted(config, before, after) && WellShaped(before)
    ensures WellShaped(after)
  {
    hide Over, Shaped;
  }

  lemma PurgedIsShaped(db: Db, now: int)
    requires WellShaped(db)
    ensures WellShaped(Purge(db, now))
  {
  }

  lemma SettledIsShaped(config: Config, x: Executed, after: seq<Db>)
    requires AllShaped(x.dbs) && SettledBy(config, x, after)
    ensures AllShaped(after)
  {
    hide WellShaped, Evicted;
    forall k | 0 <= k < |after| ensures WellShaped(after[k]) {
      if x.evictIn == Some(k) { EvictedIsShaped(config, x.dbs[k], after[k]); }
    }
  }

  lemma AllPurgedIsShaped(dbs: seq<Db>, now: int)
    requires AllShaped(dbs)
    ensures AllShaped(PurgeAll(dbs, now))
  {
    hide WellShaped, Purge;
    forall k | 0 <= k < |dbs| ensures WellShaped(Purge(dbs[k], now)) { PurgedIsShaped(dbs[k], now); }
  }

  lemma StepKeepsShape(config: Config, password: string, s: State, e: ServerEvent, s': State)
    requires AllShaped(s.dbs) && ServerStep(config, password, s, e, s')
    ensures AllShaped(s'.dbs)
  {
    hide Dispatch, WellShaped, SettledBy, PurgeAll, Execute, Purge;
    match e {
      case Receive(client, tokens, now) => AllPurgedIsShaped(s.dbs, now);
      case Perform(client, now) =>
        ExecuteKeepsShape(s.dbs, s.sessions[client].db, s.admitted[client], now);
        SettledIsShaped(config, Execute(s.dbs, s.sessions[client].db, s.admitted[client], now), s'.dbs);
      case ExpiryTick(db, now) => PurgedIsShaped(s.dbs[db], now);
      case SnapshotTick(now) => AllPurgedIsShaped(s.dbs, now);
      case _ =>
    }
  }

  /** The shape invariant: over every run of the server, with any eviction, every stored value
      uses only the payload of its own type and no stored collection is empty. */
  lemma {:induction false} ShapeHoldsThroughout(config: Config, password: string, events: seq<ServerEvent>,
                                                states: seq<State>, t: int, j: nat)
    requires ServerRun(config, password, events, states, t) && AllShaped(states[0].dbs) && j < |states|
    ensures AllShaped(states[j].dbs)
    decreases j
  {
    hide ServerStep, AllShaped;
    if j > 0 {
      ShapeHoldsThroughout(config, password, events, states, t, j - 1);
      StepKeepsShape(config, password, states[j - 1], events[j - 1], states[j]);
    }
  }

  // ----- limits -------------------------------------------------------------------------------------------

  lemma AllPurgedIsGood(config: Config, dbs: seq<Db>, now: int)
    requires AllGood(config, dbs)
    ensures AllGood(config, PurgeAll(dbs, now))
  {
    hide Good;
    forall k | 0 <= k < |dbs| ensures Good(config, Purge(dbs[k], now)) { PurgedIsGood(config, dbs[k], now); }
  }

  lemma StepStaysGood(config: Config, password: string, s: State, e: ServerEvent, s': State)
    requires EvictsFromAll(config) && AllGood(config, s.dbs) && ServerStep(config, password, s, e, s')
    requires TimeOf(e).Some? ==> 0 <= TimeOf(e).value < MAX_LL
    ensures AllGood(config, s'.dbs)
  {
    hide EvictsFromAll, Good, Dispatch, SettledBy, Execute, PurgeAll;
    match e {
      case Receive(client, tokens, now) => AllPurgedIsGood(config, s.dbs, now);
      case Perform(client, now) =>
        CommandStaysGood(config, s.dbs, s.sessions[client].db, s.admitted[client], now, s'.dbs);
      case ExpiryTick(db, now) => PurgedIsGood(config, s.dbs[db], now);
      case SnapshotTick(now) => AllPurgedIsGood(config, s.dbs, now);
      case _ =>
    }
  }

  /** Under allkeys-lru and random, from databases within the limits (which is how the server
      starts), every state of any run of the server meets both limits in every database. */
  lemma {:induction false} LimitsHoldThroughout(config: Config, password: string, events: seq<ServerEvent>,
                                                states: seq<State>, t: int, j: nat)
    requires EvictsFromAll(config) && ServerRun(config, password, events, states, t) && t < MAX_LL
    requires forall i :: 0 <= i < |events| && TimeOf(events[i]).Some? ==> 0 <= TimeOf(events[i]).value
    requires AllGood(config, states[0].dbs) && j < |states|
    ensures config.maxKeys > 0 ==> forall k :: 0 <= k < |states[j].dbs| ==> |states[j].dbs[k]| <= config.maxKeys
    ensures config.maxMemory > 0 ==>
              forall k :: 0 <= k < |states[j].dbs| ==> TotalBytes(states[j].dbs[k]) <= config.maxMemory
    ensures AllGood(config, states[j].dbs)
    decreases j
  {
    hide EvictsFromAll, ServerStep, StampsFit, TotalBytes;
    if j > 0 {
      LimitsHoldThroughout(config, password, events, states, t, j - 1);
      StepStaysGood(config, password, states[j - 1], events[j - 1], states[j]);
    }
  }

  // ----- authentication -------------------------------------------------------------------------------------

  /** No client has given the password yet, and no command is past the gate. */
  predicate LockedOut(s: State) {
    s.admitted == map[] && forall client :: client in s.sessions ==> !s.sessions[client].authenticated
  }

  predicate GivesPassword(password: string, e: ServerEvent) {
    e.Receive? && |e.tokens| == 2 && CommandName(e.tokens) == AUTH && e.tokens[1] == password
  }

  lemma LockedOutStep(config: Config, password: string, s: State, e: ServerEvent, s': State, t: int)
    requires password != "" && LockedOut(s) && ServerStep(config, password, s, e, s') && !GivesPassword(password, e)
    requires TimeOf(e).Some? ==> TimeOf(e).value <= t
    ensures LockedOut(s') && s'.readOnly == s.readOnly && SameLive(s'.dbs, s.dbs, t)
  {
    hide CommandName, SameLive, SettledBy, IsAllowedInReadOnly, IsPubSub, AnswersOnly, PurgeAll, Execute;
    SameLiveItself(s.dbs, t);
    match e {
      case ExpiryTick(db, now) => TickKeepsLive(s.dbs, db, now, t);
      case SnapshotTick(now) => PurgeAllKeepsLive(s.dbs, now, t);
      case _ =>
    }
  }

  /** With a password set, as long as nobody sends it, whatever any clients send changes neither
      the mode nor the contents of any database, minus what expires. */
  lemma {:induction false} WithoutPasswordNothingChanges(config: Config, password: string, events: seq<ServerEvent>,
                                                         states: seq<State>, t: int, j: nat)
    requires password != "" && ServerRun(config, password, events, states, t) && LockedOut(states[0]) && j < |states|
    requires forall i :: 0 <= i < j ==> !GivesPassword(password, events[i])
    ensures LockedOut(states[j]) && states[j].readOnly == states[0].readOnly
    ensures SameLive(states[j].dbs, states[0].dbs, t)
    decreases j
  {
    hide ServerStep, Live, LockedOut, GivesPassword;
    if j > 0 {
      WithoutPasswordNothingChanges(config, password, events, states, t, j - 1);
      LockedOutStep(config, password, states[j - 1], events[j - 1], states[j], t);
    }
  }

  // ----- the protocol steps behind requests ------------------------------------------------------------------

  /** What an action is to the persistence protocol. */
  function ProtocolAfter(s: System, action: Action, db: nat, tokens: seq<string>, now: int): System
    requires db < |s.dbs| && s.phase == Idle
  {
    match action
    case RunCommand => Next(s, Event.Command(db, tokens, now))
    case SaveAll => Next(Next(s, CheckpointSave(now)), CheckpointTruncate)
    case _ => s
  }

  function ReplyOf(action: Action, dbs: seq<Db>, db: nat, tokens: seq<string>, now: int): Option<string>
    requires db < |dbs|
  {
    if action.RunCommand? then Some(Execute(dbs, db, tokens, now).reply) else None
  }

  /** The log and its current database after an action, whatever eviction is configured. */
  function FileBehind(w: (string, nat), action: Action, db: nat, tokens: seq<string>, reply: Option<string>)
    : (string, nat)
  {
    match action
    case RunCommand => if reply.None? then w else FileAfter(w, db, tokens, reply.value)
    case SaveAll => ("", 0)
    case _ => w
  }

  class TcpServer {
    const password: string
    var readOnly: bool

    constructor (password: string, readOnly: bool)
      ensures this.password == password && this.readOnly == readOnly
    {
      this.password, this.readOnly := password, readOnly;
    }

    /** One command of one client, from `handleClient`'s loop. `reply` is what a data command
        replies; the server's own texts are not modelled. */
    method HandleCommand(session: Session, tokens: seq<string>, stores: seq<DataStore>, aof: AofPersistence,
                         snapshot: SnapshotPersistence, now: int, ghost config: Config)
      returns (after: Session, reply: Option<string>)
      requires session.db < |stores| && Ready(stores, config)
      modifies this`readOnly, stores, aof, snapshot
      ensures Ready(stores, config) && after.db < |stores|
      ensures var action := Dispatch(password, old(readOnly), session, |stores|, tokens);
              && after == SessionAfter(session, action)
              && readOnly == ReadOnlyAfter(old(readOnly), action)
              && Carried(config, action, old(Contents(stores)), session.db, tokens, now, Contents(stores))
              && reply == ReplyOf(action, old(Contents(stores)), session.db, tokens, now)
              && (aof.file, aof.currentAppendDatabase) ==
                 FileBehind(old((aof.file, aof.currentAppendDatabase)), action, session.db, tokens, reply)
              && snapshot.file ==
                 (if action.SaveAll? then Some(SaveText(old(Contents(stores)), now)) else old(snapshot.file))
              && (Unlimited(config) ==>
                    StateOf(stores, snapshot, aof) ==
                    ProtocolAfter(old(StateOf(stores, snapshot, aof)), action, session.db, tokens, now))
    {
      hide CommandName, Execute, SettledBy, PurgeAll, DatabaseIndex, Unlimited, IsAllowedInReadOnly, ToUpper, SaveText,
        Next;
      after, reply := session, None;
      if tokens == [] {
        return;
      }
      var name := CommandName(tokens);
      if name == AUTH {
        if password != "" && |tokens| == 2 && tokens[1] == password {
          after := session.(authenticated := true);
        }
        return;
      }
      if !session.authenticated {
        return;
      }
      if name == READONLY {
        if |tokens| == 2 && ToUpper(tokens[1]) == "ON" {
          readOnly := true;
        } else if |tokens| == 2 && ToUpper(tokens[1]) == "OFF" {
          readOnly := false;
        }
        return;
      }
      if AnswersOnly(name) {
        return;
      }
      if name == SAVE {
        if |tokens| == 1 {
          Save(stores, aof, snapshot, now, config);
        }
        return;
      }
      if name == SELECT {
        if |tokens| == 2 && DatabaseIndex(tokens[1], |stores|).Some? {
          after := session.(db := DatabaseIndex(tokens[1], |stores|).value);
        }
        return;
      }
      if readOnly && !IsAllowedInReadOnly(tokens) {
        return;
      }
      if IsPubSub(name) {
        return;
      }
      var text := aof.ExecuteThenAppend(tokens, session.db, stores, now, snapshot, config);
      reply := Some(text);
    }

    method Save(stores: seq<DataStore>, aof: AofPersistence, snapshot: SnapshotPersistence, now: int,
                ghost config: Config)
      requires Ready(stores, config)
      modifies stores, aof, snapshot
      ensures Ready(stores, config) && Contents(stores) == PurgeAll(old(Contents(stores)), now)
      ensures aof.file == "" && aof.currentAppendDatabase == 0
      ensures snapshot.file == Some(SaveText(old(Contents(stores)), now))
      ensures StateOf(stores, snapshot, aof) ==
              Next(Next(old(StateOf(stores, snapshot, aof)), CheckpointSave(now)), CheckpointTruncate)
    {
      hide SaveText, PurgeAll;
      ghost var s := StateOf(stores, snapshot, aof);
      aof.Checkpoint(stores, snapshot, now, config);
      assert StateOf(stores, snapshot, aof).dbs == PurgeAll(s.dbs, now);
    }
  }
}
