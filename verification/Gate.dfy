/** What the dispatch does with each kind of request: the read-only gate, exactly; database
    selection; the mode; the password. */
module Gate {
  import opened Text
  import opened Operations
  import opened Commands
  import opened Execution
  import opened Eviction
  import opened StoreLimits
  import opened Requests
  import opened Server

  // ----- the read-only gate ----------------------------------------------------------------------

  /** For a client that may send requests, turning read-only mode on changes what a request does
      if and only if the command is logged or is PUBLISH; and then nothing is done. */
  lemma GateIsExact(password: string, session: Session, n: nat, tokens: seq<string>)
    requires tokens != [] && session.authenticated
    ensures var off, on := Dispatch(password, false, session, n, tokens), Dispatch(password, true, session, n, tokens);
            && (on != off <==> IsAofLogged(tokens) || CommandName(tokens) == PUBLISH)
            && (on != off ==> on == Nothing)
  {
    hide CommandName, IsAllowedInReadOnly, AuthAction, ReadOnlyAction, SelectAction;
    AllowedIffUnlogged(tokens);
  }

  /** Commands that the server answers itself. */
  predicate IsServerCommand(name: Name) {
    || name == AUTH || name == READONLY || name == SAVE || name == SELECT
    || AnswersOnly(name) || IsPubSub(name)
  }

  /** Every well-formed read is served, with the mode on as with the mode off. */
  lemma ReadsAreServed(password: string, readOnly: bool, session: Session, n: nat, tokens: seq<string>)
    requires tokens != [] && session.authenticated && RunsInOne(tokens) && !IsServerCommand(CommandName(tokens))
    requires Reads(Decode(tokens)) && !Decode(tokens).Reject?
    ensures Dispatch(password, readOnly, session, n, tokens) == RunCommand
  {
    hide CommandName, Decode, IsAllowedInReadOnly, Reads;
    if IsAofLogged(tokens) { LoggedWrites(tokens); }
    AllowedIffUnlogged(tokens);
  }

  /** And with the mode off every data command is run. */
  lemma CommandsAreServed(password: string, session: Session, n: nat, tokens: seq<string>)
    requires tokens != [] && session.authenticated && !IsServerCommand(CommandName(tokens))
    ensures Dispatch(password, false, session, n, tokens) == RunCommand
  {
    hide CommandName;
  }

  /** So a GET gets its reply in read-only mode too. */
  lemma GetIsServed(password: string, readOnly: bool, session: Session, n: nat, key: string)
    requires session.authenticated
    ensures Dispatch(password, readOnly, session, n, GetRequest(key)) == RunCommand
  {
    assert GetRequest(key) == ["GET"] + [key];
    hide FoundAs, NameOf;
    GetNamed();
    Literal("GET", GET, [key]);
    GetMeans(key);
    hide CommandName, Means;
    assert GetRequest(key) != [];
    hide GetRequest;
    assert Decode(GetRequest(key)) == Single(key, KeyOp.Get) by { MeansThat(GetRequest(key), Single(key, KeyOp.Get)); }
    hide Decode, Dispatch;
    ReadsAreServed(password, readOnly, session, n, GetRequest(key));
  }

  lemma MeansThat(tokens: seq<string>, request: Request)
    requires Means(tokens, request)
    ensures Decode(tokens) == request && RunsInOne(tokens)
  {
  }

  // ----- server commands -------------------------------------------------------------------------

  function SelectRequest(db: nat): seq<string> {
    ["SELECT", Show(db)]
  }

  lemma SelectNamed()
    ensures FoundAs("SELECT", SELECT)
  {
  }

  /** SELECT with the number of a database selects that database; with any other it does nothing. */
  lemma SelectSelects(password: string, readOnly: bool, session: Session, n: nat, db: nat)
    requires session.authenticated && db <= MAX_ULL
    ensures Dispatch(password, readOnly, session, n, SelectRequest(db)) == if db < n then SelectDb(db) else Nothing
  {
    hide FoundAs, NameOf, Show;
    SelectNamed();
    assert SelectRequest(db) == ["SELECT"] + [Show(db)] && SelectRequest(db)[1] == Show(db);
    Literal("SELECT", SELECT, [Show(db)]);
    IndexOfShow(db, n);
    hide CommandName, DatabaseIndex;
  }

  function ReadOnlyRequest(on: bool): seq<string> {
    ["READONLY", if on then "ON" else "OFF"]
  }

  lemma ReadOnlyNamed()
    ensures FoundAs("READONLY", READONLY)
  {
  }

  lemma ReadOnlyWords(on: bool)
    ensures CommandName(ReadOnlyRequest(on)) == READONLY && |ReadOnlyRequest(on)| == 2
    ensures ToUpper(ReadOnlyRequest(on)[1]) == (if on then "ON" else "OFF") && "OFF" != "ON"
  {
    hide FoundAs, NameOf, ToUpper;
    ReadOnlyNamed();
    var word := if on then "ON" else "OFF";
    AlreadyUpper(word);
    assert ReadOnlyRequest(on) == ["READONLY"] + [word];
    Literal("READONLY", READONLY, [word]);
    assert "OFF"[1] != "ON"[1];
  }

  /** READONLY ON and OFF switch the mode, whatever it was. */
  lemma ReadOnlySwitches(password: string, readOnly: bool, session: Session, n: nat, on: bool)
    requires session.authenticated
    ensures Dispatch(password, readOnly, session, n, ReadOnlyRequest(on)) == SetReadOnly(on)
  {
    hide CommandName, ToUpper, ReadOnlyRequest;
    ReadOnlyWords(on);
  }

  lemma AuthNamed()
    ensures FoundAs("AUTH", AUTH)
  {
  }

  /** AUTH authenticates with the password of the server and with no other; without a password
      there is nothing to authenticate. */
  lemma AuthChecks(password: string, readOnly: bool, session: Session, n: nat, given: string)
    ensures Dispatch(password, readOnly, session, n, ["AUTH", given]) ==
            if password != "" && given == password then Authenticate else Nothing
  {
    hide FoundAs, NameOf;
    AuthNamed();
    assert ["AUTH", given] == ["AUTH"] + [given];
    Literal("AUTH", AUTH, [given]);
    hide CommandName;
  }

  lemma SaveNamed()
    ensures FoundAs("SAVE", SAVE)
  {
  }

  /** SAVE saves, in read-only mode too. */
  lemma SaveSaves(password: string, readOnly: bool, session: Session, n: nat)
    requires session.authenticated
    ensures Dispatch(password, readOnly, session, n, ["SAVE"]) == SaveAll
  {
    hide FoundAs, NameOf;
    SaveNamed();
    assert ["SAVE"] == ["SAVE"] + [];
    Literal("SAVE", SAVE, []);
    hide CommandName;
  }

  // ----- selecting and then running --------------------------------------------------------------

  /** After SELECT, the commands of that client run in that database. */
  lemma SelectThenRun(config: Config, password: string, states: seq<State>, client: int, db: nat, tokens: seq<string>,
                      at: int, sent: int, now: int)
    requires |states| == 4 && Serves(states[0], client) && states[0].sessions[client].authenticated
    requires db < |states[0].dbs| <= MAX_ULL
    requires ServerStep(config, password, states[0], Receive(client, SelectRequest(db), at), states[1])
    requires ServerStep(config, password, states[1], Receive(client, tokens, sent), states[2])
    requires client in states[2].admitted
    requires ServerStep(config, password, states[2], Perform(client, now), states[3])
    ensures SettledBy(config, Execute(states[2].dbs, db, tokens, now), states[3].dbs)
  {
    hide SelectRequest, SettledBy, Execute, Dispatch;
    SelectSelects(password, states[0].readOnly, states[0].sessions[client], |states[0].dbs|, db);
    var s := states[1];
    assert s.sessions[client].db == db;
    var action := Dispatch(password, s.readOnly, s.sessions[client], |s.dbs|, tokens);
    assert action.RunCommand?;
    assert states[2].admitted[client] == tokens && states[2].sessions[client].db == db;
  }

  // ----- what the server remembers ---------------------------------------------------------------------

  /** After AUTH with the password the client may send requests; with another it may not, if it
      could not before. */
  lemma AuthOpens(config: Config, password: string, s: State, client: int, given: string, at: int, s': State)
    requires Serves(s, client) && ServerStep(config, password, s, Receive(client, ["AUTH", given], at), s')
    ensures s'.sessions[client].authenticated <==>
              s.sessions[client].authenticated || (password != "" && given == password)
  {
    hide Dispatch;
    AuthChecks(password, s.readOnly, s.sessions[client], |s.dbs|, given);
  }

  /** After READONLY the mode is as requested, for everyone. */
  lemma ModeIsSet(config: Config, password: string, s: State, client: int, on: bool, at: int, s': State)
    requires Serves(s, client) && s.sessions[client].authenticated
    requires ServerStep(config, password, s, Receive(client, ReadOnlyRequest(on), at), s')
    ensures s'.readOnly == on && s'.dbs == s.dbs
  {
    hide Dispatch, ReadOnlyRequest;
    ReadOnlySwitches(password, s.readOnly, s.sessions[client], |s.dbs|, on);
  }
}
