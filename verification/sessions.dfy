/** The process-wide session registry, binding an account to a session,
    switching to the sandbox, and the role guard of privileged calls. */
module Sessions {
  import opened Fallible
  import opened GeminiTypes

  /** The four package-level maps and the `IsSession` flag. The maps start
      out nil; a nil map reads like an empty one, and the only code that
      allocates them is also the only code that sets `isSession`, so
      "allocated" is represented by `isSession`. */
  datatype Registry = Registry(
    apiKeys: map<int, string>,        // session ID -> API key
    apiSecrets: map<int, string>,     // session ID -> API secret
    roles: map<string, string>,       // API key -> role
    heartbeats: map<int, bool>,       // session ID -> needs heartbeat
    isSession: bool)

  /** The state before any session is added. */
  const EmptyRegistry: Registry := Registry(map[], map[], map[], map[], false)

  /** The role stored for an API key; a key never registered reads as "". */
  function RoleOf(reg: Registry, apiKey: string): string
  {
    ZeroRead(reg.roles, apiKey, "")
  }

  /** Shape every registry reachable through `AddSession` keeps: the three
      maps keyed by session ID share their keys, roles are held for exactly
      the registered API keys, and nothing is stored before `isSession`. */
  ghost predicate Valid(reg: Registry)
  {
    && reg.apiSecrets.Keys == reg.apiKeys.Keys
    && reg.heartbeats.Keys == reg.apiKeys.Keys
    && reg.roles.Keys == reg.apiKeys.Values
    && (!reg.isSession ==> reg.apiKeys == map[])
  }

  /** Registers a session. A used ID is refused and nothing changes;
      otherwise key, secret and heartbeat are stored under the ID, the role
      under the API key (replacing any role that key had), and the registry
      is marked as in use. */
  function AddSession(reg: Registry, sessionId: int, apiKey: string, apiSecret: string,
                      role: string, needsHeartbeat: bool): (r: (Registry, Outcome<Error>))
    ensures sessionId in reg.apiKeys ==>
      && r.1 == Fail(SessionIdInUse)
      && r.0.apiKeys == reg.apiKeys && r.0.apiSecrets == reg.apiSecrets
      && r.0.roles == reg.roles && r.0.heartbeats == reg.heartbeats
    ensures sessionId in reg.apiKeys && reg.isSession ==> r.0 == reg
    ensures sessionId !in reg.apiKeys ==> r.1 == Pass
    ensures r.1 == Pass ==>
      && r.0.isSession
      && r.0.apiKeys.Keys == reg.apiKeys.Keys + {sessionId}
      && r.0.apiKeys[sessionId] == apiKey
      && sessionId in r.0.apiSecrets && r.0.apiSecrets[sessionId] == apiSecret
      && sessionId in r.0.heartbeats && r.0.heartbeats[sessionId] == needsHeartbeat
      && RoleOf(r.0, apiKey) == role
  {
    // Lazy initialisation: allocating the (empty) maps is what sets the flag.
    var reg := if reg.isSession then reg else reg.(isSession := true);
    if sessionId in reg.apiKeys then
      (reg, Fail(SessionIdInUse))
    else
      (Registry(reg.apiKeys[sessionId := apiKey],
                reg.apiSecrets[sessionId := apiSecret],
                reg.roles[apiKey := role],
                reg.heartbeats[sessionId := needsHeartbeat],
                reg.isSession),
       Pass)
  }

  /** Binds the account to a registered session. The base URL is reset to
      production in every case; an unknown ID answers nil (`false`) and
      leaves the credentials alone, a known one installs exactly the
      registered key and secret. */
  function Session(reg: Registry, g: Account, sessionId: int): (r: (Account, bool))
    ensures r.0.apiUrl == ProductionUrl
    ensures r.1 <==> sessionId in reg.apiKeys
    ensures !r.1 ==> r.0 == g.(apiUrl := ProductionUrl)
    ensures r.1 ==> r.0 == g.(apiUrl := ProductionUrl,
                              apiKey := reg.apiKeys[sessionId],
                              apiSecret := ZeroRead(reg.apiSecrets, sessionId, ""))
  {
    var g := g.(apiUrl := ProductionUrl);
    if sessionId !in reg.apiKeys then
      (g, false)
    else
      (g.(apiKey := reg.apiKeys[sessionId], apiSecret := ZeroRead(reg.apiSecrets, sessionId, "")), true)
  }

  /** Points the account at the sandbox; nothing else is touched. */
  function Sandbox(g: Account): (r: Account)
    ensures r.apiUrl == SandboxUrl
    ensures r.(apiUrl := g.apiUrl) == g
  {
    g.(apiUrl := SandboxUrl)
  }

  /** The role guard: refuses when no session was ever added, and otherwise
      passes exactly when the role stored under the account's API key (""
      when there is none) is the required one. */
  function IsCorrectSession(reg: Registry, g: Account, role: string): (r: Outcome<Error>)
    ensures r == Pass <==> reg.isSession && RoleOf(reg, g.apiKey) == role
    ensures !reg.isSession ==> r == Fail(SessionNotSet)
    ensures reg.isSession && RoleOf(reg, g.apiKey) != role ==> r == Fail(IncorrectRole)
  {
    if !reg.isSession then Fail(SessionNotSet)
    else if RoleOf(reg, g.apiKey) != role then Fail(IncorrectRole)
    else Pass
  }

  // ---------------------------------------------------------------------
  // Properties relating several registry operations.

  lemma EmptyRegistryValid()
    ensures Valid(EmptyRegistry)
  {
  }

  /** `AddSession` keeps the registry's shape. */
  lemma AddSessionPreservesValid(reg: Registry, sessionId: int, apiKey: string, apiSecret: string,
                                 role: string, needsHeartbeat: bool)
    requires Valid(reg)
    ensures Valid(AddSession(reg, sessionId, apiKey, apiSecret, role, needsHeartbeat).0)
  {
    if sessionId !in reg.apiKeys {
      UpdateFreshValues(reg.apiKeys, sessionId, apiKey);
    }
  }

  /** Adding a fresh key to a map adds exactly its value to the range. */
  lemma UpdateFreshValues<K, V>(m: map<K, V>, k: K, v: V)
    requires k !in m
    ensures m[k := v].Values == m.Values + {v}
  {
    var m' := m[k := v];
    forall w | w in m'.Values
      ensures w in m.Values + {v}
    {
      var j :| j in m' && m'[j] == w;
      if j != k {
        assert m[j] == w;
      }
    }
    forall w | w in m.Values + {v}
      ensures w in m'.Values
    {
      if w == v {
        assert m'[k] == w;
      } else {
        var j :| j in m && m[j] == w;
        assert m'[j] == w;
      }
    }
  }

  /** A second registration under a used ID fails and the first
      registration is still exactly what was stored. */
  lemma DuplicateKeepsFirstRegistration(reg: Registry, id: int, key1: string, secret1: string,
                                        role1: string, hb1: bool, key2: string, secret2: string,
                                        role2: string, hb2: bool)
    requires id !in reg.apiKeys
    ensures var (reg1, _) := AddSession(reg, id, key1, secret1, role1, hb1);
            var (reg2, out) := AddSession(reg1, id, key2, secret2, role2, hb2);
            && out == Fail(SessionIdInUse)
            && reg2.apiKeys[id] == key1
            && reg2.apiSecrets[id] == secret1
            && reg2.heartbeats[id] == hb1
            && RoleOf(reg2, key1) == role1
  {
  }

  /** Registering a fresh ID leaves every other session's key, secret and
      heartbeat as they were; its role survives unless the new session
      reuses the same API key. */
  lemma AddSessionKeepsOtherSessions(reg: Registry, id: int, apiKey: string, apiSecret: string,
                                     role: string, hb: bool, other: int)
    requires other != id && other in reg.apiKeys
    ensures var reg' := AddSession(reg, id, apiKey, apiSecret, role, hb).0;
            && other in reg'.apiKeys
            && reg'.apiKeys[other] == reg.apiKeys[other]
            && ZeroRead(reg'.apiSecrets, other, "") == ZeroRead(reg.apiSecrets, other, "")
            && ZeroRead(reg'.heartbeats, other, false) == ZeroRead(reg.heartbeats, other, false)
            && (reg.apiKeys[other] != apiKey ==>
                  RoleOf(reg', reg.apiKeys[other]) == RoleOf(reg, reg.apiKeys[other]))
  {
  }

  /** Registering and then binding the same ID installs exactly the
      registered credentials on the production URL. */
  lemma AddThenBind(reg: Registry, g: Account, id: int, apiKey: string, apiSecret: string,
                    role: string, hb: bool)
    requires id !in reg.apiKeys
    ensures var reg' := AddSession(reg, id, apiKey, apiSecret, role, hb).0;
            var (g', found) := Session(reg', g, id);
            found && g'.apiKey == apiKey && g'.apiSecret == apiSecret && g'.apiUrl == ProductionUrl
            && g'.nonce == g.nonce
  {
  }

  /** A session registered with a role, once bound, passes the guard for
      that role and fails it for any other. */
  lemma BoundSessionHasItsRole(reg: Registry, g: Account, id: int, apiKey: string, apiSecret: string,
                               role: string, hb: bool, required: string)
    requires id !in reg.apiKeys
    ensures var reg' := AddSession(reg, id, apiKey, apiSecret, role, hb).0;
            var g' := Session(reg', g, id).0;
            IsCorrectSession(reg', g', required) == (if required == role then Pass else Fail(IncorrectRole))
  {
  }

  /** Because roles are keyed by API key, a later session that reuses an
      API key replaces the role an earlier session was registered with:
      the earlier session, once bound, answers to the later role. */
  lemma SharedKeyRoleOverwrite(reg: Registry, g: Account, id1: int, id2: int, apiKey: string,
                               secret1: string, secret2: string, role1: string, role2: string,
                               hb1: bool, hb2: bool)
    requires id1 != id2 && id1 !in reg.apiKeys && id2 !in reg.apiKeys
    requires role1 != role2
    ensures var reg1 := AddSession(reg, id1, apiKey, secret1, role1, hb1).0;
            var reg2 := AddSession(reg1, id2, apiKey, secret2, role2, hb2).0;
            var g1 := Session(reg2, g, id1).0;
            && IsCorrectSession(reg2, g1, role1) == Fail(IncorrectRole)
            && IsCorrectSession(reg2, g1, role2) == Pass
  {
  }

  /** Before any session is added every role check fails, even for an
      account whose key would match. */
  lemma GuardClosedBeforeFirstSession(g: Account, role: string)
    ensures IsCorrectSession(EmptyRegistry, g, role) == Fail(SessionNotSet)
  {
  }

  /** Once a session exists, an account whose key was never registered
      passes a check for the empty role: a missing key reads as "". */
  lemma UnregisteredKeyReadsEmptyRole(reg: Registry, g: Account)
    requires reg.isSession && g.apiKey !in reg.roles
    ensures IsCorrectSession(reg, g, "") == Pass
    ensures IsCorrectSession(reg, g, RoleTrader) == Fail(IncorrectRole)
  {
  }

  /** `Sandbox` followed by `Session` lands back on production: binding
      always resets the URL. */
  lemma SessionResetsSandbox(reg: Registry, g: Account, id: int)
    ensures Session(reg, Sandbox(g), id).0.apiUrl == ProductionUrl
    ensures Sandbox(Session(reg, g, id).0).apiUrl == SandboxUrl
  {
  }
}
