// The connection cache: clients by connection name, checked by the resource
// versions of the connection and of its credentials secret. Concurrent calls
// interleave between its three lock regions and its two reads.

module ConnectionCache {
  import opened Wrappers

  const DEFAULT_ADMIN_REALM := "master"

  datatype Connection = Connection(url: string, adminRealm: Option<string>, insecure: Option<bool>,
                                   auth: Option<string>, credentials: string)

  type Data = map<string, string>

  datatype Auth = Password | ServiceAccount

  datatype Config = Config(name: string, url: string, adminRealm: string, insecure: bool, auth: Auth,
                           username: string, password: string, clientId: string, clientSecret: string)

  // A client is an object of its own: two built alike are still different.
  datatype Client = Client(serial: nat, config: Config)

  datatype Cached = Cached(client: Client, connVersion: string, secretVersion: string)

  type Cache = map<string, Cached>

  function Key(namespace: string, name: string): (r: string)
  {
    namespace + "/" + name
  }

  // Namespaces hold no slash, so a key belongs to one connection.
  lemma {:induction false} KeyInjective(ns: string, name: string, ns': string, name': string)
    requires '/' !in ns && '/' !in ns' && Key(ns, name) == Key(ns', name')
    ensures ns == ns' && name == name'
  {
    var k, k' := Key(ns, name), Key(ns', name');
    assert k[|ns|] == '/' && k'[|ns'|] == '/';
    assert |ns| == |ns'|;
    assert k[..|ns|] == ns && k'[..|ns'|] == ns';
    assert k[|ns| + 1..] == name && k'[|ns'| + 1..] == name';
  }

  function Value(data: Data, key: string): (r: string)
  {
    if key in data then data[key] else ""
  }

  function Or(value: Option<string>, default: string): (r: string)
  {
    if value.Some? && value.value != "" then value.value else default
  }

  // The keys of the credentials each grant needs.
  function Needed(conn: Connection): (r: (string, string))
  {
    if Or(conn.auth, "password") == "client" then ("clientId", "clientSecret") else ("username", "password")
  }

  function BuildConfig(conn: Connection, data: Data, name: string): (r: Option<Config>)
    ensures r.Some? <==> Value(data, Needed(conn).0) != "" && Value(data, Needed(conn).1) != ""
  {
    var first, second := Value(data, Needed(conn).0), Value(data, Needed(conn).1);
    var realm, insecure := Or(conn.adminRealm, DEFAULT_ADMIN_REALM), conn.insecure == Some(true);
    if first == "" || second == "" then None
    else if Or(conn.auth, "password") == "client"
    then Some(Config(name, conn.url, realm, insecure, ServiceAccount, "", "", first, second))
    else Some(Config(name, conn.url, realm, insecure, Password, first, second, "", ""))
  }

  // The value of a key the secret has, and empty for one it lacks.
  predicate Holds(data: Data, key: string, value: string)
  {
    if key in data then data[key] == value else value == ""
  }

  // What a configuration says about a connection and its secret.
  predicate Describes(cfg: Config, conn: Connection, data: Data, name: string)
  {
    && cfg.name == name && cfg.url == conn.url
    && (conn.adminRealm == None || conn.adminRealm == Some("") ==> cfg.adminRealm == "master")
    && (conn.adminRealm.Some? && conn.adminRealm.value != "" ==> cfg.adminRealm == conn.adminRealm.value)
    && (cfg.insecure <==> conn.insecure == Some(true))
    && (if conn.auth == Some("client") then
          && cfg.auth == ServiceAccount && cfg.username == "" && cfg.password == ""
          && Holds(data, "clientId", cfg.clientId) && Holds(data, "clientSecret", cfg.clientSecret)
          && cfg.clientId != "" && cfg.clientSecret != ""
        else
          && cfg.auth == Password && cfg.clientId == "" && cfg.clientSecret == ""
          && Holds(data, "username", cfg.username) && Holds(data, "password", cfg.password)
          && cfg.username != "" && cfg.password != "")
  }

  // A configuration is built if and only if one describes the connection and
  // the secret, and it is the only one that does.
  lemma ConfigIff(conn: Connection, data: Data, name: string, cfg: Config)
    ensures BuildConfig(conn, data, name) == Some(cfg) <==> Describes(cfg, conn, data, name)
  {
    assert "client" != "password" by { assert "client"[0] == 'c' && "password"[0] == 'p'; }
    assert "client" != "" by { assert |"client"| == 6; }
  }

  // The configuration, assembled field by field.
  method ClientConfig(conn: Connection, data: Data, name: string) returns (r: Option<Config>)
    ensures r == BuildConfig(conn, data, name)
    ensures r.Some? ==> Describes(r.value, conn, data, name)
    ensures r.None? ==> forall cfg :: !Describes(cfg, conn, data, name)
  {
    forall cfg
      ensures BuildConfig(conn, data, name) == Some(cfg) <==> Describes(cfg, conn, data, name)
    {
      ConfigIff(conn, data, name, cfg);
    }
    hide Describes;
    var cfg := Config("", conn.url, DEFAULT_ADMIN_REALM, false, Password, "", "", "", "");
    if conn.adminRealm.Some? && conn.adminRealm.value != "" {
      cfg := cfg.(adminRealm := conn.adminRealm.value);
    }
    if conn.insecure.Some? {
      cfg := cfg.(insecure := conn.insecure.value);
    }
    var auth := "password";
    if conn.auth.Some? && conn.auth.value != "" {
      auth := conn.auth.value;
    }
    if auth == "client" {
      cfg := cfg.(auth := ServiceAccount, clientId := Value(data, "clientId"),
        clientSecret := Value(data, "clientSecret"));
      if cfg.clientId == "" || cfg.clientSecret == "" {
        return None;
      }
    } else {
      cfg := cfg.(auth := Password, username := Value(data, "username"), password := Value(data, "password"));
      if cfg.username == "" || cfg.password == "" {
        return None;
      }
    }
    r := Some(cfg.(name := name));
  }

  // --------------------------------------------------------------- History

  // Every state a connection or secret ever had, by version. A read returns
  // any of them, however stale.
  datatype History = History(conns: map<(string, string, string), Connection>,
    secrets: map<(string, string, string), Data>)

  datatype Versions = Versions(namespace: string, name: string, conn: string, secret: string)

  predicate ConnKnown(h: History, namespace: string, name: string, version: string)
  {
    '/' !in namespace && (namespace, name, version) in h.conns
  }

  predicate Known(h: History, v: Versions)
  {
    && ConnKnown(h, v.namespace, v.name, v.conn)
    && (v.namespace, h.conns[(v.namespace, v.name, v.conn)].credentials, v.secret) in h.secrets
  }

  // What a call without a cache would build from the same two reads.
  function Uncached(h: History, v: Versions): (r: Option<Config>)
    requires Known(h, v)
  {
    var conn := h.conns[(v.namespace, v.name, v.conn)];
    BuildConfig(conn, h.secrets[(v.namespace, conn.credentials, v.secret)], Key(v.namespace, v.name))
  }

  // A cached client is the one its two versions determine.
  ghost predicate Sound(h: History, key: string, entry: Cached)
  {
    exists ns, name ::
      var v := Versions(ns, name, entry.connVersion, entry.secretVersion);
      Known(h, v) && key == Key(ns, name) && Uncached(h, v) == Some(entry.client.config)
  }

  ghost predicate Valid(h: History, cache: Cache)
  {
    forall k :: k in cache ==> Sound(h, k, cache[k])
  }

  function Lookup(cache: Cache, v: Versions): (r: Option<Client>)
  {
    var key := Key(v.namespace, v.name);
    if key in cache && cache[key].connVersion == v.conn && cache[key].secretVersion == v.secret
    then Some(cache[key].client)
    else None
  }

  function Stored(cache: Cache, v: Versions, client: Client): (r: Cache)
  {
    cache[Key(v.namespace, v.name) := Cached(client, v.conn, v.secret)]
  }

  // A hit is the client the call would have built.
  lemma HitIsRight(h: History, cache: Cache, v: Versions)
    requires Valid(h, cache) && Known(h, v) && Lookup(cache, v).Some?
    ensures Uncached(h, v) == Some(Lookup(cache, v).value.config)
  {
    var key := Key(v.namespace, v.name);
    assert Sound(h, key, cache[key]);
    var ns, name :| Known(h, Versions(ns, name, v.conn, v.secret)) && key == Key(ns, name)
      && Uncached(h, Versions(ns, name, v.conn, v.secret)) == Some(cache[key].client.config);
    KeyInjective(ns, name, v.namespace, v.name);
  }

  // A stored client is found under its own versions, and storing it hides or
  // reveals no other.
  lemma StoredIsFound(cache: Cache, v: Versions, client: Client, v': Versions)
    requires '/' !in v.namespace && '/' !in v'.namespace
    ensures Lookup(Stored(cache, v, client), v') ==
            if v' == v then Some(client)
            else if v'.namespace == v.namespace && v'.name == v.name then None
            else Lookup(cache, v')
  {
    if Key(v'.namespace, v'.name) == Key(v.namespace, v.name) {
      KeyInjective(v'.namespace, v'.name, v.namespace, v.name);
    }
  }

  lemma StoredIsValid(h: History, cache: Cache, v: Versions, client: Client)
    requires Valid(h, cache) && Known(h, v) && Uncached(h, v) == Some(client.config)
    ensures Valid(h, Stored(cache, v, client))
  {
    var after := Stored(cache, v, client);
    forall k | k in after
      ensures Sound(h, k, after[k])
    {
      if k == Key(v.namespace, v.name) {
        assert Versions(v.namespace, v.name, v.conn, v.secret) == v;
      } else {
        assert Sound(h, k, cache[k]);
      }
    }
  }

  // -------------------------------------------------------- One call alone

  datatype Read = Found(version: string) | NotFound | ReadFailed

  datatype Outcome = Got(client: Client) | BadCredentials | Unread

  class Provider {
    var byName: Cache
    var built: nat

    constructor ()
      ensures byName == map[] && built == 0
    {
      byName, built := map[], 0;
    }

    // The three lock regions.
    method Drop(key: string)
      modifies this`byName
      ensures byName == old(byName) - {key}
    {
      byName := byName - {key};
    }

    method Find(v: Versions) returns (r: Option<Client>)
      ensures r == Lookup(byName, v)
    {
      var key := v.namespace + "/" + v.name;
      if key in byName {
        var cached := byName[key];
        if cached.connVersion == v.conn && cached.secretVersion == v.secret {
          return Some(cached.client);
        }
      }
      return None;
    }

    method Put(v: Versions, client: Client)
      modifies this`byName
      ensures byName == Stored(old(byName), v, client)
    {
      byName := byName[v.namespace + "/" + v.name := Cached(client, v.conn, v.secret)];
    }

    // A call nothing interleaves with agrees with building afresh.
    method For(h: History, namespace: string, name: string, connRead: Read, secretRead: Read) returns (r: Outcome)
      requires Valid(h, byName) && '/' !in namespace
      requires connRead.Found? ==> (namespace, name, connRead.version) in h.conns
      requires connRead.Found? && secretRead.Found? ==>
               Known(h, Versions(namespace, name, connRead.version, secretRead.version))
      modifies this
      ensures Valid(h, byName)
      ensures forall k :: k != Key(namespace, name) ==>
              (k in byName <==> k in old(byName)) && (k in byName ==> byName[k] == old(byName)[k])
      ensures connRead.NotFound? ==> Key(namespace, name) !in byName
      ensures !(connRead.Found? && secretRead.Found?) ==> r == Unread
      ensures connRead.Found? && secretRead.Found? ==>
                var v := Versions(namespace, name, connRead.version, secretRead.version);
                && (r == BadCredentials <==> Uncached(h, v).None?)
                && (r != BadCredentials ==>
                     r.Got? && Uncached(h, v) == Some(r.client.config) && Lookup(byName, v) == Some(r.client))
                && (Lookup(old(byName), v).Some? ==> r == Got(Lookup(old(byName), v).value) && byName == old(byName))
                && (Lookup(old(byName), v).None? && r.Got? ==> r.client.serial == old(built) < built)
    {
      if !connRead.Found? {
        if connRead.NotFound? {
          Drop(Key(namespace, name));
        }
        return Unread;
      }
      if !secretRead.Found? {
        return Unread;
      }
      var v := Versions(namespace, name, connRead.version, secretRead.version);
      var hit := Find(v);
      if hit.Some? {
        HitIsRight(h, byName, v);
        return Got(hit.value);
      }
      hide Valid, BuildConfig;
      var conn := h.conns[(namespace, name, connRead.version)];
      var config := ClientConfig(conn, h.secrets[(namespace, conn.credentials, secretRead.version)],
        Key(namespace, name));
      if config.None? {
        return BadCredentials;
      }
      var client := Client(built, config.value);
      built := built + 1;
      StoredIsValid(h, byName, v, client);
      Put(v, client);
      r := Got(client);
    }
  }

  // ------------------------------------------------------ Concurrent calls

  // Where a call stands. From the second read on it remembers what it read.
  datatype Thread =
    | Started(namespace: string, name: string)
    | Dropping(namespace: string, name: string)
    | HasConn(namespace: string, name: string, version: string)
    | HasBoth(v: Versions)
    | Missed(v: Versions)
    | HasClient(v: Versions, client: Client)
    | Finished(v: Versions, outcome: Outcome)
    | Stopped

  datatype State = State(cache: Cache, built: nat, threads: map<nat, Thread>)

  datatype Step = Begin(t: nat, namespace: string, name: string) | Reads(t: nat, read: Read) | Runs(t: nat)

  // One step of one call: a read, a lock region, or building a client.
  function Advance(h: History, s: State, thread: Thread, read: Read): (r: (State, Thread))
  {
    match thread
    case Started(ns, name) =>
      if read.Found? && (ns, name, read.version) in h.conns then (s, HasConn(ns, name, read.version))
      else if read.NotFound? then (s, Dropping(ns, name))
      else (s, Stopped)
    case Dropping(ns, name) => (s.(cache := s.cache - {Key(ns, name)}), Stopped)
    case HasConn(ns, name, version) =>
      if read.Found? && Known(h, Versions(ns, name, version, read.version))
      then (s, HasBoth(Versions(ns, name, version, read.version)))
      else (s, Stopped)
    case HasBoth(v) =>
      var hit := Lookup(s.cache, v);
      (s, if hit.Some? then Finished(v, Got(hit.value)) else Missed(v))
    case Missed(v) =>
      if !Known(h, v) then (s, Stopped)
      else if Uncached(h, v).None? then (s, Finished(v, BadCredentials))
      else (s.(built := s.built + 1), HasClient(v, Client(s.built, Uncached(h, v).value)))
    case HasClient(v, client) => (s.(cache := Stored(s.cache, v, client)), Finished(v, Got(client)))
    case Finished(_, _) => (s, thread)
    case Stopped => (s, thread)
  }

  function Next(h: History, s: State, step: Step): (r: State)
  {
    match step
    case Begin(t, ns, name) =>
      if t in s.threads || '/' in ns then s else s.(threads := s.threads[t := Started(ns, name)])
    case Reads(t, read) =>
      if t in s.threads && (s.threads[t].Started? || s.threads[t].HasConn?)
      then var (s', thread) := Advance(h, s, s.threads[t], read); s'.(threads := s.threads[t := thread])
      else s
    case Runs(t) =>
      if t in s.threads && !s.threads[t].Started? && !s.threads[t].HasConn?
      then var (s', thread) := Advance(h, s, s.threads[t], ReadFailed); s'.(threads := s.threads[t := thread])
      else s
  }

  function Run(h: History, s: State, steps: seq<Step>): (r: State)
  {
    if steps == [] then s else Next(h, Run(h, s, steps[..|steps| - 1]), steps[|steps| - 1])
  }

  const IDLE := State(map[], 0, map[])

  // What a call holds agrees with what it read.
  ghost predicate Honest(h: History, thread: Thread)
  {
    match thread
    case Started(ns, _) => '/' !in ns
    case Dropping(_, _) => true
    case HasConn(ns, name, version) => ConnKnown(h, ns, name, version)
    case HasBoth(v) => Known(h, v)
    case Missed(v) => Known(h, v)
    case HasClient(v, client) => Known(h, v) && Uncached(h, v) == Some(client.config)
    case Finished(v, outcome) => Known(h, v) && Agrees(outcome, Uncached(h, v))
    case Stopped => true
  }

  // The outcome a call without a cache would have had.
  predicate Agrees(outcome: Outcome, config: Option<Config>)
  {
    if config.None? then outcome == BadCredentials else outcome.Got? && outcome.client.config == config.value
  }

  ghost predicate Invariant(h: History, s: State)
  {
    Valid(h, s.cache) && forall t :: t in s.threads ==> Honest(h, s.threads[t])
  }

  lemma DroppedIsValid(h: History, cache: Cache, key: string)
    requires Valid(h, cache)
    ensures Valid(h, cache - {key})
  {
  }

  lemma AdvanceKeeps(h: History, s: State, thread: Thread, read: Read)
    requires Valid(h, s.cache) && Honest(h, thread)
    ensures var (s', thread') := Advance(h, s, thread, read);
            Valid(h, s'.cache) && Honest(h, thread') && s'.threads == s.threads
  {
    hide BuildConfig, Valid, Sound, Lookup, Stored, Key, Uncached;
    match thread
    case Dropping(ns, name) => DroppedIsValid(h, s.cache, Key(ns, name));
    case HasBoth(v) =>
      if Lookup(s.cache, v).Some? {
        HitIsRight(h, s.cache, v);
      }
    case HasClient(v, client) => StoredIsValid(h, s.cache, v, client);
    case _ =>
  }

  lemma NextKeeps(h: History, s: State, step: Step)
    requires Invariant(h, s)
    ensures Invariant(h, Next(h, s, step))
  {
    hide Advance, Valid;
    match step
    case Begin(t, ns, name) =>
    case Reads(t, read) => if t in s.threads { AdvanceKeeps(h, s, s.threads[t], read); }
    case Runs(t) => if t in s.threads { AdvanceKeeps(h, s, s.threads[t], ReadFailed); }
  }

  // The connection and the secret a call read.
  function ConnOf(h: History, v: Versions): (r: Connection)
    requires Known(h, v)
  {
    h.conns[(v.namespace, v.name, v.conn)]
  }

  function DataOf(h: History, v: Versions): (r: Data)
    requires Known(h, v)
  {
    h.secrets[(v.namespace, ConnOf(h, v).credentials, v.secret)]
  }

  // In every interleaving, each finished call has exactly the outcome of
  // building from the connection and secret it read itself: a client whose
  // configuration describes those two, or a refusal if none does.
  lemma {:induction false} CacheIsTransparent(h: History, steps: seq<Step>)
    ensures Invariant(h, Run(h, IDLE, steps))
    ensures var s := Run(h, IDLE, steps);
            forall t :: t in s.threads && s.threads[t].Finished? ==>
              var v, outcome := s.threads[t].v, s.threads[t].outcome;
              && Known(h, v) && Agrees(outcome, Uncached(h, v))
              && (outcome.Got? ==>
                    Describes(outcome.client.config, ConnOf(h, v), DataOf(h, v), v.namespace + "/" + v.name))
  {
    assert Valid(h, IDLE.cache);
    hide Valid, Next, BuildConfig, Describes;
    if steps != [] {
      CacheIsTransparent(h, steps[..|steps| - 1]);
      NextKeeps(h, Run(h, IDLE, steps[..|steps| - 1]), steps[|steps| - 1]);
    }
    var s := Run(h, IDLE, steps);
    assert Invariant(h, s);
    forall t | t in s.threads && s.threads[t].Finished?
      ensures Honest(h, s.threads[t])
      ensures s.threads[t].outcome.Got? ==>
                var v := s.threads[t].v;
                Describes(s.threads[t].outcome.client.config, ConnOf(h, v), DataOf(h, v), v.namespace + "/" + v.name)
    {
      var v, outcome := s.threads[t].v, s.threads[t].outcome;
      if outcome.Got? {
        ConfigIff(ConnOf(h, v), DataOf(h, v), Key(v.namespace, v.name), outcome.client.config);
      }
    }
  }

  // A call whose versions are cached takes that client and builds none.
  lemma HitReuses(h: History, s: State, t: nat)
    requires t in s.threads && s.threads[t].HasBoth? && Lookup(s.cache, s.threads[t].v).Some?
    ensures var s', v := Next(h, s, Runs(t)), s.threads[t].v;
            && s'.cache == s.cache && s'.built == s.built && t in s'.threads
            && s'.threads[t] == Finished(v, Got(Lookup(s.cache, v).value))
  {
  }

  // A call that does not find the connection drops its entry and no other.
  lemma NotFoundDrops(h: History, s: State, t: nat)
    requires t in s.threads && s.threads[t].Started?
    ensures var s', key := Next(h, Next(h, s, Reads(t, NotFound)), Runs(t)),
            Key(s.threads[t].namespace, s.threads[t].name);
            && key !in s'.cache && t in s'.threads && s'.threads[t] == Stopped
            && forall k :: k != key ==>
                 (k in s'.cache <==> k in s.cache) && (k in s.cache ==> s'.cache[k] == s.cache[k])
  {
  }

  // ------------------------------------------------------------ After a drop

  // A call that has read the connection and can still store a client for it.
  ghost predicate CanStore(h: History, thread: Thread, key: string)
  {
    match thread
    case HasConn(ns, name, version) =>
      Key(ns, name) == key && exists secret :: Builds(h, Versions(ns, name, version, secret))
    case HasBoth(v) => Key(v.namespace, v.name) == key && Builds(h, v)
    case Missed(v) => Key(v.namespace, v.name) == key && Builds(h, v)
    case HasClient(v, _) => Key(v.namespace, v.name) == key
    case _ => false
  }

  predicate Builds(h: History, v: Versions)
  {
    Known(h, v) && Uncached(h, v).Some?
  }

  ghost predicate Barred(h: History, s: State, key: string)
  {
    key !in s.cache && forall t :: t in s.threads ==> !CanStore(h, s.threads[t], key)
  }

  // The step is a read that finds the connection again.
  predicate Finds(s: State, step: Step, key: string)
  {
    && step.Reads? && step.read.Found? && step.t in s.threads && s.threads[step.t].Started?
    && Key(s.threads[step.t].namespace, s.threads[step.t].name) == key
  }

  ghost predicate NeverFinds(h: History, s: State, steps: seq<Step>, key: string)
  {
    forall i :: 0 <= i < |steps| ==> !Finds(Run(h, s, steps[..i]), steps[i], key)
  }

  lemma BarredStep(h: History, s: State, step: Step, key: string)
    requires Barred(h, s, key) && !Finds(s, step, key)
    ensures Barred(h, Next(h, s, step), key)
  {
    hide Known, Uncached, Key;
  }

  lemma {:induction false} StaysDropped(h: History, s: State, steps: seq<Step>, key: string)
    requires Barred(h, s, key) && NeverFinds(h, s, steps, key)
    ensures Barred(h, Run(h, s, steps), key)
  {
    hide Next, Finds, Barred;
    if steps != [] {
      var front := steps[..|steps| - 1];
      assert forall i :: 0 <= i < |front| ==> front[..i] == steps[..i];
      StaysDropped(h, s, front, key);
      BarredStep(h, Run(h, s, front), steps[|steps| - 1], key);
    }
  }

  lemma {:induction false} RunFront(h: History, s: State, step: Step, steps: seq<Step>)
    ensures Run(h, s, [step] + steps) == Run(h, Next(h, s, step), steps)
  {
    hide Next;
    if steps == [] {
      assert ([step] + steps)[..0] == [];
    } else {
      var front := steps[..|steps| - 1];
      assert ([step] + steps)[..|steps|] == [step] + front;
      RunFront(h, s, step, front);
    }
  }

  lemma NeverFindsFront(h: History, s: State, step: Step, steps: seq<Step>, key: string)
    requires !Finds(s, step, key) && NeverFinds(h, Next(h, s, step), steps, key)
    ensures NeverFinds(h, s, [step] + steps, key)
  {
    hide Next, Finds;
    var all := [step] + steps;
    forall i | 0 <= i < |all|
      ensures !Finds(Run(h, s, all[..i]), all[i], key)
    {
      if i > 0 {
        assert all[..i] == [step] + steps[..i - 1];
        RunFront(h, s, step, steps[..i - 1]);
      } else {
        assert all[..0] == [];
      }
    }
  }

  // How far a call is from storing.
  function Distance(thread: Thread): (r: nat)
  {
    match thread
    case HasConn(_, _, _) => 4
    case HasBoth(_) => 3
    case Missed(_) => 2
    case HasClient(_, _) => 1
    case _ => 0
  }

  // One step of a call that can store: it stores, or comes closer.
  lemma Closer(h: History, s: State, t: nat, key: string) returns (step: Step)
    requires key !in s.cache && t in s.threads && CanStore(h, s.threads[t], key)
    ensures var s' := Next(h, s, step);
            && !Finds(s, step, key) && t in s'.threads
            && (key in s'.cache || (CanStore(h, s'.threads[t], key)
                 && Distance(s'.threads[t]) < Distance(s.threads[t])))
  {
    var thread := s.threads[t];
    if thread.HasConn? {
      var secret :| Builds(h, Versions(thread.namespace, thread.name, thread.version, secret));
      step := Reads(t, Found(secret));
    } else {
      step := Runs(t);
    }
    hide Uncached, Key;
  }

  lemma Returns(h: History, s: State, t: nat, key: string) returns (steps: seq<Step>)
    requires t in s.threads && (key in s.cache || CanStore(h, s.threads[t], key))
    ensures NeverFinds(h, s, steps, key) && key in Run(h, s, steps).cache
    decreases Distance(s.threads[t]), key !in s.cache
  {
    hide Next, Finds, CanStore;
    if key in s.cache {
      steps := [];
    } else {
      var step := Closer(h, s, t, key);
      var s' := Next(h, s, step);
      if key in s'.cache {
        steps := [step];
        NeverFindsFront(h, s, step, [], key);
        RunFront(h, s, step, []);
        assert [step] + [] == [step];
      } else {
        var rest := Returns(h, s', t, key);
        steps := [step] + rest;
        NeverFindsFront(h, s, step, rest, key);
        RunFront(h, s, step, rest);
      }
    }
  }

  // A dropped entry can come back without any read finding the connection, if
  // and only if a call that read it earlier can still store a client.
  lemma DroppedReturnsIff(h: History, s: State, key: string)
    requires key !in s.cache
    ensures (exists steps :: NeverFinds(h, s, steps, key) && key in Run(h, s, steps).cache) <==>
            exists t :: t in s.threads && CanStore(h, s.threads[t], key)
  {
    hide CanStore, Run, NeverFinds;
    if exists t :: t in s.threads && CanStore(h, s.threads[t], key) {
      var t :| t in s.threads && CanStore(h, s.threads[t], key);
      var steps := Returns(h, s, t, key);
    } else {
      forall steps | NeverFinds(h, s, steps, key)
        ensures key !in Run(h, s, steps).cache
      {
        StaysDropped(h, s, steps, key);
      }
    }
  }

  // The smallest such run from an idle provider: one call reads the connection
  // and its secret, a second finds the connection gone and drops its entry, and
  // then the first stores its client.
  lemma DroppedEntryReturns()
    ensures var conn := Connection("u", None, None, None, "s");
            var h := History(map[("n", "c", "1") := conn],
              map[("n", "s", "1") := map["username" := "a", "password" := "b"]]);
            var before := [Begin(1, "n", "c"), Reads(1, Found("1")), Reads(1, Found("1")), Begin(2, "n", "c"),
              Reads(2, NotFound), Runs(2)];
            var s := Run(h, IDLE, before);
            && 2 in s.threads && s.threads[2] == Stopped && Key("n", "c") !in s.cache
            && exists steps :: NeverFinds(h, s, steps, Key("n", "c")) && Key("n", "c") in Run(h, s, steps).cache
  {
    var conn := Connection("u", None, None, None, "s");
    var data: Data := map["username" := "a", "password" := "b"];
    var h := History(map[("n", "c", "1") := conn], map[("n", "s", "1") := data]);
    var v := Versions("n", "c", "1", "1");
    assert Known(h, v) && Uncached(h, v).Some?;
    var s1 := Next(h, IDLE, Begin(1, "n", "c"));
    var s2 := Next(h, s1, Reads(1, Found("1")));
    var s3 := Next(h, s2, Reads(1, Found("1")));
    assert s3.threads[1] == HasBoth(v);
    var s4 := Next(h, s3, Begin(2, "n", "c"));
    var s5 := Next(h, s4, Reads(2, NotFound));
    var s6 := Next(h, s5, Runs(2));
    assert s6.threads[1] == HasBoth(v) && s6.threads[2] == Stopped && s6.cache == map[];
    hide Next, Uncached, Known, Key;
    var before := [Begin(1, "n", "c"), Reads(1, Found("1")), Reads(1, Found("1")), Begin(2, "n", "c"),
      Reads(2, NotFound), Runs(2)];
    RunFronts(h, IDLE, before);
    assert Run(h, IDLE, before) == s6;
    assert CanStore(h, s6.threads[1], Key("n", "c"));
    DroppedReturnsIff(h, s6, Key("n", "c"));
  }

  // Six steps one by one.
  lemma RunFronts(h: History, s: State, steps: seq<Step>)
    requires |steps| == 6
    ensures Run(h, s, steps) ==
            Next(h, Next(h, Next(h, Next(h, Next(h, Next(h, s, steps[0]), steps[1]), steps[2]), steps[3]), steps[4]),
              steps[5])
  {
    hide Next;
    var t := steps;
    assert t == [t[0]] + ([t[1]] + ([t[2]] + ([t[3]] + ([t[4]] + ([t[5]] + [])))));
    var s1 := Next(h, s, t[0]);
    var s2 := Next(h, s1, t[1]);
    var s3 := Next(h, s2, t[2]);
    var s4 := Next(h, s3, t[3]);
    var s5 := Next(h, s4, t[4]);
    RunFront(h, s5, t[5], []);
    RunFront(h, s4, t[4], [t[5]] + []);
    RunFront(h, s3, t[3], [t[4]] + ([t[5]] + []));
    RunFront(h, s2, t[2], [t[3]] + ([t[4]] + ([t[5]] + [])));
    RunFront(h, s1, t[1], [t[2]] + ([t[3]] + ([t[4]] + ([t[5]] + []))));
    RunFront(h, s, t[0], [t[1]] + ([t[2]] + ([t[3]] + ([t[4]] + ([t[5]] + [])))));
  }
}
