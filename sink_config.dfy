/**
 * `ClickHouseSinkConfig`: the connector settings read from the
 * properties map with their defaults, the choice between endpoints,
 * shards and a single host, and the endpoint strings it splits.
 */
module SinkConfig {
  import opened Wrappers
  import opened JavaStrings

  // ---------------------------------------------------------------------
  // Keys and defaults
  // ---------------------------------------------------------------------

  /** The setting names the configuration reads. */
  datatype Key =
    | ENDPOINTS | SHARDS | SHARD_REPLICA_WRITE_SELECTION | HOSTNAME | PORT | DATABASE | USERNAME
    | PASSWORD | SSL_ENABLED | TIMEOUT_SECONDS | RETRY_COUNT | EXACTLY_ONCE | HASH_FUNCTION_NAME

  /** The property name each setting is read from. */
  function KeyName(k: Key): string
  {
    match k
    case ENDPOINTS => "endpoints"
    case SHARDS => "shards"
    case SHARD_REPLICA_WRITE_SELECTION => "shardReplicaWriteSelection"
    case HOSTNAME => "hostname"
    case PORT => "port"
    case DATABASE => "database"
    case USERNAME => "username"
    case PASSWORD => "password"
    case SSL_ENABLED => "ssl"
    case TIMEOUT_SECONDS => "timeoutSeconds"
    case RETRY_COUNT => "retryCount"
    case EXACTLY_ONCE => "exactlyOnce"
    case HASH_FUNCTION_NAME => "hashFunctionName"
  }

  const MILLI_IN_A_SEC := 1000
  const DATABASE_DEFAULT := "default"
  const ENDPOINTS_DEFAULT := "endpoints"
  const SHARDS_DEFAULT := "shards"
  const SHARD_REPLICA_WRITE_SELECTION_DEFAULT := "Sequential"
  const HOSTNAME_DEFAULT := "hostname"
  const PORT_DEFAULT: int32 := 8443
  const USERNAME_DEFAULT := "default"
  const PASSWORD_DEFAULT := ""
  const TIMEOUT_SECONDS_DEFAULT: int32 := 30
  const RETRY_COUNT_DEFAULT: int32 := 3
  const HASH_FUNCTION_NAME_DEFAULT := "default"

  /**
   * The connector properties, as far as these settings go: each property
   * present maps to a non-null string.
   */
  type Props = map<Key, string>

  /** `props.getOrDefault(key, default)`. */
  function GetOrDefault(props: Props, key: Key, default: string): (r: string)
    ensures key in props ==> r == props[key]
    ensures key !in props ==> r == default
  {
    if key in props then props[key] else default
  }

  /** The NumberFormatException `Integer.parseInt` throws for a malformed integer setting. */
  datatype ConfigError = NumberFormat(key: Key, text: string)

  /**
   * An integer setting: the parsed property, or its default when the key
   * is absent.  `IntSettingParsesDefault` shows this is
   * `Integer.parseInt(props.getOrDefault(key, String.valueOf(default)))`.
   */
  function IntSetting(props: Props, key: Key, default: int32): (r: Result<int32, ConfigError>)
  {
    if key !in props then Success(default)
    else match ParseInt(props[key])
      case Some(v) => Success(v)
      case None => Failure(NumberFormat(key, props[key]))
  }

  /** The default is parsed from its decimal text like any other value. */
  lemma IntSettingParsesDefault(props: Props, key: Key, default: int32)
    ensures var text := GetOrDefault(props, key, DecimalString(default));
      IntSetting(props, key, default) ==
        (match ParseInt(text)
         case Some(v) => Success(v)
         case None => Failure(NumberFormat(key, text)))
  {
    ParseDecimalString(default);
  }

  /** Every value the constructor stores, as the getters return them. */
  datatype Settings = Settings(
    endpoints: string,
    shards: string,
    shardReplicaWriteSelection: string,
    hostname: Option<string>,
    port: int32,
    database: string,
    username: string,
    password: string,
    sslEnabled: bool,
    timeout: int32,
    retry: int32,
    exactlyOnce: bool,
    hashFunctionName: string)

  /**
   * The host the constructor settles on.  Setting both endpoints and
   * shards is an error that is only logged, and leaves the hostname
   * unset; setting one of them takes the hostname property or its
   * default; setting neither takes the raw hostname property.
   */
  function ChosenHostname(props: Props, endpoints: string, shards: string): Option<string>
  {
    if endpoints != ENDPOINTS_DEFAULT && shards != SHARDS_DEFAULT then None
    else if endpoints != ENDPOINTS_DEFAULT || shards != SHARDS_DEFAULT then Some(GetOrDefault(props, HOSTNAME, HOSTNAME_DEFAULT))
    else if HOSTNAME in props then Some(props[HOSTNAME])
    else None
  }

  /** What `new ClickHouseSinkConfig(props)` stores, or the exception it throws. */
  function Parse(props: Props): Result<Settings, ConfigError>
  {
    var port := IntSetting(props, PORT, PORT_DEFAULT);
    var timeoutSeconds := IntSetting(props, TIMEOUT_SECONDS, TIMEOUT_SECONDS_DEFAULT);
    var retry := IntSetting(props, RETRY_COUNT, RETRY_COUNT_DEFAULT);
    if port.Failure? then Failure(port.error)
    else if timeoutSeconds.Failure? then Failure(timeoutSeconds.error)
    else if retry.Failure? then Failure(retry.error)
    else Success(Assemble(props, port.value, timeoutSeconds.value, retry.value))
  }

  /** `timeout * MILLI_IN_A_SEC` in Java `int` arithmetic. */
  function Milliseconds(seconds: int32): int32
  {
    Wrap32(seconds * MILLI_IN_A_SEC)
  }

  /** The stored values, once the three integer settings have parsed. */
  function Assemble(props: Props, port: int32, timeoutSeconds: int32, retry: int32): Settings
  {
    var endpoints := GetOrDefault(props, ENDPOINTS, ENDPOINTS_DEFAULT);
    var shards := GetOrDefault(props, SHARDS, SHARDS_DEFAULT);
    Settings(
      endpoints,
      shards,
      GetOrDefault(props, SHARD_REPLICA_WRITE_SELECTION, SHARD_REPLICA_WRITE_SELECTION_DEFAULT),
      ChosenHostname(props, endpoints, shards),
      port,
      GetOrDefault(props, DATABASE, DATABASE_DEFAULT),
      GetOrDefault(props, USERNAME, USERNAME_DEFAULT),
      Trim(GetOrDefault(props, PASSWORD, PASSWORD_DEFAULT)),
      ParseBoolean(GetOrDefault(props, SSL_ENABLED, "false")),
      Milliseconds(timeoutSeconds),
      retry,
      ParseBoolean(GetOrDefault(props, EXACTLY_ONCE, "false")),
      GetOrDefault(props, HASH_FUNCTION_NAME, HASH_FUNCTION_NAME_DEFAULT))
  }

  /** A successful parse is the assembly of the three parsed integers. */
  lemma ParseValue(props: Props)
    requires Parse(props).Success?
    ensures IntSetting(props, PORT, PORT_DEFAULT).Success?
    ensures IntSetting(props, TIMEOUT_SECONDS, TIMEOUT_SECONDS_DEFAULT).Success?
    ensures IntSetting(props, RETRY_COUNT, RETRY_COUNT_DEFAULT).Success?
    ensures Parse(props).value == Assemble(props, IntSetting(props, PORT, PORT_DEFAULT).value,
                                           IntSetting(props, TIMEOUT_SECONDS, TIMEOUT_SECONDS_DEFAULT).value,
                                           IntSetting(props, RETRY_COUNT, RETRY_COUNT_DEFAULT).value)
  {
    ParseSucceeds(props);
    ParseAssembles(props);
  }

  lemma ParseSucceeds(props: Props)
    ensures Parse(props).Success? <==>
      && IntSetting(props, PORT, PORT_DEFAULT).Success?
      && IntSetting(props, TIMEOUT_SECONDS, TIMEOUT_SECONDS_DEFAULT).Success?
      && IntSetting(props, RETRY_COUNT, RETRY_COUNT_DEFAULT).Success?
  {
  }

  lemma ParseAssembles(props: Props)
    requires IntSetting(props, PORT, PORT_DEFAULT).Success?
    requires IntSetting(props, TIMEOUT_SECONDS, TIMEOUT_SECONDS_DEFAULT).Success?
    requires IntSetting(props, RETRY_COUNT, RETRY_COUNT_DEFAULT).Success?
    ensures Parse(props) == Success(Assemble(props, IntSetting(props, PORT, PORT_DEFAULT).value,
                                             IntSetting(props, TIMEOUT_SECONDS, TIMEOUT_SECONDS_DEFAULT).value,
                                             IntSetting(props, RETRY_COUNT, RETRY_COUNT_DEFAULT).value))
  {
  }

  // ---------------------------------------------------------------------
  // Endpoint strings
  // ---------------------------------------------------------------------

  /** A piece of the endpoint list as `getEndpoints` keeps it: stripped, unless that leaves nothing. */
  function StripEndpoint(piece: string): string
  {
    if Strip(piece) != "" then Strip(piece) else piece
  }

  /** The endpoint pieces before sorting. */
  function EndpointPieces(endpoints: string): (r: seq<string>)
    ensures |r| == |Split(endpoints, ',')|
  {
    var pieces := Split(endpoints, ',');
    seq(|pieces|, i requires 0 <= i < |pieces| => StripEndpoint(pieces[i]))
  }

  /** The shard groups: one per `;`-separated piece, each piece split on `,`. */
  function ShardGroups(shards: string): multiset<seq<string>>
  {
    GroupsOf(Split(shards, ';'))
  }

  function GroupsOf(replicas: seq<string>): multiset<seq<string>>
    decreases |replicas|
  {
    if |replicas| == 0 then multiset{}
    else GroupsOf(replicas[..|replicas| - 1]) + multiset{Split(replicas[|replicas| - 1], ',')}
  }

  /** What `updateHostNameAndPort` does to the host and port, or the exception it throws. */
  datatype Update = Update(hostname: Option<string>, port: int32, error: Option<ConfigError>)

  /**
   * `updateHostNameAndPort(s)`: only an argument that contains a colon and
   * splits into exactly two pieces is taken; the hostname is assigned
   * before the port is parsed, so a malformed port leaves the new hostname
   * behind.
   */
  function UpdateSpec(hostname: Option<string>, port: int32, s: string): Update
  {
    if ':' in s && |Split(s, ':')| == 2 then
      var hp := Split(s, ':');
      match ParseInt(hp[1])
      case Some(p) => Update(Some(hp[0]), p, None)
      case None => Update(Some(hp[0]), port, Some(NumberFormat(PORT, hp[1])))
    else Update(hostname, port, None)
  }

  // ---------------------------------------------------------------------
  // The configuration object
  // ---------------------------------------------------------------------

  class ClickHouseSinkConfig {
    var endpoints: string
    var shards: string
    var shardReplicaWriteSelection: string
    var hostname: Option<string>
    var port: int32
    var database: string
    var username: string
    var password: string
    var sslEnabled: bool
    var timeout: int32
    var retry: int32
    var exactlyOnce: bool
    var hashFunctionName: string

    /** An object holding the given values. */
    constructor (s: Settings)
      ensures Snapshot() == s
    {
      endpoints, shards, shardReplicaWriteSelection := s.endpoints, s.shards, s.shardReplicaWriteSelection;
      hostname, port := s.hostname, s.port;
      database, username, password := s.database, s.username, s.password;
      sslEnabled, timeout, retry, exactlyOnce := s.sslEnabled, s.timeout, s.retry, s.exactlyOnce;
      hashFunctionName := s.hashFunctionName;
    }

    /** The getters, together. */
    function Snapshot(): Settings
      reads this
    {
      Settings(endpoints, shards, shardReplicaWriteSelection, hostname, port, database, username,
               password, sslEnabled, timeout, retry, exactlyOnce, hashFunctionName)
    }

    /**
     * `new ClickHouseSinkConfig(props)`: the fields assigned in the
     * constructor's order, or the NumberFormatException of the first
     * integer setting that does not parse.
     */
    static method Create(props: Props) returns (r: Result<ClickHouseSinkConfig, ConfigError>)
      ensures r.Success? <==> Parse(props).Success?
      ensures r.Failure? ==> r.error == Parse(props).error
      ensures r.Success? ==> fresh(r.value) && r.value.Snapshot() == Parse(props).value
    {
      var endpoints := GetOrDefault(props, ENDPOINTS, ENDPOINTS_DEFAULT);
      var shards := GetOrDefault(props, SHARDS, SHARDS_DEFAULT);
      var hostname: Option<string> := None;
      if endpoints != ENDPOINTS_DEFAULT && shards != SHARDS_DEFAULT {
        // both set: only logged
      } else if endpoints != ENDPOINTS_DEFAULT || shards != SHARDS_DEFAULT {
        hostname := Some(GetOrDefault(props, HOSTNAME, HOSTNAME_DEFAULT));
      } else {
        hostname := if HOSTNAME in props then Some(props[HOSTNAME]) else None;
      }
      var port := IntSetting(props, PORT, PORT_DEFAULT);
      if port.Failure? {
        return Failure(port.error);
      }
      var database := GetOrDefault(props, DATABASE, DATABASE_DEFAULT);
      var username := GetOrDefault(props, USERNAME, USERNAME_DEFAULT);
      var password := Trim(GetOrDefault(props, PASSWORD, PASSWORD_DEFAULT));
      var sslEnabled := ParseBoolean(GetOrDefault(props, SSL_ENABLED, "false"));
      var timeoutSeconds := IntSetting(props, TIMEOUT_SECONDS, TIMEOUT_SECONDS_DEFAULT);
      if timeoutSeconds.Failure? {
        return Failure(timeoutSeconds.error);
      }
      var retry := IntSetting(props, RETRY_COUNT, RETRY_COUNT_DEFAULT);
      if retry.Failure? {
        return Failure(retry.error);
      }
      var exactlyOnce := ParseBoolean(GetOrDefault(props, EXACTLY_ONCE, "false"));
      var hashFunctionName := GetOrDefault(props, HASH_FUNCTION_NAME, HASH_FUNCTION_NAME_DEFAULT);
      var shardReplicaWriteSelection := GetOrDefault(props, SHARD_REPLICA_WRITE_SELECTION, SHARD_REPLICA_WRITE_SELECTION_DEFAULT);
      assert hostname == ChosenHostname(props, endpoints, shards);
      ParseAssembles(props);
      var c := new ClickHouseSinkConfig(Settings(
        endpoints, shards, shardReplicaWriteSelection, hostname, port.value, database, username, password,
        sslEnabled, Milliseconds(timeoutSeconds.value), retry.value, exactlyOnce, hashFunctionName));
      return Success(c);
    }

    /**
     * `getEndpoints()`: the endpoint list split on commas, each piece
     * stripped unless that empties it, sorted ascending in place.
     */
    method GetEndpoints() returns (r: seq<string>)
      ensures Sorted(r)
      ensures multiset(r) == multiset(EndpointPieces(endpoints))
    {
      var pieces := Split(endpoints, ',');
      var eps := new string[|pieces|](i requires 0 <= i < |pieces| => pieces[i]);
      assert eps[..] == pieces;
      StripPieces(eps);
      assert eps[..] == EndpointPieces(endpoints);
      SortStrings(eps);
      return eps[..];
    }

    /** `getShards()`: one group per `;`-separated piece, each split on `,`. */
    method GetShards() returns (shardsSet: multiset<seq<string>>)
      ensures shardsSet == ShardGroups(shards)
    {
      var replicas := Split(shards, ';');
      shardsSet := multiset{};
      var i := 0;
      while i < |replicas|
        invariant 0 <= i <= |replicas|
        invariant shardsSet == GroupsOf(replicas[..i])
      {
        assert replicas[..i + 1][..i] == replicas[..i];
        shardsSet := shardsSet + multiset{Split(replicas[i], ',')};
        i := i + 1;
      }
      assert replicas[..i] == replicas;
    }

    /** `updateHostNameAndPort(hostnameAndPort)`; every other field is left alone. */
    method UpdateHostNameAndPort(hostnameAndPort: string) returns (error: Option<ConfigError>)
      modifies this
      ensures var u := UpdateSpec(old(hostname), old(port), hostnameAndPort);
        hostname == u.hostname && port == u.port && error == u.error
      ensures endpoints == old(endpoints) && shards == old(shards) && database == old(database)
      ensures username == old(username) && password == old(password) && sslEnabled == old(sslEnabled)
      ensures timeout == old(timeout) && retry == old(retry) && exactlyOnce == old(exactlyOnce)
      ensures hashFunctionName == old(hashFunctionName) && shardReplicaWriteSelection == old(shardReplicaWriteSelection)
    {
      if ':' in hostnameAndPort {
        var hp := Split(hostnameAndPort, ':');
        if |hp| == 2 {
          hostname := Some(hp[0]);
          var p := ParseInt(hp[1]);
          if p.None? {
            return Some(NumberFormat(PORT, hp[1]));
          }
          port := p.value;
          return None;
        }
      }
      return None;
    }
  }

  /** The loop of `getEndpoints` that strips each piece in place, unless that empties it. */
  method StripPieces(eps: array<string>)
    modifies eps
    ensures |eps[..]| == |old(eps[..])|
    ensures forall k :: 0 <= k < eps.Length ==> eps[k] == StripEndpoint(old(eps[k]))
  {
    var i := 0;
    while i < eps.Length
      invariant 0 <= i <= eps.Length
      invariant forall k :: 0 <= k < i ==> eps[k] == StripEndpoint(old(eps[k]))
      invariant forall k :: i <= k < eps.Length ==> eps[k] == old(eps[k])
    {
      StripAt(eps, i);
      i := i + 1;
    }
  }

  /** One step of that loop: `eps[i]` stripped when the strip is not empty. */
  method StripAt(eps: array<string>, i: nat)
    requires i < eps.Length
    modifies eps
    ensures eps[i] == StripEndpoint(old(eps[i]))
    ensures forall k :: 0 <= k < eps.Length && k != i ==> eps[k] == old(eps[k])
  {
    var ep := Strip(eps[i]);
    if ep != "" {
      eps[i] := ep;
    }
  }

  // ---------------------------------------------------------------------
  // Sorting (`Arrays.sort` on the endpoint strings)
  // ---------------------------------------------------------------------

  /** `a[..n]` is sorted, except that the element at `j` may still be smaller than those before it. */
  predicate SortedBut(s: seq<string>, n: nat, j: nat)
    requires j < n <= |s|
  {
    && (forall p, q :: 0 <= p < q < n && p != j && q != j ==> AtMost(s[p], s[q]))
    && (forall q :: j < q < n ==> AtMost(s[j], s[q]))
  }

  /** Insertion sort by adjacent swaps, ordered by `compareTo`. */
  method SortStrings(a: array<string>)
    modifies a
    ensures Sorted(a[..])
    ensures multiset(a[..]) == multiset(old(a[..]))
  {
    var i := 0;
    while i < a.Length
      invariant 0 <= i <= a.Length
      invariant Sorted(a[..i])
      invariant multiset(a[..]) == multiset(old(a[..]))
    {
      var j := i;
      SortedButStart(a[..], i);
      while j > 0 && !AtMost(a[j - 1], a[j])
        invariant 0 <= j <= i
        invariant SortedBut(a[..], i + 1, j)
        invariant multiset(a[..]) == multiset(old(a[..]))
      {
        ghost var before := a[..];
        a[j - 1], a[j] := a[j], a[j - 1];
        SwapStep(before, a[..], i + 1, j);
        j := j - 1;
      }
      SortedButDone(a[..], i + 1, j);
      i := i + 1;
    }
    assert a[..a.Length] == a[..];
  }

  lemma SortedButStart(s: seq<string>, i: nat)
    requires i < |s| && Sorted(s[..i])
    ensures SortedBut(s, i + 1, i)
  {
    forall p, q | 0 <= p < q < i + 1 && p != i && q != i ensures AtMost(s[p], s[q]) {
      assert s[p] == s[..i][p] && s[q] == s[..i][q];
    }
  }

  lemma SwapStep(before: seq<string>, after: seq<string>, n: nat, j: nat)
    requires 0 < j < n <= |before| && SortedBut(before, n, j)
    requires !AtMost(before[j - 1], before[j])
    requires after == before[j - 1 := before[j]][j := before[j - 1]]
    ensures SortedBut(after, n, j - 1)
    ensures multiset(after) == multiset(before)
  {
    AtMostTotal(before[j - 1], before[j]);
    forall p, q | 0 <= p < q < n && p != j - 1 && q != j - 1 ensures AtMost(after[p], after[q]) {
      if q == j {
        // after[j] is the larger element that moved right; everything before j - 1 was below it
        assert after[q] == before[j - 1];
        assert AtMost(before[p], before[j - 1]);
      } else if p == j {
        assert after[p] == before[j - 1];
        assert AtMost(before[j - 1], before[q]);
      }
    }
    forall q | j - 1 < q < n ensures AtMost(after[j - 1], after[q]) {
      if q == j {
      } else {
        assert AtMost(before[j], before[q]);
      }
    }
  }

  lemma SortedButDone(s: seq<string>, n: nat, j: nat)
    requires j < n <= |s| && SortedBut(s, n, j)
    requires j > 0 ==> AtMost(s[j - 1], s[j])
    ensures Sorted(s[..n])
  {
    forall p, q | 0 <= p < q < n ensures AtMost(s[..n][p], s[..n][q]) {
      if q == j && p < j - 1 {
        AtMostTransitive(s[p], s[j - 1], s[j]);
      }
    }
  }

  // ---------------------------------------------------------------------
  // Properties
  // ---------------------------------------------------------------------

  /** The constructor throws exactly when one of the three integer settings is present and malformed. */
  lemma ParseFails(props: Props)
    ensures Parse(props).Failure? <==>
      || (PORT in props && ParseInt(props[PORT]).None?)
      || (TIMEOUT_SECONDS in props && ParseInt(props[TIMEOUT_SECONDS]).None?)
      || (RETRY_COUNT in props && ParseInt(props[RETRY_COUNT]).None?)
  {
  }

  /** `Boolean.parseBoolean("false")`, the default of both flags. */
  lemma ParseBooleanFalse()
    ensures !ParseBoolean("false")
  {
    assert |ToLowerAscii("false")| == 5;
  }

  /** Absent connection keys take their defaults. */
  lemma DefaultConnection(props: Props)
    requires Parse(props).Success?
    ensures var s := Parse(props).value;
      && (ENDPOINTS !in props ==> s.endpoints == "endpoints")
      && (SHARDS !in props ==> s.shards == "shards")
      && (SHARD_REPLICA_WRITE_SELECTION !in props ==> s.shardReplicaWriteSelection == "Sequential")
      && (PORT !in props ==> s.port == 8443)
      && (SSL_ENABLED !in props ==> !s.sslEnabled)
  {
    ParseValue(props);
    ParseBooleanFalse();
  }

  /** Absent credentials take their defaults. */
  lemma DefaultCredentials(props: Props)
    requires Parse(props).Success?
    ensures var s := Parse(props).value;
      && (DATABASE !in props ==> s.database == "default")
      && (USERNAME !in props ==> s.username == "default")
      && (PASSWORD !in props ==> s.password == "")
  {
    ParseValue(props);
    assert Trim("") == "";
  }

  /** Absent behaviour keys take their defaults; the timeout is kept in milliseconds. */
  lemma DefaultBehaviour(props: Props)
    requires Parse(props).Success?
    ensures var s := Parse(props).value;
      && (TIMEOUT_SECONDS !in props ==> s.timeout == 30000)
      && (RETRY_COUNT !in props ==> s.retry == 3)
      && (EXACTLY_ONCE !in props ==> !s.exactlyOnce)
      && (HASH_FUNCTION_NAME !in props ==> s.hashFunctionName == "default")
  {
    ParseValue(props);
    MillisecondsValue(TIMEOUT_SECONDS_DEFAULT);
    ParseBooleanFalse();
  }

  /** With no properties at all the constructor succeeds with every default and no hostname. */
  lemma EmptyProps()
    ensures Parse(map[]) == Success(Settings("endpoints", "shards", "Sequential", None, 8443, "default", "default",
                                             "", false, 30000, 3, false, "default"))
  {
    assert Trim("") == "";
    ParseBooleanFalse();
  }

  /** Which hostname the constructor keeps, by how endpoints and shards are set. */
  lemma HostnamePrecedence(props: Props)
    requires Parse(props).Success?
    ensures var s := Parse(props).value;
      var endpointsSet := s.endpoints != ENDPOINTS_DEFAULT;
      var shardsSet := s.shards != SHARDS_DEFAULT;
      && (endpointsSet && shardsSet ==> s.hostname == None)
      && (endpointsSet != shardsSet ==>
            s.hostname == Some(if HOSTNAME in props then props[HOSTNAME] else "hostname"))
      && (!endpointsSet && !shardsSet ==>
            s.hostname == (if HOSTNAME in props then Some(props[HOSTNAME]) else None))
  {
    ParseValue(props);
  }

  /**
   * The stored password is the given one with its leading and trailing
   * characters at or below U+0020 removed, and nothing else changed.
   */
  lemma PasswordTrimmed(props: Props)
    requires Parse(props).Success?
    ensures var given := GetOrDefault(props, PASSWORD, PASSWORD_DEFAULT);
      var p := Parse(props).value.password;
      && (p == "" || (!IsTrimmable(p[0]) && !IsTrimmable(p[|p| - 1])))
      && exists lo, hi :: 0 <= lo <= hi <= |given| && p == given[lo..hi]
           && (forall k :: 0 <= k < lo ==> IsTrimmable(given[k]))
           && (forall k :: hi <= k < |given| ==> IsTrimmable(given[k]))
  {
    ParseValue(props);
    TrimShape(GetOrDefault(props, PASSWORD, PASSWORD_DEFAULT));
  }

  /** `String.trim` keeps the middle of its argument, between trimmable ends. */
  lemma TrimShape(given: string)
    ensures var p := Trim(given);
      && (p == "" || (!IsTrimmable(p[0]) && !IsTrimmable(p[|p| - 1])))
      && exists lo, hi :: 0 <= lo <= hi <= |given| && p == given[lo..hi]
           && (forall k :: 0 <= k < lo ==> IsTrimmable(given[k]))
           && (forall k :: hi <= k < |given| ==> IsTrimmable(given[k]))
  {
    var front := TrimStart(given, Trimmable);
    var p := TrimEnd(front, Trimmable);
    TrimStartShape(given, Trimmable);
    TrimEndShape(front, Trimmable);
    var lo := |given| - |front|;
    var hi := lo + |p|;
    assert p == front[..|p|];
    assert given[lo..hi] == p;
    forall k | hi <= k < |given| ensures IsTrimmable(given[k]) {
      assert given[k] == front[k - lo];
    }
    if p != "" {
      assert p[0] == front[0];
    }
  }

  /** The timeout is kept in milliseconds: the seconds given times 1000, in 32-bit arithmetic. */
  lemma TimeoutMilliseconds(props: Props)
    requires Parse(props).Success?
    ensures var seconds := IntSetting(props, TIMEOUT_SECONDS, TIMEOUT_SECONDS_DEFAULT);
      && seconds.Success?
      && Parse(props).value.timeout == Milliseconds(seconds.value)
      && (-2147483 <= seconds.value <= 2147483 ==> Parse(props).value.timeout == seconds.value * 1000)
  {
    ParseValue(props);
    MillisecondsValue(IntSetting(props, TIMEOUT_SECONDS, TIMEOUT_SECONDS_DEFAULT).value);
  }

  lemma MillisecondsValue(seconds: int32)
    ensures (Milliseconds(seconds) - seconds * 1000) % 0x1_0000_0000 == 0
    ensures -2147483 <= seconds <= 2147483 ==> Milliseconds(seconds) == seconds * 1000
  {
    assert MILLI_IN_A_SEC == 1000;
  }

  /** One entry per comma-separated piece; a piece whose strip is non-empty is stripped. */
  lemma EndpointPiecesShape(endpoints: string)
    ensures var pieces := Split(endpoints, ',');
      var r := EndpointPieces(endpoints);
      && |r| == |pieces|
      && (forall i :: 0 <= i < |r| && Strip(pieces[i]) != "" ==> r[i] == Strip(pieces[i]))
      && (forall i :: 0 <= i < |r| && Strip(pieces[i]) == "" ==> r[i] == pieces[i])
      && (forall i :: 0 <= i < |r| ==> ',' !in r[i])
  {
    var pieces := Split(endpoints, ',');
    SplitPiecesFree(endpoints, ',');
    forall i | 0 <= i < |pieces| ensures ',' !in StripEndpoint(pieces[i]) {
      StripKeepsOut(pieces[i], ',');
    }
  }

  lemma SplitPiecesFree(s: string, c: char)
    ensures forall i :: 0 <= i < |Split(s, c)| ==> c !in Split(s, c)[i]
  {
    if c in s {
      SplitAllPiecesFree(s, c);
      var all := SplitAll(s, c);
      assert forall i :: 0 <= i < |Split(s, c)| ==> Split(s, c)[i] == all[i];
    }
  }

  lemma StripKeepsOut(p: string, c: char)
    requires c !in p
    ensures c !in Strip(p)
  {
    var front := TrimStart(p, JavaWhitespace);
    var t := TrimEnd(front, JavaWhitespace);
    TrimStartShape(p, JavaWhitespace);
    TrimEndShape(front, JavaWhitespace);
    forall k | 0 <= k < |t| ensures t[k] != c {
      assert t[k] == front[k] == p[|p| - |front| + k];
    }
  }

  /** The sorted endpoint list that `getEndpoints` returns is the only sorted arrangement of its pieces. */
  lemma {:induction false} SortedUnique(a: seq<string>, b: seq<string>)
    requires Sorted(a) && Sorted(b) && multiset(a) == multiset(b)
    ensures a == b
    decreases |a|
  {
    assert |a| == |multiset(a)| == |multiset(b)| == |b|;
    if |a| > 0 {
      assert a[0] in multiset(b) && b[0] in multiset(a);
      var i :| 0 <= i < |b| && b[i] == a[0];
      var j :| 0 <= j < |a| && a[j] == b[0];
      AtMostAntisymmetricAt(a, b, i, j);
      MultisetTail(a);
      MultisetTail(b);
      SortedTail(a);
      SortedTail(b);
      SortedUnique(a[1..], b[1..]);
      assert a == [a[0]] + a[1..] && b == [b[0]] + b[1..];
    }
  }

  lemma MultisetTail(a: seq<string>)
    requires |a| > 0
    ensures multiset(a[1..]) == multiset(a) - multiset{a[0]}
  {
    assert a == [a[0]] + a[1..];
  }

  lemma AtMostAntisymmetricAt(a: seq<string>, b: seq<string>, i: nat, j: nat)
    requires Sorted(a) && Sorted(b) && i < |b| && j < |a| && b[i] == a[0] && a[j] == b[0]
    ensures a[0] == b[0]
  {
    if i > 0 && j > 0 {
      assert AtMost(a[0], a[j]);
      assert AtMost(b[0], b[i]);
      AtMostAntisymmetric(a[0], b[0]);
    }
  }

  lemma SortedTail(s: seq<string>)
    requires |s| > 0 && Sorted(s)
    ensures Sorted(s[1..])
  {
    forall p, q | 0 <= p < q < |s| - 1 ensures AtMost(s[1..][p], s[1..][q]) {
      assert s[1..][p] == s[p + 1] && s[1..][q] == s[q + 1];
    }
  }

  /** One group per `;`-separated piece, each the piece split on `,`. */
  lemma {:induction false} ShardGroupsShape(replicas: seq<string>)
    ensures |GroupsOf(replicas)| == |replicas|
    ensures forall g :: g in GroupsOf(replicas) <==> exists i :: 0 <= i < |replicas| && g == Split(replicas[i], ',')
    decreases |replicas|
  {
    if |replicas| > 0 {
      var init := replicas[..|replicas| - 1];
      ShardGroupsShape(init);
      assert forall i :: 0 <= i < |init| ==> init[i] == replicas[i];
      forall g ensures g in GroupsOf(replicas) <==> exists i :: 0 <= i < |replicas| && g == Split(replicas[i], ',') {
        if g in GroupsOf(replicas) && g != Split(replicas[|replicas| - 1], ',') {
          assert g in GroupsOf(init);
        }
      }
    }
  }

  /** `host:port` is taken apart again when the host has no colon and the port is a decimal integer. */
  lemma UpdateRoundTrip(hostname: Option<string>, port: int32, host: string, newPort: int32)
    requires ':' !in host
    ensures UpdateSpec(hostname, port, host + ":" + DecimalString(newPort)) == Update(Some(host), newPort, None)
  {
    var digits := DecimalString(newPort);
    DecimalStringNoColon(newPort);
    SplitPair(host, digits, ':');
    ParseDecimalString(newPort);
    assert host + ":" + digits == host + [':'] + digits;
    assert (host + [':'] + digits)[|host|] == ':';
  }

  /** An argument without a colon, or one that does not split into two pieces, changes nothing. */
  lemma UpdateIgnored(hostname: Option<string>, port: int32, s: string)
    requires ':' !in s || |Split(s, ':')| != 2
    ensures UpdateSpec(hostname, port, s) == Update(hostname, port, None)
  {
  }

  lemma DecimalStringNoColon(n: int32)
    ensures DecimalString(n) != "" && ':' !in DecimalString(n)
  {
    var d := if n < 0 then NatDigits(-(n as int)) else NatDigits(n);
    assert forall k :: 0 <= k < |d| ==> IsDigit(d[k]);
    if n < 0 {
      assert DecimalString(n) == "-" + d;
      assert forall k :: 0 <= k < |"-" + d| ==> ("-" + d)[k] != ':' by {
        forall k | 0 <= k < |"-" + d| ensures ("-" + d)[k] != ':' {
          if k > 0 { assert ("-" + d)[k] == d[k - 1]; }
        }
      }
    }
  }
}
