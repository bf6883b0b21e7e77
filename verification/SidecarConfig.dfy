/** The sidecar's configuration: what it reads from its environment, and what it refuses to start with. */
module SidecarConfig {
  import opened Options
  import opened GoStrings
  import Retry

  /** os.Getenv: an unset variable reads as an empty string. */
  type Env = string -> string

  /** Durations are in nanoseconds. */
  const SECOND: int := 1000000000

  datatype Settings = Settings(
    podName: string, namespace: string, serviceAccount: string,
    inboundPlainPort: int, outboundPort: int, inboundMTLSPort: int, mtlsEnabled: bool, metricsPort: int,
    appTargetAddr: string, shutdownTimeout: int, algorithm: string, excludeInboundPorts: string,
    attempts: int, backoffType: string, baseInterval: int, timeout: int, dialTimeout: int, copyMode: string,
    failureThreshold: int, recoveryTime: int, certFile: string, keyFile: string, caFile: string,
    signURL: string, tokenPath: string, bootstrap: bool)

  // ---- Reading one variable ----

  /** The first of the variables that is not blank and can be read. */
  function FirstOf<T>(env: Env, keys: seq<string>, read: string -> Option<T>, fallback: T): T {
    if keys == [] then fallback
    else
      var value := TrimSpace(env(keys[0]));
      if value != "" && read(value).Some? then read(value).value else FirstOf(env, keys[1..], read, fallback)
  }

  /** strconv.Atoi. */
  function ParseInt(s: string): Option<int> {
    var digits := if s != "" && s[0] in {'+', '-'} then s[1..] else s;
    if digits == "" || !AllDigits(digits) then None
    else
      var n := if s[0] == '-' then -DigitsValue(digits) else DigitsValue(digits);
      if Retry.FitsInt64(n) then Some(n) else None
  }

  /** strconv.ParseUint for 32 bits. */
  function ParseUint32(s: string): Option<int> {
    if s == "" || !AllDigits(s) || DigitsValue(s) >= 0x1_0000_0000 then None else Some(DigitsValue(s))
  }

  /** strconv.ParseBool. */
  function ParseBool(s: string): Option<bool> {
    if s in {"1", "t", "T", "true", "TRUE", "True"} then Some(true)
    else if s in {"0", "f", "F", "false", "FALSE", "False"} then Some(false)
    else None
  }

  function Text(s: string): Option<string> {
    Some(s)
  }

  /** A text that reads as itself: not blank, and without spaces at its ends. */
  predicate Trimmed(s: string) {
    s != "" && TrimSpace(s) == s
  }

  lemma FirstGiven<T>(env: Env, key: string, more: seq<string>, read: string -> Option<T>, fallback: T)
    requires Trimmed(env(key)) && read(env(key)).Some?
    ensures FirstOf(env, [key] + more, read, fallback) == read(env(key)).value
  {
    assert ([key] + more)[0] == key;
  }

  lemma SecondGiven<T>(env: Env, key: string, more: seq<string>, read: string -> Option<T>, fallback: T)
    requires Trimmed(env(key)) && read(env(key)).None?
    ensures FirstOf(env, [key] + more, read, fallback) == FirstOf(env, more, read, fallback)
  {
    assert ([key] + more)[1..] == more;
  }

  lemma {:induction false} NoneGiven<T>(env: Env, keys: seq<string>, read: string -> Option<T>, fallback: T)
    requires forall key <- keys :: env(key) == ""
    ensures FirstOf(env, keys, read, fallback) == fallback
  {
    if keys != [] {
      assert TrimSpace("") == "";
      NoneGiven(env, keys[1..], read, fallback);
    }
  }

  lemma ItoaParses(n: int)
    ensures Trimmed(Itoa(n))
    ensures ParseInt(Itoa(n)) == if Retry.FitsInt64(n) then Some(n) else None
    ensures n >= 0 ==> ParseUint32(Itoa(n)) == if n < 0x1_0000_0000 then Some(n) else None
  {
    ItoaPlain(n);
    PlainIsTrimmed(Itoa(n));
    if n < 0 {
      assert Itoa(n)[0] == '-' && Itoa(n)[1..] == Digits(-n);
      DigitsRoundTrip(-n);
    } else {
      assert '0' <= Digits(n)[0] <= '9';
      DigitsRoundTrip(n);
    }
  }

  lemma PlainIsTrimmed(s: string)
    requires s != "" && forall i :: 0 <= i < |s| ==> s[i] == '-' || '0' <= s[i] <= '9'
    ensures Trimmed(s)
  {
  }

  // ---- Reading them all ----

  /** Most variables may also be given with a prefix. */
  function Aliases(key: string): seq<string> {
    [key] + ["SIDECAR_" + key]
  }

  function ReadText(env: Env, key: string, fallback: string): string {
    FirstOf(env, Aliases(key), Text, fallback)
  }

  function ReadInt(env: Env, key: string, fallback: int): int {
    FirstOf(env, Aliases(key), ParseInt, fallback)
  }

  function ReadBool(env: Env, key: string, fallback: bool): bool {
    FirstOf(env, Aliases(key), ParseBool, fallback)
  }

  /** What the environment says; duration stands for time.ParseDuration. */
  function Read(env: Env, duration: string -> Option<int>): Settings {
    var timeout := FirstOf(env, Aliases("TIMEOUT"), duration, 5 * SECOND);
    Settings(
      podName := FirstOf(env, ["POD_NAME"], Text, "unknown-pod"),
      namespace := FirstOf(env, ["POD_NAMESPACE"], Text, "default"),
      serviceAccount := FirstOf(env, ["SERVICE_ACCOUNT"], Text, "default"),
      inboundPlainPort := ReadInt(env, "INBOUND_PLAIN_PORT", 15006),
      outboundPort := ReadInt(env, "OUTBOUND_PORT", 15002),
      inboundMTLSPort := ReadInt(env, "INBOUND_MTLS_PORT", 15001),
      mtlsEnabled := ReadBool(env, "MTLS_ENABLED", true),
      metricsPort := ReadInt(env, "METRICS_PORT", 9090),
      appTargetAddr := ReadText(env, "APP_TARGET_ADDR", "127.0.0.1:8080"),
      shutdownTimeout := FirstOf(env, Aliases("SHUTDOWN_TIMEOUT"), duration, 30 * SECOND),
      algorithm := ReadText(env, "LOAD_BALANCER_ALGORITHM", "roundRobin"),
      excludeInboundPorts := ReadText(env, "EXCLUDE_INBOUND_PORTS", "9090"),
      attempts := ReadInt(env, "RETRY_ATTEMPTS", 3),
      backoffType := ReadText(env, "RETRY_BACKOFF_TYPE", "exponential"),
      baseInterval := FirstOf(env, Aliases("RETRY_BASE_INTERVAL"), duration, SECOND / 10),
      timeout := timeout,
      dialTimeout := FirstOf(env, Aliases("DIAL_TIMEOUT"), duration, if timeout <= 0 then 5 * SECOND else timeout),
      copyMode := ReadText(env, "COPY_MODE", "buffered"),
      failureThreshold := FirstOf(env, Aliases("CIRCUIT_BREAKER_FAILURE_THRESHOLD"), ParseUint32, 5),
      recoveryTime := FirstOf(env, Aliases("CIRCUIT_BREAKER_RECOVERY_TIME"), duration, 30 * SECOND),
      certFile := ReadText(env, "CERT_FILE", ""),
      keyFile := ReadText(env, "KEY_FILE", ""),
      caFile := ReadText(env, "CA_FILE", ""),
      signURL := ReadText(env, "CERT_MANAGER_SIGN_URL",
                          "http://mesh-cert-manager.mesh-system.svc.cluster.local:8080/sign"),
      tokenPath := ReadText(env, "SERVICE_ACCOUNT_TOKEN_PATH",
                            "/var/run/secrets/kubernetes.io/serviceaccount/token"),
      bootstrap := ReadBool(env, "BOOTSTRAP_CERTIFICATES", true))
  }

  lemma IdentityReads(env: Env, duration: string -> Option<int>)
    ensures var s := Read(env, duration);
            && s.podName == FirstOf(env, ["POD_NAME"] + [], Text, "unknown-pod")
            && s.namespace == FirstOf(env, ["POD_NAMESPACE"] + [], Text, "default")
            && s.serviceAccount == FirstOf(env, ["SERVICE_ACCOUNT"] + [], Text, "default")
            && s.appTargetAddr == ReadText(env, "APP_TARGET_ADDR", "127.0.0.1:8080")
  {
    hide FirstOf, ReadText, ReadInt, ReadBool, Aliases;
    assert ["POD_NAME"] + [] == ["POD_NAME"] && ["POD_NAMESPACE"] + [] == ["POD_NAMESPACE"];
    assert ["SERVICE_ACCOUNT"] + [] == ["SERVICE_ACCOUNT"];
  }

  lemma ListenerReads(env: Env, duration: string -> Option<int>)
    ensures var s := Read(env, duration);
            && s.inboundPlainPort == ReadInt(env, "INBOUND_PLAIN_PORT", 15006)
            && s.outboundPort == ReadInt(env, "OUTBOUND_PORT", 15002)
            && s.inboundMTLSPort == ReadInt(env, "INBOUND_MTLS_PORT", 15001)
            && s.mtlsEnabled == ReadBool(env, "MTLS_ENABLED", true)
            && s.metricsPort == ReadInt(env, "METRICS_PORT", 9090)
            && s.bootstrap == ReadBool(env, "BOOTSTRAP_CERTIFICATES", true)
  {
    hide FirstOf, ReadText, ReadInt, ReadBool, Aliases;
  }

  lemma FileReads(env: Env, duration: string -> Option<int>)
    ensures var s := Read(env, duration);
            && s.certFile == ReadText(env, "CERT_FILE", "") && s.keyFile == ReadText(env, "KEY_FILE", "")
            && s.caFile == ReadText(env, "CA_FILE", "")
  {
    hide FirstOf, ReadText, ReadInt, ReadBool, Aliases;
  }

  lemma PolicyReads(env: Env, duration: string -> Option<int>)
    ensures var s := Read(env, duration);
            && s.algorithm == ReadText(env, "LOAD_BALANCER_ALGORITHM", "roundRobin")
            && s.copyMode == ReadText(env, "COPY_MODE", "buffered")
            && s.attempts == ReadInt(env, "RETRY_ATTEMPTS", 3)
            && s.timeout == FirstOf(env, Aliases("TIMEOUT"), duration, 5 * SECOND)
            && s.failureThreshold == FirstOf(env, Aliases("CIRCUIT_BREAKER_FAILURE_THRESHOLD"), ParseUint32, 5)
            && s.recoveryTime == FirstOf(env, Aliases("CIRCUIT_BREAKER_RECOVERY_TIME"), duration, 30 * SECOND)
  {
    hide FirstOf, ReadText, ReadInt, ReadBool, Aliases;
  }

  lemma DefaultReads(env: Env, duration: string -> Option<int>)
    ensures var s := Read(env, duration);
            && s.excludeInboundPorts == ReadText(env, "EXCLUDE_INBOUND_PORTS", "9090")
            && s.backoffType == ReadText(env, "RETRY_BACKOFF_TYPE", "exponential")
            && s.baseInterval == FirstOf(env, Aliases("RETRY_BASE_INTERVAL"), duration, SECOND / 10)
            && s.shutdownTimeout == FirstOf(env, Aliases("SHUTDOWN_TIMEOUT"), duration, 30 * SECOND)
            && s.dialTimeout == FirstOf(env, Aliases("DIAL_TIMEOUT"), duration,
                                        if s.timeout <= 0 then 5 * SECOND else s.timeout)
            && s.signURL == ReadText(env, "CERT_MANAGER_SIGN_URL",
                                     "http://mesh-cert-manager.mesh-system.svc.cluster.local:8080/sign")
            && s.tokenPath == ReadText(env, "SERVICE_ACCOUNT_TOKEN_PATH",
                                       "/var/run/secrets/kubernetes.io/serviceaccount/token")
  {
    hide FirstOf, ReadText, ReadInt, ReadBool, Aliases;
  }

  // ---- Checking them ----

  /** The map of ports by which Validate looks for duplicates has these keys. */
  function PortsOf(s: Settings): set<int> {
    {s.inboundPlainPort, s.outboundPort, s.metricsPort} + if s.inboundMTLSPort > 0 then {s.inboundMTLSPort} else {}
  }

  predicate ContainsPort(csv: string, port: int) {
    exists item :: item in Split(csv, ',') && ParseInt(TrimSpace(item)) == Some(port)
  }

  /** strings.LastIndexByte and strings.IndexByte. */
  function LastIn(s: string, c: char): (i: int)
    ensures -1 <= i < |s|
  {
    if s == "" then -1 else if s[|s| - 1] == c then |s| - 1 else LastIn(s[..|s| - 1], c)
  }

  function FirstIn(s: string, c: char): (i: int)
    ensures -1 <= i < |s|
  {
    if s == "" then -1
    else if s[0] == c then 0
    else
      var i := FirstIn(s[1..], c);
      if i < 0 then i else i + 1
  }

  /** net.SplitHostPort succeeds. */
  predicate SplitsHostPort(addr: string) {
    var i := LastIn(addr, ':');
    && i >= 0
    && if addr[0] == '[' then
         var end := FirstIn(addr, ']');
         end >= 0 && end + 1 == i && '[' !in addr[1..] && ']' !in addr[end + 1..]
       else ':' !in addr[..i] && '[' !in addr && ']' !in addr
  }

  /** Config.Validate. */
  predicate Accepted(s: Settings) {
    var mtls := s.mtlsEnabled && s.inboundMTLSPort > 0;
    && s.inboundPlainPort > 0 && s.outboundPort > 0 && s.metricsPort > 0
    && s.inboundMTLSPort >= 0
    && (s.mtlsEnabled ==> s.inboundMTLSPort > 0)
    && |PortsOf(s)| in {3, 4}
    && s.timeout >= 0 && s.dialTimeout > 0
    && s.copyMode in {"buffered", "zero-copy"}
    && s.shutdownTimeout > 0
    && s.attempts >= 0 && s.baseInterval > 0
    && s.backoffType in {"linear", "exponential"}
    && s.algorithm in {"none", "roundRobin", "random"}
    && (s.failureThreshold > 0 ==> s.recoveryTime > 0)
    && SplitsHostPort(s.appTargetAddr)
    && ContainsPort(s.excludeInboundPorts, s.metricsPort)
    && (mtls && s.bootstrap ==> s.signURL != "" && s.tokenPath != "")
    && (mtls && !s.bootstrap ==> s.certFile != "" && s.keyFile != "" && s.caFile != "")
  }

  /** LoadFromEnv; None when the sidecar refuses to start. */
  function Load(env: Env, duration: string -> Option<int>): Option<Settings> {
    var s := Read(env, duration);
    if !Accepted(s) then None else Some(if s.mtlsEnabled then s else s.(inboundMTLSPort := 0))
  }

  lemma {:induction false} LastInAt(s: string, c: char, i: nat)
    requires i < |s| && s[i] == c && forall j :: i < j < |s| ==> s[j] != c
    ensures LastIn(s, c) == i
  {
    if i < |s| - 1 {
      LastInAt(s[..|s| - 1], c, i);
    }
  }

  /** A loopback address with a port is one that splits. */
  lemma LoopbackSplits(port: int)
    ensures SplitsHostPort("127.0.0.1:" + Itoa(port)) && Trimmed("127.0.0.1:" + Itoa(port))
  {
    var host, addr := "127.0.0.1:", "127.0.0.1:" + Itoa(port);
    ItoaPlain(port);
    hide Itoa;
    assert forall i :: 0 <= i < 10 ==> addr[i] == host[i] && (host[i] == ':' <==> i == 9);
    assert forall i :: 10 <= i < |addr| ==> addr[i] == Itoa(port)[i - 10];
    LastInAt(addr, ':', 9);
    assert addr[0] == '1' && (addr[|addr| - 1] == '-' || '0' <= addr[|addr| - 1] <= '9');
  }

  // ---- Ports of its own ----

  /** No two of the ports the sidecar listens on are the same. */
  predicate OwnPorts(s: Settings) {
    && s.inboundPlainPort != s.outboundPort && s.inboundPlainPort != s.metricsPort && s.outboundPort != s.metricsPort
    && (s.inboundMTLSPort > 0 ==> s.inboundMTLSPort !in {s.inboundPlainPort, s.outboundPort, s.metricsPort})
  }

  lemma PortNumbers(a: int, b: int, c: int, d: int)
    ensures |{a, b, c}| == if a == b == c then 1 else if a == b || b == c || a == c then 2 else 3
    ensures |{a, b, c} + {d}| == |{a, b, c}| + if d in {a, b, c} then 0 else 1
  {
    assert a == b ==> {a, b, c} == {a, c};
    assert b == c ==> {a, b, c} == {a, b};
    assert a == c ==> {a, b, c} == {a, b};
    assert d in {a, b, c} ==> {a, b, c} + {d} == {a, b, c};
  }

  /**
   The check is meant to keep the ports unique, but with an mTLS port it counts four ports and is content with three
   different ones. So what it accepts has ports of its own exactly when there are as many as there are listeners.
   */
  lemma AcceptedPortsAreOwnIff(s: Settings)
    requires Accepted(s)
    ensures OwnPorts(s) <==> !(s.inboundMTLSPort > 0 && |PortsOf(s)| == 3)
  {
    PortNumbers(s.inboundPlainPort, s.outboundPort, s.metricsPort, s.inboundMTLSPort);
  }
}
