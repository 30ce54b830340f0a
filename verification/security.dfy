/**
 * Access predicates of the MCP database server. Request headers and the
 * process environment are passed in as values.
 */
module Security {
  import opened Text

  /** The three request headers the checks read; `null` when a header is missing. */
  datatype Headers = Headers(host: Option<string>, forwardedFor: Option<string>, realIp: Option<string>)

  /** JavaScript truthiness of a header value. */
  predicate Present(h: Option<string>) {
    h.Some? && h.value != ""
  }

  const LOOPBACK_NAMES: set<string> := {"127.0.0.1", "::1", "localhost"}

  /** The `Host` header starts like a loopback name; `localhost.evil.com` passes. */
  predicate HostIsLocal(host: string) {
    StartsWith(host, "localhost") || StartsWith(host, "127.0.0.1") || StartsWith(host, "[::1]")
  }

  /** `xForwardedFor?.split(',')[0]`: the first element, not trimmed. */
  function FirstForwarded(xff: string): (r: string)
    ensures ',' !in r && StartsWith(xff, r)
  {
    var parts := Split(xff, ',');
    FirstSplitPrefix(xff);
    parts[0]
  }

  lemma FirstSplitPrefix(s: string)
    ensures StartsWith(s, Split(s, ',')[0])
  {
    if ',' in s {
      var i := IndexOf(s, ',');
      assert Split(s, ',')[0] == s[..i];
    }
  }

  /** `xForwardedFor?.split(',')[0] || xRealIp`. */
  function ForwardedIp(h: Headers): (r: Option<string>)
    ensures Present(h.forwardedFor) && FirstForwarded(h.forwardedFor.value) != "" ==> r == Some(FirstForwarded(h.forwardedFor.value))
    ensures !Present(h.forwardedFor) || FirstForwarded(h.forwardedFor.value) == "" ==> r == h.realIp
  {
    if h.forwardedFor.Some? && FirstForwarded(h.forwardedFor.value) != "" then Some(FirstForwarded(h.forwardedFor.value))
    else h.realIp
  }

  /** `isLocalhost()`. */
  predicate IsLocalhost(h: Headers) {
    var local := HostIsLocal(if h.host.Some? then h.host.value else "");
    if Present(h.forwardedFor) || Present(h.realIp) then
      var ip := ForwardedIp(h);
      local && ip.Some? && ip.value in LOOPBACK_NAMES
    else local
  }

  /** Without forwarding headers only the host decides. */
  lemma UnforwardedUsesHost(h: Headers)
    requires !Present(h.forwardedFor) && !Present(h.realIp)
    ensures IsLocalhost(h) <==> h.host.Some? && HostIsLocal(h.host.value)
  {
  }

  /** Forwarding headers can only turn an accepted request into a rejected one. */
  lemma ForwardingOnlyRestricts(h: Headers)
    ensures IsLocalhost(h) ==> IsLocalhost(Headers(h.host, None, None))
  {
  }

  /** With forwarding headers, the first forwarded address must be a loopback name, exactly. */
  lemma ForwardedMustBeLoopback(h: Headers)
    requires Present(h.forwardedFor) || Present(h.realIp)
    ensures IsLocalhost(h) <==> h.host.Some? && HostIsLocal(h.host.value)
                                && ForwardedIp(h).Some? && ForwardedIp(h).value in LOOPBACK_NAMES
  {
  }

  /** The first element of a comma-separated list is the text up to the first comma. */
  lemma FirstForwardedOfList(a: string, rest: string)
    requires ',' !in a
    ensures FirstForwarded(a + "," + rest) == a
  {
    var s := a + "," + rest;
    assert s[|a|] == ',';
    var i := IndexOf(s, ',');
    assert s[..|a|] == a;
    assert i == |a|;
  }

  /**
   * The forwarded address is compared untrimmed: a loopback host behind
   * `127.0.0.1, 10.0.0.1` is accepted, behind ` 127.0.0.1` it is not.
   */
  lemma ForwardedListExamples(rest: string)
    ensures IsLocalhost(Headers(Some("localhost:3000"), Some("127.0.0.1," + rest), None))
    ensures !IsLocalhost(Headers(Some("localhost:3000"), Some(" 127.0.0.1"), None))
    ensures IsLocalhost(Headers(Some("localhost.evil.com"), None, None))
  {
    FirstForwardedOfList("127.0.0.1", rest);
    assert "127.0.0.1" + "," + rest == "127.0.0.1," + rest;
    assert "localhost:3000"[..9] == "localhost";
    assert "localhost.evil.com"[..9] == "localhost";
    assert ',' !in " 127.0.0.1";
    assert FirstForwarded(" 127.0.0.1") == " 127.0.0.1";
    assert " 127.0.0.1" !in LOOPBACK_NAMES;
  }

  /** `getRequestIp()`: first forwarded element, else `x-real-ip`, else `unknown`. */
  function GetRequestIp(h: Headers): (r: string)
    ensures r != ""
    ensures ForwardedIp(h).Some? && ForwardedIp(h).value != "" ==> r == ForwardedIp(h).value
  {
    var ip := ForwardedIp(h);
    if ip.Some? && ip.value != "" then ip.value else "unknown"
  }

  /** With no usable header the address is reported as `unknown`. */
  lemma RequestIpUnknown(host: Option<string>)
    ensures GetRequestIp(Headers(host, None, None)) == "unknown"
    ensures GetRequestIp(Headers(host, Some(""), Some(""))) == "unknown"
  {
  }

  /* ---------------------------------------------------------------------- */
  /* Environment                                                             */
  /* ---------------------------------------------------------------------- */

  /** A value of the validated environment object. */
  datatype ConfigValue = NumValue(n: Number) | StrValue(s: string) | BoolValue(b: bool) | Absent
  {
    predicate Truthy() {
      match this
      case NumValue(n) => n.Truthy()
      case StrValue(s) => s != ""
      case BoolValue(b) => b
      case Absent => false
    }
  }

  /**
   * The process environment, and the validated environment object when the
   * module that builds it loads (`None` sends every lookup down the fallback path).
   */
  datatype Env = Env(raw: map<string, string>, validated: Option<map<string, ConfigValue>>)
  {
    function Raw(key: string): Option<string> {
      if key in raw then Some(raw[key]) else None
    }

    function Validated(key: string): ConfigValue
      requires validated.Some?
    {
      if key in validated.value then validated.value[key] else Absent
    }
  }

  const MCP_FLAG: string := "MCP_DEV_ONLY_DB_ACCESS"
  const MCP_PUBLIC_FLAG: string := "NEXT_PUBLIC_MCP_DEV_ONLY_DB_ACCESS"

  /** `isMCPEnabled()`. */
  predicate IsMcpEnabled(env: Env) {
    if env.validated.Some? then env.Validated(MCP_FLAG).Truthy()
    else
      var v := if Present(env.Raw(MCP_FLAG)) then env.Raw(MCP_FLAG) else env.Raw(MCP_PUBLIC_FLAG);
      v == Some("true")
  }

  /** On the fallback path only the exact text `true` enables access; `TRUE` and `1` do not. */
  lemma FallbackFlagExact(env: Env)
    requires env.validated.None?
    ensures IsMcpEnabled(env) ==> env.Raw(MCP_FLAG) == Some("true") || env.Raw(MCP_PUBLIC_FLAG) == Some("true")
    ensures env.Raw(MCP_FLAG) == Some("true") ==> IsMcpEnabled(env)
    ensures env.Raw(MCP_FLAG) == Some("TRUE") || env.Raw(MCP_FLAG) == Some("1") ==> !IsMcpEnabled(env)
  {
  }

  /** `isDevelopment()`. */
  predicate IsDevelopment(env: Env) {
    env.Raw("NODE_ENV") == Some("development")
  }

  /** `getConfigInt(key, defaultValue)`. */
  function GetConfigInt(env: Env, key: string, default: Number): (r: Number)
    ensures env.validated.None? && !Present(env.Raw(key)) ==> r == default
    ensures env.validated.Some? && env.Validated(key).NumValue? ==> r == env.Validated(key).n
    ensures r.NaN? ==> default.NaN? || (env.validated.Some? && env.Validated(key) == NumValue(NaN))
  {
    if env.validated.Some? then
      match env.Validated(key)
      case NumValue(n) => n
      case StrValue(s) => if ParseInt(s).NaN? then default else ParseInt(s)
      case _ => default
    else
      var v := env.Raw(key);
      if !Present(v) then default
      else if ParseInt(v.value).NaN? then default else ParseInt(v.value)
  }

  /** A setting written as a decimal integer is read back as that integer, on either path. */
  lemma ConfigIntRoundTrip(raw: map<string, string>, key: string, i: int, default: Number)
    ensures GetConfigInt(Env(raw[key := IntToString(i)], None), key, default) == Int(i)
    ensures GetConfigInt(Env(raw, Some(map[key := StrValue(IntToString(i))])), key, default) == Int(i)
  {
    ParseIntRoundTrip(i);
  }

  /** A setting without digits falls back to the default. */
  lemma ConfigIntNonNumeric(raw: map<string, string>, key: string, s: string, default: Number)
    requires ParseInt(s).NaN?
    ensures GetConfigInt(Env(raw[key := s], None), key, default) == default
    ensures GetConfigInt(Env(raw, Some(map[key := StrValue(s)])), key, default) == default
  {
  }
}
