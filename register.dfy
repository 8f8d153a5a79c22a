/**
 * Registration bookkeeping (internal/agent/register.go): the registration
 * details built from the command line, the preferences written after a
 * successful registration, the headless registration gate and the default
 * server list.
 */
module Registration {
  import opened Wrappers
  import opened Preferences
  import AgentConfig
  import NetUrl

  /** The bindings of `hass.RegistrationDetails` the agent fills in (the device description is not modelled). */
  class RegistrationDetails {
    var server: string
    var token: string
    var useTLS: bool

    /** Fresh bindings hold their zero values. */
    constructor ()
      ensures server == "" && token == "" && !useTLS
    {
      server := "";
      token := "";
      useTLS := false;
    }
  }

  /** The fields of `hass.RegistrationResponse` the agent stores. */
  datatype RegistrationResponse = RegistrationResponse(cloudhookURL: string, remoteUIURL: string, secret: string, webhookID: string)

  /** The server binding after `newRegistration`: the parsed URL's host, or the empty initial value when parsing fails. */
  function ServerHost(server: string): string
  {
    match NetUrl.Parse(server)
    case None => ""
    case Some(u) => u.host
  }

  /** The TLS binding after `newRegistration`: set exactly when the URL parses with scheme https. */
  predicate ServerUsesTLS(server: string)
  {
    match NetUrl.Parse(server)
    case None => false
    case Some(u) => u.scheme == "https"
  }

  /**
   * `newRegistration`: fills the server and TLS bindings from the parsed
   * server URL (leaving them at their initial values when it does not parse)
   * and the token binding when a token was given.
   */
  method NewRegistration(server: string, token: string) returns (details: RegistrationDetails)
    ensures fresh(details)
    ensures details.server == ServerHost(server)
    ensures details.useTLS == ServerUsesTLS(server)
    ensures details.token == token
  {
    details := new RegistrationDetails();
    var u := NetUrl.Parse(server);
    if u.Some? {
      details.server := u.value.host;
      if u.value.scheme == "https" {
        details.useTLS := true;
      } else {
        details.useTLS := false;
      }
    }
    if token != "" {
      details.token := token;
    }
  }

  /** A server given as scheme://authority yields its authority, and TLS exactly for https. */
  lemma NewRegistrationOfServerURL(scheme: string, authority: string)
    requires NetUrl.IsServerURL(scheme, authority)
    ensures ServerHost(scheme + "://" + authority) == authority
    ensures ServerUsesTLS(scheme + "://" + authority) <==> scheme == "https"
  {
    NetUrl.ParseServerURL(scheme, authority);
  }

  /** A server given as name:port without a scheme parses as opaque: the server binding stays empty and TLS off. */
  lemma NewRegistrationOfBareHostPort(name: string, port: string)
    requires NetUrl.IsLowerWord(name) && name != "https"
    requires port != [] && port[0] != '/' && !NetUrl.HasControl(port)
    ensures ServerHost(name + ":" + port) == ""
    ensures !ServerUsesTLS(name + ":" + port)
  {
    NetUrl.ParseOpaque(name, port);
  }

  /** A server whose host Go rejects (a stray colon, a bad port, a space) leaves both bindings at their initial values. */
  lemma NewRegistrationOfInvalidHost(scheme: string, authority: string)
    requires NetUrl.IsLowerWord(scheme) && '/' !in authority && !NetUrl.HasControl(authority)
    requires !NetUrl.ValidHost(authority)
    ensures ServerHost(scheme + "://" + authority) == ""
    ensures !ServerUsesTLS(scheme + "://" + authority)
  {
    NetUrl.ParseInvalidHost(scheme, authority);
  }

  /** A server string with a control character does not parse: both bindings keep their initial values. */
  lemma NewRegistrationOfUnparsable(server: string)
    requires NetUrl.HasControl(server)
    ensures ServerHost(server) == "" && !ServerUsesTLS(server)
  {
  }

  /** Writes `value` under `key` unless it is empty. */
  function PutIfSet(m: Prefs, key: string, value: string): Prefs
  {
    if value != "" then m[key := PString(value)] else m
  }

  /** The keys `saveRegistration` writes whatever the response. */
  const AlwaysSaved: set<string> := {"Host", "UseTLS", "Token", "Version", "Registered"}

  /** The keys `saveRegistration` writes only for a non-empty response field. */
  const SavedIfSet: set<string> := {"CloudhookURL", "RemoteUIURL", "Secret", "WebhookID"}

  /** The store after `saveRegistration`. */
  function SavedPrefs(m: Prefs, r: RegistrationResponse, host: string, useTLS: bool, token: string, version: string): Prefs
  {
    var m1 := m["Host" := PString(host)]["UseTLS" := PBool(useTLS)]["Token" := PString(token)]["Version" := PString(version)];
    var m2 := PutIfSet(PutIfSet(m1, "CloudhookURL", r.cloudhookURL), "RemoteUIURL", r.remoteUIURL);
    var m3 := PutIfSet(PutIfSet(m2, "Secret", r.secret), "WebhookID", r.webhookID);
    m3["Registered" := PBool(true)]
  }

  /**
   * `saveRegistration`: stores the details and the agent version, the
   * non-empty response fields, and finally marks the agent registered.
   */
  method SaveRegistration(agent: AgentConfig.Agent, r: RegistrationResponse, h: RegistrationDetails)
    modifies agent.prefs
    ensures agent.prefs.values == SavedPrefs(old(agent.prefs.values), r, h.server, h.useTLS, h.token, agent.version)
    ensures agent.IsRegistered()
  {
    var host := h.server;
    var useTLS := h.useTLS;
    agent.SetPref("Host", AgentConfig.DString(host));
    agent.SetPref("UseTLS", AgentConfig.DBool(useTLS));
    var token := h.token;
    agent.SetPref("Token", AgentConfig.DString(token));
    agent.SetPref("Version", AgentConfig.DString(agent.version));
    if r.cloudhookURL != "" {
      agent.SetPref("CloudhookURL", AgentConfig.DString(r.cloudhookURL));
    }
    if r.remoteUIURL != "" {
      agent.SetPref("RemoteUIURL", AgentConfig.DString(r.remoteUIURL));
    }
    if r.secret != "" {
      agent.SetPref("Secret", AgentConfig.DString(r.secret));
    }
    if r.webhookID != "" {
      agent.SetPref("WebhookID", AgentConfig.DString(r.webhookID));
    }
    agent.SetPref("Registered", AgentConfig.DBool(true));
  }

  /** The details, the version and the registered flag are always stored. */
  lemma SavedAlways(m: Prefs, r: RegistrationResponse, host: string, useTLS: bool, token: string, version: string)
    ensures var s := SavedPrefs(m, r, host, useTLS, token, version);
      && StringOr(s, "Host", "") == host
      && BoolOr(s, "UseTLS", false) == useTLS
      && StringOr(s, "Token", "") == token
      && StringOr(s, "Version", "") == version
      && "Registered" in s && s["Registered"] == PBool(true)
  {
  }

  /** A response field is stored exactly when it is non-empty; otherwise its key keeps whatever it held. */
  lemma SavedConditional(m: Prefs, r: RegistrationResponse, host: string, useTLS: bool, token: string, version: string)
    ensures var s := SavedPrefs(m, r, host, useTLS, token, version);
      && (r.cloudhookURL != "" ==> "CloudhookURL" in s && s["CloudhookURL"] == PString(r.cloudhookURL))
      && (r.remoteUIURL != "" ==> "RemoteUIURL" in s && s["RemoteUIURL"] == PString(r.remoteUIURL))
      && (r.secret != "" ==> "Secret" in s && s["Secret"] == PString(r.secret))
      && (r.webhookID != "" ==> "WebhookID" in s && s["WebhookID"] == PString(r.webhookID))
      && (r.cloudhookURL == "" ==> ("CloudhookURL" in s <==> "CloudhookURL" in m) && ("CloudhookURL" in m ==> s["CloudhookURL"] == m["CloudhookURL"]))
      && (r.remoteUIURL == "" ==> ("RemoteUIURL" in s <==> "RemoteUIURL" in m) && ("RemoteUIURL" in m ==> s["RemoteUIURL"] == m["RemoteUIURL"]))
      && (r.secret == "" ==> ("Secret" in s <==> "Secret" in m) && ("Secret" in m ==> s["Secret"] == m["Secret"]))
      && (r.webhookID == "" ==> ("WebhookID" in s <==> "WebhookID" in m) && ("WebhookID" in m ==> s["WebhookID"] == m["WebhookID"]))
  {
  }

  /** No key outside the nine registration keys is touched. */
  lemma SavedOthersUnchanged(m: Prefs, r: RegistrationResponse, host: string, useTLS: bool, token: string, version: string, k: string)
    requires k !in AlwaysSaved && k !in SavedIfSet
    ensures var s := SavedPrefs(m, r, host, useTLS, token, version);
      (k in s <==> k in m) && (k in m ==> s[k] == m[k])
  {
  }

  /** The message of the headless registration gate. */
  const DetailsIncomplete := "registration details not complete"

  /**
   * `registerWithoutUI`: incomplete details are rejected without contacting
   * the server; otherwise the outcome of the registration request (passed
   * in, as the request itself is not modelled) is returned.
   */
  function RegisterWithoutUI(detailsComplete: bool, outcome: Result<RegistrationResponse, string>): (r: Result<RegistrationResponse, string>)
    ensures !detailsComplete ==> r == Err(DetailsIncomplete)
    ensures detailsComplete ==> r == outcome
  {
    if !detailsComplete then Err(DetailsIncomplete) else outcome
  }

  /** The default server offered before any discovered one. */
  const DefaultServer := "localhost:8123"

  /** The server list of `findServers`: the default, then the servers found on the network in the order found. */
  function FindServers(discovered: seq<string>): (servers: seq<string>)
    ensures |servers| == |discovered| + 1
    ensures servers[0] == DefaultServer
    ensures servers[1..] == discovered
  {
    [DefaultServer] + discovered
  }
}
