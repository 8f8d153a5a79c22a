/**
 * The agent configuration (internal/agent/config.go): typed reads and writes
 * of the preferences store, validation of the connection settings, and the
 * version-gated upgrade that rewrites the stored Host and derives the API and
 * websocket URLs.
 */
module AgentConfig {
  import opened Wrappers
  import opened Preferences
  import Semver
  import NetUrl
  import UrlEscape
  import Validation
  import Decimal

  const WebsocketPath := "/api/websocket"
  const WebhookPath := "/api/webhook/"

  /** A Go `interface{}` handed to or returned by the configuration: a string, a bool, or a value of some other Go type. */
  datatype Dynamic = DString(s: string) | DBool(b: bool) | DOther(goType: string)

  /** The error of `Set` for a value that is neither a string nor a bool. */
  datatype SetError = CouldNotSet(property: string, value: Dynamic)

  /**
   * The store after a typed write: a string or a bool is stored under exactly
   * `key`; a value of any other type leaves the store as it was.
   */
  function Stored(m: Prefs, key: string, value: Dynamic): (r: Prefs)
    ensures forall k :: k != key ==> (k in r <==> k in m) && (k in r ==> r[k] == m[k])
    ensures value.DString? ==> key in r && r[key] == PString(value.s)
    ensures value.DBool? ==> key in r && r[key] == PBool(value.b)
    ensures value.DOther? ==> r == m
  {
    match value
    case DString(s) => m[key := PString(s)]
    case DBool(b) => m[key := PBool(b)]
    case DOther(_) => m
  }

  /**
   * A typed write is read back by the typed read of the same key, and no
   * typed read of another key sees it.
   */
  lemma StoredReadBack(m: Prefs, key: string, value: Dynamic, other: string)
    ensures value.DString? ==> StringOr(Stored(m, key, value), key, "") == value.s
    ensures value.DBool? ==> BoolOr(Stored(m, key, value), key, false) == value.b
    ensures other != key || value.DOther? ==>
      StringOr(Stored(m, key, value), other, "") == StringOr(m, other, "")
      && BoolOr(Stored(m, key, value), other, false) == BoolOr(m, other, false)
  {
  }

  /** The properties `Get` reads as strings, with the preference key each is stored under. */
  const StringProperties: map<string, string> := map[
    "websocketURL" := "WebSocketURL",
    "apiURL" := "ApiURL",
    "token" := "Token",
    "webhookID" := "WebhookID",
    "secret" := "Secret",
    "host" := "Host"]

  /** Every property name `Get` recognises. */
  const KnownProperties: set<string> := StringProperties.Keys + {"version", "useTLS"}

  const ApiURLError := "apiURL does not match either a URL, hostname or hostname:port"
  const WebsocketURLError := "websocketURL does not match either a URL, hostname or hostname:port"
  const TokenError := "invalid long-lived token format"
  const WebhookIDError := "invalid webhookID format"

  /** `required,url`. */
  predicate URLCheck(s: string) { Validation.Required(s) && Validation.IsURL(s) }

  /** `required,ascii`. */
  predicate ASCIICheck(s: string) { Validation.Required(s) && Validation.IsASCII(s) }

  /** The agent's own view of the store (`Agent` in config.go). */
  class Agent {
    const prefs: Store
    /** The agent's build version. */
    const version: string

    constructor (prefs: Store, version: string)
      ensures this.prefs == prefs && this.version == version
    {
      this.prefs := prefs;
      this.version := version;
    }

    /** The stored "Version", or "" when it is missing or not a string. */
    function AppConfigVersion(): (v: string)
      reads prefs
      ensures "Version" in prefs.values && prefs.values["Version"].PString? ==> v == prefs.values["Version"].s
      ensures !("Version" in prefs.values && prefs.values["Version"].PString?) ==> v == ""
    {
      prefs.String("Version")
    }

    /** The stored device name and device identifier, each "" when missing or not a string. */
    function DeviceDetails(): (r: (string, string))
      reads prefs
      ensures "DeviceName" in prefs.values && prefs.values["DeviceName"].PString? ==> r.0 == prefs.values["DeviceName"].s
      ensures !("DeviceName" in prefs.values && prefs.values["DeviceName"].PString?) ==> r.0 == ""
      ensures "DeviceID" in prefs.values && prefs.values["DeviceID"].PString? ==> r.1 == prefs.values["DeviceID"].s
      ensures !("DeviceID" in prefs.values && prefs.values["DeviceID"].PString?) ==> r.1 == ""
    {
      (prefs.String("DeviceName"), prefs.String("DeviceID"))
    }

    /** Registered exactly when the store holds the boolean true under "Registered". */
    function IsRegistered(): (r: bool)
      reads prefs
      ensures r <==> "Registered" in prefs.values && prefs.values["Registered"] == PBool(true)
    {
      prefs.BoolWithFallback("Registered", false)
    }

    /** Writes strings and bools; silently ignores values of any other type. */
    method SetPref(pref: string, value: Dynamic)
      modifies prefs
      ensures prefs.values == Stored(old(prefs.values), pref, value)
    {
      if value.DString? {
        prefs.SetString(pref, value.s);
        return;
      }
      if value.DBool? {
        prefs.SetBool(pref, value.b);
        return;
      }
    }
  }

  /** The stored version, falling back to the running build's version when unset. */
  function ConfigVersion(m: Prefs, appVersion: string): string
  {
    StringOr(m, "Version", appVersion)
  }

  predicate BelowV140(m: Prefs, appVersion: string)
  {
    Semver.Compare(ConfigVersion(m, appVersion), "v1.4.0") < 0
  }

  predicate BelowV143(m: Prefs, appVersion: string)
  {
    Semver.Compare(ConfigVersion(m, appVersion), "v1.4.3") < 0
  }

  /** The stored Host prefixed with the scheme the stored UseTLS flag selects. */
  function HostWithScheme(m: Prefs): string
  {
    (if BoolOr(m, "UseTLS", false) then "https://" else "http://") + StringOr(m, "Host", "")
  }

  /** The Host join is only evaluated (and only dereferences the parse result) when its branch is taken. */
  predicate ApiURLDefined(m: Prefs)
  {
    var cloudhook, remoteUI := StringOr(m, "CloudhookURL", ""), StringOr(m, "RemoteUIURL", "");
    var webhookID, host := StringOr(m, "WebhookID", ""), StringOr(m, "Host", "");
    (cloudhook == "" && !(remoteUI != "" && webhookID != "") && webhookID != "" && host != "") ==>
      NetUrl.Parse(host).Some?
  }

  /** The API URL `generateAPIURL` derives from the store. */
  function ApiURLFor(m: Prefs): string
    requires ApiURLDefined(m)
  {
    var cloudhook, remoteUI := StringOr(m, "CloudhookURL", ""), StringOr(m, "RemoteUIURL", "");
    var webhookID, host := StringOr(m, "WebhookID", ""), StringOr(m, "Host", "");
    if cloudhook != "" then cloudhook
    else if remoteUI != "" && webhookID != "" then remoteUI + WebhookPath + webhookID
    else if webhookID != "" && host != "" then NetUrl.ToString(WebhookURLOf(NetUrl.Parse(host).value, webhookID))
    else ""
  }

  /** The parsed Host with the webhook path and the webhook identifier joined onto its path. */
  function WebhookURLOf(u: NetUrl.Url, webhookID: string): NetUrl.Url
  {
    NetUrl.JoinPath(u, [WebhookPath, webhookID])
  }

  /** The parsed Host with its scheme replaced (https by wss, anything else by ws) and the websocket path joined on. */
  function WebsocketURLOf(u: NetUrl.Url): NetUrl.Url
  {
    var scheme := if u.scheme == "https" then "wss" else "ws";
    NetUrl.JoinPath(u.(scheme := scheme), [WebsocketPath])
  }

  /** The websocket URL `generateWebsocketURL` derives from a Host. */
  function WebsocketURLFor(host: string): string
    requires NetUrl.Parse(host).Some?
  {
    NetUrl.ToString(WebsocketURLOf(NetUrl.Parse(host).value))
  }

  predicate URLsDefined(m: Prefs) { NetUrl.Parse(StringOr(m, "Host", "")).Some? }

  lemma URLsDefinedAfterApiURL(m: Prefs, apiURL: string)
    ensures StringOr(m["ApiURL" := PString(apiURL)], "Host", "") == StringOr(m, "Host", "")
  {
  }

  /** ApiURL and then WebSocketURL regenerated, as the second upgrade step does. */
  function WithURLs(m: Prefs): Prefs
    requires URLsDefined(m)
  {
    var m1 := m["ApiURL" := PString(ApiURLFor(m))];
    assert StringOr(m1, "Host", "") == StringOr(m, "Host", "");
    m1["WebSocketURL" := PString(WebsocketURLFor(StringOr(m1, "Host", "")))]
  }

  /** The store after the first upgrade step (only for configurations older than v1.4.0). */
  function HostRewritten(m: Prefs, appVersion: string): Prefs
  {
    if BelowV140(m, appVersion) then m["Host" := PString(HostWithScheme(m))] else m
  }

  /** The URLs are only regenerated when the Host they are derived from parses. */
  predicate UpgradeDefined(m: Prefs, appVersion: string)
  {
    BelowV140(m, appVersion) || BelowV143(m, appVersion) ==> URLsDefined(HostRewritten(m, appVersion))
  }

  /**
   * The store after `Upgrade`: the first step for versions before v1.4.0 falls
   * through into the second, which runs for versions before v1.4.3; the
   * version is then set to the running build's.
   */
  function Upgraded(m: Prefs, appVersion: string): Prefs
    requires UpgradeDefined(m, appVersion)
  {
    var m1 := HostRewritten(m, appVersion);
    var m2 := if BelowV140(m, appVersion) || BelowV143(m, appVersion) then WithURLs(m1) else m1;
    m2["Version" := PString(appVersion)]
  }

  /** The configuration view of the store (`agentConfig`). */
  class Config {
    const prefs: Store
    /** The running build's version (the package variable `Version`). */
    const appVersion: string

    constructor (prefs: Store, appVersion: string)
      ensures this.prefs == prefs && this.appVersion == appVersion
    {
      this.prefs := prefs;
      this.appVersion := appVersion;
    }

    /**
     * Reads a property: strings for the string properties, a bool for
     * "useTLS", the stored or else the running version for "version", and an
     * error for any other name.
     */
    function Get(property: string): (r: Result<Dynamic, string>)
      reads prefs
      ensures r.Err? <==> property !in KnownProperties
      ensures r.Err? ==> r.error == "unknown config property " + property
      ensures property == "version" ==> r == Ok(DString(StringOr(prefs.values, "Version", appVersion)))
      ensures property in StringProperties ==>
        r == Ok(DString(StringOr(prefs.values, StringProperties[property], "")))
      ensures property == "useTLS" ==> r == Ok(DBool(BoolOr(prefs.values, "UseTLS", false)))
    {
      if property == "version" then Ok(DString(prefs.StringWithFallback("Version", appVersion)))
      else if property == "websocketURL" then Ok(DString(prefs.String("WebSocketURL")))
      else if property == "apiURL" then Ok(DString(prefs.String("ApiURL")))
      else if property == "token" then Ok(DString(prefs.String("Token")))
      else if property == "webhookID" then Ok(DString(prefs.String("WebhookID")))
      else if property == "secret" then Ok(DString(prefs.String("Secret")))
      else if property == "host" then Ok(DString(prefs.String("Host")))
      else if property == "useTLS" then Ok(DBool(prefs.Bool("UseTLS")))
      else Err("unknown config property " + property)
    }

    /** Stores a string or a bool under `property`; any other value is an error and changes nothing. */
    method Set(property: string, value: Dynamic) returns (err: Option<SetError>)
      modifies prefs
      ensures prefs.values == Stored(old(prefs.values), property, value)
      ensures err.None? <==> !value.DOther?
      ensures err.Some? ==> err.value == CouldNotSet(property, value)
    {
      if value.DString? {
        prefs.SetString(property, value.s);
        return None;
      }
      if value.DBool? {
        prefs.SetBool(property, value.b);
        return None;
      }
      return Some(CouldNotSet(property, value));
    }

    /**
     * Checks apiURL, websocketURL, token and webhookID in that order and
     * reports the first check that fails.
     */
    function Validate(): (r: Option<string>)
      reads prefs
      ensures var api, ws := StringOr(prefs.values, "ApiURL", ""), StringOr(prefs.values, "WebSocketURL", "");
              var token, hook := StringOr(prefs.values, "Token", ""), StringOr(prefs.values, "WebhookID", "");
              && (r.None? <==> URLCheck(api) && URLCheck(ws) && ASCIICheck(token) && ASCIICheck(hook))
              && (r == Some(ApiURLError) <==> !URLCheck(api))
              && (r == Some(WebsocketURLError) <==> URLCheck(api) && !URLCheck(ws))
              && (r == Some(TokenError) <==> URLCheck(api) && URLCheck(ws) && !ASCIICheck(token))
              && (r == Some(WebhookIDError) <==>
                    URLCheck(api) && URLCheck(ws) && ASCIICheck(token) && !ASCIICheck(hook))
    {
      if !URLCheck(Get("apiURL").value.s) then Some(ApiURLError)
      else if !URLCheck(Get("websocketURL").value.s) then Some(WebsocketURLError)
      else if !ASCIICheck(Get("token").value.s) then Some(TokenError)
      else if !ASCIICheck(Get("webhookID").value.s) then Some(WebhookIDError)
      else None
    }

    /** Rewrites WebSocketURL from the stored Host. */
    method GenerateWebsocketURL()
      requires URLsDefined(prefs.values)
      modifies prefs
      ensures prefs.values ==
        old(prefs.values)["WebSocketURL" := PString(WebsocketURLFor(StringOr(old(prefs.values), "Host", "")))]
    {
      var host := prefs.String("Host");
      var url := NetUrl.Parse(host).value;
      if url.scheme == "https" {
        url := url.(scheme := "wss");
      } else {
        url := url.(scheme := "ws");
      }
      url := NetUrl.JoinPath(url, [WebsocketPath]);
      var _ := Set("WebSocketURL", DString(NetUrl.ToString(url)));
    }

    /** Rewrites ApiURL (always, possibly to "") from the stored cloudhook, remote UI, webhook and host settings. */
    method GenerateAPIURL()
      requires ApiURLDefined(prefs.values)
      modifies prefs
      ensures prefs.values == old(prefs.values)["ApiURL" := PString(ApiURLFor(old(prefs.values)))]
    {
      var cloudhookURL := prefs.String("CloudhookURL");
      var remoteUIURL := prefs.String("RemoteUIURL");
      var webhookID := prefs.String("WebhookID");
      var host := prefs.String("Host");
      var apiURL: string;
      if cloudhookURL != "" {
        apiURL := cloudhookURL;
      } else if remoteUIURL != "" && webhookID != "" {
        apiURL := remoteUIURL + WebhookPath + webhookID;
      } else if webhookID != "" && host != "" {
        var url := NetUrl.Parse(host).value;
        url := NetUrl.JoinPath(url, [WebhookPath, webhookID]);
        apiURL := NetUrl.ToString(url);
      } else {
        apiURL := "";
      }
      var _ := Set("ApiURL", DString(apiURL));
    }

    /** The second upgrade step: ApiURL, then WebSocketURL. */
    method RegenerateURLs()
      requires URLsDefined(prefs.values)
      modifies prefs
      ensures prefs.values == WithURLs(old(prefs.values))
    {
      GenerateAPIURL();
      URLsDefinedAfterApiURL(old(prefs.values), ApiURLFor(old(prefs.values)));
      GenerateWebsocketURL();
    }

    /** The first upgrade step: prefixes the stored Host with the scheme the stored UseTLS flag selects. */
    method PrefixHostScheme()
      modifies prefs
      ensures prefs.values == old(prefs.values)["Host" := PString(HostWithScheme(old(prefs.values)))]
    {
      var hostString := Get("host").value.s;
      var useTLS := Get("useTLS").value.b;
      if useTLS {
        hostString := "https://" + hostString;
      } else {
        hostString := "http://" + hostString;
      }
      var _ := Set("Host", DString(hostString));
    }

    /**
     * Brings a stored configuration up to date. The error returns of the
     * source cannot happen: `Get` always succeeds for "version", "host" and
     * "useTLS" with a value of the expected type, and `Set` of a string
     * always succeeds.
     */
    method Upgrade() returns (err: Option<string>)
      requires UpgradeDefined(prefs.values, appVersion)
      modifies prefs
      ensures err.None?
      ensures prefs.values == Upgraded(old(prefs.values), appVersion)
    {
      ghost var m := prefs.values;
      var versionString := Get("version").value.s;
      assert versionString == ConfigVersion(m, appVersion);
      var belowV140 := Semver.Compare(versionString, "v1.4.0") < 0;
      if belowV140 {
        PrefixHostScheme();
      }
      assert prefs.values == HostRewritten(m, appVersion);
      // the first case falls through into the second
      if belowV140 || Semver.Compare(versionString, "v1.4.3") < 0 {
        RegenerateURLs();
      }
      var _ := Set("Version", DString(appVersion));
      return None;
    }
  }

  // ---------------------------------------------------------------------
  // Properties of the derived URLs and of the upgrade

  /** The websocket path is the names "api" and "websocket", each behind a slash. */
  lemma WebsocketPathNames()
    ensures WebsocketPath == NetUrl.Slashed(["api", "websocket"])
  {
    assert ["api", "websocket"][..1] == ["api"] && ["api"][..0] == [];
  }

  /** The webhook path is the names "api" and "webhook", each behind a slash, and a trailing slash. */
  lemma WebhookPathNames()
    ensures WebhookPath == NetUrl.Slashed(["api", "webhook"]) + "/"
  {
    assert ["api", "webhook"][..1] == ["api"] && ["api"][..0] == [];
  }

  /**
   * The websocket path joined onto any URL: the path handed to `setPath` is
   * the cleaned path with the websocket path appended, relative when the
   * URL path was.
   */
  lemma JoinWebsocketPath(u: NetUrl.Url)
    ensures var c := NetUrl.CleanBase(u.path) + WebsocketPath;
      NetUrl.JoinedPath(u, [WebsocketPath]) == if NetUrl.HasPrefix(u.path, "/") then c else c[1..]
  {
    WebsocketPathNames();
    NetUrl.JoinPathNames(u, ["api", "websocket"]);
  }

  /**
   * The webhook path and an identifier that is a single path name, joined
   * onto any URL: the path handed to `setPath` is the cleaned path with both
   * appended, relative when the URL path was.
   */
  lemma JoinWebhookPath(u: NetUrl.Url, webhookID: string)
    requires NetUrl.IsName(webhookID)
    ensures var c := NetUrl.CleanBase(u.path) + (WebhookPath + webhookID);
      NetUrl.JoinedPath(u, [WebhookPath, webhookID]) == if NetUrl.HasPrefix(u.path, "/") then c else c[1..]
  {
    WebhookPathNames();
    NetUrl.JoinPathDirThenName(u, ["api", "webhook"], webhookID);
  }

  lemma WebsocketPathPlain()
    ensures UrlEscape.IsPlain(WebsocketPath, UrlEscape.EncodePath)
    ensures UrlEscape.IsPlain(WebsocketPath[1..], UrlEscape.EncodePath)
  {
  }

  lemma WebhookPathPlain()
    ensures UrlEscape.IsPlain(WebhookPath, UrlEscape.EncodePath)
    ensures UrlEscape.IsPlain(WebhookPath[1..], UrlEscape.EncodePath)
  {
  }

  /**
   * Whatever the parsed Host, the websocket URL keeps its host and opaque
   * part and has scheme wss exactly when the Host's scheme is https (ws
   * otherwise). For a Host path with valid escapes, as every parsed one
   * has, its path ends with the websocket path (less its leading slash,
   * which a relative Host path does not get).
   */
  lemma WebsocketURLShape(u: NetUrl.Url)
    ensures var v := WebsocketURLOf(u);
      && (v.scheme == "wss" <==> u.scheme == "https")
      && (v.scheme == "ws" <==> u.scheme != "https")
      && v.host == u.host && v.opaquePart == u.opaquePart
      && (UrlEscape.ValidEscapes(u.path) ==> NetUrl.HasSuffix(v.path, WebsocketPath[1..]))
  {
    var u' := u.(scheme := if u.scheme == "https" then "wss" else "ws");
    NetUrl.JoinPathKeepsEncoding(u', [WebsocketPath]);
    if UrlEscape.ValidEscapes(u.path) {
      JoinWebsocketPath(u');
      NetUrl.CleanBaseEscapes(u.path);
      WebsocketPathPlain();
      var cb := NetUrl.CleanBase(u.path);
      assert cb + WebsocketPath == cb + WebsocketPath + "";
      NetUrl.EscapedJoin(cb, WebsocketPath, "", NetUrl.HasPrefix(u.path, "/"));
      assert WebsocketPath[1..] + "" == WebsocketPath[1..];
      assert UrlEscape.Reescaped("") == "";
    }
  }

  /**
   * For a Host path with valid escapes and an identifier that is a single
   * path name with valid escapes, the webhook path (less its leading slash)
   * and the identifier, as written or escaped anew, end the path of the
   * derived API URL; its scheme, host and opaque part are the Host's.
   */
  lemma WebhookURLShape(u: NetUrl.Url, webhookID: string)
    requires NetUrl.IsName(webhookID)
    ensures var v := WebhookURLOf(u, webhookID);
      && v.scheme == u.scheme && v.host == u.host && v.opaquePart == u.opaquePart
      && (UrlEscape.ValidEscapes(u.path) && UrlEscape.ValidEscapes(webhookID) ==>
            || NetUrl.HasSuffix(v.path, WebhookPath[1..] + webhookID)
            || NetUrl.HasSuffix(v.path, WebhookPath[1..] + UrlEscape.Reescaped(webhookID)))
  {
    NetUrl.JoinPathKeepsEncoding(u, [WebhookPath, webhookID]);
    if UrlEscape.ValidEscapes(u.path) && UrlEscape.ValidEscapes(webhookID) {
      JoinWebhookPath(u, webhookID);
      NetUrl.CleanBaseEscapes(u.path);
      WebhookPathPlain();
      var cb := NetUrl.CleanBase(u.path);
      assert cb + (WebhookPath + webhookID) == cb + WebhookPath + webhookID;
      NetUrl.EscapedJoin(cb, WebhookPath, webhookID, NetUrl.HasPrefix(u.path, "/"));
    }
  }

  /** A Host with an empty (so relative) path gets the websocket path, still relative. */
  lemma WebsocketURLOfEmptyPath(u: NetUrl.Url)
    requires u.path == ""
    ensures WebsocketURLOf(u) == u.(scheme := if u.scheme == "https" then "wss" else "ws", path := WebsocketPath[1..])
  {
    var u' := u.(scheme := if u.scheme == "https" then "wss" else "ws");
    JoinWebsocketPath(u');
    NetUrl.CleanBaseOfEmpty();
    NetUrl.DropFirstBehindEmpty(NetUrl.CleanBase(u.path), WebsocketPath);
    WebsocketPathPlain();
    UrlEscape.PlainUnchanged(WebsocketPath[1..], UrlEscape.EncodePath);
    UrlEscape.PlainEncoded(WebsocketPath[1..]);
    assert WebsocketPath[1..] != "%2A";
  }

  /**
   * A Host with an empty (so relative) path gets the webhook path and the
   * identifier re-encoded, still relative; an identifier with an invalid
   * escape makes `setPath` fail and leaves the URL as it was.
   */
  lemma WebhookURLOfEmptyPath(u: NetUrl.Url, webhookID: string)
    requires u.path == "" && NetUrl.IsName(webhookID)
    ensures WebhookURLOf(u, webhookID) ==
      if UrlEscape.ValidEscapes(webhookID) then u.(path := WebhookPath[1..] + UrlEscape.Reencoded(webhookID)) else u
  {
    JoinWebhookPath(u, webhookID);
    NetUrl.CleanBaseOfEmpty();
    NetUrl.DropFirstBehindEmpty(NetUrl.CleanBase(u.path), WebhookPath + webhookID);
    NetUrl.DropFirstOfConcat(WebhookPath, webhookID);
    var x := WebhookPath[1..] + webhookID;
    assert NetUrl.JoinedPath(u, [WebhookPath, webhookID]) == x;
    if UrlEscape.ValidEscapes(webhookID) {
      WebhookPathPlain();
      UrlEscape.ReencodedBehindPlain(WebhookPath[1..], webhookID);
      assert x[0] == 'a';
    } else if UrlEscape.ValidEscapes(x) {
      UrlEscape.ValidEscapesOfSuffix(WebhookPath[1..], webhookID);
    }
  }

  /**
   * For a Host of the form scheme://authority the websocket URL has the
   * authority escaped as Go prints a host (as written when it is ASCII),
   * wss for https and ws for anything else, and the websocket path.
   */
  lemma WebsocketURLOfServer(scheme: string, authority: string)
    requires NetUrl.IsServerURL(scheme, authority)
    ensures NetUrl.Parse(scheme + "://" + authority).Some?
    ensures WebsocketURLFor(scheme + "://" + authority) ==
      (if scheme == "https" then "wss" else "ws") + "://" + UrlEscape.Escape(authority, UrlEscape.EncodeHost) + WebsocketPath
    ensures (forall i :: 0 <= i < |authority| ==> authority[i] as int < 0x80) ==>
      WebsocketURLFor(scheme + "://" + authority) == (if scheme == "https" then "wss" else "ws") + "://" + authority + WebsocketPath
  {
    NetUrl.ParseServerURL(scheme, authority);
    var u := NetUrl.Url(scheme, "", authority, "", false);
    WebsocketURLOfEmptyPath(u);
    var v := WebsocketURLOf(u);
    NetUrl.ToStringServer(v);
    var h := UrlEscape.Escape(authority, UrlEscape.EncodeHost);
    NetUrl.ConcatAfterSlash(v.scheme + "://" + h, WebsocketPath);
    if forall i :: 0 <= i < |authority| ==> authority[i] as int < 0x80 {
      NetUrl.ASCIIHostPlain(authority);
      UrlEscape.EscapeOfPlainHost(authority);
    }
  }

  /**
   * For a Host of the form scheme://authority and an identifier that is a
   * single path name, the API URL is the Host with its host escaped as Go
   * prints it, then the webhook path and the identifier re-encoded as
   * `setPath` leaves it; an identifier with an invalid escape leaves the
   * Host alone.
   */
  lemma WebhookURLOfServer(scheme: string, authority: string, webhookID: string)
    requires NetUrl.IsServerURL(scheme, authority)
    requires NetUrl.IsName(webhookID)
    ensures NetUrl.Parse(scheme + "://" + authority).Some?
    ensures NetUrl.ToString(WebhookURLOf(NetUrl.Parse(scheme + "://" + authority).value, webhookID)) ==
      scheme + "://" + UrlEscape.Escape(authority, UrlEscape.EncodeHost) +
      (if UrlEscape.ValidEscapes(webhookID) then WebhookPath + UrlEscape.Reencoded(webhookID) else "")
  {
    NetUrl.ParseServerURL(scheme, authority);
    var u := NetUrl.Url(scheme, "", authority, "", false);
    WebhookURLOfEmptyPath(u, webhookID);
    var v := WebhookURLOf(u, webhookID);
    if UrlEscape.ValidEscapes(webhookID) {
      var p := WebhookPath + UrlEscape.Reencoded(webhookID);
      NetUrl.DropFirstOfConcat(WebhookPath, UrlEscape.Reencoded(webhookID));
      NetUrl.ToStringRelative(v, p);
    } else {
      NetUrl.ToStringServer(v);
    }
  }

  lemma NonASCIIWebsocketSpelled(printed: string)
    requires printed == "%C3%A4"
    ensures "ws" + "://" + printed + WebsocketPath == "ws://%C3%A4/api/websocket"
  {
  }

  lemma SpacedWebhookSpelled(authority: string, id: string)
    requires authority == "h" && id == "a%20b"
    ensures "http" + "://" + authority + (WebhookPath + id) == "http://h/api/webhook/a%20b"
  {
  }

  lemma NonASCIIHostPrinted(authority: string)
    requires authority == "ä"
    ensures NetUrl.IsServerURL("http", authority) && UrlEscape.Escape(authority, UrlEscape.EncodeHost) == "%C3%A4"
  {
    assert NetUrl.LastIndexOf(authority, ':') == -1;
    UrlEscape.EscapeHostExample();
  }

  lemma ASCIIHostPrinted(authority: string)
    requires authority == "h"
    ensures NetUrl.IsServerURL("http", authority) && UrlEscape.Escape(authority, UrlEscape.EncodeHost) == authority
  {
    assert NetUrl.LastIndexOf(authority, ':') == -1;
    NetUrl.ASCIIHostPlain(authority);
    UrlEscape.EscapeOfPlainHost(authority);
  }

  /** A non-ASCII host is percent-encoded, byte by byte of its UTF-8 form, in the websocket URL. */
  lemma WebsocketURLOfNonASCIIHost(host: string)
    requires host == "http://ä"
    ensures NetUrl.Parse(host).Some?
    ensures WebsocketURLFor(host) == "ws://%C3%A4/api/websocket"
  {
    var scheme, authority := "http", "ä";
    NonASCIIHostPrinted(authority);
    assert host == scheme + "://" + authority;
    WebsocketURLOfServer(scheme, authority);
    NonASCIIWebsocketSpelled(UrlEscape.Escape(authority, UrlEscape.EncodeHost));
  }

  /** A space in the webhook identifier is percent-encoded in the API URL. */
  lemma WebhookURLOfSpacedID(host: string)
    requires host == "http://h"
    ensures NetUrl.Parse(host).Some?
    ensures NetUrl.ToString(WebhookURLOf(NetUrl.Parse(host).value, "a b")) == "http://h/api/webhook/a%20b"
  {
    var scheme, authority := "http", "h";
    ASCIIHostPrinted(authority);
    assert host == scheme + "://" + authority;
    UrlEscape.ReencodedSpace();
    WebhookURLOfServer(scheme, authority, "a b");
    SpacedWebhookSpelled(authority, UrlEscape.Reencoded("a b"));
  }

  /** An identifier with an invalid escape makes `setPath` fail: the API URL is the Host. */
  lemma WebhookURLOfInvalidEscape(host: string)
    requires host == "http://h"
    ensures NetUrl.Parse(host).Some?
    ensures NetUrl.ToString(WebhookURLOf(NetUrl.Parse(host).value, "%zz")) == host
  {
    var scheme, authority := "http", "h";
    ASCIIHostPrinted(authority);
    assert host == scheme + "://" + authority;
    UrlEscape.ReencodedKeptOrFailed();
    WebhookURLOfServer(scheme, authority, "%zz");
  }

  /** An opaque Host (a scheme followed by anything but a slash) keeps only its opaque part in the websocket URL. */
  lemma WebsocketURLOfOpaque(u: NetUrl.Url)
    requires u.opaquePart != ""
    ensures NetUrl.ToString(WebsocketURLOf(u)) == (if u.scheme == "https" then "wss" else "ws") + ":" + u.opaquePart
  {
    NetUrl.ToStringEndsWith(WebsocketURLOf(u));
  }

  /**
   * A Host written as name:port without a scheme (as stored before v1.4.0,
   * e.g. "localhost:8123") parses as an opaque URL with scheme `name`, so the
   * derived websocket URL loses the host name.
   */
  lemma WebsocketURLOfBareHostPort(name: string, port: string)
    requires NetUrl.IsLowerWord(name) && name != "https"
    requires port != [] && Decimal.AllDigits(port)
    ensures NetUrl.Parse(name + ":" + port) == Some(NetUrl.Url(name, port, "", "", false))
    ensures WebsocketURLFor(name + ":" + port) == "ws:" + port
  {
    assert !NetUrl.HasControl(port);
    NetUrl.ParseOpaque(name, port);
    WebsocketURLOfOpaque(NetUrl.Url(name, port, "", "", false));
  }

  /**
   * The API URL is empty exactly when no cloudhook, no remote UI with a
   * webhook, and no host with a webhook is stored, for a webhook identifier
   * that is a single path name.
   */
  lemma ApiURLEmptyIff(m: Prefs)
    requires ApiURLDefined(m)
    requires var id := StringOr(m, "WebhookID", ""); id == "" || (NetUrl.IsName(id) && UrlEscape.ValidEscapes(id))
    ensures var cloudhook, remoteUI := StringOr(m, "CloudhookURL", ""), StringOr(m, "RemoteUIURL", "");
      var webhookID, host := StringOr(m, "WebhookID", ""), StringOr(m, "Host", "");
      ApiURLFor(m) == "" <==> cloudhook == "" && (remoteUI == "" || webhookID == "") && (webhookID == "" || host == "")
  {
    var cloudhook, remoteUI := StringOr(m, "CloudhookURL", ""), StringOr(m, "RemoteUIURL", "");
    var webhookID, host := StringOr(m, "WebhookID", ""), StringOr(m, "Host", "");
    if cloudhook == "" && !(remoteUI != "" && webhookID != "") && webhookID != "" && host != "" {
      var u := NetUrl.Parse(host).value;
      var v := WebhookURLOf(u, webhookID);
      NetUrl.ParsedPathEncoded(host);
      WebhookURLShape(u, webhookID);
      NetUrl.ToStringEndsWith(v);
    }
  }

  lemma ParseV140()
    ensures Semver.Parse("v1.4.0") == Semver.Valid(1, 4, 0, [])
  {
    assert "v1.4.0"[1..] == "1.4.0";
    assert Semver.ParseNumber("1.4.0") == Some((1, ".4.0"));
    assert Semver.ParseNumber("4.0") == Some((4, ".0"));
    assert Semver.ParseNumber("0") == Some((0, ""));
  }

  lemma ParseV143()
    ensures Semver.Parse("v1.4.3") == Semver.Valid(1, 4, 3, [])
  {
    assert "v1.4.3"[1..] == "1.4.3";
    assert Semver.ParseNumber("1.4.3") == Some((1, ".4.3"));
    assert Semver.ParseNumber("4.3") == Some((4, ".3"));
    assert Semver.ParseNumber("3") == Some((3, ""));
  }

  lemma ParseUpgradeVersions()
    ensures Semver.Parse("v1.4.0") == Semver.Valid(1, 4, 0, [])
    ensures Semver.Parse("v1.4.3") == Semver.Valid(1, 4, 3, [])
  {
    ParseV140();
    ParseV143();
  }

  /**
   * A stored prerelease of v1.4.0 (such as v1.4.0-beta.1) sorts below
   * v1.4.0, so the upgrade treats it as older than v1.4.0.
   */
  lemma PrereleaseOfV140IsBelow(m: Prefs, appVersion: string, prerelease: seq<string>)
    requires prerelease != [] && Semver.PrereleaseIdents(prerelease)
    requires ConfigVersion(m, appVersion) == Semver.Format(1, 4, 0, prerelease)
    ensures BelowV140(m, appVersion)
  {
    ParseV140();
    Semver.ParseOfFormat(1, 4, 0, prerelease);
    Semver.CompareParsed(ConfigVersion(m, appVersion), "v1.4.0", Semver.Valid(1, 4, 0, prerelease), Semver.Valid(1, 4, 0, []));
  }

  /** The fall-through from the first upgrade step is consistent: anything older than v1.4.0 is older than v1.4.3. */
  lemma FallthroughConsistent(m: Prefs, appVersion: string)
    ensures BelowV140(m, appVersion) ==> BelowV143(m, appVersion)
  {
    ParseUpgradeVersions();
    Semver.CompareTransitive(ConfigVersion(m, appVersion), "v1.4.0", "v1.4.3");
  }

  /**
   * Configurations older than v1.4.0: Host gains the scheme UseTLS selects,
   * then ApiURL and WebSocketURL are derived from the new Host, and the
   * version is set; nothing else changes.
   */
  lemma UpgradeBelowV140(m: Prefs, appVersion: string)
    requires UpgradeDefined(m, appVersion) && BelowV140(m, appVersion)
    ensures var host := HostWithScheme(m);
      var m1 := m["Host" := PString(host)];
      && NetUrl.Parse(host).Some? && ApiURLDefined(m1)
      && Upgraded(m, appVersion) == m1["ApiURL" := PString(ApiURLFor(m1))]
                                      ["WebSocketURL" := PString(WebsocketURLFor(host))]
                                      ["Version" := PString(appVersion)]
  {
    BelowV140URLsDefined(m, appVersion);
    var m1 := m["Host" := PString(HostWithScheme(m))];
    assert HostRewritten(m, appVersion) == m1;
    assert Upgraded(m, appVersion) == WithURLs(m1)["Version" := PString(appVersion)];
    WithURLsAfterHost(m, HostWithScheme(m));
  }

  /** After Host is overwritten, the WebSocket URL is derived from the new Host. */
  lemma WithURLsAfterHost(m: Prefs, host: string)
    requires NetUrl.Parse(host).Some?
    ensures var m1 := m["Host" := PString(host)];
      && ApiURLDefined(m1)
      && WithURLs(m1) == m1["ApiURL" := PString(ApiURLFor(m1))]["WebSocketURL" := PString(WebsocketURLFor(host))]
  {
    StringOrUpdated(m, "Host", "Host", PString(host), "");
    WithURLsLookup(m["Host" := PString(host)]);
  }

  /** Below v1.4.0 the rewritten Host parses, so both URLs can be derived from it. */
  lemma BelowV140URLsDefined(m: Prefs, appVersion: string)
    requires UpgradeDefined(m, appVersion) && BelowV140(m, appVersion)
    ensures var host := HostWithScheme(m);
      NetUrl.Parse(host).Some? && ApiURLDefined(m["Host" := PString(host)])
  {
    var m1 := m["Host" := PString(HostWithScheme(m))];
    assert HostRewritten(m, appVersion) == m1;
    WithURLsLookup(m1);
  }

  /** Configurations from v1.4.0 up to v1.4.3: Host is kept, both URLs are derived from it, and the version is set. */
  lemma UpgradeV140ToV143(m: Prefs, appVersion: string)
    requires UpgradeDefined(m, appVersion) && !BelowV140(m, appVersion) && BelowV143(m, appVersion)
    ensures var host := StringOr(m, "Host", "");
      && NetUrl.Parse(host).Some? && ApiURLDefined(m)
      && Upgraded(m, appVersion) == m["ApiURL" := PString(ApiURLFor(m))]
                                     ["WebSocketURL" := PString(WebsocketURLFor(host))]
                                     ["Version" := PString(appVersion)]
  {
    assert HostRewritten(m, appVersion) == m;
    assert Upgraded(m, appVersion) == WithURLs(m)["Version" := PString(appVersion)];
  }

  /** Configurations at v1.4.3 or later: only the version is rewritten. */
  lemma UpgradeFromV143(m: Prefs, appVersion: string)
    requires !BelowV143(m, appVersion)
    ensures UpgradeDefined(m, appVersion)
    ensures Upgraded(m, appVersion) == m["Version" := PString(appVersion)]
  {
    FallthroughConsistent(m, appVersion);
  }

  /** Every upgrade leaves the running build's version stored. */
  lemma UpgradedVersion(m: Prefs, appVersion: string)
    requires UpgradeDefined(m, appVersion)
    ensures "Version" in Upgraded(m, appVersion)
    ensures Upgraded(m, appVersion)["Version"] == PString(appVersion)
  {
  }

  /** Once the running build is at least v1.4.3, upgrading an upgraded store changes nothing. */
  lemma UpgradeIdempotent(m: Prefs, appVersion: string)
    requires UpgradeDefined(m, appVersion) && Semver.Compare(appVersion, "v1.4.3") >= 0
    ensures UpgradeDefined(Upgraded(m, appVersion), appVersion)
    ensures Upgraded(Upgraded(m, appVersion), appVersion) == Upgraded(m, appVersion)
  {
    UpgradedVersion(m, appVersion);
    UpgradeOfCurrent(Upgraded(m, appVersion), appVersion);
  }

  /** A store already at a running build of at least v1.4.3 is left as it is. */
  lemma UpgradeOfCurrent(r: Prefs, appVersion: string)
    requires "Version" in r && r["Version"] == PString(appVersion) && Semver.Compare(appVersion, "v1.4.3") >= 0
    ensures UpgradeDefined(r, appVersion) && Upgraded(r, appVersion) == r
  {
    assert ConfigVersion(r, appVersion) == appVersion;
    UpgradeFromV143(r, appVersion);
    assert r["Version" := PString(appVersion)] == r;
  }

  /** The scheme the first upgrade step puts in front of the stored Host. */
  function TLSScheme(m: Prefs): string
  {
    if BoolOr(m, "UseTLS", false) then "https" else "http"
  }

  lemma HostWithTLSScheme(m: Prefs)
    ensures HostWithScheme(m) == TLSScheme(m) + "://" + StringOr(m, "Host", "")
    ensures NetUrl.IsLowerWord(TLSScheme(m))
  {
  }

  /** ApiURL and WebSocketURL as the second upgrade step writes them. */
  lemma WithURLsLookup(m: Prefs)
    requires URLsDefined(m)
    ensures ApiURLDefined(m)
    ensures StringOr(WithURLs(m), "ApiURL", "") == ApiURLFor(m)
    ensures StringOr(WithURLs(m), "WebSocketURL", "") == WebsocketURLFor(StringOr(m, "Host", ""))
    ensures StringOr(WithURLs(m), "Host", "") == StringOr(m, "Host", "")
  {
    var m1 := m["ApiURL" := PString(ApiURLFor(m))];
    var w := PString(WebsocketURLFor(StringOr(m, "Host", "")));
    StringOrUpdated(m, "Host", "ApiURL", PString(ApiURLFor(m)), "");
    StringOrUpdated(m1, "Host", "WebSocketURL", w, "");
    StringOrUpdated(m1, "ApiURL", "WebSocketURL", w, "");
    StringOrUpdated(m, "ApiURL", "ApiURL", PString(ApiURLFor(m)), "");
    StringOrUpdated(m1, "WebSocketURL", "WebSocketURL", w, "");
  }

  /** The three keys the upgrade of a configuration older than v1.4.0 derives, read back. */
  lemma UpgradedBelowV140Lookup(m: Prefs, appVersion: string)
    requires UpgradeDefined(m, appVersion) && BelowV140(m, appVersion)
    ensures var r, m1 := Upgraded(m, appVersion), m["Host" := PString(HostWithScheme(m))];
      && ApiURLDefined(m1) && NetUrl.Parse(HostWithScheme(m)).Some?
      && StringOr(r, "Host", "") == HostWithScheme(m)
      && StringOr(r, "ApiURL", "") == ApiURLFor(m1)
      && StringOr(r, "WebSocketURL", "") == WebsocketURLFor(HostWithScheme(m))
  {
    UpgradeBelowV140(m, appVersion);
    var host := HostWithScheme(m);
    var m1 := m["Host" := PString(host)];
    var a := PString(ApiURLFor(m1));
    var w := PString(WebsocketURLFor(host));
    var v := PString(appVersion);
    StringOrUpdated(m1["ApiURL" := a]["WebSocketURL" := w], "Host", "Version", v, "");
    StringOrUpdated(m1["ApiURL" := a], "Host", "WebSocketURL", w, "");
    StringOrUpdated(m1, "Host", "ApiURL", a, "");
    StringOrUpdated(m, "Host", "Host", PString(host), "");
    StringOrUpdated(m1["ApiURL" := a]["WebSocketURL" := w], "ApiURL", "Version", v, "");
    StringOrUpdated(m1["ApiURL" := a], "ApiURL", "WebSocketURL", w, "");
    StringOrUpdated(m1, "ApiURL", "ApiURL", a, "");
    StringOrUpdated(m1["ApiURL" := a]["WebSocketURL" := w], "WebSocketURL", "Version", v, "");
    StringOrUpdated(m1["ApiURL" := a], "WebSocketURL", "WebSocketURL", w, "");
  }

  /**
   * A configuration older than v1.4.0 that stored a bare host:port (a host
   * Go accepts) and a webhook identifier that is a single path name, and no
   * cloudhook or remote UI, ends up
   * with Host scheme://host:port, ApiURL scheme://host:port (the host
   * escaped as Go prints it) + "/api/webhook/" + the identifier re-encoded
   * (nothing behind the host when the identifier has an invalid escape),
   * and WebSocketURL ws(s)://host:port (escaped the same way) + "/api/websocket".
   */
  lemma UpgradeOfBareHost(m: Prefs, appVersion: string)
    requires BelowV140(m, appVersion)
    requires var host := StringOr(m, "Host", ""); host != "" && NetUrl.ValidHost(host)
    requires StringOr(m, "CloudhookURL", "") == "" && StringOr(m, "RemoteUIURL", "") == ""
    requires NetUrl.IsName(StringOr(m, "WebhookID", ""))
    ensures UpgradeDefined(m, appVersion)
    ensures var r, scheme, host := Upgraded(m, appVersion), TLSScheme(m), StringOr(m, "Host", "");
      var id, h := StringOr(m, "WebhookID", ""), UrlEscape.Escape(host, UrlEscape.EncodeHost);
      && StringOr(r, "Host", "") == scheme + "://" + host
      && StringOr(r, "ApiURL", "") ==
           scheme + "://" + h + (if UrlEscape.ValidEscapes(id) then WebhookPath + UrlEscape.Reencoded(id) else "")
      && StringOr(r, "WebSocketURL", "") == (if scheme == "https" then "wss" else "ws") + "://" + h + WebsocketPath
  {
    var scheme, host, id := TLSScheme(m), StringOr(m, "Host", ""), StringOr(m, "WebhookID", "");
    HostWithTLSScheme(m);
    var m1 := m["Host" := PString(HostWithScheme(m))];
    NetUrl.ParseServerURL(scheme, host);
    assert HostRewritten(m, appVersion) == m1;
    StringOrUpdated(m, "Host", "Host", PString(HostWithScheme(m)), "");
    StringOrUpdated(m, "WebhookID", "Host", PString(HostWithScheme(m)), "");
    StringOrUpdated(m, "CloudhookURL", "Host", PString(HostWithScheme(m)), "");
    StringOrUpdated(m, "RemoteUIURL", "Host", PString(HostWithScheme(m)), "");
    UpgradedBelowV140Lookup(m, appVersion);
    WebhookURLOfServer(scheme, host, id);
    WebsocketURLOfServer(scheme, host);
  }
}
