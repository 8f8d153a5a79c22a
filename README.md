# go-hass-agent: configuration, registration, D-Bus requests and sensor identities in Dafny

This project models the sequential core of go-hass-agent, a desktop agent that
reports operating-system telemetry to Home Assistant. It proves properties of
each part. The modelled parts are:

- **Agent configuration** (`AgentConfig`, over the preferences store `Preferences.Store`):
  - typed `Get` and `Set` of properties;
  - the ordered `Validate`;
  - `SetPref`, `IsRegistered`, `AppConfigVersion` and `DeviceDetails` of the agent;
  - the version-gated `Upgrade`. Before v1.4.0 it prefixes the stored Host with a
    scheme and falls through to the next case. Before v1.4.3 it derives `ApiURL`
    (cloudhook, else remote UI with webhook, else Host with webhook, else "")
    and `WebSocketURL` (https becomes wss, anything else ws). It then stores the
    running version.
- **Registration bookkeeping** (`Registration`):
  - the details `newRegistration` fills in from the server URL and the token;
  - the preferences `saveRegistration` writes;
  - the headless registration gate;
  - the default server list.
- **The D-Bus request builder** (`Dbusx`):
  - fluent setters that change one field each and return the same request;
  - the "no bus connection" guard on every operation;
  - the checked coercions of a reply;
  - the search for the current user's login session.
- **The generated `SensorDeviceClass.String`** (`SensorDeviceClass`): 47 class names
  run together in one string, a 48-entry offset table, and a numeric fallback
  that undoes the 64-bit shift.
- **The two disk usage sensors** (`DiskSensor` for `internal/linux/disk`,
  `DiskUsage` for `internal/device`): names, identifiers, constant getters,
  attributes and the rounded percentage.
- **`longestString` and the host:port validator message** of the Fyne UI (`FyneUI`).
- **The battery level enumeration** (`BatteryLevels`), an `iota` block with two gaps.

The models of the Go library functions the core calls are written out as
separate modules:

- `Semver`: `semver.Compare` of golang.org/x/mod/semver. It covers
  vMAJOR.MINOR.PATCH, the shorthands vMAJOR and vMAJOR.MINOR, and prerelease
  identifiers. Numeric identifiers sort below alphanumeric ones and compare by
  value, and a release sorts above its prereleases. Build metadata is checked
  and then ignored. An invalid version sorts below every valid one and equal
  to other invalid ones.
- `NetUrl`: `url.Parse` with Go's check of the host (its characters and an
  optional numeric port), `(*URL).JoinPath` with the cleaning of `path.Join`
  (empty and "." segments dropped, ".." removing the segment before it), and
  `(*URL).String`. A URL holds its path as `EscapedPath` returns it. Every
  path goes through `setPath`, which fails on a '%' that starts no escape.
  `String` writes the host escaped. It covers URLs without userinfo, query
  or fragment.
- `UrlEscape`: the percent-encoding of net/url. It covers `shouldEscape` for
  hosts and paths, `escape` over the UTF-8 bytes of a string, `unescape` in
  the path mode, `validEncoded`, and what `EscapedPath` returns after
  `setPath`. A valid encoding is kept as written, "%2A" becomes "*", and any
  other path is escaped anew from its decoded bytes.
- `Decimal`: `strconv.FormatInt` in base 10, and the order of numerals.
- `GoStrings`: `strings.IndexByte`, `Split` and `Join` with one character,
  and `strings.ReplaceAll` of one character.
- `Validation`: the `required`, `url` and `ascii` validator tags.
- `Wrappers`: Option and Result.

What the bus, the Home Assistant server or the validator library answer is
passed to each operation as a parameter.

Some proved results describe behaviour that is easy to miss in the source:

- **Scheme-less Host.** A Host stored without a scheme, such as the default
  `localhost:8123`, parses as an opaque URL with scheme `localhost`. The
  websocket URL derived from it is then `ws:8123` (`WebsocketURLOfBareHostPort`).
  The same string given to `newRegistration` leaves the server binding empty
  (`NewRegistrationOfBareHostPort`). Upgrades from before v1.4.0 avoid this
  because they add the scheme first (`UpgradeOfBareHost`).
- **Sensor identifiers collide.** `/a/b` and `/a_b` get the same identifier
  (`IDCollision`), and so do `/` and `/root` (`IDCollisionRoot`). Two mounts
  like these report as one sensor.

Three details of the code that the model keeps:

- `GetProp` returns the bus's error as it is, not wrapped.
- A coercion that does not match returns a zero value. `AsStringMap` is the
  exception: it returns a fresh empty map, and only a nil result gives a nil map.
- The request builder is mutable, and each setter returns the same request.

## Model

| member | source | states |
|---|---|---|
| AgentConfig.Agent.AppConfigVersion | internal/agent/config.go:26-28 | the stored "Version" when it holds a string, "" otherwise |
| AgentConfig.Agent.DeviceDetails | internal/agent/config.go:30-33 | the stored device name and device identifier, each "" when missing or not a string |
| AgentConfig.Agent.IsRegistered | internal/agent/config.go:35-37 | registered exactly when the store holds boolean true under "Registered" |
| AgentConfig.Agent.SetPref | internal/agent/config.go:39-48 | a string or bool is stored under exactly the given key; any other value leaves the store unchanged |
| AgentConfig.Stored | internal/agent/config.go:39-48 | every other key keeps its presence and value; a string or bool lands under the key; another type changes nothing |
| AgentConfig.StoredReadBack | internal/agent/config.go:87-97 | a typed write is read back by the typed read of that key and is invisible to reads of every other key |
| AgentConfig.Agent.constructor | internal/agent/config.go:26-48 | the agent view shares the given store and version |
| AgentConfig.Config.constructor | internal/agent/config.go:64-97 | the configuration view shares the given store and running version |
| AgentConfig.Config.Get | internal/agent/config.go:64-85 | an error exactly for unknown names, with the "unknown config property" message; "version" falls back to the running version; the six string properties and "useTLS" read their own keys |
| AgentConfig.Config.Set | internal/agent/config.go:87-97 | a string or bool is stored under exactly the property and no error returned; any other value returns the error and leaves the store unchanged |
| AgentConfig.Config.Validate | internal/agent/config.go:99-124 | none exactly when all four checks pass; otherwise the message of the first failing check in the order apiURL, websocketURL, token, webhookID, each stated as an if-and-only-if |
| AgentConfig.Config.GenerateWebsocketURL | internal/agent/config.go:189-207 | only WebSocketURL changes, to the URL derived from Host |
| AgentConfig.Config.GenerateAPIURL | internal/agent/config.go:209-231 | only ApiURL changes, and it is always written, with the prioritised choice |
| AgentConfig.Config.RegenerateURLs | internal/agent/config.go:172-175 | ApiURL and then WebSocketURL are regenerated, nothing else |
| AgentConfig.Config.PrefixHostScheme | internal/agent/config.go:145-169 | Host gains "https://" when UseTLS is true and "http://" otherwise; nothing else changes |
| AgentConfig.Config.Upgrade | internal/agent/config.go:132-187 | never fails, and the store ends as `Upgraded` of the old store |
| AgentConfig.URLsDefinedAfterApiURL | internal/agent/config.go:174-175 | writing ApiURL leaves the Host the websocket URL is derived from unchanged |
| AgentConfig.JoinWebsocketPath | internal/agent/config.go:201 | for every URL, the path `JoinPath` hands to `setPath` is the cleaned URL path with "/api/websocket" appended, relative when the URL path was |
| AgentConfig.JoinWebhookPath | internal/agent/config.go:222 | for an identifier that is one path name, the path `JoinPath` hands to `setPath` is the cleaned URL path with "/api/webhook/" and the identifier appended, relative when the URL path was |
| AgentConfig.WebsocketURLShape | internal/agent/config.go:193-201 | for every Host: scheme wss iff the Host scheme is https, ws iff it is not; host and opaque part kept; for a path with valid escapes (as every parsed one has) the path ends with "api/websocket" |
| AgentConfig.WebhookURLShape | internal/agent/config.go:220-223 | for an identifier that is one path name: scheme, host and opaque part kept; when the path and the identifier have valid escapes, the path ends with "api/webhook/" and the identifier, as written or escaped anew |
| AgentConfig.WebsocketURLOfEmptyPath | internal/agent/config.go:192-201 | a Host without a path gets the path "api/websocket", still relative |
| AgentConfig.WebhookURLOfEmptyPath | internal/agent/config.go:221-222 | a Host without a path gets "api/webhook/" and the identifier as `setPath` re-encodes it, still relative; an identifier with an invalid escape leaves the URL as it was |
| AgentConfig.WebsocketURLOfServer | internal/agent/config.go:189-203 | for a Host scheme://authority whose host Go accepts, the websocket URL is ws(s)://, the authority escaped as `String` writes a host, then "/api/websocket"; for an ASCII authority, the authority as written |
| AgentConfig.WebsocketURLOfNonASCIIHost | internal/agent/config.go:192-203 | Host "http://ä" gives "ws://%C3%A4/api/websocket" |
| AgentConfig.WebhookURLOfServer | internal/agent/config.go:220-223 | for a Host scheme://authority with a host Go accepts and an identifier that is one path name, the Host branch gives scheme://, the escaped authority, "/api/webhook/" and the re-encoded identifier; with an invalid escape in the identifier, only scheme:// and the escaped authority |
| AgentConfig.WebhookURLOfSpacedID | internal/agent/config.go:221-223 | Host "http://h" and identifier "a b" give "http://h/api/webhook/a%20b" |
| AgentConfig.WebhookURLOfInvalidEscape | internal/agent/config.go:221-223 | Host "http://h" and identifier "%zz" give the Host itself, because `setPath` fails and `JoinPath` keeps the URL |
| AgentConfig.WebsocketURLOfOpaque | internal/agent/config.go:192-201 | an opaque Host keeps only its opaque part behind the new scheme |
| AgentConfig.WebsocketURLOfBareHostPort | internal/agent/config.go:191-201 | a scheme-less name:port Host parses as opaque and gives "ws:" + port |
| AgentConfig.ApiURLEmptyIff | internal/agent/config.go:214-226 | for an identifier that is empty or one path name with valid escapes, ApiURL is "" exactly when no cloudhook, no remote UI with a webhook and no Host with a webhook is stored |
| AgentConfig.ParseUpgradeVersions | internal/agent/config.go:141-176 | the two gate versions parse as 1.4.0 and 1.4.3 |
| AgentConfig.PrereleaseOfV140IsBelow | internal/agent/config.go:143 | a stored prerelease of v1.4.0, such as v1.4.0-beta.1, counts as older than v1.4.0 |
| AgentConfig.FallthroughConsistent | internal/agent/config.go:143-172 | every version below v1.4.0 is also below v1.4.3 |
| AgentConfig.UpgradeBelowV140 | internal/agent/config.go:143-181 | below v1.4.0: Host gains the scheme, ApiURL and WebSocketURL are derived from the new Host, Version is set, and nothing else changes |
| AgentConfig.UpgradeV140ToV143 | internal/agent/config.go:172-181 | from v1.4.0 up to v1.4.3: Host is kept, both URLs are regenerated, Version is set, and nothing else changes |
| AgentConfig.UpgradeFromV143 | internal/agent/config.go:141-181 | at v1.4.3 or later only Version is rewritten |
| AgentConfig.UpgradedVersion | internal/agent/config.go:178-181 | after an upgrade the stored Version is the running version |
| AgentConfig.UpgradeIdempotent | internal/agent/config.go:132-187 | when the running version is at least v1.4.3, upgrading twice equals upgrading once |
| AgentConfig.UpgradeOfCurrent | internal/agent/config.go:141-181 | a store whose Version is already the running version, at least v1.4.3, is left unchanged |
| AgentConfig.HostWithTLSScheme | internal/agent/config.go:157-166 | the rewritten Host is "https" or "http", then "://", then the old Host |
| AgentConfig.WithURLsLookup | internal/agent/config.go:172-175 | after the second step ApiURL and WebSocketURL read back as derived, and Host is unchanged |
| AgentConfig.WithURLsAfterHost | internal/agent/config.go:167-175 | after Host is overwritten, the websocket URL is derived from the new Host |
| AgentConfig.BelowV140URLsDefined | internal/agent/config.go:143-175 | below v1.4.0 the rewritten Host parses, so both URLs can be derived |
| AgentConfig.UpgradedBelowV140Lookup | internal/agent/config.go:143-181 | below v1.4.0 Host, ApiURL and WebSocketURL read back as the rewritten Host and the URLs derived from it |
| AgentConfig.UpgradeOfBareHost | internal/agent/config.go:143-181 | a pre-v1.4.0 store with host:port and a webhook ends with Host scheme://host:port, ApiURL scheme://, the escaped host, "/api/webhook/" and the re-encoded id (only scheme:// and the escaped host for an id with an invalid escape), and WebSocketURL ws(s)://, the escaped host and "/api/websocket" |
| Preferences.StringOrUpdated | internal/agent/config.go:87-97 | a write under one key is seen by a read of that key and by no other |
| Preferences.Store.constructor | internal/agent/config.go:64-97 | the store starts with the given values |
| Preferences.Store.SetString | internal/agent/config.go:89 | stores the string under the key, nothing else changes |
| Preferences.Store.SetBool | internal/agent/config.go:93 | stores the bool under the key, nothing else changes |
| Semver.CompareAntisymmetric | internal/agent/config.go:141-176 | Compare(v, w) == -Compare(w, v), and 0 exactly when both strings parse to the same version |
| Semver.CompareTransitive | internal/agent/config.go:141-176 | "below" and "at most" are transitive, which makes the fall-through consistent |
| Semver.CompareVersionsAntisymmetric | internal/agent/config.go:141-176 | on parsed versions: antisymmetric, and 0 exactly for equal versions (numbers and prerelease) |
| Semver.CompareVersionsTransitive | internal/agent/config.go:141-176 | on parsed versions "below" and "at most" are transitive, through the prerelease order |
| Semver.ParseOfFormat | internal/agent/config.go:141-176 | vMAJOR.MINOR.PATCH with valid prerelease identifiers parses back to its numbers and identifiers |
| Semver.ParseOfFormatWithBuild | internal/agent/config.go:141-176 | appending "+" and build identifiers parses to the same version, so build metadata does not affect Compare |
| Semver.ParseShorthandMajor | internal/agent/config.go:141-176 | vMAJOR parses as MAJOR.0.0 |
| Semver.ParseShorthandMinor | internal/agent/config.go:141-176 | vMAJOR.MINOR parses as MAJOR.MINOR.0 |
| Semver.CompareFormatted | internal/agent/config.go:141-176 | releases compare lexicographically on (major, minor, patch), in both directions |
| Semver.PrereleaseBelowRelease | internal/agent/config.go:141-176 | a prerelease sorts below the release with the same numbers |
| Semver.PrereleaseAboveLowerPatch | internal/agent/config.go:141-176 | a prerelease sorts above every release with a lower patch number |
| Semver.NumericIdentsByValue | internal/agent/config.go:141-176 | numeric identifiers, compared by length and then character by character, are ordered as their numbers |
| Semver.PrecedenceExamples | internal/agent/config.go:141-176 | the example chain 1.0.0-alpha < 1.0.0-alpha.1 < … < 1.0.0-rc.1 < 1.0.0 of Semantic Versioning 2.0.0 |
| NetUrl.ParseServerURL | internal/agent/register.go:38 | scheme://authority, with a host Go's check accepts, parses with that scheme, that host and an empty path |
| NetUrl.ParseOpaque | internal/agent/register.go:38 | scheme:rest with rest not starting with a slash parses as an opaque URL |
| NetUrl.ParseInvalidHost | internal/agent/register.go:38-41 | scheme://authority fails to parse when Go's host check rejects the authority (a stray colon, a non-numeric port, a space) |
| NetUrl.JoinPathNames | internal/agent/config.go:201 | joining names, each behind a slash, hands `setPath` the cleaned URL path with the names appended, relative when the URL path was |
| NetUrl.JoinPathDirThenName | internal/agent/config.go:222 | joining a directory with its trailing slash and then a name hands `setPath` the cleaned URL path with both appended |
| NetUrl.CleanBaseOfEmpty | internal/agent/config.go:201 | the empty URL path cleans to nothing beyond the root |
| Validation.ServerURLIsURL | internal/agent/config.go:103-111 | a scheme://authority URL whose host Go accepts passes the `required,url` check |
| Registration.RegistrationDetails.constructor | internal/agent/register.go:32-37 | fresh bindings hold "", "" and false |
| Registration.NewRegistration | internal/agent/register.go:31-54 | server is the parsed host and useTLS is true exactly for https, both left at their initial values when parsing fails; token is the given token, whose initial value is already "" |
| Registration.NewRegistrationOfServerURL | internal/agent/register.go:38-49 | for scheme://authority with a host Go accepts, the server is the authority and TLS is on exactly for https |
| Registration.NewRegistrationOfBareHostPort | internal/agent/register.go:38-49 | name:port without a scheme leaves the server empty and TLS off |
| Registration.NewRegistrationOfInvalidHost | internal/agent/register.go:38-41 | a server whose host Go rejects leaves both bindings at their initial values |
| Registration.NewRegistrationOfUnparsable | internal/agent/register.go:38-41 | a server that fails to parse leaves both bindings at their initial values |
| Registration.SaveRegistration | internal/agent/register.go:129-153 | the store ends as `SavedPrefs` of the old store, and the agent is registered |
| Registration.SavedAlways | internal/agent/register.go:129-153 | Host, UseTLS, Token and Version always read back as given, and Registered is true |
| Registration.SavedConditional | internal/agent/register.go:137-148 | each response field is stored iff non-empty; otherwise its key keeps whatever it held, present or absent |
| Registration.SavedOthersUnchanged | internal/agent/register.go:129-153 | no key outside the nine registration keys changes |
| Registration.RegisterWithoutUI | internal/agent/register.go:168-174 | incomplete details give "registration details not complete" without a request; complete details give the request's outcome |
| Registration.FindServers | internal/agent/register.go:195-201 | the list starts with "localhost:8123", followed by the discovered servers in order |
| Dbusx.Bus.constructor | pkg/linux/dbusx/dbus.go:18-30 | a connection of the given bus type |
| Dbusx.BusRequest.constructor | pkg/linux/dbusx/dbus.go:72-81 | the request uses the bus found in the context, nil when there is none; every other field is empty |
| Dbusx.BusRequest.Path | pkg/linux/dbusx/dbus.go:95-98 | sets only the path and returns the same request |
| Dbusx.BusRequest.Match | pkg/linux/dbusx/dbus.go:101-104 | sets only the match rules and returns the same request |
| Dbusx.BusRequest.Event | pkg/linux/dbusx/dbus.go:107-110 | sets only the event and returns the same request |
| Dbusx.BusRequest.SetHandler | pkg/linux/dbusx/dbus.go:113-116 | sets only the handler and returns the same request |
| Dbusx.BusRequest.Destination | pkg/linux/dbusx/dbus.go:120-123 | sets only the destination and returns the same request |
| Dbusx.BusRequest.GetProp | pkg/linux/dbusx/dbus.go:127-139 | with no bus: the empty-string variant and "no bus connection"; otherwise the property, or the empty-string variant and the bus's error |
| Dbusx.BusRequest.SetProp | pkg/linux/dbusx/dbus.go:142-148 | the bus's answer with a bus, "no bus connection" without one |
| Dbusx.BusRequest.GetData | pkg/linux/dbusx/dbus.go:151-169 | nil exactly when there is no bus; with a bus the reply, or an empty result when the call failed |
| Dbusx.BusRequest.Call | pkg/linux/dbusx/dbus.go:172-181 | the bus's answer with a bus, "no bus connection" without one |
| Dbusx.BusRequest.AddWatch | pkg/linux/dbusx/dbus.go:183-213 | "no bus connection" without a bus; otherwise the bus's answer to the match rules |
| Dbusx.BusRequest.RemoveWatch | pkg/linux/dbusx/dbus.go:215-228 | "no bus connection" without a bus; otherwise the bus's answer |
| Dbusx.AsVariantMapOfMap | pkg/linux/dbusx/dbus.go:235-249 | a string-keyed map comes back with the same keys, each value wrapped, so unwrapping restores it |
| Dbusx.AsVariantMapShapes | pkg/linux/dbusx/dbus.go:235-249 | nil exactly for a nil result; an empty map for any shape but a string-keyed map |
| Dbusx.AsStringMapShapes | pkg/linux/dbusx/dbus.go:252-262 | nil exactly for a nil result; the string map itself; a fresh empty map otherwise |
| Dbusx.AsListShapes | pkg/linux/dbusx/dbus.go:265-290 | a list exactly when the result holds a list of that kind, and then that list |
| Dbusx.AsObjectPathShapes | pkg/linux/dbusx/dbus.go:293-304 | the stored path, or "" for a nil result or any other shape |
| Dbusx.NilResultCoercions | pkg/linux/dbusx/dbus.go:151-155 | on the nil result of a request without a bus every coercion gives its zero value |
| Dbusx.GetSessionPath | pkg/linux/dbusx/dbus.go:314-336 | the scan returns `SessionPath`: "" without a user, a bus or a list of rows, else the path of the first qualifying row |
| Dbusx.FirstSessionPathIsFirst | pkg/linux/dbusx/dbus.go:324-335 | the path found belongs to a row of the user holding an object path, and no earlier row qualifies; "" when no row does |
| SensorDeviceClass.Wrap | internal/hass/sensor/deviceClassStrings.go:65 | identity within 64 bits, congruent modulo 2^64 otherwise |
| SensorDeviceClass.ConcatDelimited | internal/hass/sensor/deviceClassStrings.go:60-62 | an offset table that delimits a list of names slices each name back out of their concatenation, and its last entry is the length |
| SensorDeviceClass.DelimitsIncreasing | internal/hass/sensor/deviceClassStrings.go:62 | the offsets of non-empty names grow strictly |
| SensorDeviceClass.IndexDelimitsNames | internal/hass/sensor/deviceClassStrings.go:11-62 | each offset is the previous one plus the length of the previous name, and no name is empty |
| SensorDeviceClass.IndexIncreasing | internal/hass/sensor/deviceClassStrings.go:62 | 48 entries, first 0, last 464, strictly increasing |
| SensorDeviceClass.NameTable | internal/hass/sensor/deviceClassStrings.go:60-62 | the name string has 464 characters and each pair of neighbouring offsets slices out one name |
| SensorDeviceClass.Slice | internal/hass/sensor/deviceClassStrings.go:69 | the slice between offsets i and i+1 is in bounds and is the i-th name |
| SensorDeviceClass.ShiftUndone | internal/hass/sensor/deviceClassStrings.go:65-67 | the shift down wraps only the smallest value, and shifting back up restores every value |
| SensorDeviceClass.StringInRange | internal/hass/sensor/deviceClassStrings.go:64-69 | for 1 ≤ v ≤ 47 the result is the name declared in position v, and it is non-empty |
| SensorDeviceClass.StringOutOfRange | internal/hass/sensor/deviceClassStrings.go:65-67 | any other v prints as "SensorDeviceClass(" + decimal v + ")", with the unshifted value even for the smallest one |
| SensorDeviceClass.StringExamples | internal/hass/sensor/deviceClassStrings.go:11-57 | 1, 4, 31, 40 and 47 print as Apparent_power, Battery, Power, Temperature and Wind_speed, so the "Sensor" prefix is trimmed |
| SensorDeviceClass.StringFallbackExamples | internal/hass/sensor/deviceClassStrings.go:65-67 | 0, 48 and -3 print as their numbers |
| Decimal.FormatInt | internal/hass/sensor/deviceClassStrings.go:67 | a minus sign exactly for negatives, followed by the canonical digits of the magnitude |
| Decimal.ParseOfNatToString | internal/hass/sensor/deviceClassStrings.go:67 | the printed number parses back to itself |
| Decimal.NatToStringInjective | internal/hass/sensor/deviceClassStrings.go:67 | distinct numbers print differently |
| DiskStat.Round | internal/linux/disk/diskUsage.go:34 | `math.Round` is within one half of its argument and non-negative for non-negative arguments |
| DiskStat.RoundedPercentClose | internal/linux/disk/diskUsage.go:34 | the rounded percentage is a multiple of 0.05 within 0.025 of the percentage |
| DiskSensor.NewDiskSensor | internal/linux/disk/diskUsage.go:28-36 | icon "mdi:harddisk", state class total, unit "%", the stats as given, and the value within 0.025 of the used percentage |
| DiskSensor.SensorAttributes | internal/linux/disk/diskUsage.go:51-59 | the procfs data source and a copy of the stats |
| DiskSensor.NameShowsPath | internal/linux/disk/diskUsage.go:40-42 | "Mountpoint " + path + " Usage", from which the path can be read back |
| GoStrings.ReplaceAll | internal/linux/disk/diskUsage.go:48 | same length, each occurrence of the character replaced and every other character kept |
| GoStrings.ReplaceAllInjective | internal/linux/disk/diskUsage.go:48 | on strings without the replacement character, equal results imply equal inputs |
| DiskUsage.State | internal/device/disk_usage_linux.go:52-54 | the used percentage to within 0.025 |
| DiskUsage.Attributes | internal/device/disk_usage_linux.go:64-66 | the state record itself |
| DiskUsage.GettersConstant | internal/device/disk_usage_linux.go:36-62 | icon, sensor type, device class 0, state class total, unit "%" and category "" are the same for every record |
| DiskUsage.AgreesWithDiskSensor | internal/device/disk_usage_linux.go:24-58 | the older and the newer sensor built from the same record agree on ID, name, icon, state class, unit and value |
| DiskUsage.IDOfPath | internal/device/disk_usage_linux.go:28-33 | any path but "/" gives "mountpoint" followed by the path with each "/" turned into "_", and the result has no "/" |
| DiskUsage.IDInjectiveWithoutUnderscore | internal/device/disk_usage_linux.go:31-32 | paths other than "/" without "_" have distinct identifiers |
| DiskUsage.IDCollision | internal/device/disk_usage_linux.go:31-32 | "/a/b" and "/a_b" share the identifier "mountpoint_a_b" |
| DiskUsage.IDCollisionRoot | internal/device/disk_usage_linux.go:28-32 | "/" and "/root" share the identifier "mountpoint_root" |
| FyneUI.ByteLen | internal/agent/ui/fyneUI/fyneUI.go:440 | Go's byte length of a string, between its character count and four times it |
| FyneUI.LongestString | internal/agent/ui/fyneUI/fyneUI.go:433-445 | "" for an empty list; otherwise an element at least as long in bytes as every element and strictly longer than every later one, so ties go to the last |
| FyneUI.HostPortError | internal/agent/ui/fyneUI/fyneUI.go:479-485 | the caller's message when non-empty, the default host:port message otherwise |
| FyneUI.ValidateHostPort | internal/agent/ui/fyneUI/fyneUI.go:486-497 | no error exactly when the hostname_port check passes; otherwise a non-empty message |
| BatteryLevels.ConstantsFollowIota | internal/linux/batteryLevels.go:8-19 | Unknown 0, None 1, Low 3, Critical 4, Normal 6, High 7, Full 8, each printing as its line comment |
| BatteryLevels.Gaps | internal/linux/batteryLevels.go:9-19 | 2 and 5 have no name and print as numbers, as does 9 |
| BatteryLevels.NamedLevels | internal/linux/batteryLevels.go:9-19 | the named levels are exactly the lines of the block that carry a name |
| BatteryLevels.Parse | internal/linux/batteryLevels.go:9-19 | a name parses to a line of the block that carries it |
| BatteryLevels.ParseOfString | internal/linux/batteryLevels.go:9-19 | every named level's name parses back to it, so the names are distinct |
| BatteryLevels.StringOfParse | internal/linux/batteryLevels.go:9-19 | a parsed name prints back as itself |

## Left out

- `hass.RegistrationDetails.Validate`, `hass.RegisterWithHass`, `user.Current` and the D-Bus replies are not part of this model. Their answers are parameters.
- The D-Bus connection (`NewBus`), `NewBusRequest2`, the signal dispatch goroutines of `AddWatch` and `VariantToValue`: concurrency and godbus reflection.
- The arguments of `GetData` and `Call`: the modelled replies do not depend on them.
- Fyne windows, trays and forms, `registerWithUI`, `newHostPort`, and the mDNS browse in `findServers`: UI and network. The discovered servers are a parameter.
- The `hostname_port` validator tag: a boolean parameter.
- Sensor producers, polling loops, timers, `time.Sleep` and logging.
- Floating point: `UsedPercent` and the rounding are on real numbers, so IEEE rounding error is not captured.
- The value of `linux.DataSrcProcfs` and the other fields of `linux.Sensor`: not part of this model.
- The generated `batteryLevelsStrings.go` is not part of this model. `BatteryLevels.String` follows what `stringer -linecomment` generates.
- `SensorDeviceClass` is Go's `int`, taken as 64 bits wide. The name string is written as the 47 names run together; the offset table checks it name by name.
- Semantic versions: only `semver.Compare` is modelled. The parsed build metadata is not kept, because `Compare` ignores it.
- URLs: userinfo ("user@host") and percent-escapes in the host make the model's `Parse` fail, while Go accepts them. Queries, fragments and IPv6 zone identifiers are not split off: a '?' or '#' stays in the model's path and is escaped by `String`, where Go would keep it as a query or a fragment. Only what `EscapedPath` returns is kept of a path, not the decoded `Path` and `RawPath` separately.
- AgentConfig.JoinWebhookPath: stated for webhook identifiers that are one path name (no slash, not "." or ".."). `path.Join` rewrites other identifiers: ".." removes "webhook", and "a/b" adds a segment.
- AgentConfig.WebhookURLShape: stated for webhook identifiers that are one path name, for the same reason.
- AgentConfig.WebhookURLOfEmptyPath: stated for webhook identifiers that are one path name, for the same reason.
- AgentConfig.WebhookURLOfServer: stated for webhook identifiers that are one path name, for the same reason.
- AgentConfig.ApiURLEmptyIff: stated for webhook identifiers that are one path name with valid escapes. With Host "x" and identifier "../../.." the cleaned path is empty, and so is the API URL. With Host "//" and identifier "%zz", `setPath` fails and the API URL is empty too.
- AgentConfig.UpgradeOfBareHost: stated for a webhook identifier that is one path name and a host that Go's host check accepts.
- The `Device` field of `hass.RegistrationDetails` (internal/agent/register.go:36), filled by `setupDevice` from the host system, is not part of this model.
- AgentConfig.Config.GenerateWebsocketURL: requires that the stored Host parses. The source dereferences a nil URL otherwise.
- AgentConfig.Config.GenerateAPIURL: requires that the stored Host parses when the Host branch is taken. The source dereferences a nil URL otherwise.
- AgentConfig.Config.Upgrade: requires that the Host it regenerates URLs from parses, for the same reason.
- Dbusx.GetSessionPath: requires of a `ListSessions` reply only what the scan indexes. Each row it reaches has at least three fields, and at least five when its user field is the current user. Go's indexing panics on a row that breaks this, and the `a(susso)` signature rules it out (`SessionRowsScannable`).
- AgentConfig.Config.Set: the error is `CouldNotSet(property, value)` rather than the formatted text.
- Each source file is modelled against its own view of the preferences store (`AgentConfig.Agent`, `AgentConfig.Config`). The files come from revisions whose `Agent` types differ.
- The error returns of `Upgrade` for a non-string version or host cannot happen here: `Get` always returns those as strings.
