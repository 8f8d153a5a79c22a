/**
 * The D-Bus request builder of pkg/linux/dbusx/dbus.go: a request that names
 * a bus, an object path, a destination, a signal event, match rules and a
 * handler; the operations that use it, each guarded by the same check for a
 * missing bus connection; the checked coercions of a reply to the shape a
 * caller wants; and the search for the login session of the current user.
 *
 * What the bus itself answers (a property value, a method reply, whether a
 * match rule was accepted) is passed in to each operation as its outcome.
 */
module Dbusx {
  import opened Wrappers

  /** The error every operation returns on a request without a bus. */
  const NoBusConnection := "no bus connection"

  datatype BusType = SessionBus | SystemBus

  /** A connection to the session or the system bus (the connection itself is not modelled). */
  class Bus {
    const busType: BusType

    constructor (busType: BusType)
      ensures this.busType == busType
    {
      this.busType := busType;
    }
  }

  /** A Go `any` as D-Bus replies fill it: the shapes the coercions test for. */
  datatype Value =
    | Nil
    | Str(s: string)
    | ObjectPath(path: string)
    | StringList(strings: seq<string>)
    | ObjectPathList(paths: seq<string>)
    | StringMap(entries: map<string, string>)
    | AnyMap(values: map<string, Value>)
    | RowList(rows: seq<seq<Value>>)
    | Number(n: int)

  /** `dbus.Variant`: a value tagged with its signature. */
  datatype Variant = Variant(value: Value)

  /** A signal handler, identified by name. */
  datatype Handler = NoHandler | Handler(name: string)

  /** `busRequest`. */
  class BusRequest {
    var bus: Bus?
    var eventHandler: Handler
    var path: string
    var event: string
    var dest: string
    var matchRules: seq<string>

    /**
     * `NewBusRequest`: a request on the bus found in the context, or on no
     * bus when the context holds none; every other field is empty.
     */
    constructor (busInContext: Bus?)
      ensures bus == busInContext
      ensures eventHandler == NoHandler && path == "" && event == "" && dest == "" && matchRules == []
    {
      bus := busInContext;
      eventHandler := NoHandler;
      path := "";
      event := "";
      dest := "";
      matchRules := [];
    }

    /** `Path`: sets the object path and returns the same request. */
    method Path(p: string) returns (r: BusRequest)
      modifies this
      ensures r == this && path == p
      ensures bus == old(bus) && eventHandler == old(eventHandler) && event == old(event)
      ensures dest == old(dest) && matchRules == old(matchRules)
    {
      path := p;
      r := this;
    }

    /** `Match`: sets the match rules and returns the same request. */
    method Match(m: seq<string>) returns (r: BusRequest)
      modifies this
      ensures r == this && matchRules == m
      ensures bus == old(bus) && eventHandler == old(eventHandler) && path == old(path)
      ensures event == old(event) && dest == old(dest)
    {
      matchRules := m;
      r := this;
    }

    /** `Event`: sets the signal name and returns the same request. */
    method Event(e: string) returns (r: BusRequest)
      modifies this
      ensures r == this && event == e
      ensures bus == old(bus) && eventHandler == old(eventHandler) && path == old(path)
      ensures dest == old(dest) && matchRules == old(matchRules)
    {
      event := e;
      r := this;
    }

    /** `Handler`: sets the signal handler and returns the same request. */
    method SetHandler(h: Handler) returns (r: BusRequest)
      modifies this
      ensures r == this && eventHandler == h
      ensures bus == old(bus) && path == old(path) && event == old(event)
      ensures dest == old(dest) && matchRules == old(matchRules)
    {
      eventHandler := h;
      r := this;
    }

    /** `Destination`: sets the destination and returns the same request. */
    method Destination(d: string) returns (r: BusRequest)
      modifies this
      ensures r == this && dest == d
      ensures bus == old(bus) && eventHandler == old(eventHandler) && path == old(path)
      ensures event == old(event) && matchRules == old(matchRules)
    {
      dest := d;
      r := this;
    }

    /**
     * `GetProp`: without a bus, the empty-string variant and the no-bus
     * error; otherwise the property the bus returns, or the empty-string
     * variant and the bus's error.
     */
    method GetProp(prop: string, reply: Result<Variant, string>) returns (v: Variant, err: Option<string>)
      ensures bus == null ==> v == Variant(Str("")) && err == Some(NoBusConnection)
      ensures bus != null && reply.Ok? ==> v == reply.value && err == None
      ensures bus != null && reply.Err? ==> v == Variant(Str("")) && err == Some(reply.error)
    {
      if bus == null {
        return Variant(Str("")), Some(NoBusConnection);
      }
      match reply
      case Err(e) =>
        return Variant(Str("")), Some(e);
      case Ok(res) =>
        return res, None;
    }

    /** `SetProp`: the bus's answer when there is a bus, the no-bus error otherwise. */
    method SetProp(prop: string, value: Variant, outcome: Option<string>) returns (err: Option<string>)
      ensures bus != null ==> err == outcome
      ensures bus == null ==> err == Some(NoBusConnection)
    {
      if bus != null {
        return outcome;
      }
      return Some(NoBusConnection);
    }

    /**
     * `GetData`: no result at all without a bus; with a bus, always a result,
     * holding the reply or, when the call failed, nothing.
     */
    method GetData(methodName: string, reply: Result<Value, string>) returns (d: Option<Value>)
      ensures bus == null <==> d == None
      ensures bus != null && reply.Ok? ==> d == Some(reply.value)
      ensures bus != null && reply.Err? ==> d == Some(Nil)
    {
      if bus == null {
        return None;
      }
      var data := Nil;
      if reply.Ok? {
        data := reply.value;
      }
      return Some(data);
    }

    /** `Call`: the bus's answer when there is a bus, the no-bus error otherwise. */
    method Call(methodName: string, outcome: Option<string>) returns (err: Option<string>)
      ensures bus != null ==> err == outcome
      ensures bus == null ==> err == Some(NoBusConnection)
    {
      if bus == null {
        return Some(NoBusConnection);
      }
      return outcome;
    }

    /**
     * `AddWatch`: the no-bus error without a bus, otherwise the bus's answer
     * to the match rules (the dispatch of signals to the handler is not
     * modelled).
     */
    method AddWatch(outcome: Option<string>) returns (err: Option<string>)
      ensures bus != null ==> err == outcome
      ensures bus == null ==> err == Some(NoBusConnection)
    {
      if bus == null {
        return Some(NoBusConnection);
      }
      return outcome;
    }

    /** `RemoveWatch`: the no-bus error without a bus, otherwise the bus's answer. */
    method RemoveWatch(outcome: Option<string>) returns (err: Option<string>)
      ensures bus != null ==> err == outcome
      ensures bus == null ==> err == Some(NoBusConnection)
    {
      if bus == null {
        return Some(NoBusConnection);
      }
      return outcome;
    }
  }

  /*
   * The coercions of a `*dbusData` result. `None` stands for the nil result
   * (and for a nil map or slice in what they return), `Some(x)` for a result
   * holding `x`.
   */

  /** `AsVariantMap`: nil for nil; each value of a string-keyed map wrapped in a variant; any other shape an empty map. */
  function AsVariantMap(d: Option<Value>): (r: Option<map<string, Variant>>)
  {
    match d
    case None => None
    case Some(AnyMap(m)) => Some(map k | k in m :: Variant(m[k]))
    case Some(_) => Some(map[])
  }

  /** `AsStringMap`: nil for nil; the map itself for a string map; a fresh empty map otherwise. */
  function AsStringMap(d: Option<Value>): (r: Option<map<string, string>>)
  {
    match d
    case None => None
    case Some(StringMap(m)) => Some(m)
    case Some(_) => Some(map[])
  }

  /** `AsObjectPathList`: the list when the result holds one, the nil slice otherwise. */
  function AsObjectPathList(d: Option<Value>): (r: Option<seq<string>>)
  {
    match d
    case Some(ObjectPathList(ps)) => Some(ps)
    case _ => None
  }

  /** `AsStringList`: the list when the result holds one, the nil slice otherwise. */
  function AsStringList(d: Option<Value>): (r: Option<seq<string>>)
  {
    match d
    case Some(StringList(ss)) => Some(ss)
    case _ => None
  }

  /** `AsObjectPath`: the path when the result holds one, the empty path otherwise. */
  function AsObjectPath(d: Option<Value>): (r: string)
  {
    match d
    case Some(ObjectPath(p)) => p
    case _ => ""
  }

  /** `AsRawInterface`: the stored value, nil for a nil result. */
  function AsRawInterface(d: Option<Value>): (r: Value)
  {
    match d
    case Some(v) => v
    case None => Nil
  }

  /** The value a variant map holds under each key, unwrapped. */
  function Unwrapped(vm: map<string, Variant>): map<string, Value>
  {
    map k | k in vm :: vm[k].value
  }

  /** A string-keyed map comes back with the same keys and every value wrapped, so unwrapping restores it. */
  lemma AsVariantMapOfMap(m: map<string, Value>)
    ensures AsVariantMap(Some(AnyMap(m))).Some?
    ensures var vm := AsVariantMap(Some(AnyMap(m))).value;
      vm.Keys == m.Keys && (forall k :: k in m ==> vm[k] == Variant(m[k])) && Unwrapped(vm) == m
  {
  }

  /** Only a nil result gives a nil variant map; any shape but a string-keyed map gives an empty one. */
  lemma AsVariantMapShapes(d: Option<Value>)
    ensures AsVariantMap(d).None? <==> d.None?
    ensures d.Some? && !d.value.AnyMap? ==> AsVariantMap(d) == Some(map[])
  {
  }

  /** `AsStringMap` hands the string map back unchanged, and gives nil exactly for a nil result. */
  lemma AsStringMapShapes(d: Option<Value>)
    ensures AsStringMap(d).None? <==> d.None?
    ensures forall m :: d == Some(StringMap(m)) ==> AsStringMap(d) == Some(m)
    ensures d.Some? && !d.value.StringMap? ==> AsStringMap(d) == Some(map[])
  {
  }

  /** The list coercions return a list exactly when the result holds a list of that kind, and it is that list. */
  lemma AsListShapes(d: Option<Value>)
    ensures AsObjectPathList(d).Some? <==> d.Some? && d.value.ObjectPathList?
    ensures AsObjectPathList(d).Some? ==> AsObjectPathList(d).value == d.value.paths
    ensures AsStringList(d).Some? <==> d.Some? && d.value.StringList?
    ensures AsStringList(d).Some? ==> AsStringList(d).value == d.value.strings
  {
  }

  /** `AsObjectPath` returns the stored path, or the empty path for a nil result or another shape. */
  lemma AsObjectPathShapes(d: Option<Value>)
    ensures d.Some? && d.value.ObjectPath? ==> AsObjectPath(d) == d.value.path
    ensures d.None? || !d.value.ObjectPath? ==> AsObjectPath(d) == ""
  {
  }

  /** On a request without a bus, `GetData` gives nil, and then every coercion gives its zero value. */
  lemma NilResultCoercions()
    ensures AsVariantMap(None) == None && AsStringMap(None) == None
    ensures AsObjectPathList(None) == None && AsStringList(None) == None
    ensures AsObjectPath(None) == "" && AsRawInterface(None) == Nil
  {
  }

  /** Rows of the `a(susso)` signature of `ListSessions`: five fields each. */
  predicate SessionRows(rows: seq<seq<Value>>)
  {
    forall i :: 0 <= i < |rows| ==> |rows[i]| >= 5
  }

  /** A session row of `userName` whose fifth field is an object path. */
  predicate SessionOf(row: seq<Value>, userName: string)
  {
    |row| >= 5 && row[2] == Str(userName) && row[4].ObjectPath?
  }

  /** The object path of the first session of `userName` among `rows`, or "" when there is none. */
  function FirstSessionPath(rows: seq<seq<Value>>, userName: string): (p: string)
    decreases |rows|
  {
    if rows == [] then ""
    else if SessionOf(rows[0], userName) then rows[0][4].path
    else FirstSessionPath(rows[1..], userName)
  }

  /**
   * The session path `GetSessionPath` finds: "" when the current user is
   * unknown or the reply is not a list of rows, otherwise the first matching
   * session's path.
   */
  function SessionPath(userName: Option<string>, reply: Value): string
  {
    if userName.None? || !reply.RowList? then "" else FirstSessionPath(reply.rows, userName.value)
  }

  /**
   * The rows the scan reaches can be indexed as it indexes them: up to the
   * first session of `userName`, every row has a third field, and a row
   * whose third field is the user's name has a fifth.
   */
  predicate ScannableRows(rows: seq<seq<Value>>, userName: string)
    decreases |rows|
  {
    || rows == []
    || (&& |rows[0]| >= 3
        && (rows[0][2] == Str(userName) ==> |rows[0]| >= 5)
        && (SessionOf(rows[0], userName) || ScannableRows(rows[1..], userName)))
  }

  /** A reply whose rows, if any, the scan for the known user can index. */
  predicate WellFormedReply(userName: Option<string>, reply: Result<Value, string>)
  {
    userName.Some? && reply.Ok? && reply.value.RowList? ==> ScannableRows(reply.value.rows, userName.value)
  }

  /** Rows of the `ListSessions` signature can always be scanned, whoever the user is. */
  lemma {:induction false} SessionRowsScannable(rows: seq<seq<Value>>, userName: string)
    requires SessionRows(rows)
    ensures ScannableRows(rows, userName)
    decreases |rows|
  {
    if rows != [] {
      SessionRowsScannable(rows[1..], userName);
    }
  }

  /**
   * `GetSessionPath`: asks the login manager on the system bus for the
   * sessions and returns the object path of the current user's first
   * session, scanning the rows in order.
   */
  method GetSessionPath(userName: Option<string>, systemBus: Bus?, reply: Result<Value, string>) returns (p: string)
    requires WellFormedReply(userName, reply)
    ensures p == SessionPath(userName, if systemBus == null then Nil else if reply.Ok? then reply.value else Nil)
  {
    if userName.None? {
      return "";
    }
    var r0 := new BusRequest(systemBus);
    var r1 := r0.Path("/org/freedesktop/login1");
    var r2 := r1.Destination("org.freedesktop.login1");
    var d := r2.GetData("org.freedesktop.login1.Manager.ListSessions", reply);
    var sessions := AsRawInterface(d);
    if !sessions.RowList? {
      return "";
    }
    var rows := sessions.rows;
    var i := 0;
    while i < |rows|
      invariant 0 <= i <= |rows|
      invariant FirstSessionPath(rows, userName.value) == FirstSessionPath(rows[i..], userName.value)
      invariant ScannableRows(rows[i..], userName.value)
    {
      assert rows[i..][1..] == rows[i + 1..];
      var s := rows[i];
      if s[2] == Str(userName.value) {
        if s[4].ObjectPath? {
          return s[4].path;
        }
      }
      i := i + 1;
    }
    return "";
  }

  /**
   * The path found is the path of a session of the user, and no earlier row
   * is one; when no row is, the path is "".
   */
  lemma {:induction false} FirstSessionPathIsFirst(rows: seq<seq<Value>>, userName: string)
    ensures (exists i :: 0 <= i < |rows| && SessionOf(rows[i], userName)) ==>
      exists i :: 0 <= i < |rows| && SessionOf(rows[i], userName) && FirstSessionPath(rows, userName) == rows[i][4].path
        && forall j :: 0 <= j < i ==> !SessionOf(rows[j], userName)
    ensures (forall i :: 0 <= i < |rows| ==> !SessionOf(rows[i], userName)) ==> FirstSessionPath(rows, userName) == ""
    decreases |rows|
  {
    if rows != [] {
      FirstSessionPathIsFirst(rows[1..], userName);
      if !SessionOf(rows[0], userName) {
        if exists i :: 0 <= i < |rows| && SessionOf(rows[i], userName) {
          var i :| 0 <= i < |rows| && SessionOf(rows[i], userName);
          assert SessionOf(rows[1..][i - 1], userName);
          var k :| 0 <= k < |rows[1..]| && SessionOf(rows[1..][k], userName)
            && FirstSessionPath(rows[1..], userName) == rows[1..][k][4].path
            && forall j :: 0 <= j < k ==> !SessionOf(rows[1..][j], userName);
          forall j | 0 <= j < k + 1 ensures !SessionOf(rows[j], userName) {
            if j > 0 { assert rows[j] == rows[1..][j - 1]; }
          }
          assert SessionOf(rows[k + 1], userName) && FirstSessionPath(rows, userName) == rows[k + 1][4].path;
        }
        if forall i :: 0 <= i < |rows| ==> !SessionOf(rows[i], userName) {
          forall i | 0 <= i < |rows[1..]| ensures !SessionOf(rows[1..][i], userName) {
            assert rows[1..][i] == rows[i + 1];
          }
        }
      }
    }
  }
}
