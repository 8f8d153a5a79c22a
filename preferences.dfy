/**
 * The agent's preferences store (a `fyne.Preferences`): a mutable mapping from
 * keys to string or boolean values. A typed read of a key that is missing, or
 * that holds a value of the other type, yields the fallback.
 */
module Preferences {

  datatype PrefValue = PString(s: string) | PBool(b: bool)

  type Prefs = map<string, PrefValue>

  /** `StringWithFallback` on a snapshot of the store. */
  function StringOr(m: Prefs, key: string, fallback: string): string
  {
    if key in m && m[key].PString? then m[key].s else fallback
  }

  /** `BoolWithFallback` on a snapshot of the store. */
  function BoolOr(m: Prefs, key: string, fallback: bool): bool
  {
    if key in m && m[key].PBool? then m[key].b else fallback
  }

  /** A write under one key is seen by a read of that key and by no other. */
  lemma StringOrUpdated(m: Prefs, key: string, other: string, v: PrefValue, fallback: string)
    ensures StringOr(m[other := v], key, fallback) ==
      if key == other then (if v.PString? then v.s else fallback) else StringOr(m, key, fallback)
  {
  }

  /** The store shared by the agent and its configuration view. */
  class Store {
    var values: Prefs

    constructor (initial: Prefs)
      ensures values == initial
    {
      values := initial;
    }

    function String(key: string): string
      reads this
    {
      StringOr(values, key, "")
    }

    function StringWithFallback(key: string, fallback: string): string
      reads this
    {
      StringOr(values, key, fallback)
    }

    function Bool(key: string): bool
      reads this
    {
      BoolOr(values, key, false)
    }

    function BoolWithFallback(key: string, fallback: bool): bool
      reads this
    {
      BoolOr(values, key, fallback)
    }

    method SetString(key: string, value: string)
      modifies this
      ensures values == old(values)[key := PString(value)]
    {
      values := values[key := PString(value)];
    }

    method SetBool(key: string, value: bool)
      modifies this
      ensures values == old(values)[key := PBool(value)]
    {
      values := values[key := PBool(value)];
    }
  }
}
