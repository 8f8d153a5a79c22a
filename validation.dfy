/**
 * The go-playground validator tags that the agent configuration applies to
 * string values: `required`, `url` and `ascii`.
 */
module Validation {
  import NetUrl
  import GoStrings

  /** `required` on a string: it is not the zero value. */
  predicate Required(s: string) { s != "" }

  /** `ascii`: every character is in the 7-bit range. */
  predicate IsASCII(s: string) { forall i :: 0 <= i < |s| ==> s[i] as int < 128 }

  /**
   * `url`: with any fragment removed, the text is non-empty and parses as a
   * URL that has a scheme.
   */
  predicate IsURL(s: string)
  {
    var t := s[..GoStrings.IndexOf(s, '#')];
    t != "" && NetUrl.Parse(t).Some? && NetUrl.Parse(t).value.scheme != ""
  }

  /** A `scheme://authority` with a lower-case scheme and a host Go accepts satisfies `required,url`. */
  lemma ServerURLIsURL(scheme: string, authority: string)
    requires NetUrl.IsServerURL(scheme, authority)
    ensures Required(scheme + "://" + authority) && IsURL(scheme + "://" + authority)
  {
    var s := scheme + "://" + authority;
    forall i | 0 <= i < |s| ensures s[i] != '#' {
      if i >= |scheme| + 3 {
        var c := authority[i - |scheme| - 3];
        assert s[i] == c && NetUrl.IsHostChar(c);
      }
    }
    GoStrings.IndexOfIs(s, '#', |s|);
    assert s[..|s|] == s;
    NetUrl.ParseServerURL(scheme, authority);
  }
}
