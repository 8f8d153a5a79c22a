/**
 * Two helpers of the Fyne user interface (internal/agent/ui/fyneUI/fyneUI.go):
 * the longest of a list of strings, used to size a placeholder, and the
 * message of the host:port validator.
 */
module FyneUI {
  import opened Wrappers

  const ErrMsgInvalidHostPort := "You need to specify a valid host:port combination."

  /** The number of bytes of the UTF-8 encoding of a character. */
  function CharBytes(c: char): (n: nat)
    ensures 1 <= n <= 4
  {
    if c as int < 0x80 then 1 else if c as int < 0x800 then 2 else if c as int < 0x1_0000 then 3 else 4
  }

  /** Go's `len` on a string: its length in bytes. */
  function ByteLen(s: string): (n: nat)
    ensures |s| <= n <= 4 * |s|
    decreases |s|
  {
    if s == [] then 0 else CharBytes(s[0]) + ByteLen(s[1..])
  }

  /**
   * `longestString`: the element with the most bytes; among elements of
   * that length the last one, because a later element replaces the current
   * one when it is at least as long. An empty list gives "".
   */
  method LongestString(a: seq<string>) returns (l: string)
    ensures a == [] ==> l == ""
    ensures a != [] ==> exists k :: 0 <= k < |a| && l == a[k] && forall j :: k < j < |a| ==> ByteLen(a[j]) < ByteLen(l)
    ensures forall j :: 0 <= j < |a| ==> ByteLen(a[j]) <= ByteLen(l)
  {
    l := "";
    if |a| == 0 {
      return;
    }
    l := a[0];
    ghost var k := 0;
    var i := 1;
    while i < |a|
      invariant 1 <= i <= |a|
      invariant 0 <= k < i && l == a[k]
      invariant forall j :: k < j < i ==> ByteLen(a[j]) < ByteLen(l)
      invariant forall j :: 0 <= j < i ==> ByteLen(a[j]) <= ByteLen(l)
    {
      var s := a[i];
      if ByteLen(l) <= ByteLen(s) {
        l := s;
        k := i;
      }
      i := i + 1;
    }
  }

  /** The error `hostPortValidator` reports: the caller's message, or the default one when it is empty. */
  function HostPortError(msg: string): (e: string)
    ensures msg != "" ==> e == msg
    ensures msg == "" ==> e == ErrMsgInvalidHostPort
  {
    if msg != "" then msg else ErrMsgInvalidHostPort
  }

  /**
   * The validator `hostPortValidator` returns, applied to a text: the error
   * when the `hostname_port` check (passed in as `isHostPort`) fails, none
   * otherwise.
   */
  function ValidateHostPort(msg: string, isHostPort: bool): (r: Option<string>)
    ensures r.None? <==> isHostPort
    ensures r.Some? ==> r.value != ""
  {
    if !isHostPort then Some(HostPortError(msg)) else None
  }
}
