/**
 * The part of Go's `strings` package the model uses: searching for,
 * splitting at and joining with one character, and `strings.ReplaceAll`
 * with a one-character pattern and a one-character replacement. The
 * characters involved are ASCII, so working on characters is the same as
 * working on the bytes of their UTF-8 encoding.
 */
module GoStrings {

  /** `strings.IndexByte`, with |s| standing for "not found". */
  function IndexOf(s: string, c: char): (i: nat)
    ensures i <= |s|
    ensures forall j :: 0 <= j < i ==> s[j] != c
    ensures i < |s| ==> s[i] == c
    decreases |s|
  {
    if s == [] then 0 else if s[0] == c then 0 else 1 + IndexOf(s[1..], c)
  }

  /** `strings.Split(s, string(sep))`: the pieces between the separators, at least one. */
  function Split(s: string, sep: char): (r: seq<string>)
    ensures |r| >= 1
    ensures forall k :: 0 <= k < |r| ==> sep !in r[k]
    decreases |s|
  {
    var i := IndexOf(s, sep);
    if i == |s| then [s] else [s[..i]] + Split(s[i + 1..], sep)
  }

  /** A string without the separator is a single piece. */
  lemma SplitWithout(s: string, sep: char)
    requires sep !in s
    ensures Split(s, sep) == [s]
  {
  }

  /** The first occurrence is the position before which the character does not occur. */
  lemma {:induction false} IndexOfIs(s: string, c: char, i: nat)
    requires i <= |s| && (forall j :: 0 <= j < i ==> s[j] != c) && (i < |s| ==> s[i] == c)
    ensures IndexOf(s, c) == i
    decreases |s|
  {
    if s != [] && i > 0 {
      IndexOfIs(s[1..], c, i - 1);
    }
  }

  /** Splitting at the first separator. */
  lemma SplitAt(s: string, sep: char, i: nat)
    requires i < |s| && s[i] == sep && forall j :: 0 <= j < i ==> s[j] != sep
    ensures Split(s, sep) == [s[..i]] + Split(s[i + 1..], sep)
  {
    IndexOfIs(s, sep, i);
  }

  /** A string without the separator, joined to another by it, is the first piece. */
  lemma SplitConcatFirst(a: string, b: string, sep: char)
    requires IndexOf(a, sep) == |a|
    ensures Split(a + [sep] + b, sep) == [a] + Split(b, sep)
    ensures Split(a, sep) == [a]
  {
    var s := a + [sep] + b;
    assert s[..|a|] == a;
    SplitAt(s, sep, |a|);
    assert s[|a| + 1..] == b;
  }

  /** The first piece of a string with the separator, also when another string is joined to it. */
  lemma SplitConcatNext(a: string, b: string, sep: char, i: nat)
    requires i == IndexOf(a, sep) < |a|
    ensures Split(a + [sep] + b, sep) == [a[..i]] + Split(a[i + 1..] + [sep] + b, sep)
    ensures Split(a, sep) == [a[..i]] + Split(a[i + 1..], sep)
  {
    var s := a + [sep] + b;
    assert s[..i] == a[..i];
    SplitAt(s, sep, i);
    assert s[i + 1..] == a[i + 1..] + [sep] + b;
    SplitAt(a, sep, i);
  }

  lemma ConsAssoc<T>(x: T, p: seq<T>, q: seq<T>)
    ensures [x] + (p + q) == ([x] + p) + q
  {
  }

  /** Splitting two strings joined by the separator gives the pieces of the one, then those of the other. */
  lemma {:induction false} SplitConcat(a: string, b: string, sep: char)
    ensures Split(a + [sep] + b, sep) == Split(a, sep) + Split(b, sep)
    decreases |a|
  {
    var i := IndexOf(a, sep);
    if i == |a| {
      SplitConcatFirst(a, b, sep);
    } else {
      SplitConcatNext(a, b, sep, i);
      SplitConcat(a[i + 1..], b, sep);
      ConsAssoc(a[..i], Split(a[i + 1..], sep), Split(b, sep));
    }
  }

  /** `strings.Join(pieces, string(sep))`: the pieces with the separator between each two. */
  function Join(pieces: seq<string>, sep: char): string
    decreases |pieces|
  {
    if pieces == [] then ""
    else if |pieces| == 1 then pieces[0]
    else Join(pieces[..|pieces| - 1], sep) + [sep] + pieces[|pieces| - 1]
  }

  /** Splitting what was joined gives the pieces back, when none of them holds the separator. */
  lemma {:induction false} SplitJoin(pieces: seq<string>, sep: char)
    requires pieces != [] && forall k :: 0 <= k < |pieces| ==> sep !in pieces[k]
    ensures Split(Join(pieces, sep), sep) == pieces
    decreases |pieces|
  {
    if |pieces| == 1 {
      SplitWithout(pieces[0], sep);
    } else {
      var init, last := pieces[..|pieces| - 1], pieces[|pieces| - 1];
      SplitJoin(init, sep);
      SplitConcat(Join(init, sep), last, sep);
      SplitWithout(last, sep);
      assert pieces == init + [last];
    }
  }

  /** A character that is neither the separator nor in any piece is not in the joined string. */
  lemma {:induction false} JoinWithout(pieces: seq<string>, sep: char, c: char)
    requires c != sep && forall k :: 0 <= k < |pieces| ==> c !in pieces[k]
    ensures c !in Join(pieces, sep)
    decreases |pieces|
  {
    if |pieces| > 1 {
      JoinWithout(pieces[..|pieces| - 1], sep, c);
    }
  }

  /** `strings.ReplaceAll(s, string(from), string(to))`. */
  function ReplaceAll(s: string, from: char, to: char): (r: string)
    ensures |r| == |s|
    ensures forall i :: 0 <= i < |s| ==> r[i] == if s[i] == from then to else s[i]
    ensures from != to ==> from !in r
    decreases |s|
  {
    if s == [] then ""
    else [if s[0] == from then to else s[0]] + ReplaceAll(s[1..], from, to)
  }

  /** Replacing a character that does not occur in two strings that are distinct gives distinct strings. */
  lemma ReplaceAllInjective(s: string, t: string, from: char, to: char)
    requires to !in s && to !in t
    requires ReplaceAll(s, from, to) == ReplaceAll(t, from, to)
    ensures s == t
  {
    var r := ReplaceAll(s, from, to);
    forall i | 0 <= i < |s| ensures s[i] == t[i] {
      assert r[i] == (if s[i] == from then to else s[i]) == (if t[i] == from then to else t[i]);
      assert s[i] != to && t[i] != to;
    }
  }
}
