/** Strings as the server sees them: white space, trimming, splitting and joining.
    A string is a sequence of characters; no Unicode normalisation is involved. */
module JsText {

  datatype Option<+T> = None | Some(value: T)

  lemma Assoc<T>(a: seq<T>, b: seq<T>, c: seq<T>)
    ensures a + (b + c) == a + b + c
  {
  }

  lemma Halves<T>(s: seq<T>, i: nat)
    requires i <= |s|
    ensures s == s[..i] + s[i..]
  {
  }

  /** The characters `String.prototype.trim` removes. */
  predicate IsSpace(c: char) {
    || c in "\t\n\r \U{000B}\U{000C}\U{00A0}\U{1680}\U{2028}\U{2029}\U{202F}\U{205F}\U{3000}\U{FEFF}"
    || '\U{2000}' <= c <= '\U{200A}'
  }

  /** `!s.trim()` */
  predicate Blank(s: string) {
    forall i | 0 <= i < |s| :: IsSpace(s[i])
  }

  function TrimStart(s: string): (r: string)
    ensures r != [] ==> !IsSpace(r[0])
    ensures |r| <= |s| && r == s[|s| - |r|..]
    ensures Blank(s) <==> r == []
  {
    if s != [] && IsSpace(s[0]) then TrimStart(s[1..]) else s
  }

  function TrimEnd(s: string): (r: string)
    ensures r != [] ==> !IsSpace(r[|r| - 1])
    ensures r <= s
    ensures Blank(s) <==> r == []
  {
    if s != [] && IsSpace(s[|s| - 1]) then TrimEnd(s[..|s| - 1]) else s
  }

  function Trim(s: string): (r: string)
    ensures Blank(s) <==> r == []
    ensures r != [] ==> !IsSpace(r[0]) && !IsSpace(r[|r| - 1])
  {
    var head := TrimStart(s);
    var r := TrimEnd(head);
    assert r != [] ==> r[0] == head[0];
    r
  }

  lemma TrimId(s: string)
    requires s != [] ==> !IsSpace(s[0]) && !IsSpace(s[|s| - 1])
    ensures Trim(s) == s
  {
  }

  /** `parts.join(sep)` */
  function Join(parts: seq<string>, sep: string): string {
    if parts == [] then []
    else if |parts| == 1 then parts[0]
    else parts[0] + sep + Join(parts[1..], sep)
  }

  /** `s.split(c)` for a one-character separator. */
  function SplitOn(s: string, c: char): (parts: seq<string>)
    ensures |parts| > 0
    ensures forall k | 0 <= k < |parts| :: c !in parts[k]
  {
    if s == [] then [[]]
    else
      var rest := SplitOn(s[1..], c);
      if s[0] == c then [[]] + rest else [[s[0]] + rest[0]] + rest[1..]
  }

  /** Joining what was split gives the string back. */
  lemma {:induction false} JoinSplit(s: string, c: char)
    ensures Join(SplitOn(s, c), [c]) == s
  {
    if s != [] {
      JoinSplit(s[1..], c);
      var rest := SplitOn(s[1..], c);
      var parts := SplitOn(s, c);
      if s[0] == c {
        assert parts[1..] == rest;
        assert s == [c] + s[1..];
      } else if |rest| > 1 {
        assert parts[1..] == rest[1..];
        assert s == [s[0]] + s[1..];
      }
    }
  }

  /** Splitting what was joined gives the parts back, when no part holds the separator. */
  lemma {:induction false} SplitJoin(parts: seq<string>, c: char)
    requires |parts| > 0
    requires forall k | 0 <= k < |parts| :: c !in parts[k]
    ensures SplitOn(Join(parts, [c]), c) == parts
    decreases |parts|, |parts[0]|
  {
    var s := Join(parts, [c]);
    if parts[0] == [] {
      if |parts| > 1 {
        assert s == [c] + Join(parts[1..], [c]);
        assert s[1..] == Join(parts[1..], [c]);
        SplitJoin(parts[1..], c);
        assert parts == [[]] + parts[1..];
      }
    } else {
      var shorter := [parts[0][1..]] + parts[1..];
      assert forall k | 0 <= k < |shorter| :: c !in shorter[k];
      assert shorter[1..] == parts[1..];
      assert s[1..] == Join(shorter, [c]);
      assert s[0] == parts[0][0];
      SplitJoin(shorter, c);
      assert parts[0] == [s[0]] + shorter[0];
      assert parts == [parts[0]] + shorter[1..];
    }
  }

  predicate Occurs(s: string, pat: string, i: nat) {
    i + |pat| <= |s| && s[i..i + |pat|] == pat
  }

  lemma OccursByChars(s: string, pat: string, i: nat)
    ensures Occurs(s, pat, i) <==> i + |pat| <= |s| && forall m | 0 <= m < |pat| :: s[i + m] == pat[m]
  {
    if i + |pat| <= |s| {
      var part := s[i..i + |pat|];
      assert forall m | 0 <= m < |pat| :: part[m] == s[i + m];
    }
  }

  /** The first position at which `pat` occurs in `s`, if any: `s.indexOf(pat)`. */
  function IndexOf(s: string, pat: string): (r: Option<nat>)
    ensures r.Some? ==> r.value + |pat| <= |s|
  {
    IndexFrom(s, pat, 0)
  }

  function IndexFrom(s: string, pat: string, i: nat): (r: Option<nat>)
    ensures r.Some? ==> i <= r.value && r.value + |pat| <= |s|
    decreases |s| - i
  {
    if Occurs(s, pat, i) then Some(i)
    else if i >= |s| then None
    else IndexFrom(s, pat, i + 1)
  }

  lemma {:induction false} IndexFromIsFirst(s: string, pat: string, i: nat)
    ensures
      var r := IndexFrom(s, pat, i);
      && (r.Some? ==> Occurs(s, pat, r.value) && forall k: nat | i <= k < r.value :: !Occurs(s, pat, k))
      && (r.None? ==> forall k: nat | i <= k :: !Occurs(s, pat, k))
    decreases |s| - i
  {
    if !Occurs(s, pat, i) && i < |s| {
      IndexFromIsFirst(s, pat, i + 1);
    }
  }

  lemma IndexOfIsFirst(s: string, pat: string)
    ensures
      var r := IndexOf(s, pat);
      && (r.Some? ==> Occurs(s, pat, r.value) && forall k: nat | k < r.value :: !Occurs(s, pat, k))
      && (r.None? ==> forall k: nat :: !Occurs(s, pat, k))
  {
    IndexFromIsFirst(s, pat, 0);
  }
}
