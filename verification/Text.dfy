/** The string operations the stream readers share. */
module TextOps {
  import opened Prelude

  const LF: char := '\n'
  const CR: char := '\r'

  /** Characters with the Unicode White_Space property, which Rust's `trim` removes. */
  predicate IsWhitespace(c: char) {
    || '\U{9}' <= c <= '\U{D}' || c == ' ' || c == '\U{85}' || c == '\U{A0}' || c == '\U{1680}'
    || '\U{2000}' <= c <= '\U{200A}' || c == '\U{2028}' || c == '\U{2029}' || c == '\U{202F}'
    || c == '\U{205F}' || c == '\U{3000}'
  }

  /** They are these twenty-five. */
  lemma {:induction false} WhitespaceIs(c: char)
    ensures IsWhitespace(c) <==>
            c in "\U{9}\U{A}\U{B}\U{C}\U{D} \U{85}\U{A0}\U{1680}\U{2000}\U{2001}\U{2002}\U{2003}\U{2004}\U{2005}"
                 + "\U{2006}\U{2007}\U{2008}\U{2009}\U{200A}\U{2028}\U{2029}\U{202F}\U{205F}\U{3000}"
  {}

  function TrimStart(s: string): string {
    if s != "" && IsWhitespace(s[0]) then TrimStart(s[1..]) else s
  }

  function TrimEnd(s: string): string {
    if s != "" && IsWhitespace(s[|s| - 1]) then TrimEnd(s[..|s| - 1]) else s
  }

  function Trim(s: string): string {
    TrimEnd(TrimStart(s))
  }

  /** No white space at either end. */
  predicate Trimmed(s: string) {
    s != "" ==> !IsWhitespace(s[0]) && !IsWhitespace(s[|s| - 1])
  }

  function StripPrefix(s: string, prefix: string): Option<string> {
    if prefix <= s then Some(s[|prefix|..]) else None
  }

  function StripSuffixChar(s: string, c: char): string {
    if s != "" && s[|s| - 1] == c then s[..|s| - 1] else s
  }

  /** Does `sep` stand at index `i` of `s`? */
  predicate OccursAt(s: string, sep: string, i: nat) {
    i + |sep| <= |s| && s[i..i + |sep|] == sep
  }

  /** Index of the first occurrence of `sep` at or after `i`. */
  function FindFrom(s: string, sep: string, i: nat): (r: Option<nat>)
    requires i <= |s|
    ensures r.Some? ==> i <= r.value && OccursAt(s, sep, r.value)
    ensures r.Some? ==> forall j :: i <= j < r.value ==> !OccursAt(s, sep, j)
    ensures r.None? ==> forall j :: i <= j ==> !OccursAt(s, sep, j)
    decreases |s| - i
  {
    if OccursAt(s, sep, i) then Some(i)
    else if i < |s| then FindFrom(s, sep, i + 1)
    else None
  }

  function Find(s: string, sep: string): (r: Option<nat>)
    ensures r.Some? ==> OccursAt(s, sep, r.value)
    ensures r.Some? ==> forall j :: 0 <= j < r.value ==> !OccursAt(s, sep, j)
    ensures r.None? ==> forall j: nat :: !OccursAt(s, sep, j)
  {
    FindFrom(s, sep, 0)
  }

  /**
    Everything a drain loop takes out of a buffer: the pieces before each
    separator, in order, and what stays behind because no separator ends it.
  */
  function Drain(s: string, sep: string): (r: (seq<string>, string))
    requires sep != ""
    ensures Find(r.1, sep).None?
    decreases |s|
  {
    match Find(s, sep)
    case None => ([], s)
    case Some(p) =>
      var (pieces, rest) := Drain(s[p + |sep|..], sep);
      ([s[..p]] + pieces, rest)
  }

  lemma FindIs(s: string, sep: string, p: nat)
    requires OccursAt(s, sep, p) && forall j :: 0 <= j < p ==> !OccursAt(s, sep, j)
    ensures Find(s, sep) == Some(p)
  {}

  /** Text after the first separator does not move it. */
  lemma FindExtends(a: string, b: string, sep: string, p: nat)
    requires Find(a, sep) == Some(p)
    ensures Find(a + b, sep) == Some(p)
  {
    forall j | 0 <= j <= p
      ensures OccursAt(a + b, sep, j) <==> OccursAt(a, sep, j)
    {
      assert j + |sep| <= |a|;
      assert (a + b)[j..j + |sep|] == a[j..j + |sep|];
    }
    FindIs(a + b, sep, p);
  }

  lemma DrainStep(s: string, sep: string, p: nat)
    requires sep != "" && Find(s, sep) == Some(p)
    ensures Drain(s, sep).0 == [s[..p]] + Drain(s[p + |sep|..], sep).0
    ensures Drain(s, sep).1 == Drain(s[p + |sep|..], sep).1
  {}

  /**
    Draining a buffer, appending more text to what stayed behind and draining
    again takes out the same pieces as draining the whole text once.
  */
  lemma {:induction false} DrainAppend(a: string, b: string, sep: string)
    requires sep != ""
    ensures Drain(a + b, sep).0 == Drain(a, sep).0 + Drain(Drain(a, sep).1 + b, sep).0
    ensures Drain(a + b, sep).1 == Drain(Drain(a, sep).1 + b, sep).1
    decreases |a|
  {
    match Find(a, sep)
    case None =>
      assert [] + Drain(a + b, sep).0 == Drain(a + b, sep).0;
    case Some(p) =>
      var rest := a[p + |sep|..];
      FindExtends(a, b, sep, p);
      assert (a + b)[p + |sep|..] == rest + b && (a + b)[..p] == a[..p];
      DrainAppend(rest, b, sep);
      DrainStep(a, sep, p);
      DrainStep(a + b, sep, p);
      Associative([a[..p]], Drain(rest, sep).0, Drain(Drain(rest, sep).1 + b, sep).0);
  }

  /** A text without the separator, once the separator is added, is one piece. */
  lemma DrainOne(s: string, sep: string, rest: string)
    requires sep != "" && forall j :: 0 <= j < |s| ==> !OccursAt(s + sep, sep, j)
    ensures Drain(s + sep + rest, sep).0 == [s] + Drain(rest, sep).0
    ensures Drain(s + sep + rest, sep).1 == Drain(rest, sep).1
  {
    var all := s + sep + rest;
    assert (s + sep)[|s|..|s| + |sep|] == sep;
    FindIs(s + sep, sep, |s|);
    FindExtends(s + sep, rest, sep, |s|);
    assert all[..|s|] == s && all[|s| + |sep|..] == rest;
    DrainStep(all, sep, |s|);
  }
}
