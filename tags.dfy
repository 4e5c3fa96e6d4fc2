/**
 * Proxmox stores the tags of a VM or container as one string, entries
 * separated by `;`. The client parses it with
 * `[t.strip() for t in tags.split(';') if t.strip()]`; the tagging script
 * writes it back with `";".join(...)`. This module models both directions
 * over `seq<char>`, with Python's `str.split`, `str.strip` and `str.join`
 * written out.
 */
module Tags {
  import opened Wrappers

  /** The characters Python's `str.strip()` removes (`str.isspace`). */
  predicate IsSpace(c: char) {
    || c == ' ' || c == '\t' || c == '\n' || c == '\r' || c == '\U{b}' || c == '\U{c}'
    || ('\U{1c}' <= c <= '\U{1f}') || c == '\U{85}' || c == '\U{a0}' || c == '\U{1680}'
    || ('\U{2000}' <= c <= '\U{200a}') || c == '\U{2028}' || c == '\U{2029}'
    || c == '\U{202f}' || c == '\U{205f}' || c == '\U{3000}'
  }

  /** Neither end of `t` is white space: `t.strip() == t`. */
  predicate Stripped(t: string) {
    t == [] || (!IsSpace(t[0]) && !IsSpace(t[|t| - 1]))
  }

  /** What the parser can produce: non-empty, stripped, no separator. */
  predicate WellFormedTag(t: string) {
    t != [] && ';' !in t && Stripped(t)
  }

  /** Python's `s.strip()`: drop white space from both ends. */
  function Strip(s: string): (r: string)
    ensures Stripped(r)
    ensures |r| <= |s|
  {
    if s == [] then []
    else if IsSpace(s[0]) then Strip(s[1..])
    else if IsSpace(s[|s| - 1]) then Strip(s[..|s| - 1])
    else s
  }

  /** How many characters `Strip` removes from the front of `s`. */
  function StripOffset(s: string): nat
  {
    if s == [] then 0
    else if IsSpace(s[0]) then 1 + StripOffset(s[1..])
    else if IsSpace(s[|s| - 1]) then StripOffset(s[..|s| - 1])
    else 0
  }

  /** What `Strip` keeps is a slice of `s`, and everything it drops on either side is white space. */
  predicate StripKeepsSlice(s: string) {
    var r, i := Strip(s), StripOffset(s);
    && i + |r| <= |s|
    && r == s[i..i + |r|]
    && (forall k :: 0 <= k < i ==> IsSpace(s[k]))
    && (forall k :: i + |r| <= k < |s| ==> IsSpace(s[k]))
  }

  lemma {:induction false} StripIsSlice(s: string)
    ensures StripKeepsSlice(s)
    decreases |s|, 1
  {
    if s != [] && IsSpace(s[0]) {
      StripFrontIsSlice(s);
    } else if s != [] && IsSpace(s[|s| - 1]) {
      StripBackIsSlice(s);
    }
  }

  lemma {:induction false} StripFrontIsSlice(s: string)
    requires s != [] && IsSpace(s[0])
    ensures StripKeepsSlice(s)
    decreases |s|, 0
  {
    var u := s[1..];
    StripIsSlice(u);
    var r, i := Strip(u), StripOffset(u);
    assert i + |r| <= |u| && r == u[i..i + |r|];
    assert Strip(s) == r && StripOffset(s) == i + 1;
    assert forall k :: 1 <= k < |s| ==> s[k] == u[k - 1];
    assert s[i + 1..i + 1 + |r|] == s[1..][i..i + |r|];
  }

  lemma {:induction false} StripBackIsSlice(s: string)
    requires s != [] && !IsSpace(s[0]) && IsSpace(s[|s| - 1])
    ensures StripKeepsSlice(s)
    decreases |s|, 0
  {
    var u := s[..|s| - 1];
    StripIsSlice(u);
    var r, i := Strip(u), StripOffset(u);
    assert Strip(s) == r && StripOffset(s) == i;
    assert r == s[i..i + |r|];
    assert forall k :: 0 <= k < |u| ==> s[k] == u[k];
  }

  /** Python's `s.split(';')`: never empty, and no piece holds the separator. */
  function Split(s: string): (parts: seq<string>)
    ensures |parts| >= 1
    ensures forall p :: p in parts ==> ';' !in p
  {
    if s == [] then [[]]
    else
      SplitCons(s[0], Split(s[1..]))
  }

  /** Python's `";".join(parts)`. */
  function Join(parts: seq<string>): string
  {
    if |parts| == 0 then []
    else if |parts| == 1 then parts[0]
    else parts[0] + ";" + Join(parts[1..])
  }

  /** `[p.strip() for p in pieces if p.strip()]`. */
  function Clean(pieces: seq<string>): (tags: seq<string>)
    ensures forall t :: t in tags ==> t != [] && Stripped(t)
    ensures |tags| <= |pieces|
  {
    if pieces == [] then [] else Kept(pieces[0]) + Clean(pieces[1..])
  }

  /** What one piece contributes to `Clean`: its stripped form, unless that is empty. */
  function Kept(p: string): (tags: seq<string>)
    ensures |tags| <= 1
    ensures forall t :: t in tags ==> t != [] && Stripped(t)
  {
    var t := Strip(p);
    if t == [] then [] else [t]
  }

  /** The comprehension of client.py applied to the `tags` field: empty string gives no tags. */
  function ParseTagString(s: string): (tags: seq<string>)
    ensures forall t :: t in tags ==> WellFormedTag(t)
  {
    if s == [] then [] else
    var pieces := Split(s);
    var tags := Clean(pieces);
    forall t | t in tags ensures ';' !in t {
      CleanKeepsSeparatorOut(pieces, t);
    }
    tags
  }

  /** Result of reading a guest's configuration: the call raised, or the `tags` key (if present). */
  datatype TagFetch = FetchFailed | Fetched(tagsField: Option<string>)

  /** `get_vm_tags`: any exception, a missing key or an empty value gives no tags. */
  function GetVmTags(f: TagFetch): (tags: seq<string>)
    ensures f.FetchFailed? || f.tagsField.None? || f.tagsField == Some([]) ==> tags == []
    ensures forall t :: t in tags ==> WellFormedTag(t)
    ensures f.Fetched? && f.tagsField.Some? ==> tags == ParseTagString(f.tagsField.value)
  {
    match f
    case FetchFailed => []
    case Fetched(None) => []
    case Fetched(Some(s)) => ParseTagString(s)
  }

  /** `has_tag`: exact, case-sensitive membership; the query itself is not stripped. */
  function HasTag(f: TagFetch, tag: string): (b: bool)
    ensures b ==> WellFormedTag(tag)
    ensures f.FetchFailed? ==> !b
  {
    tag in GetVmTags(f)
  }

  // ----- lemmas -----

  lemma {:induction false} CleanKeepsSeparatorOut(pieces: seq<string>, t: string)
    requires forall p :: p in pieces ==> ';' !in p
    requires t in Clean(pieces)
    ensures ';' !in t
  {
    var h := Strip(pieces[0]);
    if h != [] && t == h {
      StripIsSlice(pieces[0]);
      var i := StripOffset(pieces[0]);
      assert forall k :: 0 <= k < |h| ==> h[k] == pieces[0][i + k];
      assert pieces[0] in pieces;
    } else {
      assert forall p :: p in pieces[1..] ==> p in pieces;
      CleanKeepsSeparatorOut(pieces[1..], t);
    }
  }

  /** `Join` undoes `Split`: the separators are exactly where the pieces meet. */
  lemma {:induction false} JoinSplit(s: string)
    ensures Join(Split(s)) == s
  {
    if s != [] {
      JoinSplit(s[1..]);
      var rest := Split(s[1..]);
      if s[0] == ';' {
        assert s == ";" + Join(rest);
      } else if |rest| == 1 {
        assert s == [s[0]] + rest[0];
      } else {
        assert Join(rest) == rest[0] + ";" + Join(rest[1..]);
        assert ([[s[0]] + rest[0]] + rest[1..])[1..] == rest[1..];
        assert s == [s[0]] + s[1..];
      }
    }
  }

  /** Splitting at a separator splits the two sides independently. */
  lemma {:induction false} SplitAppend(a: string, b: string)
    ensures Split(a + ";" + b) == Split(a) + Split(b)
  {
    var s := a + ";" + b;
    if a == [] {
      assert s[0] == ';' && s[1..] == b;
    } else {
      assert s[0] == a[0] && s[1..] == a[1..] + ";" + b;
      SplitAppend(a[1..], b);
      SplitConsAppend(a[0], Split(a[1..]), Split(b));
    }
  }

  /** One step of `Split`: a `;` starts a new piece, any other character joins the first piece. */
  function SplitCons(c: char, rest: seq<string>): seq<string>
    requires |rest| >= 1
  {
    if c == ';' then [[]] + rest else [[c] + rest[0]] + rest[1..]
  }

  lemma SplitConsAppend(c: char, head: seq<string>, tail: seq<string>)
    requires |head| >= 1
    ensures SplitCons(c, head + tail) == SplitCons(c, head) + tail
  {
    if c != ';' {
      assert (head + tail)[1..] == head[1..] + tail;
    }
  }

  lemma {:induction false} CleanAppend(x: seq<string>, y: seq<string>)
    ensures Clean(x + y) == Clean(x) + Clean(y)
  {
    if x == [] {
      assert x + y == y;
    } else {
      var h := Kept(x[0]);
      assert (x + y)[1..] == x[1..] + y && (x + y)[0] == x[0];
      assert Clean(x + y) == h + Clean(x[1..] + y);
      CleanAppend(x[1..], y);
      assert h + (Clean(x[1..]) + Clean(y)) == (h + Clean(x[1..])) + Clean(y);
    }
  }

  /** The empty-string guard of `get_vm_tags` changes nothing: "" splits to one empty piece. */
  lemma ParseIsCleanSplit(s: string)
    ensures ParseTagString(s) == Clean(Split(s))
  {
    if s == [] {
      assert Split(s) == [[]];
      assert Strip([]) == [];
    }
  }

  /**
   * Parsing is compositional at a separator: tags keep their order of
   * appearance and duplicates are kept.
   */
  lemma ParseAppend(a: string, b: string)
    ensures ParseTagString(a + ";" + b) == ParseTagString(a) + ParseTagString(b)
  {
    ParseIsCleanSplit(a + ";" + b);
    ParseIsCleanSplit(a);
    ParseIsCleanSplit(b);
    SplitAppend(a, b);
    CleanAppend(Split(a), Split(b));
  }

  lemma StripStripped(t: string)
    requires Stripped(t)
    ensures Strip(t) == t
  {
  }

  /** A well-formed tag on its own parses to exactly itself. */
  lemma {:induction false} ParseSingle(t: string)
    requires WellFormedTag(t)
    ensures ParseTagString(t) == [t]
  {
    SplitNoSeparator(t);
    StripStripped(t);
    assert Clean([t]) == Kept(t) + Clean([]);
  }

  lemma {:induction false} SplitNoSeparator(t: string)
    requires ';' !in t
    ensures Split(t) == [t]
  {
    if t != [] {
      assert forall k :: 0 <= k < |t[1..]| ==> t[1..][k] == t[k + 1];
      SplitNoSeparator(t[1..]);
      assert t == [t[0]] + t[1..];
    }
  }

  /** Round trip: joining well-formed tags with `;` and parsing gives them back. */
  lemma {:induction false} ParseJoin(ts: seq<string>)
    requires forall t :: t in ts ==> WellFormedTag(t)
    ensures ParseTagString(Join(ts)) == ts
  {
    if |ts| == 1 {
      ParseSingle(ts[0]);
    } else if |ts| > 1 {
      ParseJoin(ts[1..]);
      ParseSingle(ts[0]);
      ParseAppend(ts[0], Join(ts[1..]));
      assert ts == [ts[0]] + ts[1..];
    }
  }

  /** Parsing, joining and parsing again changes nothing. */
  lemma ParseJoinParse(s: string)
    ensures ParseTagString(Join(ParseTagString(s))) == ParseTagString(s)
  {
    ParseJoin(ParseTagString(s));
  }

  /** A query with surrounding white space, a `;` or no characters never matches. */
  lemma PaddedQueryNeverMatches(f: TagFetch, tag: string)
    requires !WellFormedTag(tag)
    ensures !HasTag(f, tag)
  {
  }
}
