/**
  The Python string operations the VBoxManage output parsers are built from:
  `sub in s`, `s.startswith(p)`, `s.split(sep)`, `s.strip()`, `s.strip(chars)`
  and `s.lower()`, each written with the semantics CPython gives it, except
  that `lower` maps only the ASCII letters.
 */
module PyStr {
  import opened Wrappers

  /** The characters `str.strip()` with no argument removes (`str.isspace`). */
  predicate IsSpace(c: char) {
    || ('\t' <= c <= '\r')
    || ('\U{1C}' <= c <= '\U{1F}')
    || c == ' '
    || c == '\U{85}'
    || c == '\U{A0}'
    || c == '\U{1680}'
    || ('\U{2000}' <= c <= '\U{200A}')
    || c == '\U{2028}'
    || c == '\U{2029}'
    || c == '\U{202F}'
    || c == '\U{205F}'
    || c == '\U{3000}'
  }

  /** `sub` occurs in `s` starting at index `k`. */
  predicate OccursAt(s: string, sub: string, k: nat) {
    k + |sub| <= |s| && s[k..k + |sub|] == sub
  }

  /** The first index at or after `from` where `sub` occurs (`s.find(sub, from)`). */
  function IndexFrom(s: string, sub: string, from: nat): (r: Option<nat>)
    ensures r.Some? ==> from <= r.value && OccursAt(s, sub, r.value)
    ensures r.Some? ==> forall k: nat :: from <= k < r.value ==> !OccursAt(s, sub, k)
    ensures r.None? ==> forall k: nat :: from <= k ==> !OccursAt(s, sub, k)
    decreases |s| - from
  {
    if from + |sub| > |s| then None
    else if OccursAt(s, sub, from) then Some(from)
    else IndexFrom(s, sub, from + 1)
  }

  /** The first index where `sub` occurs in `s`, if any. */
  function IndexOf(s: string, sub: string): (r: Option<nat>)
    ensures r.Some? ==> OccursAt(s, sub, r.value)
    ensures r.Some? ==> forall k: nat :: k < r.value ==> !OccursAt(s, sub, k)
    ensures r.None? ==> forall k: nat :: !OccursAt(s, sub, k)
  {
    IndexFrom(s, sub, 0)
  }

  /** Python's `sub in s`: `sub` occurs somewhere in `s`. */
  predicate Contains(s: string, sub: string) {
    IndexOf(s, sub).Some?
  }

  /** `sub in s` holds exactly when `sub` occurs at some index of `s`. */
  lemma ContainsOccurs(s: string, sub: string)
    ensures Contains(s, sub) <==> exists k: nat :: OccursAt(s, sub, k)
  {
  }

  /** Python's `s.startswith(p)`: `p` occurs at the start of `s`. */
  predicate StartsWith(s: string, p: string)
    ensures StartsWith(s, p) <==> OccursAt(s, p, 0)
  {
    |p| <= |s| && s[..|p|] == p
  }

  /**
    Python's `s.split(sep)` for a non-empty separator: the text is cut at
    each occurrence of `sep`, scanning from the left, and occurrences do not
    overlap.
   */
  function SplitOn(s: string, sep: string): (r: seq<string>)
    requires sep != []
    ensures |r| >= 1
    ensures |r| >= 2 <==> Contains(s, sep)
    decreases |s|
  {
    match IndexOf(s, sep)
    case None => [s]
    case Some(i) => [s[..i]] + SplitOn(s[i + |sep|..], sep)
  }

  /** Python's `sep.join(parts)`. */
  function Join(parts: seq<string>, sep: string): string {
    if parts == [] then []
    else if |parts| == 1 then parts[0]
    else parts[0] + sep + Join(parts[1..], sep)
  }

  /** Joining the pieces of a split with the separator gives back the text. */
  lemma {:induction false} JoinSplitOn(s: string, sep: string)
    requires sep != []
    ensures Join(SplitOn(s, sep), sep) == s
    decreases |s|
  {
    match IndexOf(s, sep)
    case None =>
    case Some(i) =>
      var rest := s[i + |sep|..];
      JoinSplitOn(rest, sep);
      assert SplitOn(s, sep) == [s[..i]] + SplitOn(rest, sep);
      assert s == s[..i] + sep + rest;
  }

  /** The text before the first occurrence of `sub` does not contain `sub`. */
  lemma BeforeFirstAvoids(s: string, sub: string, i: nat)
    requires sub != [] && i <= |s|
    requires forall k: nat :: k < i ==> !OccursAt(s, sub, k)
    ensures !Contains(s[..i], sub)
  {
    var head := s[..i];
    if Contains(head, sub) {
      var j := IndexOf(head, sub).value;
      assert head[j..j + |sub|] == s[j..j + |sub|];
      assert OccursAt(s, sub, j);
    }
  }

  /** No piece of a split contains the separator. */
  lemma {:induction false} SplitOnPiecesAvoidSep(s: string, sep: string, k: nat)
    requires sep != []
    requires k < |SplitOn(s, sep)|
    ensures !Contains(SplitOn(s, sep)[k], sep)
    decreases |s|
  {
    match IndexOf(s, sep)
    case None =>
      assert SplitOn(s, sep) == [s];
    case Some(i) =>
      var rest := s[i + |sep|..];
      var pieces := SplitOn(rest, sep);
      assert SplitOn(s, sep) == [s[..i]] + pieces;
      if k == 0 {
        BeforeFirstAvoids(s, sep, i);
      } else {
        assert SplitOn(s, sep)[k] == pieces[k - 1];
        SplitOnPiecesAvoidSep(rest, sep, k - 1);
      }
  }

  /** `s.split(sep)[1]`: the text after the first `sep`, up to the next one or the end. */
  lemma SecondPiece(s: string, sep: string)
    requires sep != [] && Contains(s, sep)
    ensures var i := IndexOf(s, sep).value;
            var rest := s[i + |sep|..];
            SplitOn(s, sep)[0] == s[..i] &&
            SplitOn(s, sep)[1] == (match IndexOf(rest, sep)
                                   case Some(j) => rest[..j]
                                   case None => rest)
  {
  }

  /** Python's `s.lstrip(chars)`, with the stripped characters given by `drop`. */
  function TrimStart(s: string, drop: char -> bool): (r: string)
    ensures |r| <= |s|
    decreases |s|
  {
    if s != [] && drop(s[0]) then TrimStart(s[1..], drop) else s
  }

  /** lstrip keeps a suffix and cuts only stripped characters, up to the first kept one. */
  lemma {:induction false} TrimStartSpec(s: string, drop: char -> bool)
    ensures var r := TrimStart(s, drop);
            && |r| <= |s| && r == s[|s| - |r|..]
            && (forall k :: 0 <= k < |s| - |r| ==> drop(s[k]))
            && (r != [] ==> !drop(r[0]))
    decreases |s|
  {
    if s != [] && drop(s[0]) {
      TrimStartSpec(s[1..], drop);
      var r := TrimStart(s, drop);
      forall k | 1 <= k < |s| - |r| ensures drop(s[k]) {
        assert s[k] == s[1..][k - 1];
      }
    }
  }

  /** Python's `s.rstrip(chars)`, with the stripped characters given by `drop`. */
  function TrimEnd(s: string, drop: char -> bool): (r: string)
    ensures |r| <= |s|
    decreases |s|
  {
    if s != [] && drop(s[|s| - 1]) then TrimEnd(s[..|s| - 1], drop) else s
  }

  /** rstrip keeps a prefix and cuts only stripped characters, back to the last kept one. */
  lemma {:induction false} TrimEndSpec(s: string, drop: char -> bool)
    ensures var r := TrimEnd(s, drop);
            && |r| <= |s| && r == s[..|r|]
            && (forall k :: |r| <= k < |s| ==> drop(s[k]))
            && (r != [] ==> !drop(r[|r| - 1]))
    decreases |s|
  {
    if s != [] && drop(s[|s| - 1]) {
      var init := s[..|s| - 1];
      TrimEndSpec(init, drop);
      var r := TrimEnd(s, drop);
      forall k | |r| <= k < |s| - 1 ensures drop(s[k]) {
        assert s[k] == init[k];
      }
    }
  }

  /** Python's `s.strip(chars)`, with the stripped characters given by `drop`. */
  function StripWith(s: string, drop: char -> bool): string {
    TrimEnd(TrimStart(s, drop), drop)
  }

  /** Python's `s.strip()`: the text without its leading and trailing white space. */
  function Strip(s: string): (r: string)
    ensures |r| <= |s|
  {
    StripWith(s, IsSpace)
  }

  predicate IsQuote(c: char) {
    c == '"'
  }

  /** Python's `s.strip('"')`: the text without its leading and trailing double quotes. */
  function StripQuotes(s: string): (r: string)
    ensures |r| <= |s|
  {
    StripWith(s, IsQuote)
  }

  /** A stripped prefix `s[..i]` and a stripped suffix of the rest leave the middle `r`. */
  predicate KeptMiddle(s: string, drop: char -> bool, i: nat, r: string) {
    && i + |r| <= |s|
    && r == s[i..i + |r|]
    && (forall k :: 0 <= k < i ==> drop(s[k]))
    && (forall k :: i + |r| <= k < |s| ==> drop(s[k]))
    && (r != [] ==> !drop(r[0]) && !drop(r[|r| - 1]))
  }

  lemma MiddleOfTrims(s: string, t: string, r: string, drop: char -> bool)
    requires |t| <= |s| && t == s[|s| - |t|..]
    requires (forall k :: 0 <= k < |s| - |t| ==> drop(s[k])) && (t != [] ==> !drop(t[0]))
    requires |r| <= |t| && r == t[..|r|]
    requires (forall k :: |r| <= k < |t| ==> drop(t[k])) && (r != [] ==> !drop(r[|r| - 1]))
    ensures KeptMiddle(s, drop, |s| - |t|, r)
  {
    var i := |s| - |t|;
    assert s[i..i + |r|] == t[..|r|];
    forall k | i + |r| <= k < |s| ensures drop(s[k]) {
      assert s[k] == t[k - i];
    }
    if r != [] {
      assert r[0] == t[0];
    }
  }

  /**
    What strip keeps: a contiguous part of the text, with only stripped
    characters cut from either end, that neither starts nor ends with one.
   */
  lemma StripWithKeepsMiddle(s: string, drop: char -> bool)
    ensures KeptMiddle(s, drop, |s| - |TrimStart(s, drop)|, StripWith(s, drop))
  {
    var t := TrimStart(s, drop);
    TrimStartSpec(s, drop);
    TrimEndSpec(t, drop);
    MiddleOfTrims(s, t, TrimEnd(t, drop), drop);
  }

  lemma SliceOfSlice(s: string, i: nat, n: nat, k: nat, m: nat)
    requires i + n <= |s| && k + m <= n
    ensures s[i..i + n][k..k + m] == s[i + k..i + k + m]
  {
    var a, b := s[i..i + n][k..k + m], s[i + k..i + k + m];
    assert forall j :: 0 <= j < m ==> a[j] == b[j];
  }

  /** What strip keeps is a slice of the text, so it holds no occurrence the text lacks. */
  lemma StripWithKeepsAbsence(s: string, sub: string, drop: char -> bool)
    requires sub != [] && !Contains(s, sub)
    ensures !Contains(StripWith(s, drop), sub)
  {
    var r := StripWith(s, drop);
    var i := |s| - |TrimStart(s, drop)|;
    StripWithKeepsMiddle(s, drop);
    assert i + |r| <= |s| && r == s[i..i + |r|];
    forall k: nat | OccursAt(r, sub, k) ensures OccursAt(s, sub, i + k) {
      SliceOfSlice(s, i, |r|, k, |sub|);
    }
  }

  /** Stripping twice is stripping once. */
  lemma StripWithIdempotent(s: string, drop: char -> bool)
    ensures StripWith(StripWith(s, drop), drop) == StripWith(s, drop)
  {
    var r := StripWith(s, drop);
    StripWithKeepsMiddle(s, drop);
    assert TrimStart(r, drop) == r;
    assert TrimEnd(r, drop) == r;
  }

  /** The text is blank (strips to nothing) exactly when every character is stripped. */
  lemma StripWithEmpty(s: string, drop: char -> bool)
    ensures StripWith(s, drop) == [] <==> forall k :: 0 <= k < |s| ==> drop(s[k])
  {
    StripWithKeepsMiddle(s, drop);
    TrimStartSpec(s, drop);
  }

  /** Python's `c.lower()` on ASCII letters; other characters are kept. */
  function LowerChar(c: char): char {
    if 'A' <= c <= 'Z' then (c as int + 32) as char else c
  }

  /** Python's `s.lower()`, for ASCII letters. */
  function Lower(s: string): (r: string)
    ensures |r| == |s|
    ensures forall i :: 0 <= i < |r| ==> !('A' <= r[i] <= 'Z')
    ensures forall i :: 0 <= i < |s| && !('A' <= s[i] <= 'Z') ==> r[i] == s[i]
    ensures forall i :: 0 <= i < |s| && 'A' <= s[i] <= 'Z' ==> r[i] as int == s[i] as int + 32
  {
    seq(|s|, i requires 0 <= i < |s| => LowerChar(s[i]))
  }

  /** Lowering twice is lowering once. */
  lemma LowerIdempotent(s: string)
    ensures Lower(Lower(s)) == Lower(s)
  {
    var a, b := Lower(Lower(s)), Lower(s);
    assert forall i :: 0 <= i < |a| ==> a[i] == b[i];
  }
}
