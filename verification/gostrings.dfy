/**
 * The handful of functions from Go's `strings` package that the modelled
 * exercises call. Strings are sequences of characters; every literal the
 * exercises use is ASCII, and input is taken as ASCII text, so a character
 * stands for a byte.
 */
module GoStrings {
  import opened Wrappers

  /** `strings.HasPrefix`. */
  predicate HasPrefix(s: string, prefix: string) {
    |prefix| <= |s| && s[..|prefix|] == prefix
  }

  /** `strings.HasSuffix`. */
  predicate HasSuffix(s: string, suffix: string) {
    |suffix| <= |s| && s[|s| - |suffix|..] == suffix
  }

  /** `strings.TrimPrefix`: drops the prefix once when it is there. */
  function TrimPrefix(s: string, prefix: string): (r: string)
    ensures HasPrefix(s, prefix) ==> prefix + r == s
    ensures !HasPrefix(s, prefix) ==> r == s
  {
    if HasPrefix(s, prefix) then s[|prefix|..] else s
  }

  /** `strings.TrimSuffix`: drops the suffix once when it is there. */
  function TrimSuffix(s: string, suffix: string): (r: string)
    ensures HasSuffix(s, suffix) ==> r + suffix == s
    ensures !HasSuffix(s, suffix) ==> r == s
  {
    if HasSuffix(s, suffix) then s[..|s| - |suffix|] else s
  }

  /** `sub` occurs in `s` at position `i`. */
  predicate OccursAt(s: string, sub: string, i: nat) {
    i + |sub| <= |s| && s[i..i + |sub|] == sub
  }

  /** The first position at or after `from` where `sub` occurs. */
  function IndexFrom(s: string, sub: string, from: nat): (r: Option<nat>)
    requires from <= |s|
    decreases |s| - from
    ensures r.Some? ==> from <= r.value && OccursAt(s, sub, r.value)
    ensures r.Some? ==> forall j: nat :: from <= j < r.value ==> !OccursAt(s, sub, j)
    ensures r.None? ==> forall j: nat :: from <= j ==> !OccursAt(s, sub, j)
  {
    if OccursAt(s, sub, from) then Some(from)
    else if from == |s| then None
    else IndexFrom(s, sub, from + 1)
  }

  /** `strings.Index`, with "not found" as None rather than -1. */
  function Index(s: string, sub: string): (r: Option<nat>)
    ensures r.Some? ==> OccursAt(s, sub, r.value)
    ensures r.Some? ==> forall j: nat :: j < r.value ==> !OccursAt(s, sub, j)
    ensures r.None? <==> forall j: nat :: !OccursAt(s, sub, j)
  {
    IndexFrom(s, sub, 0)
  }

  /** `strings.Contains`. */
  predicate Contains(s: string, sub: string) {
    Index(s, sub).Some?
  }

  /**
   * `strings.Replace(s, old, new, 1)`: the leftmost occurrence of `target` is
   * replaced by `replacement`; without one `s` comes back unchanged.
   */
  function ReplaceFirst(s: string, target: string, replacement: string): (r: string)
    ensures !Contains(s, target) ==> r == s
    ensures Contains(s, target) ==>
      exists i: nat :: && OccursAt(s, target, i)
                       && (forall j: nat :: j < i ==> !OccursAt(s, target, j))
                       && r == s[..i] + replacement + s[i + |target|..]
  {
    match Index(s, target)
    case None => s
    case Some(i) => s[..i] + replacement + s[i + |target|..]
  }

  /** `strings.Join`. */
  function Join(parts: seq<string>, sep: string): string
    decreases |parts|
  {
    if |parts| == 0 then ""
    else if |parts| == 1 then parts[0]
    else parts[0] + sep + Join(parts[1..], sep)
  }

  /**
   * `strings.Split` for a non-empty separator: the pieces between
   * leftmost, non-overlapping occurrences of `sep`. Always at least one
   * piece, so `Split("", sep) == [""]`.
   */
  function SplitNonEmpty(s: string, sep: string): (r: seq<string>)
    requires |sep| > 0
    decreases |s|
    ensures |r| >= 1
  {
    if |s| < |sep| then [s]
    else if s[..|sep|] == sep then [""] + SplitNonEmpty(s[|sep|..], sep)
    else
      var rest := SplitNonEmpty(s[1..], sep);
      [[s[0]] + rest[0]] + rest[1..]
  }

  /** `strings.Split`; an empty separator cuts `s` into single characters. */
  function Split(s: string, sep: string): (r: seq<string>)
    ensures |sep| == 0 ==> |r| == |s| && forall i :: 0 <= i < |s| ==> r[i] == [s[i]]
    ensures |sep| > 0 ==> |r| >= 1
  {
    if |sep| == 0 then seq(|s|, i requires 0 <= i < |s| => [s[i]])
    else SplitNonEmpty(s, sep)
  }

  /** Joining the pieces of a split with the same separator gives the string back. */
  lemma {:induction false} JoinSplit(s: string, sep: string)
    requires |sep| > 0
    ensures Join(Split(s, sep), sep) == s
  {
    SplitJoinNonEmpty(s, sep);
  }

  lemma {:induction false} SplitJoinNonEmpty(s: string, sep: string)
    requires |sep| > 0
    decreases |s|
    ensures Join(SplitNonEmpty(s, sep), sep) == s
  {
    if |s| < |sep| {
    } else if s[..|sep|] == sep {
      var rest := SplitNonEmpty(s[|sep|..], sep);
      SplitJoinNonEmpty(s[|sep|..], sep);
      assert SplitNonEmpty(s, sep) == [""] + rest;
      assert s == s[..|sep|] + s[|sep|..];
    } else {
      var rest := SplitNonEmpty(s[1..], sep);
      SplitJoinNonEmpty(s[1..], sep);
      JoinExtendFirst(s[0], rest, sep);
      assert s == [s[0]] + s[1..];
    }
  }

  /** Prefixing the first piece with `c` prefixes the joined string with `c`. */
  lemma JoinExtendFirst(c: char, parts: seq<string>, sep: string)
    requires |parts| > 0
    ensures Join([[c] + parts[0]] + parts[1..], sep) == [c] + Join(parts, sep)
  {
    var r := [[c] + parts[0]] + parts[1..];
    if |parts| > 1 {
      assert r[1..] == parts[1..];
      assert ([c] + parts[0]) + sep + Join(parts[1..], sep) == [c] + (parts[0] + sep + Join(parts[1..], sep));
    }
  }

  /** `strings.TrimLeft(s, cutset)` for a one-character cutset. */
  function TrimLeftChar(s: string, c: char): (r: string)
    decreases |s|
    ensures |r| <= |s| && r == s[|s| - |r|..]
    ensures |r| > 0 ==> r[0] != c
    ensures forall i :: 0 <= i < |s| - |r| ==> s[i] == c
  {
    if |s| > 0 && s[0] == c then TrimLeftChar(s[1..], c) else s
  }

  /** `strings.TrimRight(s, cutset)` for a one-character cutset. */
  function TrimRightChar(s: string, c: char): (r: string)
    decreases |s|
    ensures |r| <= |s| && r == s[..|r|]
    ensures |r| > 0 ==> r[|r| - 1] != c
    ensures forall i :: |r| <= i < |s| ==> s[i] == c
  {
    if |s| > 0 && s[|s| - 1] == c then TrimRightChar(s[..|s| - 1], c) else s
  }

  /** `strings.Trim(s, cutset)` for a one-character cutset. */
  function TrimChar(s: string, c: char): (r: string)
    ensures |r| > 0 ==> r[0] != c && r[|r| - 1] != c
    ensures c !in s ==> r == s
  {
    TrimRightChar(TrimLeftChar(s, c), c)
  }

  /** Appending a part to a non-empty list adds the separator and the part at the end of the join. */
  lemma {:induction false} JoinAppend(parts: seq<string>, sep: string, last: string)
    requires |parts| > 0
    decreases |parts|
    ensures Join(parts + [last], sep) == Join(parts, sep) + sep + last
  {
    if |parts| == 1 {
      assert parts + [last] == [parts[0], last];
      assert Join([last], sep) == last;
    } else {
      assert (parts + [last])[1..] == parts[1..] + [last];
      JoinAppend(parts[1..], sep, last);
    }
  }

  /** A piece free of the separator's first character is cut off intact at the first separator. */
  lemma {:induction false} SplitPieceThenSep(piece: string, sep: string, rest: string)
    requires |sep| > 0 && sep[0] !in piece
    decreases |piece|
    ensures SplitNonEmpty(piece + sep + rest, sep) == [piece] + SplitNonEmpty(rest, sep)
  {
    var s := piece + sep + rest;
    if |piece| == 0 {
      assert s[..|sep|] == sep;
      assert s[|sep|..] == rest;
    } else {
      assert s[0] != sep[0];
      assert s[1..] == piece[1..] + sep + rest;
      SplitPieceThenSep(piece[1..], sep, rest);
      assert [s[0]] + piece[1..] == piece;
    }
  }

  /** A string without the separator's first character splits into itself alone. */
  lemma {:induction false} SplitWithoutSep(piece: string, sep: string)
    requires |sep| > 0 && sep[0] !in piece
    decreases |piece|
    ensures SplitNonEmpty(piece, sep) == [piece]
  {
    if |piece| >= |sep| {
      assert piece[0] != sep[0];
      SplitWithoutSep(piece[1..], sep);
      assert [piece[0]] + piece[1..] == piece;
    }
  }

  /**
   * Splitting a join gives the parts back, provided there is at least one
   * part and no part holds the separator's first character.
   */
  lemma {:induction false} SplitJoin(parts: seq<string>, sep: string)
    requires |parts| > 0 && |sep| > 0
    requires forall i :: 0 <= i < |parts| ==> sep[0] !in parts[i]
    decreases |parts|
    ensures Split(Join(parts, sep), sep) == parts
  {
    if |parts| == 1 {
      SplitWithoutSep(parts[0], sep);
    } else {
      SplitJoin(parts[1..], sep);
      SplitPieceThenSep(parts[0], sep, Join(parts[1..], sep));
      assert parts == [parts[0]] + parts[1..];
    }
  }
}
