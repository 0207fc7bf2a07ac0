/** The string primitives the screens call: `toLowerCase`, `trim`, `indexOf`,
    `includes` and `replace` with a string pattern. Case mapping and white space
    are restricted to ASCII. */
module Text {
  import opened Common

  /** ASCII lower-casing of one character. */
  function LowerChar(c: char): char {
    if 'A' <= c <= 'Z' then (c as int + 32) as char else c
  }

  /** `s.toLowerCase()` on ASCII letters; every other character is kept. */
  function ToLower(s: string): (r: string)
    ensures |r| == |s|
    ensures forall i :: 0 <= i < |s| ==> r[i] == LowerChar(s[i])
  {
    if s == [] then [] else [LowerChar(s[0])] + ToLower(s[1..])
  }

  /** Lower-casing twice is lower-casing once. */
  lemma ToLowerIdempotent(s: string)
    ensures ToLower(ToLower(s)) == ToLower(s)
  {
  }

  /** The ASCII white-space characters `trim` removes: space, tab, line feed,
      vertical tab, form feed and carriage return. */
  predicate IsSpace(c: char) {
    c == ' ' || c == '\t' || c == '\n' || c == '\r' || c as int == 11 || c as int == 12
  }

  /** Drops leading white space. */
  function TrimStart(s: string): (r: string)
    ensures |r| <= |s| && r == s[|s| - |r|..]
    ensures r == [] || !IsSpace(r[0])
    ensures forall i :: 0 <= i < |s| - |r| ==> IsSpace(s[i])
  {
    if s != [] && IsSpace(s[0]) then TrimStart(s[1..]) else s
  }

  /** Drops trailing white space. */
  function TrimEnd(s: string): (r: string)
    ensures |r| <= |s| && r == s[..|r|]
    ensures r == [] || !IsSpace(r[|r| - 1])
    ensures forall i :: |r| <= i < |s| ==> IsSpace(s[i])
  {
    if s != [] && IsSpace(s[|s| - 1]) then TrimEnd(s[..|s| - 1]) else s
  }

  /** `s.trim()`. */
  function Trim(s: string): string {
    TrimEnd(TrimStart(s))
  }

  /** A string trims to "" exactly when it consists of white space only. */
  lemma TrimEmptyIff(s: string)
    ensures Trim(s) == "" <==> forall i :: 0 <= i < |s| ==> IsSpace(s[i])
  {
    var t := TrimStart(s);
    if t != [] {
      assert t[0] == s[|s| - |t|];
    }
  }

  /** `pattern` occurs in `s` starting at index `i`. */
  predicate MatchAt(s: string, pattern: string, i: int) {
    0 <= i && i + |pattern| <= |s| && s[i..i + |pattern|] == pattern
  }

  /** `s.indexOf(pattern, from)`: the first occurrence at or after `from`. */
  function IndexOfFrom(s: string, pattern: string, from: nat): (r: Option<nat>)
    requires from <= |s|
    ensures r.Some? ==> from <= r.value && MatchAt(s, pattern, r.value)
    ensures r.Some? ==> forall j :: from <= j < r.value ==> !MatchAt(s, pattern, j)
    ensures r.None? ==> forall j :: from <= j ==> !MatchAt(s, pattern, j)
    decreases |s| - from
  {
    if MatchAt(s, pattern, from) then Some(from)
    else if from + |pattern| >= |s| then None
    else IndexOfFrom(s, pattern, from + 1)
  }

  /** `s.indexOf(pattern)`, with -1 written as `None`. */
  function IndexOf(s: string, pattern: string): Option<nat> {
    IndexOfFrom(s, pattern, 0)
  }

  /** `s.includes(pattern)`. */
  predicate Contains(s: string, pattern: string) {
    IndexOf(s, pattern).Some?
  }

  /** `includes` holds exactly when the pattern occurs somewhere; in particular the
      empty pattern occurs in every string. */
  lemma ContainsIff(s: string, pattern: string)
    ensures Contains(s, pattern) <==> exists j :: MatchAt(s, pattern, j)
    ensures pattern == [] ==> Contains(s, pattern)
  {
    if pattern == [] {
      assert MatchAt(s, pattern, 0);
    }
  }

  /** `s.replace(pattern, replacement)` with a string pattern: only the first
      occurrence is replaced, and a string without one is returned unchanged. */
  function ReplaceFirst(s: string, pattern: string, replacement: string): (r: string)
    ensures !Contains(s, pattern) ==> r == s
    ensures forall i {:trigger MatchAt(s, pattern, i)} ::
      MatchAt(s, pattern, i) && (forall j :: 0 <= j < i ==> !MatchAt(s, pattern, j)) ==>
        r == s[..i] + replacement + s[i + |pattern|..]
  {
    match IndexOf(s, pattern)
    case None => s
    case Some(i) => s[..i] + replacement + s[i + |pattern|..]
  }

  /** Replacing a prefix that the string starts with removes exactly that prefix. */
  lemma ReplaceLeadingPrefix(prefix: string, rest: string)
    ensures ReplaceFirst(prefix + rest, prefix, "") == rest
  {
    var s := prefix + rest;
    assert MatchAt(s, prefix, 0) by {
      assert s[..|prefix|] == prefix;
    }
    assert IndexOf(s, prefix) == Some(0);
    assert s[|prefix|..] == rest;
  }
}
