/** The string operations of the Python standard library that the core relies on:
    `str.strip`, `str.endswith`, `str.split('},')` and `str.replace(c, '')`. */
module Strings {

  /** `str.isspace` for a single character: the ASCII white space characters, the
      information separators 0x1C-0x1F and the Unicode space and line separators. */
  predicate IsSpace(c: char)
  {
    var n := c as int;
    (9 <= n <= 13) || (0x1C <= n <= 0x20) || n == 0x85 || n == 0xA0 || n == 0x1680
    || (0x2000 <= n <= 0x200A) || n == 0x2028 || n == 0x2029 || n == 0x202F
    || n == 0x205F || n == 0x3000
  }

  /** `str.lstrip()`. */
  function StripLeft(s: string): string
  {
    if |s| > 0 && IsSpace(s[0]) then StripLeft(s[1..]) else s
  }

  /** `str.rstrip()`. */
  function StripRight(s: string): string
  {
    if |s| > 0 && IsSpace(s[|s| - 1]) then StripRight(s[..|s| - 1]) else s
  }

  /** `str.strip()`: white space removed from both ends. */
  function Strip(s: string): string
  {
    StripRight(StripLeft(s))
  }

  /** `s.endswith(c)` for a one-character suffix. */
  predicate EndsWith(s: string, c: char)
  {
    |s| > 0 && s[|s| - 1] == c
  }

  /** A string whose two ends are not white space is its own strip. */
  lemma StripTrimmed(s: string)
    requires |s| > 0 && !IsSpace(s[0]) && !IsSpace(s[|s| - 1])
    ensures Strip(s) == s
  {
  }

  /** Left-stripping commutes with appending a character that is not white space. */
  lemma {:induction false} StripLeftAppend(s: string, c: char)
    requires !IsSpace(c)
    ensures StripLeft(s + [c]) == StripLeft(s) + [c]
  {
    if |s| > 0 && IsSpace(s[0]) {
      assert (s + [c])[1..] == s[1..] + [c];
      StripLeftAppend(s[1..], c);
    }
  }

  /** Stripping `s + [c]`, for `c` not white space, keeps `c` as the last character. */
  lemma StripAppend(s: string, c: char)
    requires !IsSpace(c)
    ensures Strip(s + [c]) == StripLeft(s) + [c]
    ensures EndsWith(Strip(s + [c]), c)
  {
    StripLeftAppend(s, c);
  }

  /** The number of non-overlapping occurrences of the separator "}," found scanning left
      to right (the separator cannot overlap itself, so this is also the number of its
      positions). */
  function CountSeparators(s: string): nat
  {
    if |s| < 2 then 0
    else if s[0] == '}' && s[1] == ',' then 1 + CountSeparators(s[2..])
    else CountSeparators(s[1..])
  }

  /** `'},'.join(parts)`: the inverse of `SplitEntries`. */
  function JoinEntries(parts: seq<string>): string
    requires |parts| > 0
  {
    if |parts| == 1 then parts[0] else parts[0] + "}," + JoinEntries(parts[1..])
  }

  /** `s.split('},')`: the pieces between the separators, left to right. */
  function SplitEntries(s: string): (parts: seq<string>)
    ensures |parts| == CountSeparators(s) + 1
    ensures parts[0] <= s
    ensures JoinEntries(parts) == s
    ensures forall i :: 0 <= i < |parts| ==> CountSeparators(parts[i]) == 0
  {
    if |s| < 2 then [s]
    else if s[0] == '}' && s[1] == ',' then
      var rest := SplitEntries(s[2..]);
      assert s == "}," + s[2..];
      [""] + rest
    else
      var rest := SplitEntries(s[1..]);
      SplitPrepend(s[0], s[1..], rest);
      assert s == [s[0]] + s[1..];
      [[s[0]] + rest[0]] + rest[1..]
  }

  /** Putting a character that does not start a separator in front of a split string
      puts it in front of the first piece. */
  lemma SplitPrepend(c: char, t: string, rest: seq<string>)
    requires |rest| > 0 && rest[0] <= t && JoinEntries(rest) == t
    requires CountSeparators(rest[0]) == 0
    requires !(c == '}' && |t| > 0 && t[0] == ',')
    ensures CountSeparators([c] + rest[0]) == 0
    ensures [c] + rest[0] <= [c] + t
    ensures JoinEntries([[c] + rest[0]] + rest[1..]) == [c] + t
  {
    if rest[0] != [] {
      assert rest[0][0] == t[0];
    }
    CountSeparatorsCons(c, rest[0]);
    JoinEntriesCons(c, rest);
  }

  /** A character that does not start a separator adds none. */
  lemma CountSeparatorsCons(c: char, u: string)
    requires !(c == '}' && |u| > 0 && u[0] == ',')
    ensures CountSeparators([c] + u) == CountSeparators(u)
  {
    if |u| >= 1 {
      assert ([c] + u)[1..] == u;
    }
  }

  /** Joining after extending the first piece extends the joined string. */
  lemma JoinEntriesCons(c: char, parts: seq<string>)
    requires |parts| > 0
    ensures JoinEntries([[c] + parts[0]] + parts[1..]) == [c] + JoinEntries(parts)
  {
    if |parts| > 1 {
      assert ([[c] + parts[0]] + parts[1..])[1..] == parts[1..];
    }
  }

  /** `s.replace(c, '')`: every occurrence of `c` removed, the rest kept in order. */
  function RemoveAll(s: string, c: char): (r: string)
    ensures c !in r
    ensures |r| <= |s|
    ensures forall x :: x in r <==> x in s && x != c
    ensures multiset(r) == multiset(s)[c := 0]
  {
    if s == [] then []
    else
      assert s == [s[0]] + s[1..];
      if s[0] == c then RemoveAll(s[1..], c)
      else [s[0]] + RemoveAll(s[1..], c)
  }

  /** On one character the removal keeps it or drops it; with RemoveAllConcat this fixes
      the order in which the kept characters appear. */
  lemma RemoveAllSingle(x: char, c: char)
    ensures RemoveAll([x], c) == if x == c then [] else [x]
  {
  }

  /** Removing a character twice is removing it once. */
  lemma {:induction false} RemoveAllIdempotent(s: string, c: char)
    ensures RemoveAll(RemoveAll(s, c), c) == RemoveAll(s, c)
  {
    if s != [] {
      RemoveAllIdempotent(s[1..], c);
    }
  }

  /** Removal distributes over concatenation. */
  lemma {:induction false} RemoveAllConcat(s: string, t: string, c: char)
    ensures RemoveAll(s + t, c) == RemoveAll(s, c) + RemoveAll(t, c)
  {
    if s != [] {
      assert (s + t)[1..] == s[1..] + t;
      RemoveAllConcat(s[1..], t, c);
    } else {
      assert s + t == t;
    }
  }

  /** `s.replace(c, d)` for single characters: every `c` becomes `d`, nothing else moves. */
  function ReplaceChar(s: string, c: char, d: char): (r: string)
    ensures |r| == |s|
  {
    if s == [] then [] else [if s[0] == c then d else s[0]] + ReplaceChar(s[1..], c, d)
  }

  /** After the replacement no `c` is left (for `c != d`), and the text is unchanged
      where it held no `c`. */
  lemma {:induction false} ReplaceCharProperties(s: string, c: char, d: char)
    ensures c != d ==> c !in ReplaceChar(s, c, d)
    ensures c !in s ==> ReplaceChar(s, c, d) == s
    ensures forall i :: 0 <= i < |s| ==> ReplaceChar(s, c, d)[i] == (if s[i] == c then d else s[i])
  {
    if s != [] {
      ReplaceCharProperties(s[1..], c, d);
      var r := ReplaceChar(s, c, d);
      forall i | 0 < i < |s|
        ensures r[i] == (if s[i] == c then d else s[i])
      {
        assert r[i] == ReplaceChar(s[1..], c, d)[i - 1];
      }
      if c !in s {
        assert c !in s[1..];
        assert s == [s[0]] + s[1..];
      }
    }
  }

  /** Text that neither starts nor ends with white space. */
  predicate Trimmed(s: string)
  {
    s == [] || (!IsSpace(s[0]) && !IsSpace(s[|s| - 1]))
  }

  /** Stripping trimmed text changes nothing. */
  lemma StripTrimmedText(s: string)
    requires Trimmed(s)
    ensures Strip(s) == s
  {
  }
}
