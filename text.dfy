/**
 * The few Python `str` operations the scripts use, restricted to ASCII:
 * strip(), rstrip(c), split(c), startswith, endswith, lower() and a
 * substring search (what re.search does with a pattern free of metacharacters).
 */
module Text {
  import opened Seqs

  /** The ASCII characters for which Python's str.isspace() holds. */
  predicate IsSpace(c: char) {
    9 <= c as int <= 13 || 28 <= c as int <= 32
  }

  function TrimLeft(s: string): (r: string)
    ensures |r| <= |s| && r == s[|s| - |r|..]
    ensures r == [] || !IsSpace(r[0])
    ensures forall i :: 0 <= i < |s| - |r| ==> IsSpace(s[i])
  {
    if s != [] && IsSpace(s[0]) then TrimLeft(s[1..]) else s
  }

  function TrimRight(s: string): (r: string)
    ensures |r| <= |s| && r == s[..|r|]
    ensures r == [] || !IsSpace(r[|r| - 1])
    ensures forall i :: |r| <= i < |s| ==> IsSpace(s[i])
  {
    if s != [] && IsSpace(s[|s| - 1]) then TrimRight(s[..|s| - 1]) else s
  }

  /** Python's s.strip(): whitespace removed at both ends. */
  function Strip(s: string): string {
    TrimRight(TrimLeft(s))
  }

  /** Python's s.rstrip(c) for one character c. */
  function RStripChar(s: string, c: char): (r: string)
    ensures |r| <= |s| && r == s[..|r|]
    ensures r == [] || r[|r| - 1] != c
    ensures forall i :: |r| <= i < |s| ==> s[i] == c
  {
    if s != [] && s[|s| - 1] == c then RStripChar(s[..|s| - 1], c) else s
  }

  predicate StartsWith(s: string, prefix: string) {
    |prefix| <= |s| && s[..|prefix|] == prefix
  }

  predicate EndsWith(s: string, suffix: string) {
    |suffix| <= |s| && s[|s| - |suffix|..] == suffix
  }

  /** pat occurs somewhere in s. */
  predicate Contains(s: string, pat: string)
    decreases |s|
  {
    StartsWith(s, pat) || (s != [] && Contains(s[1..], pat))
  }

  /** Index of the first c in s, or |s| when s has none. */
  function Find(s: string, c: char): (i: nat)
    ensures i <= |s|
    ensures i < |s| ==> s[i] == c
    ensures forall j :: 0 <= j < i ==> s[j] != c
  {
    if s == [] then 0 else if s[0] == c then 0 else 1 + Find(s[1..], c)
  }

  /** Python's s.split(sep): never empty, "" splits to [""]. */
  function Split(s: string, sep: char): (parts: seq<string>)
    ensures |parts| >= 1
    decreases |s|
  {
    var i := Find(s, sep);
    if i == |s| then [s] else [s[..i]] + Split(s[i + 1..], sep)
  }

  /** Python's sep.join(parts). */
  function Join(parts: seq<string>, sep: char): string
    requires |parts| >= 1
  {
    if |parts| == 1 then parts[0] else parts[0] + [sep] + Join(parts[1..], sep)
  }

  /** A string without surrounding whitespace is its own strip. */
  lemma StripUnchanged(s: string)
    requires s == [] || (!IsSpace(s[0]) && !IsSpace(s[|s| - 1]))
    ensures Strip(s) == s
  {
  }

  /** A string without the separator splits to itself alone. */
  lemma SplitNone(s: string, sep: char)
    requires sep !in s
    ensures Split(s, sep) == [s]
  {
  }

  /** A string with exactly one separator, at i, splits into the parts before and after it. */
  lemma SplitTwo(s: string, sep: char, i: nat)
    requires i < |s| && s[i] == sep && sep !in s[..i] && sep !in s[i + 1..]
    ensures Split(s, sep) == [s[..i], s[i + 1..]]
  {
    assert forall j :: 0 <= j < i ==> s[j] == s[..i][j];
    assert Find(s, sep) == i;
    SplitNone(s[i + 1..], sep);
  }

  /** Joining what split produced gives the string back. */
  lemma {:induction false} JoinSplit(s: string, sep: char)
    ensures Join(Split(s, sep), sep) == s
    decreases |s|
  {
    var i := Find(s, sep);
    if i < |s| {
      var rest := Split(s[i + 1..], sep);
      assert Split(s, sep) == [s[..i]] + rest;
      assert ([s[..i]] + rest)[1..] == rest;
      JoinSplit(s[i + 1..], sep);
      assert s == s[..i] + [sep] + s[i + 1..];
    }
  }

  /** The first part of a split is everything before the first separator. */
  lemma SplitHead(s: string, sep: char)
    ensures Split(s, sep)[0] == s[..Find(s, sep)]
  {
  }

  /** Splitting at the first separator: the part before it, then the split of the rest. */
  lemma SplitAtFirst(s: string, sep: char)
    requires Find(s, sep) < |s|
    ensures Split(s, sep) == [s[..Find(s, sep)]] + Split(s[Find(s, sep) + 1..], sep)
  {
  }

  /** The last part of a split is the last part of the split after the first separator. */
  lemma SplitLastOfRest(s: string, sep: char, i: nat)
    requires i == Find(s, sep) && i < |s|
    ensures Last(Split(s, sep)) == Last(Split(s[i + 1..], sep))
  {
    var head, rest := s[..i], Split(s[i + 1..], sep);
    assert Split(s, sep) == [head] + rest;
    LastOfCons(head, rest);
  }

  /** Past an earlier separator at i, the separator at j is still the last one. */
  lemma TailKeepsLast(s: string, sep: char, i: nat, j: nat)
    requires i < j < |s| && s[j] == sep && sep !in s[j + 1..]
    ensures s[i + 1..][j - i - 1] == sep && sep !in s[i + 1..][j - i..]
  {
    SuffixOfSuffix(s, i + 1, j + 1);
  }

  /** When the last separator of s is at j, the last part of its split is what follows j. */
  lemma {:induction false} SplitLastAt(s: string, sep: char, j: nat)
    requires j < |s| && s[j] == sep && sep !in s[j + 1..]
    ensures Last(Split(s, sep)) == s[j + 1..]
    decreases |s|
  {
    var i := Find(s, sep);
    SplitLastOfRest(s, sep, i);
    if i < j {
      TailKeepsLast(s, sep, i, j);
      SplitLastAt(s[i + 1..], sep, j - i - 1);
      SuffixOfSuffix(s, i + 1, j + 1);
    } else {
      SplitNone(s[i + 1..], sep);
    }
  }

  /** The last part of splitting a + [sep] + b, with no separator in b, is b. */
  lemma SplitLast(a: string, sep: char, b: string)
    requires sep !in b
    ensures var parts := Split(a + [sep] + b, sep); parts[|parts| - 1] == b
  {
    var s := a + [sep] + b;
    assert s[|a| + 1..] == b;
    SplitLastAt(s, sep, |a|);
  }

  /** Every field of a split is empty exactly when the string is made only of separators. */
  predicate AllEmpty(fields: seq<string>) {
    forall k :: 0 <= k < |fields| ==> fields[k] == ""
  }

  lemma AllEmptyCons(x: string, rest: seq<string>)
    ensures AllEmpty([x] + rest) <==> x == "" && AllEmpty(rest)
  {
    if x == "" && AllEmpty(rest) {
      forall k | 0 <= k < |[x] + rest| ensures ([x] + rest)[k] == "" {
        if k > 0 { assert ([x] + rest)[k] == rest[k - 1]; }
      }
    }
    if AllEmpty([x] + rest) {
      assert ([x] + rest)[0] == x;
      forall k | 0 <= k < |rest| ensures rest[k] == "" {
        assert rest[k] == ([x] + rest)[k + 1];
      }
    }
  }

  lemma {:induction false} AllEmptySplit(s: string, sep: char)
    ensures AllEmpty(Split(s, sep)) <==> forall j :: 0 <= j < |s| ==> s[j] == sep
    decreases |s|
  {
    var i := Find(s, sep);
    if i < |s| {
      var tail := s[i + 1..];
      AllEmptySplit(tail, sep);
      AllEmptyCons(s[..i], Split(tail, sep));
      if i == 0 && forall j :: 0 <= j < |tail| ==> tail[j] == sep {
        forall j | 0 <= j < |s| ensures s[j] == sep {
          if j > 0 { assert s[j] == tail[j - 1]; }
        }
      }
      if forall j :: 0 <= j < |s| ==> s[j] == sep {
        assert i == 0;
        forall j | 0 <= j < |tail| ensures tail[j] == sep {
          assert tail[j] == s[j + 1];
        }
      }
    } else if s != [] {
      assert s[0] != sep;
      assert Split(s, sep) == [s];
      assert [s][0] == s;
    } else {
      assert Split(s, sep) == [""];
    }
  }

  function LowerChar(c: char): char {
    if 'A' <= c <= 'Z' then (c as int + 32) as char else c
  }

  /** Python's s.lower() on ASCII letters. */
  function Lower(s: string): (r: string)
    ensures |r| == |s|
  {
    seq(|s|, i requires 0 <= i < |s| => LowerChar(s[i]))
  }

  /** lower() works piece by piece. */
  lemma LowerAppend(a: string, b: string)
    ensures Lower(a + b) == Lower(a) + Lower(b)
  {
    assert forall i :: 0 <= i < |b| ==> (a + b)[|a| + i] == b[i];
  }

  /** rstrip drops a trailing separator and goes on. */
  lemma RStripLast(s: string, c: char)
    requires s != [] && s[|s| - 1] == c
    ensures RStripChar(s, c) == RStripChar(s[..|s| - 1], c)
  {
  }

  /** rstrip stops at a last character that is not the separator. */
  lemma RStripKeep(s: string, c: char)
    requires s != [] && s[|s| - 1] != c
    ensures RStripChar(s, c) == s
  {
  }

  /** Trailing whitespace is dropped one character at a time. */
  lemma TrimRightLast(s: string)
    requires s != [] && IsSpace(s[|s| - 1])
    ensures TrimRight(s) == TrimRight(s[..|s| - 1])
  {
  }

  /**
   * Stripping s + [c] and then trailing c gives s back when s starts with a
   * non-space and ends in a space that is not c.
   */
  lemma StripThenRStripOne(s: string, c: char)
    requires s != [] && !IsSpace(s[0]) && IsSpace(s[|s| - 1]) && !IsSpace(c)
    ensures RStripChar(Strip(s + [c]), c) == s
  {
    var line := s + [c];
    assert line[..|line| - 1] == s;
    StripUnchanged(line);
    RStripLast(line, c);
    RStripKeep(s, c);
  }
}
