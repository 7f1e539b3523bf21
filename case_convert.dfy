/**
 * camel_to_snake: two regular-expression substitutions, then lower().
 *
 *   first  (.)([A-Z][a-z]+)  -> \1_\2   an underscore before a capitalised word
 *   second ([a-z0-9])([A-Z]) -> \1_\2   an underscore between a lower-case letter
 *                                        or digit and a capital
 *
 * re.sub scans left to right and never lets two matches overlap, so each
 * substitution below is a recursion that either consumes one whole match or
 * copies one character.
 */
module CaseConvert {
  import opened Text
  import opened Seqs

  predicate IsUpper(c: char) { 'A' <= c <= 'Z' }
  predicate IsLower(c: char) { 'a' <= c <= 'z' }
  predicate IsDigit(c: char) { '0' <= c <= '9' }

  predicate NoUpper(s: string) {
    forall i :: 0 <= i < |s| ==> !IsUpper(s[i])
  }

  /** How many lower-case letters [a-z]+ consumes, greedily, at the start of s. */
  function LowerRun(s: string): (n: nat)
    ensures n <= |s|
  {
    if s != [] && IsLower(s[0]) then 1 + LowerRun(s[1..]) else 0
  }

  /** A match of the first pattern starts at i: `.` is anything but a newline. */
  predicate WordBreakAt(s: string, i: nat) {
    i + 2 < |s| && s[i] != '\n' && IsUpper(s[i + 1]) && IsLower(s[i + 2])
  }

  /** A match of the second pattern starts at i. */
  predicate CapBreakAt(s: string, i: nat) {
    i + 1 < |s| && (IsLower(s[i]) || IsDigit(s[i])) && IsUpper(s[i + 1])
  }

  /** The first substitution. */
  function BreakBeforeWords(s: string): string
    decreases |s|
  {
    if WordBreakAt(s, 0) then
      var end := 2 + LowerRun(s[2..]);
      [s[0], '_'] + s[1..end] + BreakBeforeWords(s[end..])
    else if s == [] then []
    else [s[0]] + BreakBeforeWords(s[1..])
  }

  /** The second substitution. */
  function BreakBeforeCaps(s: string): string
    decreases |s|
  {
    if CapBreakAt(s, 0) then
      [s[0], '_', s[1]] + BreakBeforeCaps(s[2..])
    else if s == [] then []
    else [s[0]] + BreakBeforeCaps(s[1..])
  }

  /** camel_to_snake(name). */
  function CamelToSnake(name: string): (r: string)
    ensures NoUpper(r)
  {
    Lower(BreakBeforeCaps(BreakBeforeWords(name)))
  }

  /** name with every '_' removed: what both substitutions leave untouched. */
  function DropUnderscores(s: string): string {
    if s == [] then [] else (if s[0] == '_' then [] else [s[0]]) + DropUnderscores(s[1..])
  }

  lemma {:induction false} DropUnderscoresAppend(a: string, b: string)
    ensures DropUnderscores(a + b) == DropUnderscores(a) + DropUnderscores(b)
    decreases |a|
  {
    if a != [] {
      assert (a + b)[1..] == a[1..] + b;
      DropUnderscoresAppend(a[1..], b);
    } else {
      assert a + b == b;
    }
  }

  lemma {:induction false} BreakBeforeWordsOnlyInserts(s: string)
    ensures DropUnderscores(BreakBeforeWords(s)) == DropUnderscores(s)
    decreases |s|
  {
    if WordBreakAt(s, 0) {
      var end := 2 + LowerRun(s[2..]);
      BreakBeforeWordsOnlyInserts(s[end..]);
      DropUnderscoresAppend([s[0], '_'] + s[1..end], BreakBeforeWords(s[end..]));
      DropUnderscoresAppend([s[0], '_'], s[1..end]);
      DropUnderscoresAppend([s[0]], ['_']);
      DropUnderscoresAppend([s[0]] + s[1..end], s[end..]);
      DropUnderscoresAppend([s[0]], s[1..end]);
      assert [s[0]] + s[1..end] + s[end..] == s;
    } else if s != [] {
      BreakBeforeWordsOnlyInserts(s[1..]);
      DropUnderscoresAppend([s[0]], BreakBeforeWords(s[1..]));
      DropUnderscoresAppend([s[0]], s[1..]);
      assert [s[0]] + s[1..] == s;
    }
  }

  /** The underscore the second substitution puts between two characters drops out again. */
  lemma DropUnderscoresCut(c: char, d: char, rest: string)
    requires c != '_' && d != '_'
    ensures DropUnderscores([c, '_', d] + rest) == [c, d] + DropUnderscores(rest)
  {
    var cut := [c, '_', d];
    assert DropUnderscores([d]) == [d] by {
      assert [d][1..] == [];
    }
    assert DropUnderscores(['_', d]) == [d] by {
      assert ['_', d][1..] == [d];
    }
    assert DropUnderscores(cut) == [c, d] by {
      assert cut[1..] == ['_', d];
    }
    DropUnderscoresAppend(cut, rest);
  }

  lemma {:induction false} BreakBeforeCapsOnlyInserts(s: string)
    ensures DropUnderscores(BreakBeforeCaps(s)) == DropUnderscores(s)
    decreases |s|
  {
    if CapBreakAt(s, 0) {
      var c, d, rest := s[0], s[1], s[2..];
      assert BreakBeforeCaps(s) == [c, '_', d] + BreakBeforeCaps(rest);
      BreakBeforeCapsOnlyInserts(rest);
      DropUnderscoresCut(c, d, BreakBeforeCaps(rest));
      assert [c] + ([d] + rest) == s;
      DropUnderscoresAppend([c], [d] + rest);
      DropUnderscoresAppend([d], rest);
      AppendAssoc([c], [d], DropUnderscores(rest));
    } else if s != [] {
      BreakBeforeCapsOnlyInserts(s[1..]);
      DropUnderscoresAppend([s[0]], BreakBeforeCaps(s[1..]));
      DropUnderscoresAppend([s[0]], s[1..]);
      assert [s[0]] + s[1..] == s;
    }
  }

  lemma {:induction false} LowerDropUnderscores(s: string)
    ensures DropUnderscores(Lower(s)) == Lower(DropUnderscores(s))
    decreases |s|
  {
    if s != [] {
      LowerDropUnderscores(s[1..]);
      assert Lower(s) == [LowerChar(s[0])] + Lower(s[1..]);
      assert Lower(s)[1..] == Lower(s[1..]);
      var d := if s[0] == '_' then [] else [s[0]];
      assert Lower(d + DropUnderscores(s[1..])) == Lower(d) + Lower(DropUnderscores(s[1..]));
    }
  }

  /**
   * camel_to_snake only inserts underscores and lower-cases: with the
   * underscores taken out, the result is the lower-cased input.
   */
  lemma CamelToSnakeOnlyInsertsUnderscores(name: string)
    ensures DropUnderscores(CamelToSnake(name)) == Lower(DropUnderscores(name))
  {
    BreakBeforeWordsOnlyInserts(name);
    BreakBeforeCapsOnlyInserts(BreakBeforeWords(name));
    LowerDropUnderscores(BreakBeforeCaps(BreakBeforeWords(name)));
  }

  /** No capital letter after the first character. */
  predicate NoUpperAfterFirst(s: string) {
    forall i :: 1 <= i < |s| ==> !IsUpper(s[i])
  }

  /** The first substitution leaves alone a word with no capital after its first letter. */
  lemma {:induction false} BreakBeforeWordsKeepsWord(s: string)
    requires NoUpperAfterFirst(s)
    ensures BreakBeforeWords(s) == s
    decreases |s|
  {
    if s != [] {
      assert !WordBreakAt(s, 0) by {
        if |s| > 2 { assert s[1..][0] == s[1]; }
      }
      BreakBeforeWordsKeepsWord(s[1..]);
    }
  }

  /** So does the second. */
  lemma {:induction false} BreakBeforeCapsKeepsWord(s: string)
    requires NoUpperAfterFirst(s)
    ensures BreakBeforeCaps(s) == s
    decreases |s|
  {
    if s != [] {
      assert !CapBreakAt(s, 0) by {
        if |s| > 1 { assert s[1..][0] == s[1]; }
      }
      BreakBeforeCapsKeepsWord(s[1..]);
    }
  }

  /** The output has no capital letter left, so converting it again changes nothing. */
  lemma CamelToSnakeIdempotent(name: string)
    ensures CamelToSnake(CamelToSnake(name)) == CamelToSnake(name)
  {
    var once := CamelToSnake(name);
    BreakBeforeWordsKeepsWord(once);
    BreakBeforeCapsKeepsWord(once);
    assert Lower(once) == once;
  }

  lemma {:induction false} WordBreakAtShift(s: string, k: nat, i: nat)
    requires k <= |s|
    ensures WordBreakAt(s[k..], i) == WordBreakAt(s, k + i)
  {
    if k + i + 2 < |s| {
      assert s[k..][i] == s[k + i] && s[k..][i + 1] == s[k + i + 1] && s[k..][i + 2] == s[k + i + 2];
    }
  }

  lemma {:induction false} CapBreakAtShift(s: string, k: nat, i: nat)
    requires k <= |s|
    ensures CapBreakAt(s[k..], i) == CapBreakAt(s, k + i)
  {
    if k + i + 1 < |s| {
      assert s[k..][i] == s[k + i] && s[k..][i + 1] == s[k + i + 1];
    }
  }

  /** A run of lower-case letters that ends inside x is not lengthened by what follows x. */
  lemma {:induction false} LowerRunAppend(x: string, b: string)
    requires x != [] && (!IsLower(x[|x| - 1]) || b == [] || !IsLower(b[0]))
    ensures LowerRun(x + b) == LowerRun(x)
    decreases |x|
  {
    var s := x + b;
    assert s[0] == x[0];
    if IsLower(x[0]) {
      if |x| == 1 {
        assert s[1..] == b;
        assert x[1..] == [];
      } else {
        assert s[1..] == x[1..] + b;
        assert x[1..][|x| - 2] == x[|x| - 1];
        LowerRunAppend(x[1..], b);
      }
    }
  }

  /**
   * No match of the first pattern in a + b starts in the last two characters
   * of a, and no match inside a has its lower-case run go on into b.
   */
  predicate WordsSplitAt(a: string, b: string) {
    (|a| >= 2 ==> !WordBreakAt(a + b, |a| - 2))
    && (|a| >= 1 ==> !WordBreakAt(a + b, |a| - 1))
    && (NoUpperAfterFirst(a) || a == [] || b == [] || !IsLower(a[|a| - 1]) || !IsLower(b[0]))
  }

  lemma {:induction false} WordsSplitAtDrop(a: string, b: string, k: nat)
    requires WordsSplitAt(a, b) && k <= |a|
    ensures WordsSplitAt(a[k..], b)
  {
    var s := a + b;
    var rest := a[k..];
    assert s[k..] == rest + b;
    if |rest| >= 2 { WordBreakAtShift(s, k, |rest| - 2); }
    if |rest| >= 1 {
      WordBreakAtShift(s, k, |rest| - 1);
      assert rest[|rest| - 1] == a[|a| - 1];
    }
    if NoUpperAfterFirst(a) {
      assert forall i :: 1 <= i < |rest| ==> rest[i] == a[k + i];
    }
  }

  /** A match at the start of a + b lies inside a and ends where it ends in a. */
  lemma WordsMatchInside(a: string, b: string)
    requires a != [] && WordsSplitAt(a, b) && WordBreakAt(a + b, 0)
    ensures |a| >= 3 && WordBreakAt(a, 0)
    ensures LowerRun((a + b)[2..]) == LowerRun(a[2..])
  {
    var s := a + b;
    assert |a| >= 3;
    assert s[0] == a[0] && s[1] == a[1] && s[2] == a[2];
    assert s[2..] == a[2..] + b;
    assert a[2..][|a| - 3] == a[|a| - 1];
    LowerRunAppend(a[2..], b);
  }

  /** So the first step on a + b consumes the same match as on a. */
  lemma WordsMatchAppend(a: string, b: string)
    requires a != [] && WordsSplitAt(a, b) && WordBreakAt(a + b, 0)
    ensures |a| >= 3 && WordBreakAt(a, 0)
    ensures var end := 2 + LowerRun(a[2..]);
      BreakBeforeWords(a + b) == [a[0], '_'] + a[1..end] + BreakBeforeWords(a[end..] + b)
  {
    WordsMatchInside(a, b);
    var s := a + b;
    var end := 2 + LowerRun(a[2..]);
    assert s[end..] == a[end..] + b;
    assert s[1..end] == a[1..end];
    assert s[0] == a[0];
  }

  /** Where no match starts, the first step on a + b copies the same character as on a. */
  lemma WordsCopyAppend(a: string, b: string)
    requires a != [] && WordsSplitAt(a, b) && !WordBreakAt(a + b, 0)
    ensures !WordBreakAt(a, 0)
    ensures BreakBeforeWords(a + b) == [a[0]] + BreakBeforeWords(a[1..] + b)
  {
    var s := a + b;
    assert !WordBreakAt(a, 0) by {
      if |a| >= 3 { assert s[0] == a[0] && s[1] == a[1] && s[2] == a[2]; }
    }
    assert s[1..] == a[1..] + b;
    assert s[0] == a[0];
  }

  /** Where no match straddles the boundary, the first substitution works piece by piece. */
  lemma {:induction false} BreakBeforeWordsAppend(a: string, b: string)
    requires WordsSplitAt(a, b)
    ensures BreakBeforeWords(a + b) == BreakBeforeWords(a) + BreakBeforeWords(b)
    decreases |a|
  {
    if a == [] {
      assert a + b == b;
    } else if WordBreakAt(a + b, 0) {
      WordsMatchAppend(a, b);
      var end := 2 + LowerRun(a[2..]);
      assert BreakBeforeWords(a) == [a[0], '_'] + a[1..end] + BreakBeforeWords(a[end..]);
      WordsSplitAtDrop(a, b, end);
      BreakBeforeWordsAppend(a[end..], b);
      AppendAssoc([a[0], '_'] + a[1..end], BreakBeforeWords(a[end..]), BreakBeforeWords(b));
    } else {
      WordsCopyAppend(a, b);
      assert BreakBeforeWords(a) == [a[0]] + BreakBeforeWords(a[1..]);
      WordsSplitAtDrop(a, b, 1);
      BreakBeforeWordsAppend(a[1..], b);
      AppendAssoc([a[0]], BreakBeforeWords(a[1..]), BreakBeforeWords(b));
    }
  }

  /** No match of the second pattern in a + b starts at the last character of a. */
  predicate CapsSplitAt(a: string, b: string) {
    |a| >= 1 ==> !CapBreakAt(a + b, |a| - 1)
  }

  /** Where no match straddles the boundary, the second substitution works piece by piece. */
  lemma {:induction false} BreakBeforeCapsAppend(a: string, b: string)
    requires CapsSplitAt(a, b)
    ensures BreakBeforeCaps(a + b) == BreakBeforeCaps(a) + BreakBeforeCaps(b)
    decreases |a|
  {
    var s := a + b;
    if a == [] {
      assert s == b;
    } else if CapBreakAt(s, 0) {
      assert |a| >= 2;
      assert s[0] == a[0] && s[1] == a[1];
      assert CapBreakAt(a, 0);
      var rest := a[2..];
      assert s[2..] == rest + b;
      if |rest| >= 1 { CapBreakAtShift(s, 2, |rest| - 1); }
      BreakBeforeCapsAppend(rest, b);
    } else {
      assert !CapBreakAt(a, 0) by {
        if |a| >= 2 { assert s[0] == a[0] && s[1] == a[1]; }
      }
      var rest := a[1..];
      assert s[1..] == rest + b;
      if |rest| >= 1 { CapBreakAtShift(s, 1, |rest| - 1); }
      BreakBeforeCapsAppend(rest, b);
      assert s[0] == a[0];
    }
  }

  lemma {:induction false} LowerRunAll(x: string)
    requires forall i :: 0 <= i < |x| ==> IsLower(x[i])
    ensures LowerRun(x) == |x|
    decreases |x|
  {
    if x != [] {
      assert forall i :: 0 <= i < |x| - 1 ==> x[1..][i] == x[i + 1];
      LowerRunAll(x[1..]);
    }
  }

  /** One character, then a capitalised word: the first substitution makes one cut. */
  lemma BreakBeforeWordsOneMatch(c: char, w: string)
    requires c != '\n' && |w| >= 2 && IsUpper(w[0])
    requires forall i :: 1 <= i < |w| ==> IsLower(w[i])
    ensures BreakBeforeWords([c] + w) == [c, '_'] + w
  {
    var s := [c] + w;
    assert s[0] == c && s[1] == w[0] && s[2] == w[1];
    assert WordBreakAt(s, 0);
    assert forall i :: 0 <= i < |w| - 1 ==> s[2..][i] == w[i + 1];
    LowerRunAll(s[2..]);
    assert s[1..|s|] == w;
    assert s[|s|..] == [];
  }

  /** A leading piece the second substitution keeps, cut where no match straddles the cut. */
  lemma CapsKeepThen(a: string, b: string)
    requires CapsSplitAt(a, b) && NoUpperAfterFirst(a)
    ensures BreakBeforeCaps(a + b) == a + BreakBeforeCaps(b)
  {
    BreakBeforeCapsAppend(a, b);
    BreakBeforeCapsKeepsWord(a);
  }

  /** The first substitution cannot straddle a cut that the characters after it rule out. */
  lemma WordsSplitAtChars(a: string, b: string)
    requires |b| >= 2
    requires !IsUpper(b[0]) || !IsLower(b[1])
    requires !IsLower(b[0]) || NoUpperAfterFirst(a)
    ensures WordsSplitAt(a, b)
  {
    var s := a + b;
    if |a| >= 1 {
      assert s[|a| - 1] == a[|a| - 1] && s[|a|] == b[0] && s[|a| + 1] == b[1];
    }
  }

  /** Nor the second. */
  lemma CapsSplitAtChars(a: string, b: string)
    requires b != [] && !IsUpper(b[0])
    ensures CapsSplitAt(a, b)
  {
    var s := a + b;
    if |a| >= 1 {
      assert s[|a|] == b[0];
    }
  }

  /** Where no match of the first pattern starts, the first substitution changes nothing. */
  lemma {:induction false} BreakBeforeWordsNoMatch(s: string)
    requires forall i :: !WordBreakAt(s, i)
    ensures BreakBeforeWords(s) == s
    decreases |s|
  {
    if s != [] {
      assert !WordBreakAt(s, 0);
      forall i ensures !WordBreakAt(s[1..], i) {
        WordBreakAtShift(s, 1, i);
      }
      BreakBeforeWordsNoMatch(s[1..]);
      assert [s[0]] + s[1..] == s;
    }
  }

  /** Where no match of the second pattern starts, the second substitution changes nothing. */
  lemma {:induction false} BreakBeforeCapsNoMatch(s: string)
    requires forall i :: !CapBreakAt(s, i)
    ensures BreakBeforeCaps(s) == s
    decreases |s|
  {
    if s != [] {
      assert !CapBreakAt(s, 0);
      forall i ensures !CapBreakAt(s[1..], i) {
        CapBreakAtShift(s, 1, i);
      }
      BreakBeforeCapsNoMatch(s[1..]);
      assert [s[0]] + s[1..] == s;
    }
  }

  /** A capitalised word: one capital, then at least one lower-case letter, and nothing else. */
  predicate IsCapWord(w: string) {
    |w| >= 2 && IsUpper(w[0]) && forall i :: 1 <= i < |w| ==> IsLower(w[i])
  }

  predicate AllUpper(s: string) {
    forall i :: 0 <= i < |s| ==> IsUpper(s[i])
  }

  /** A word with no capital after its first letter, ending in a lower-case letter or digit. */
  predicate LowerEnded(a: string) {
    a != [] && NoUpperAfterFirst(a) && (IsLower(a[|a| - 1]) || IsDigit(a[|a| - 1]))
  }

  /** A word followed by capitals: no capital is followed by a lower-case letter. */
  lemma WordCapsNoWordBreak(a: string, caps: string)
    requires NoUpperAfterFirst(a) && AllUpper(caps)
    ensures forall i :: !WordBreakAt(a + caps, i)
  {
    var s := a + caps;
    forall i: nat ensures !WordBreakAt(s, i) {
      if i + 2 < |s| {
        if i + 2 < |a| {
          assert s[i + 1] == a[i + 1];
        } else {
          assert s[i + 2] == caps[i + 2 - |a|];
        }
      }
    }
  }

  /** Capitals alone hold no match of the second pattern. */
  lemma AllUpperNoCapBreak(caps: string)
    requires AllUpper(caps)
    ensures forall i :: !CapBreakAt(caps, i)
  {
    forall i: nat ensures !CapBreakAt(caps, i) {
      if i + 1 < |caps| {
        assert IsUpper(caps[i]);
      }
    }
  }

  /** Nor do capitals, an underscore and a capitalised word. */
  lemma UnderscoreWordNoCapBreak(caps: string, w: string)
    requires AllUpper(caps) && IsCapWord(w)
    ensures forall i :: !CapBreakAt(caps + ['_'] + w, i)
  {
    var s := caps + ['_'] + w;
    forall i: nat ensures !CapBreakAt(s, i) {
      if i + 1 < |s| {
        if i < |caps| {
          assert s[i] == caps[i];
        } else if i == |caps| {
          assert s[i] == '_';
        } else {
          assert s[i] == w[i - |caps| - 1] && s[i + 1] == w[i - |caps|];
        }
      }
    }
  }

  /**
   * The first substitution puts one underscore before a closing capitalised
   * word, when what precedes it is left alone.
   */
  lemma WordsCutBeforeWord(u: string, e: char, w: string)
    requires BreakBeforeWords(u) == u && e != '\n' && IsCapWord(w)
    requires !IsLower(e) || NoUpperAfterFirst(u)
    ensures BreakBeforeWords(u + [e] + w) == u + [e, '_'] + w
  {
    var b := [e] + w;
    assert b[0] == e && b[1] == w[0];
    WordsSplitAtChars(u, b);
    BreakBeforeWordsAppend(u, b);
    BreakBeforeWordsOneMatch(e, w);
    AppendAssoc(u, [e], w);
    AppendAssoc(u, [e, '_'], w);
  }

  /**
   * The second substitution puts one underscore after a lower-case letter or
   * digit that a capital follows, when nothing after that capital matches.
   */
  lemma CapsCutAfter(u: string, e: char, v: string)
    requires NoUpperAfterFirst(u) && (IsLower(e) || IsDigit(e))
    requires v != [] && IsUpper(v[0]) && BreakBeforeCaps(v[1..]) == v[1..]
    ensures BreakBeforeCaps(u + [e] + v) == u + [e, '_'] + v
  {
    var b := [e] + v;
    assert b[0] == e && b[1] == v[0] && b[2..] == v[1..];
    CapsSplitAtChars(u, b);
    CapsKeepThen(u, b);
    assert CapBreakAt(b, 0);
    assert [e, '_', v[0]] + v[1..] == [e, '_'] + v;
    AppendAssoc(u, [e], v);
    AppendAssoc(u, [e, '_'], v);
  }

  /** lower() on three pieces joined by underscores. */
  lemma LowerJoin(a: string, b: string, c: string)
    ensures Lower(a + ['_'] + b) == Lower(a) + "_" + Lower(b)
    ensures Lower(a + ['_'] + b + ['_'] + c) == Lower(a) + "_" + Lower(b) + "_" + Lower(c)
  {
    LowerAppend(a, ['_']);
    LowerAppend(a + ['_'], b);
    LowerAppend(a + ['_'] + b, ['_']);
    LowerAppend(a + ['_'] + b + ['_'], c);
    assert Lower(['_']) == "_";
  }

  /** A word ending in a lower-case letter or digit is its front and that letter. */
  lemma LowerEndedParts(a: string)
    requires LowerEnded(a)
    ensures a == a[..|a| - 1] + [a[|a| - 1]]
    ensures NoUpperAfterFirst(a[..|a| - 1])
  {
    var u := a[..|a| - 1];
    forall i | 1 <= i < |u| ensures !IsUpper(u[i]) {
      assert u[i] == a[i];
    }
  }

  /**
   * The second substitution puts one underscore after a word ending in a
   * lower-case letter or digit when a capital follows it and nothing after
   * that capital matches.
   */
  lemma CapsAfterLowerEnded(a: string, v: string)
    requires LowerEnded(a)
    requires v != [] && IsUpper(v[0]) && BreakBeforeCaps(v[1..]) == v[1..]
    ensures BreakBeforeCaps(a + v) == a + ['_'] + v
  {
    var u, e := a[..|a| - 1], a[|a| - 1];
    LowerEndedParts(a);
    CapsCutAfter(u, e, v);
    AppendAssoc(u, [e], v);
    AppendAssoc(u, [e], ['_']);
    AppendAssoc(u + [e], ['_'], v);
    assert [e] + ['_'] == [e, '_'];
    AppendAssoc(u, [e, '_'], v);
  }

  /** The first substitution on two words, the second capitalised. */
  lemma WordsOnTwoWords(a: string, w: string)
    requires LowerEnded(a) && IsCapWord(w)
    ensures BreakBeforeWords(a + w) == a + ['_'] + w
  {
    var u, e := a[..|a| - 1], a[|a| - 1];
    LowerEndedParts(a);
    BreakBeforeWordsKeepsWord(u);
    WordsCutBeforeWord(u, e, w);
    AppendAssoc(u, [e], ['_']);
    assert [e] + ['_'] == [e, '_'];
  }

  /** The second substitution on what the first one leaves of them. */
  lemma CapsOnTwoWords(a: string, w: string)
    requires NoUpperAfterFirst(a) && IsCapWord(w)
    ensures BreakBeforeCaps(a + ['_'] + w) == a + ['_'] + w
  {
    var v := ['_'] + w;
    UnderscoreWordNoCapBreak([], w);
    assert [] + ['_'] + w == v;
    BreakBeforeCapsNoMatch(v);
    CapsSplitAtChars(a, v);
    CapsKeepThen(a, v);
    AppendAssoc(a, ['_'], w);
  }

  /** Two words, the second capitalised: one underscore between them. */
  lemma CamelToSnakeTwoWords(a: string, w: string)
    requires LowerEnded(a) && IsCapWord(w)
    ensures CamelToSnake(a + w) == Lower(a) + "_" + Lower(w)
  {
    WordsOnTwoWords(a, w);
    CapsOnTwoWords(a, w);
    LowerJoin(a, w, []);
  }

  /** The first substitution leaves a word followed by an acronym alone. */
  lemma WordsOnWordAcronym(a: string, caps: string)
    requires NoUpperAfterFirst(a) && AllUpper(caps)
    ensures BreakBeforeWords(a + caps) == a + caps
  {
    WordCapsNoWordBreak(a, caps);
    BreakBeforeWordsNoMatch(a + caps);
  }

  /** The second substitution cuts a word from the acronym that follows it. */
  lemma CapsOnWordAcronym(a: string, caps: string)
    requires LowerEnded(a) && caps != [] && AllUpper(caps)
    ensures BreakBeforeCaps(a + caps) == a + ['_'] + caps
  {
    AllUpperNoCapBreak(caps[1..]);
    BreakBeforeCapsNoMatch(caps[1..]);
    CapsAfterLowerEnded(a, caps);
  }

  /** A word, then an acronym: one underscore before the acronym. */
  lemma CamelToSnakeWordAcronym(a: string, caps: string)
    requires LowerEnded(a) && caps != [] && AllUpper(caps)
    ensures CamelToSnake(a + caps) == Lower(a) + "_" + Lower(caps)
  {
    WordsOnWordAcronym(a, caps);
    CapsOnWordAcronym(a, caps);
    LowerJoin(a, caps, []);
  }

  /** The first substitution on a word, an acronym and a capitalised word. */
  lemma WordsOnWordAcronymWord(a: string, caps: string, w: string)
    requires NoUpperAfterFirst(a) && caps != [] && AllUpper(caps) && IsCapWord(w)
    ensures BreakBeforeWords(a + caps + w) == a + caps + ['_'] + w
  {
    var k := |caps| - 1;
    var pre, d := caps[..k], caps[k];
    var front := a + pre;
    assert a + caps == front + [d] by {
      assert caps == pre + [d];
      AppendAssoc(a, pre, [d]);
    }
    WordsOnWordAcronym(a, pre);
    WordsCutBeforeWord(front, d, w);
    assert front + [d, '_'] == a + caps + ['_'] by {
      AppendAssoc(front, [d], ['_']);
      assert [d] + ['_'] == [d, '_'];
    }
  }

  /** The second substitution on what the first one leaves of it. */
  lemma CapsOnWordAcronymWord(a: string, caps: string, w: string)
    requires LowerEnded(a) && caps != [] && AllUpper(caps) && IsCapWord(w)
    ensures BreakBeforeCaps(a + caps + ['_'] + w) == a + ['_'] + caps + ['_'] + w
  {
    var v := caps + ['_'] + w;
    assert v[1..] == caps[1..] + ['_'] + w;
    UnderscoreWordNoCapBreak(caps[1..], w);
    BreakBeforeCapsNoMatch(v[1..]);
    CapsAfterLowerEnded(a, v);
    AppendAssoc(a, caps + ['_'], w);
    AppendAssoc(a, caps, ['_']);
    AppendAssoc(a + ['_'], caps + ['_'], w);
    AppendAssoc(a + ['_'], caps, ['_']);
  }

  /** A word, an acronym, then a capitalised word: the acronym stays in one piece. */
  lemma CamelToSnakeWordAcronymWord(a: string, caps: string, w: string)
    requires LowerEnded(a) && caps != [] && AllUpper(caps) && IsCapWord(w)
    ensures CamelToSnake(a + caps + w) == Lower(a) + "_" + Lower(caps) + "_" + Lower(w)
  {
    WordsOnWordAcronymWord(a, caps, w);
    CapsOnWordAcronymWord(a, caps, w);
    LowerJoin(a, caps, w);
  }

  /** The key the [Cloud_Data] header SampleID becomes. */
  lemma CamelToSnakeSampleID(name: string)
    requires name == "SampleID"
    ensures CamelToSnake(name) == "sample_id"
  {
    var a, caps := "Sample", "ID";
    assert name == a + caps;
    CamelToSnakeWordAcronym(a, caps);
    assert Lower(a) == "sample" && Lower(caps) == "id";
  }

  /** The key the [Cloud_Data] header ProjectName becomes. */
  lemma CamelToSnakeProjectName(name: string)
    requires name == "ProjectName"
    ensures CamelToSnake(name) == "project_name"
  {
    var a, w := "Project", "Name";
    assert name == a + w;
    CamelToSnakeTwoWords(a, w);
    assert Lower(a) == "project" && Lower(w) == "name";
  }

  /** A name with two humps and an acronym between them. */
  lemma CamelToSnakeSampleIDNumber(name: string)
    requires name == "SampleIDNumber"
    ensures CamelToSnake(name) == "sample_id_number"
  {
    var a, caps, w := "Sample", "ID", "Number";
    assert name == a + caps + w;
    CamelToSnakeWordAcronymWord(a, caps, w);
    LowerSampleIDNumber(a, caps, w);
  }

  lemma LowerSampleIDNumber(a: string, caps: string, w: string)
    requires a == "Sample" && caps == "ID" && w == "Number"
    ensures Lower(a) + "_" + Lower(caps) + "_" + Lower(w) == "sample_id_number"
  {
    assert Lower(a) == "sample" && Lower(caps) == "id" && Lower(w) == "number";
  }
}
