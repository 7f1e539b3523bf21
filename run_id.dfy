/**
 * determine_sequencer_type: which instrument wrote a run directory, told
 * from the directory name. Python's re.match anchors the pattern at the start
 * of the name only, so anything may follow a matching prefix.
 *
 *   MiSeq    \d{6}_M\d{5}_\d{4}_\d{9}-[A-Z0-9]{5}
 *   NextSeq  \d{6}_VH\d{5}_\d+_[A-Z0-9]{9}
 *
 * The MiSeq pattern is tried first. \d is the ASCII digit class here.
 */
module RunId {
  import opened Results
  import opened CaseConvert

  datatype Sequencer = MiSeq | NextSeq

  predicate IsCodeChar(c: char) { IsUpper(c) || IsDigit(c) }

  predicate DigitsAt(s: string, from: nat, to: nat)
    requires from <= to <= |s|
  {
    forall i :: from <= i < to ==> IsDigit(s[i])
  }

  predicate CodeAt(s: string, from: nat, to: nat)
    requires from <= to <= |s|
  {
    forall i :: from <= i < to ==> IsCodeChar(s[i])
  }

  /** The MiSeq pattern, position by position. */
  predicate MatchesMiSeqAtStart(s: string) {
    |s| >= 34
    && DigitsAt(s, 0, 6) && s[6] == '_' && s[7] == 'M'
    && DigitsAt(s, 8, 13) && s[13] == '_'
    && DigitsAt(s, 14, 18) && s[18] == '_'
    && DigitsAt(s, 19, 28) && s[28] == '-'
    && CodeAt(s, 29, 34)
  }

  /** How many digits \d+ consumes, greedily, at the start of s. */
  function DigitRun(s: string): (n: nat)
    ensures n <= |s|
    ensures forall i :: 0 <= i < n ==> IsDigit(s[i])
    ensures n < |s| ==> !IsDigit(s[n])
  {
    if s != [] && IsDigit(s[0]) then 1 + DigitRun(s[1..]) else 0
  }

  /**
   * The NextSeq pattern, position by position. The run number \d+ is
   * followed by '_', which is not a digit, so backtracking cannot help: the
   * only run that can match is the greedy one.
   */
  predicate MatchesNextSeqAtStart(s: string) {
    |s| >= 15
    && DigitsAt(s, 0, 6) && s[6] == '_' && s[7] == 'V' && s[8] == 'H'
    && DigitsAt(s, 9, 14) && s[14] == '_'
    && var k := DigitRun(s[15..]);
       k >= 1 && 25 + k <= |s| && s[15 + k] == '_' && CodeAt(s, 16 + k, 25 + k)
  }

  /** determine_sequencer_type(run_id); None stands for Python's None. */
  function DetermineSequencerType(runId: string): Option<Sequencer> {
    if MatchesMiSeqAtStart(runId) then Some(MiSeq)
    else if MatchesNextSeqAtStart(runId) then Some(NextSeq)
    else None
  }

  // A second description of the two patterns: the names they match, built
  // from their parts.

  predicate AllDigits(s: string) {
    forall i :: 0 <= i < |s| ==> IsDigit(s[i])
  }

  predicate AllCode(s: string) {
    forall i :: 0 <= i < |s| ==> IsCodeChar(s[i])
  }

  /** <date>_M<instrument>_<run>_<flow cell>-<code> */
  function MiSeqRunId(date: string, instrument: string, run: string, cell: string, code: string): string {
    date + "_M" + instrument + "_" + run + "_" + cell + "-" + code
  }

  predicate MiSeqParts(date: string, instrument: string, run: string, cell: string, code: string) {
    |date| == 6 && AllDigits(date)
    && |instrument| == 5 && AllDigits(instrument)
    && |run| == 4 && AllDigits(run)
    && |cell| == 9 && AllDigits(cell)
    && |code| == 5 && AllCode(code)
  }

  ghost predicate StartsWithMiSeqRunId(s: string) {
    exists date, instrument, run, cell, code ::
      MiSeqParts(date, instrument, run, cell, code) && MiSeqRunId(date, instrument, run, cell, code) <= s
  }

  /** <date>_VH<instrument>_<run>_<flow cell> */
  function NextSeqRunId(date: string, instrument: string, run: string, cell: string): string {
    date + "_VH" + instrument + "_" + run + "_" + cell
  }

  predicate NextSeqParts(date: string, instrument: string, run: string, cell: string) {
    |date| == 6 && AllDigits(date)
    && |instrument| == 5 && AllDigits(instrument)
    && |run| >= 1 && AllDigits(run)
    && |cell| == 9 && AllCode(cell)
  }

  ghost predicate StartsWithNextSeqRunId(s: string) {
    exists date, instrument, run, cell ::
      NextSeqParts(date, instrument, run, cell) && NextSeqRunId(date, instrument, run, cell) <= s
  }

  lemma MiSeqRunIdLayout(date: string, instrument: string, run: string, cell: string, code: string)
    requires |date| == 6 && |instrument| == 5 && |run| == 4 && |cell| == 9 && |code| == 5
    ensures var r := MiSeqRunId(date, instrument, run, cell, code);
      |r| == 34 && r[..6] == date && r[6] == '_' && r[7] == 'M' && r[8..13] == instrument
      && r[13] == '_' && r[14..18] == run && r[18] == '_' && r[19..28] == cell
      && r[28] == '-' && r[29..] == code
  {
  }

  /** The positional MiSeq matcher accepts exactly the names that start with a MiSeq run id. */
  lemma MiSeqMatcherCorrect(s: string)
    ensures MatchesMiSeqAtStart(s) <==> StartsWithMiSeqRunId(s)
  {
    if MatchesMiSeqAtStart(s) {
      var date, instrument, run, cell, code := s[..6], s[8..13], s[14..18], s[19..28], s[29..34];
      MiSeqRunIdLayout(date, instrument, run, cell, code);
      var r := MiSeqRunId(date, instrument, run, cell, code);
      assert r == s[..34];
      assert MiSeqParts(date, instrument, run, cell, code);
    }
    if StartsWithMiSeqRunId(s) {
      var date, instrument, run, cell, code :|
        MiSeqParts(date, instrument, run, cell, code) && MiSeqRunId(date, instrument, run, cell, code) <= s;
      MiSeqRunIdLayout(date, instrument, run, cell, code);
      var r := MiSeqRunId(date, instrument, run, cell, code);
      assert s[..34] == r;
    }
  }

  lemma NextSeqRunIdLayout(date: string, instrument: string, run: string, cell: string)
    requires |date| == 6 && |instrument| == 5 && |cell| == 9
    ensures var r := NextSeqRunId(date, instrument, run, cell); var n := |run|;
      |r| == 25 + n && r[..6] == date && r[6] == '_' && r[7] == 'V' && r[8] == 'H'
      && r[9..14] == instrument && r[14] == '_' && r[15..15 + n] == run
      && r[15 + n] == '_' && r[16 + n..] == cell
  {
  }

  /** A digit run that stops at a non-digit has exactly the length \d+ consumes. */
  lemma {:induction false} DigitRunExact(x: string, n: nat)
    requires n < |x| && !IsDigit(x[n])
    requires forall i :: 0 <= i < n ==> IsDigit(x[i])
    ensures DigitRun(x) == n
    decreases n
  {
    if n > 0 {
      assert forall i :: 0 <= i < n - 1 ==> x[1..][i] == x[i + 1];
      DigitRunExact(x[1..], n - 1);
    }
  }

  /** The positional NextSeq matcher accepts exactly the names that start with a NextSeq run id. */
  lemma NextSeqMatcherCorrect(s: string)
    ensures MatchesNextSeqAtStart(s) <==> StartsWithNextSeqRunId(s)
  {
    if MatchesNextSeqAtStart(s) {
      var k := DigitRun(s[15..]);
      var date, instrument, run, cell := s[..6], s[9..14], s[15..15 + k], s[16 + k..25 + k];
      NextSeqRunIdLayout(date, instrument, run, cell);
      var r := NextSeqRunId(date, instrument, run, cell);
      assert r == s[..25 + k];
      assert NextSeqParts(date, instrument, run, cell);
    }
    if StartsWithNextSeqRunId(s) {
      var date, instrument, run, cell :|
        NextSeqParts(date, instrument, run, cell) && NextSeqRunId(date, instrument, run, cell) <= s;
      NextSeqRunIdLayout(date, instrument, run, cell);
      var r := NextSeqRunId(date, instrument, run, cell);
      var n := |run|;
      assert s[..25 + n] == r;
      DigitRunExact(s[15..], n);
    }
  }

  /**
   * "miseq" exactly for names that start with a MiSeq run id; otherwise
   * "nextseq" exactly for names that start with a NextSeq run id; otherwise None.
   */
  lemma DetermineSequencerTypeSpec(runId: string)
    ensures DetermineSequencerType(runId) == Some(MiSeq) <==> StartsWithMiSeqRunId(runId)
    ensures DetermineSequencerType(runId) == Some(NextSeq)
      <==> !StartsWithMiSeqRunId(runId) && StartsWithNextSeqRunId(runId)
    ensures DetermineSequencerType(runId) == None
      <==> !StartsWithMiSeqRunId(runId) && !StartsWithNextSeqRunId(runId)
  {
    MiSeqMatcherCorrect(runId);
    NextSeqMatcherCorrect(runId);
  }

  /** Whatever follows a recognised run id does not change how it is classified. */
  lemma ClassificationIgnoresSuffix(runId: string, suffix: string)
    requires DetermineSequencerType(runId) != None
    ensures DetermineSequencerType(runId + suffix) == DetermineSequencerType(runId)
  {
    DetermineSequencerTypeSpec(runId);
    DetermineSequencerTypeSpec(runId + suffix);
    if StartsWithMiSeqRunId(runId) {
      var date, instrument, run, cell, code :|
        MiSeqParts(date, instrument, run, cell, code) && MiSeqRunId(date, instrument, run, cell, code) <= runId;
      assert MiSeqRunId(date, instrument, run, cell, code) <= runId + suffix;
    } else {
      var date, instrument, run, cell :|
        NextSeqParts(date, instrument, run, cell) && NextSeqRunId(date, instrument, run, cell) <= runId;
      assert NextSeqRunId(date, instrument, run, cell) <= runId + suffix;
      NextSeqMatcherCorrect(runId);
      MiSeqMatcherCorrect(runId + suffix);
      assert (runId + suffix)[7] == runId[7] == 'V';
    }
  }

  /** No name shorter than 26 characters is recognised: the shortest NextSeq run id has 26. */
  lemma ShortRunIdUnknown(runId: string)
    requires |runId| < 26
    ensures DetermineSequencerType(runId) == None
  {
  }

  lemma MiSeqExampleBuilt(runId: string, date: string, instrument: string, run: string, cell: string, code: string)
    requires runId == "240115_M01234_0123_000000000-ABCDE"
    requires date == "240115" && instrument == "01234" && run == "0123" && cell == "000000000" && code == "ABCDE"
    ensures MiSeqParts(date, instrument, run, cell, code) && MiSeqRunId(date, instrument, run, cell, code) == runId
  {
  }

  /** A MiSeq run directory name. */
  lemma MiSeqExample(runId: string)
    requires runId == "240115_M01234_0123_000000000-ABCDE"
    ensures DetermineSequencerType(runId) == Some(MiSeq)
  {
    MiSeqExampleBuilt(runId, "240115", "01234", "0123", "000000000", "ABCDE");
    DetermineSequencerTypeSpec(runId);
  }

  /** A NextSeq run directory name, with a two-digit run number. */
  lemma NextSeqExample(runId: string)
    requires runId == "231020_VH00468_32_AAF3KFHM5"
    ensures DetermineSequencerType(runId) == Some(NextSeq)
  {
    assert runId[7] == 'V';
    DigitRunExact(runId[15..], 2);
  }
}
