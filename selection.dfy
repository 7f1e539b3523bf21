/**
 * Which samples of a sheet get their FASTQ files linked: the per-sample
 * field checks, the two filters main() chains after each parser, and the
 * id list they compare against.
 *
 *   has_necessary_fields_for_symlinking_miseq    true when a name (or an id
 *                                                to stand in for it) and a
 *                                                project are present; copies
 *                                                sample_id into an empty
 *                                                sample_name as it goes
 *   has_necessary_fields_for_symlinking_nextseq  true when sample_id and
 *                                                project_name are present
 *   parse_ids_file                               the set of stripped lines
 */
module Selection {
  import opened Results
  import opened Text
  import opened Seqs
  import opened RunId
  import opened SampleSheet

  /** key in sample and sample[key] != "" */
  predicate HasValue(r: Record, key: string) {
    key in r && r[key] != ""
  }

  /** Python's all() over a list of booleans. */
  predicate AllTrue(conditions: seq<bool>) {
    forall i :: 0 <= i < |conditions| ==> conditions[i]
  }

  // ------------------------------------------------------- field checks

  /** A MiSeq sample can be linked: it has a name or an id, and a project. */
  predicate MiSeqReady(r: Record) {
    (HasValue(r, "sample_name") || HasValue(r, "sample_id")) && HasValue(r, "sample_project")
  }

  /** The dictionary after the MiSeq check: an empty or absent sample_name takes a non-empty sample_id. */
  function Backfilled(r: Record): Record {
    if !HasValue(r, "sample_name") && HasValue(r, "sample_id") then r["sample_name" := r["sample_id"]] else r
  }

  /**
   * has_necessary_fields_for_symlinking_miseq: answers for the dictionary
   * as it was, and leaves it backfilled, whatever the answer.
   */
  method HasNecessaryFieldsMiSeq(sample: Sample) returns (selected: bool)
    modifies sample
    ensures selected == MiSeqReady(old(sample.fields))
    ensures sample.fields == Backfilled(old(sample.fields))
  {
    selected := false;
    var conditions: seq<bool> := [];
    if HasValue(sample.fields, "sample_name") {
      conditions := conditions + [true];
    } else if HasValue(sample.fields, "sample_id") {
      sample.fields := sample.fields["sample_name" := sample.fields["sample_id"]];
      conditions := conditions + [true];
    } else {
      conditions := conditions + [false];
    }
    if HasValue(sample.fields, "sample_project") {
      conditions := conditions + [true];
    } else {
      conditions := conditions + [false];
    }
    assert AllTrue(conditions) <==> conditions[0] && conditions[1];
    if AllTrue(conditions) {
      selected := true;
    }
  }

  /** has_necessary_fields_for_symlinking_nextseq: both conditions of its list hold. */
  function HasNecessaryFieldsNextSeq(r: Record): (selected: bool)
    ensures selected <==> HasValue(r, "sample_id") && HasValue(r, "project_name")
  {
    var conditions := [HasValue(r, "sample_id"), HasValue(r, "project_name")];
    assert conditions[0] && conditions[1] ==> AllTrue(conditions);
    AllTrue(conditions)
  }

  /** The check main() filters the parsed samples with, by sequencer. */
  predicate IsCandidate(sequencer: Sequencer, r: Record) {
    match sequencer
    case MiSeq => MiSeqReady(r)
    case NextSeq => HasNecessaryFieldsNextSeq(r)
  }

  /** The backfill writes sample_name and no other key. */
  lemma BackfilledOtherKeys(r: Record, k: string)
    requires k != "sample_name"
    ensures k in Backfilled(r) <==> k in r
    ensures k in r ==> Backfilled(r)[k] == r[k]
  {
  }

  /** sample_name after the backfill: kept when it had a value, else the id when that has one, else as it was. */
  lemma BackfilledName(r: Record)
    ensures HasValue(r, "sample_name") ==> Backfilled(r) == r
    ensures !HasValue(r, "sample_name") && HasValue(r, "sample_id") ==> Backfilled(r)["sample_name"] == r["sample_id"]
    ensures !HasValue(r, "sample_name") && !HasValue(r, "sample_id") ==> Backfilled(r) == r
  {
  }

  /** A sample without a project is refused, yet its sample_name is still filled in. */
  lemma BackfillWithoutProject(r: Record)
    requires !HasValue(r, "sample_project") && !HasValue(r, "sample_name") && HasValue(r, "sample_id")
    ensures !MiSeqReady(r)
    ensures Backfilled(r) != r && Backfilled(r)["sample_name"] == r["sample_id"]
  {
    assert HasValue(Backfilled(r), "sample_name");
  }

  /** Checking a second time changes nothing and gives the same answer. */
  lemma BackfilledIdempotent(r: Record)
    ensures Backfilled(Backfilled(r)) == Backfilled(r)
    ensures MiSeqReady(Backfilled(r)) == MiSeqReady(r)
  {
  }

  /** A sample that passes the MiSeq check has a non-empty sample_name and sample_project afterwards. */
  lemma ReadyAfterBackfill(r: Record)
    requires MiSeqReady(r)
    ensures HasValue(Backfilled(r), "sample_name") && HasValue(Backfilled(r), "sample_project")
  {
  }

  // ------------------------------------------------------------ filters

  /** filter() over the samples with a condition on their dictionaries (c is what the condition reads besides). */
  function Keep<C>(samples: seq<Sample>, p: (C, Record) -> bool, c: C): (r: seq<Sample>)
    reads samples
    ensures |r| <= |samples|
  {
    if samples == [] then []
    else
      var last := samples[|samples| - 1];
      Keep(samples[..|samples| - 1], p, c) + (if p(c, last.fields) then [last] else [])
  }

  /** A filter keeps exactly the samples whose dictionary passes. */
  lemma {:induction false} KeepMembers<C>(samples: seq<Sample>, p: (C, Record) -> bool, c: C)
    ensures forall x :: x in Keep(samples, p, c) <==> x in samples && p(c, x.fields)
    decreases |samples|
  {
    if samples != [] {
      var init := samples[..|samples| - 1];
      KeepMembers(init, p, c);
      assert samples == init + [samples[|samples| - 1]];
    }
  }

  /** KeepMembers by position: what is kept comes from samples, and samples[i] is kept exactly when it passes. */
  lemma KeepAt<C>(samples: seq<Sample>, p: (C, Record) -> bool, c: C)
    ensures forall i :: 0 <= i < |Keep(samples, p, c)| ==> Keep(samples, p, c)[i] in samples
    ensures forall i :: 0 <= i < |samples| ==> (samples[i] in Keep(samples, p, c) <==> p(c, samples[i].fields))
  {
    KeepMembers(samples, p, c);
    var kept := Keep(samples, p, c);
    assert forall i :: 0 <= i < |kept| ==> kept[i] in kept;
  }

  /** A filter keeps the samples in their order. */
  lemma {:induction false} KeepIsSubsequence<C>(samples: seq<Sample>, p: (C, Record) -> bool, c: C)
    ensures IsSubsequence(Keep(samples, p, c), samples)
    decreases |samples|
  {
    if samples != [] {
      var init, last := samples[..|samples| - 1], samples[|samples| - 1];
      KeepIsSubsequence(init, p, c);
      SubsequenceSnoc(Keep(init, p, c), init, last);
      assert samples == init + [last];
      if !p(c, last.fields) {
        assert Keep(samples, p, c) == Keep(init, p, c);
      }
    }
  }

  /** The filter over one more sample of a prefix. */
  lemma KeepPrefix<C>(samples: seq<Sample>, j: nat, p: (C, Record) -> bool, c: C)
    requires j < |samples|
    ensures Keep(samples[..j + 1], p, c) == Keep(samples[..j], p, c) + (if p(c, samples[j].fields) then [samples[j]] else [])
  {
    assert samples[..j + 1][..j] == samples[..j];
  }

  /** x['sample_id'] in sample_ids (the NextSeq id filter). */
  predicate IdListed(ids: set<string>, r: Record) {
    "sample_id" in r && r["sample_id"] in ids
  }

  /** x[key] == value (the project filters: sample_project for MiSeq, project_name for NextSeq). */
  predicate FieldIs(kv: (string, string), r: Record) {
    kv.0 in r && r[kv.0] == kv.1
  }

  /** A NextSeq sample that passes the check and the id filter. */
  predicate NextSeqIdSelected(ids: set<string>, r: Record) {
    IsCandidate(NextSeq, r) && IdListed(ids, r)
  }

  /** A NextSeq sample that passes the check and the project filter. */
  predicate NextSeqProjectSelected(projectId: string, r: Record) {
    IsCandidate(NextSeq, r) && FieldIs(("project_name", projectId), r)
  }

  /** Two filters in a row keep what passes both, in order. */
  lemma {:induction false} KeepKeep<C, D, E>(samples: seq<Sample>, p: (C, Record) -> bool, c: C,
                                             q: (D, Record) -> bool, d: D, both: (E, Record) -> bool, e: E)
    requires forall r :: both(e, r) == (p(c, r) && q(d, r))
    ensures Keep(Keep(samples, p, c), q, d) == Keep(samples, both, e)
    decreases |samples|
  {
    if samples != [] {
      var init, last := samples[..|samples| - 1], samples[|samples| - 1];
      KeepKeep(init, p, c, q, d, both, e);
      var kept := Keep(init, p, c);
      if p(c, last.fields) {
        assert (kept + [last])[..|kept|] == kept;
      } else {
        assert Keep(samples, p, c) == kept;
      }
    }
  }

  /** The NextSeq selections are the script's two filters in a row. */
  lemma NextSeqSelectionsAreFilterChains(samples: seq<Sample>, ids: set<string>, projectId: string)
    ensures Keep(Keep(samples, IsCandidate, NextSeq), IdListed, ids) == SelectNextSeqByIds(samples, ids)
    ensures Keep(Keep(samples, IsCandidate, NextSeq), FieldIs, ("project_name", projectId)) == SelectNextSeqByProject(samples, projectId)
  {
    KeepKeep(samples, IsCandidate, NextSeq, IdListed, ids, NextSeqIdSelected, ids);
    KeepKeep(samples, IsCandidate, NextSeq, FieldIs, ("project_name", projectId), NextSeqProjectSelected, projectId);
  }

  /**
   * x['sample_id'] in sample_ids or x['sample_name'] in sample_ids, with the
   * KeyError each lookup raises on an absent key; the second lookup happens
   * only when the first test fails.
   */
  function MiSeqIdMatch(ids: set<string>, r: Record): Result<bool> {
    if "sample_id" !in r then Err(KeyError("sample_id"))
    else if r["sample_id"] in ids then Ok(true)
    else if "sample_name" !in r then Err(KeyError("sample_name"))
    else Ok(r["sample_name"] in ids)
  }

  /** The MiSeq id filter lets a sample through. */
  predicate MiSeqIdSelected(ids: set<string>, r: Record) {
    MiSeqIdMatch(ids, r) == Ok(true)
  }

  /**
   * The MiSeq id filter consumed in order: the first sample on which the
   * lookup raises ends the run with that KeyError.
   */
  function SelectMiSeqIds(candidates: seq<Sample>, ids: set<string>): Result<seq<Sample>>
    reads candidates
  {
    if candidates == [] then Ok([])
    else
      var last := candidates[|candidates| - 1];
      match SelectMiSeqIds(candidates[..|candidates| - 1], ids)
      case Err(e) => Err(e)
      case Ok(kept) =>
        match MiSeqIdMatch(ids, last.fields)
        case Err(e) => Err(e)
        case Ok(b) => Ok(kept + if b then [last] else [])
  }

  /**
   * The MiSeq id filter succeeds when no lookup raises, and then keeps the
   * samples it lets through; otherwise it reports the error of the first
   * sample that raises.
   */
  lemma {:induction false} SelectMiSeqIdsOutcome(candidates: seq<Sample>, ids: set<string>)
    ensures SelectMiSeqIds(candidates, ids).Ok? <==> forall i :: 0 <= i < |candidates| ==> MiSeqIdMatch(ids, candidates[i].fields).Ok?
    ensures SelectMiSeqIds(candidates, ids).Ok? ==> SelectMiSeqIds(candidates, ids).value == Keep(candidates, MiSeqIdSelected, ids)
    ensures SelectMiSeqIds(candidates, ids).Err? ==>
      exists i :: 0 <= i < |candidates| && MiSeqIdMatch(ids, candidates[i].fields) == Err(SelectMiSeqIds(candidates, ids).error)
        && forall j :: 0 <= j < i ==> MiSeqIdMatch(ids, candidates[j].fields).Ok?
    decreases |candidates|
  {
    if candidates != [] {
      var init, last := candidates[..|candidates| - 1], candidates[|candidates| - 1];
      SelectMiSeqIdsOutcome(init, ids);
      assert forall i :: 0 <= i < |init| ==> init[i] == candidates[i];
    }
  }

  /**
   * On a sample that passed the MiSeq check, the id filter raises exactly
   * when there is no sample_id column, and then reports that key.
   */
  lemma MiSeqIdMatchOnCandidate(ids: set<string>, r: Record)
    requires MiSeqReady(r)
    ensures MiSeqIdMatch(ids, Backfilled(r)).Err? <==> "sample_id" !in r
    ensures MiSeqIdMatch(ids, Backfilled(r)).Err? ==> MiSeqIdMatch(ids, Backfilled(r)).error == KeyError("sample_id")
    ensures MiSeqIdSelected(ids, Backfilled(r)) <==> "sample_id" in r && (r["sample_id"] in ids || Backfilled(r)["sample_name"] in ids)
  {
  }

  /** One step of the MiSeq candidate filter: check samples[j] and keep it when it passes. */
  method CheckCandidate(samples: seq<Sample>, j: nat, candidates: seq<Sample>) returns (next: seq<Sample>)
    requires Distinct(samples) && j < |samples|
    requires candidates == Keep(samples[..j], IsCandidate, MiSeq)
    modifies samples[j]
    ensures samples[j].fields == Backfilled(old(samples[j].fields))
    ensures forall k :: 0 <= k < |samples| && k != j ==> samples[k].fields == old(samples[k].fields)
    ensures next == Keep(samples[..j + 1], IsCandidate, MiSeq)
  {
    var sample := samples[j];
    assert forall k :: 0 <= k < |samples| && k != j ==> samples[k] != sample;
    BackfilledIdempotent(sample.fields);
    assert forall k :: 0 <= k < j ==> samples[..j][k] != sample;
    var selected := HasNecessaryFieldsMiSeq(sample);
    KeepPrefix(samples, j, IsCandidate, MiSeq);
    next := candidates;
    if selected {
      next := next + [sample];
    }
  }

  /**
   * filter(has_necessary_fields_for_symlinking_miseq, all_samples) consumed
   * to the end: every sample is checked, and so backfilled, in order; the
   * ones that pass are kept.
   */
  method FilterMiSeqCandidates(samples: seq<Sample>) returns (candidates: seq<Sample>)
    requires Distinct(samples)
    modifies samples
    ensures forall k :: 0 <= k < |samples| ==> samples[k].fields == Backfilled(old(samples[k].fields))
    ensures candidates == Keep(samples, IsCandidate, MiSeq)
  {
    candidates := [];
    var j := 0;
    while j < |samples|
      invariant j <= |samples|
      invariant forall k :: 0 <= k < j ==> samples[k].fields == Backfilled(old(samples[k].fields))
      invariant forall k :: j <= k < |samples| ==> samples[k].fields == old(samples[k].fields)
      invariant candidates == Keep(samples[..j], IsCandidate, MiSeq)
    {
      candidates := CheckCandidate(samples, j, candidates);
      j := j + 1;
    }
    assert samples[..j] == samples;
  }

  // ----------------------------------------------------------- selection

  /**
   * After the MiSeq check has run over the sheet (orig holds the
   * dictionaries as parsed), the id filter raises exactly when some sample
   * that passed the check has no sample_id column.
   */
  lemma MiSeqIdSelectionFails(samples: seq<Sample>, orig: seq<Record>, ids: set<string>)
    requires |orig| == |samples|
    requires forall k :: 0 <= k < |samples| ==> samples[k].fields == Backfilled(orig[k])
    ensures SelectMiSeqIds(Keep(samples, IsCandidate, MiSeq), ids).Ok? <==>
      forall k :: 0 <= k < |samples| && MiSeqReady(orig[k]) ==> "sample_id" in orig[k]
  {
    var candidates := Keep(samples, IsCandidate, MiSeq);
    SelectMiSeqIdsOutcome(candidates, ids);
    KeepAt(samples, IsCandidate, MiSeq);
    forall k | 0 <= k < |samples|
      ensures IsCandidate(MiSeq, samples[k].fields) <==> MiSeqReady(orig[k])
    {
      BackfilledIdempotent(orig[k]);
    }
    if SelectMiSeqIds(candidates, ids).Ok? {
      forall k | 0 <= k < |samples| && MiSeqReady(orig[k])
        ensures "sample_id" in orig[k]
      {
        var i :| 0 <= i < |candidates| && candidates[i] == samples[k];
        assert MiSeqIdMatch(ids, candidates[i].fields).Ok?;
      }
    } else {
      var i :| 0 <= i < |candidates| && MiSeqIdMatch(ids, candidates[i].fields).Err?;
      var k :| 0 <= k < |samples| && samples[k] == candidates[i];
      MiSeqIdMatchOnCandidate(ids, orig[k]);
    }
  }

  /**
   * Lines 269-270 of the sample-list script: the MiSeq samples that pass
   * the check and whose sample_id or sample_name is listed, in order, or
   * the KeyError of the first candidate without a sample_id.
   */
  method SelectMiSeqByIds(samples: seq<Sample>, ids: set<string>) returns (r: Result<seq<Sample>>)
    requires Distinct(samples)
    modifies samples
    ensures forall k :: 0 <= k < |samples| ==> samples[k].fields == Backfilled(old(samples[k].fields))
    ensures r == SelectMiSeqIds(Keep(samples, IsCandidate, MiSeq), ids)
  {
    var candidates := FilterMiSeqCandidates(samples);
    r := SelectMiSeqIds(candidates, ids);
  }

  /** Lines 277-278 of the sample-list script: the NextSeq samples that pass the check and whose sample_id is listed. */
  function SelectNextSeqByIds(samples: seq<Sample>, ids: set<string>): (selected: seq<Sample>)
    reads samples
    ensures forall i :: 0 <= i < |selected| ==> selected[i] in samples
    ensures forall i :: 0 <= i < |samples| ==> (samples[i] in selected <==>
      HasValue(samples[i].fields, "sample_id") && HasValue(samples[i].fields, "project_name") && samples[i].fields["sample_id"] in ids)
  {
    KeepAt(samples, NextSeqIdSelected, ids);
    Keep(samples, NextSeqIdSelected, ids)
  }

  /** Lines 173-174 of the project-id script: the MiSeq samples that pass the check and belong to the project. */
  method SelectMiSeqByProject(samples: seq<Sample>, projectId: string) returns (selected: seq<Sample>)
    requires Distinct(samples)
    modifies samples
    ensures forall k :: 0 <= k < |samples| ==> samples[k].fields == Backfilled(old(samples[k].fields))
    ensures selected == Keep(Keep(samples, IsCandidate, MiSeq), FieldIs, ("sample_project", projectId))
  {
    var candidates := FilterMiSeqCandidates(samples);
    selected := Keep(candidates, FieldIs, ("sample_project", projectId));
  }

  /** Lines 180-181 of the project-id script: the NextSeq samples that pass the check and belong to the project. */
  function SelectNextSeqByProject(samples: seq<Sample>, projectId: string): (selected: seq<Sample>)
    reads samples
    ensures forall i :: 0 <= i < |selected| ==> selected[i] in samples
    ensures forall i :: 0 <= i < |samples| ==> (samples[i] in selected <==>
      HasValue(samples[i].fields, "sample_id") && HasValue(samples[i].fields, "project_name") && samples[i].fields["project_name"] == projectId)
  {
    KeepAt(samples, NextSeqProjectSelected, projectId);
    Keep(samples, NextSeqProjectSelected, projectId)
  }

  /**
   * After the MiSeq check every project-filter candidate has its
   * sample_project, so the project lookup never raises; a sample is
   * selected exactly when it passed the check and its project matches.
   */
  lemma MiSeqProjectSelection(samples: seq<Sample>, projectId: string)
    ensures var selected := Keep(Keep(samples, IsCandidate, MiSeq), FieldIs, ("sample_project", projectId));
      forall x :: x in selected <==> x in samples && MiSeqReady(x.fields) && x.fields["sample_project"] == projectId
  {
    var candidates := Keep(samples, IsCandidate, MiSeq);
    KeepMembers(samples, IsCandidate, MiSeq);
    KeepMembers(candidates, FieldIs, ("sample_project", projectId));
  }

  /** Every selection keeps the samples in sheet order. */
  lemma SelectionKeepsOrder(samples: seq<Sample>, ids: set<string>, projectId: string)
    ensures IsSubsequence(SelectNextSeqByIds(samples, ids), samples)
    ensures IsSubsequence(SelectNextSeqByProject(samples, projectId), samples)
    ensures IsSubsequence(Keep(Keep(samples, IsCandidate, MiSeq), FieldIs, ("sample_project", projectId)), samples)
    ensures SelectMiSeqIds(Keep(samples, IsCandidate, MiSeq), ids).Ok? ==>
      IsSubsequence(SelectMiSeqIds(Keep(samples, IsCandidate, MiSeq), ids).value, samples)
  {
    var miseq := Keep(samples, IsCandidate, MiSeq);
    KeepIsSubsequence(samples, IsCandidate, MiSeq);
    KeepIsSubsequence(samples, NextSeqIdSelected, ids);
    KeepIsSubsequence(samples, NextSeqProjectSelected, projectId);
    KeepIsSubsequence(miseq, FieldIs, ("sample_project", projectId));
    SubsequenceTrans(Keep(miseq, FieldIs, ("sample_project", projectId)), miseq, samples);
    SelectMiSeqIdsOutcome(miseq, ids);
    KeepIsSubsequence(miseq, MiSeqIdSelected, ids);
    SubsequenceTrans(Keep(miseq, MiSeqIdSelected, ids), miseq, samples);
  }

  // ------------------------------------------------------------- id file

  /** The ids a list of lines gives: each line stripped. */
  function IdsOf(lines: seq<string>): set<string> {
    Image(lines, Strip)
  }

  /** An id is listed exactly when some line strips to it; so a blank line lists "". */
  lemma IdsOfMembers(lines: seq<string>, x: string)
    ensures x in IdsOf(lines) <==> exists i :: 0 <= i < |lines| && Strip(lines[i]) == x
  {
    ImageMembers(lines, Strip, x);
  }

  /** parse_ids_file over the lines of the file. */
  method ParseIdsFile(lines: seq<string>) returns (sampleIds: set<string>)
    ensures sampleIds == IdsOf(lines)
  {
    sampleIds := {};
    var i := 0;
    while i < |lines|
      invariant i <= |lines|
      invariant sampleIds == Image(lines[..i], Strip)
    {
      ImagePrefix(lines, i, Strip);
      sampleIds := sampleIds + {Strip(lines[i])};
      i := i + 1;
    }
    assert lines[..i] == lines;
  }
}
