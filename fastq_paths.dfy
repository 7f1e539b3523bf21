/**
 * Where each selected sample's FASTQ files are and where their links go.
 *
 *   get_latest_analysis_subdir  the last entry of the run's Analysis/ listing
 *   get_src_dest_paths          for every sample, the files <id>_*.fastq and
 *                               then <id>_*.fastq.gz of the FASTQ directory,
 *                               each with its absolute source path, its
 *                               destination under the output directory and
 *                               the id before the first '_' of its name
 *   create_symlinks (project-id script) the same source/destination pairs,
 *                               with the NextSeq FASTQ directory fixed to
 *                               Analysis/1/Data/fastq
 *
 * Directory listings are inputs: the names in the FASTQ directory in the
 * order the file system lists them, and the names in Analysis/.
 */
module FastqPaths {
  import opened Results
  import opened Text
  import opened RunId
  import opened SampleSheet
  import opened Selection
  import opened Seqs

  // ---------------------------------------------------------------- paths

  predicate IsAbsolute(p: string) {
    p != [] && p[0] == '/'
  }

  /** os.path.join(a, b) on POSIX: an absolute b replaces a; otherwise a '/' goes between unless a is empty or ends with one. */
  function PathJoin(a: string, b: string): string {
    if IsAbsolute(b) then b
    else if a == [] || a[|a| - 1] == '/' then a + b
    else a + "/" + b
  }

  /** os.path.abspath(p) with the working directory cwd; the normalisation of "." and ".." is not modelled. */
  function Abspath(cwd: string, p: string): string {
    if IsAbsolute(p) then p else PathJoin(cwd, p)
  }

  /** What the scripts are run with: the run directory, the working directory, the output directory and --simplify-sample-id. */
  datatype Invocation = Invocation(runDir: string, cwd: string, outdir: string, simplify: bool)

  /**
   * get_latest_analysis_subdir over the listing of <run>/Analysis:
   * listing[-1], made absolute; an empty listing raises IndexError.
   */
  function LatestAnalysisSubdir(inv: Invocation, listing: seq<string>): (r: Result<string>)
    ensures r.Err? <==> listing == []
    ensures r.Err? ==> r.error == IndexError
  {
    if listing == [] then Err(IndexError)
    else Ok(Abspath(inv.cwd, PathJoin(PathJoin(inv.runDir, "Analysis"), listing[|listing| - 1])))
  }

  /** With an absolute working directory the latest analysis directory is absolute. */
  lemma LatestAnalysisSubdirAbsolute(inv: Invocation, listing: seq<string>)
    requires IsAbsolute(inv.cwd)
    ensures LatestAnalysisSubdir(inv, listing).Ok? ==> IsAbsolute(LatestAnalysisSubdir(inv, listing).value)
  {
  }

  // ------------------------------------------------------------- matching

  /** The file name matches the glob pattern <id>_*<ext> (no metacharacters in id). */
  predicate GlobMatch(name: string, pattern: (string, string)) {
    var (id, ext) := pattern;
    |id| + 1 + |ext| <= |name| && name[..|id|] == id && name[|id|] == '_' && name[|name| - |ext|..] == ext
  }

  /** The names of the listing that match the pattern, in listing order. */
  function Matches(names: seq<string>, pattern: (string, string)): (r: seq<string>)
    ensures |r| <= |names|
  {
    if names == [] then []
    else
      var last := names[|names| - 1];
      Matches(names[..|names| - 1], pattern) + (if GlobMatch(last, pattern) then [last] else [])
  }

  /** A name is matched exactly when it is listed and fits the pattern. */
  lemma {:induction false} MatchesMembers(names: seq<string>, pattern: (string, string), x: string)
    ensures x in Matches(names, pattern) <==> x in names && GlobMatch(x, pattern)
    decreases |names|
  {
    if names != [] {
      var init := names[..|names| - 1];
      MatchesMembers(init, pattern, x);
      assert names == init + [names[|names| - 1]];
    }
  }

  /** sample_fastq_files + sample_fastq_gz_files: the .fastq matches, then the .fastq.gz ones. */
  function SampleFiles(names: seq<string>, id: string): seq<string> {
    Matches(names, (id, ".fastq")) + Matches(names, (id, ".fastq.gz"))
  }

  /** Every file of a sample starts with its id and a '_' and ends in .fastq or .fastq.gz. */
  lemma SampleFilesShape(names: seq<string>, id: string, f: string)
    requires f in SampleFiles(names, id)
    ensures f in names && StartsWith(f, id + "_")
    ensures EndsWith(f, ".fastq") || EndsWith(f, ".fastq.gz")
  {
    MatchesMembers(names, (id, ".fastq"), f);
    MatchesMembers(names, (id, ".fastq.gz"), f);
    assert (id + "_")[..|id|] == id;
  }

  // ----------------------------------------------------------- file names

  /** name.split('_')[0] */
  function FirstToken(name: string): string {
    Split(name, '_')[0]
  }

  /** The read marker: R1 when "_R1_" occurs, else R2 when "_R2_" occurs, else empty. */
  function ReadTag(name: string): string {
    if Contains(name, "_R1_") then "R1" else if Contains(name, "_R2_") then "R2" else ""
  }

  /** ".fastq", plus ".gz" when the last '.'-separated part of the name is "gz". */
  function FastqExtension(name: string): string {
    var parts := Split(name, '.');
    if parts[|parts| - 1] == "gz" then ".fastq.gz" else ".fastq"
  }

  /** The --simplify-sample-id name: <first token>_<read><extension>. */
  function SimplifiedName(name: string): string {
    FirstToken(name) + "_" + ReadTag(name) + FastqExtension(name)
  }

  /** The destination file name: the source's own name unless simplifying. */
  function DestFileName(name: string, simplify: bool): string {
    if simplify then SimplifiedName(name) else name
  }

  /** Find over a concatenation: the first separator of a, or else |a| plus the first of b. */
  lemma {:induction false} FindAppend(a: string, b: string, c: char)
    ensures Find(a + b, c) == if Find(a, c) < |a| then Find(a, c) else |a| + Find(b, c)
    decreases |a|
  {
    if a != [] {
      assert (a + b)[1..] == a[1..] + b;
      FindAppend(a[1..], b, c);
    } else {
      assert a + b == b;
    }
  }

  /** A name that starts with id + "_" has the first token of id; that is id itself when id has no '_'. */
  lemma FirstTokenOfPrefixed(id: string, rest: string)
    ensures FirstToken(id + "_" + rest) == FirstToken(id)
    ensures '_' !in id ==> FirstToken(id) == id
  {
    var name := id + "_" + rest;
    assert name == id + ("_" + rest);
    FindAppend(id, "_" + rest, '_');
    SplitHead(name, '_');
    SplitHead(id, '_');
    if '_' !in id {
      SplitNone(id, '_');
    }
  }

  /** The dictionary id a matched file yields: the first token of the sheet's id. */
  lemma MatchedFirstToken(name: string, pattern: (string, string))
    requires GlobMatch(name, pattern)
    ensures FirstToken(name) == FirstToken(pattern.0)
  {
    var id := pattern.0;
    assert name == id + "_" + name[|id| + 1..];
    FirstTokenOfPrefixed(id, name[|id| + 1..]);
  }

  /** The last '.'-part of a + "." + b, when b has no '.', is b. */
  lemma LastDotPart(a: string, b: string)
    requires '.' !in b
    ensures var parts := Split(a + "." + b, '.'); parts[|parts| - 1] == b
  {
    assert a + "." + b == a + ['.'] + b;
    SplitLast(a, '.', b);
  }

  /** How the two extensions are built from their '.'-parts. */
  lemma ExtensionPieces(fastqExt: string, gzExt: string, fastq: string, gz: string)
    requires fastqExt == ".fastq" && gzExt == ".fastq.gz" && fastq == "fastq" && gz == "gz"
    ensures fastqExt == "." + fastq && gzExt == fastqExt + ("." + gz)
    ensures '.' !in gz && '.' !in fastq && fastq != gz
  {
  }

  /** The extension of a matched file is the one its pattern asked for. */
  lemma MatchedExtension(name: string, pattern: (string, string))
    requires GlobMatch(name, pattern)
    requires pattern.1 == ".fastq" || pattern.1 == ".fastq.gz"
    ensures FastqExtension(name) == pattern.1
  {
    var ext := pattern.1;
    var stem := name[..|name| - |ext|];
    assert name == stem + ext;
    var fastqExt, fastq, gz := ".fastq", "fastq", "gz";
    ExtensionPieces(fastqExt, ".fastq.gz", fastq, gz);
    if ext == fastqExt {
      AppendAssoc(stem, ".", fastq);
      LastDotPart(stem, fastq);
    } else {
      AppendAssoc(stem, fastqExt, "." + gz);
      AppendAssoc(stem + fastqExt, ".", gz);
      LastDotPart(stem + fastqExt, gz);
    }
  }

  /** A matched file is renamed to the first token of the id, '_', its read marker and the extension of its pattern. */
  lemma SimplifiedMatchedName(name: string, pattern: (string, string))
    requires GlobMatch(name, pattern)
    requires pattern.1 == ".fastq" || pattern.1 == ".fastq.gz"
    ensures SimplifiedName(name) == FirstToken(pattern.0) + "_" + ReadTag(name) + pattern.1
  {
    MatchedFirstToken(name, pattern);
    MatchedExtension(name, pattern);
  }

  /** The pattern occurs at position i, so it occurs in s. */
  lemma {:induction false} ContainsAt(s: string, pat: string, i: nat)
    requires i + |pat| <= |s| && s[i..i + |pat|] == pat
    ensures Contains(s, pat)
    decreases i
  {
    if i > 0 {
      assert s[1..][i - 1..i - 1 + |pat|] == s[i..i + |pat|];
      ContainsAt(s[1..], pat, i - 1);
    } else {
      assert s[..|pat|] == pat;
    }
  }

  /** A pattern occurs only where its characters occur. */
  lemma {:induction false} ContainsOnlyIfChar(s: string, pat: string, k: nat)
    requires k < |pat|
    ensures Contains(s, pat) ==> pat[k] in s
    decreases |s|
  {
    if Contains(s, pat) {
      if StartsWith(s, pat) {
        assert s[k] == pat[k];
      } else {
        ContainsOnlyIfChar(s[1..], pat, k);
        assert forall c :: c in s[1..] ==> c in s;
      }
    }
  }

  /** With "_R1_" in the name the marker is R1, whatever else the name holds. */
  lemma ReadTagR1(name: string, i: nat)
    requires i + 4 <= |name| && name[i..i + 4] == "_R1_"
    ensures ReadTag(name) == "R1"
  {
    ContainsAt(name, "_R1_", i);
  }

  /** A pattern does not occur where no two neighbouring characters are two of its neighbouring ones. */
  lemma {:induction false} NoPairNoContains(s: string, pat: string, k: nat)
    requires k + 1 < |pat|
    requires forall j :: 0 <= j && j + 1 < |s| ==> !(s[j] == pat[k] && s[j + 1] == pat[k + 1])
    ensures !Contains(s, pat)
    decreases |s|
  {
    assert !StartsWith(s, pat) by {
      if |pat| <= |s| {
        assert s[..|pat|][k] == s[k] && s[..|pat|][k + 1] == s[k + 1];
      }
    }
    if s != [] {
      var rest := s[1..];
      forall j | 0 <= j && j + 1 < |rest| ensures !(rest[j] == pat[k] && rest[j + 1] == pat[k + 1]) {
        assert rest[j] == s[j + 1] && rest[j + 1] == s[j + 2];
      }
      NoPairNoContains(rest, pat, k);
    }
  }

  /** With "_R2_" in the name and no other 'R', the marker is R2. */
  lemma ReadTagR2(pre: string, marker: string, post: string)
    requires marker == "_R2_" && 'R' !in pre && 'R' !in post
    ensures ReadTag(pre + marker + post) == "R2"
  {
    var name := pre + marker + post;
    var m := |pre|;
    assert name[m..m + 4] == marker;
    ContainsAt(name, marker, m);
    forall j | 0 <= j && j + 1 < |name| ensures !(name[j] == 'R' && name[j + 1] == '1') {
      if j < m {
        assert name[j] == pre[j];
      } else if j < m + 4 {
        assert name[j] == marker[j - m];
        if j == m + 1 {
          assert name[j + 1] == marker[2];
        }
      } else {
        assert name[j] == post[j - m - 4];
      }
    }
    NoPairNoContains(name, "_R1_", 1);
  }

  /** A name without an 'R' has no read marker. */
  lemma ReadTagNone(name: string)
    requires 'R' !in name
    ensures ReadTag(name) == ""
  {
    ContainsOnlyIfChar(name, "_R1_", 1);
    ContainsOnlyIfChar(name, "_R2_", 1);
  }

  // ------------------------------------------------------- source/dest

  /** One entry of the list get_src_dest_paths returns. */
  datatype SrcDest = SrcDest(src: string, dest: string, sampleId: string)

  /** The entry for the file called name in the FASTQ directory dir. */
  function Entry(c: (Invocation, string), name: string): SrcDest {
    var (inv, dir) := c;
    SrcDest(Abspath(inv.cwd, PathJoin(dir, name)), PathJoin(inv.outdir, DestFileName(name, inv.simplify)), FirstToken(name))
  }

  /** The entries of a list of files, in order. */
  function EntriesOf(c: (Invocation, string), files: seq<string>): (r: seq<SrcDest>)
    ensures |r| == |files|
  {
    if files == [] then [] else EntriesOf(c, files[..|files| - 1]) + [Entry(c, files[|files| - 1])]
  }

  /** The key a sample's files are looked up by: sample_name for MiSeq, sample_id for NextSeq. */
  function SampleKey(sequencer: Sequencer): string {
    match sequencer
    case MiSeq => "sample_name"
    case NextSeq => "sample_id"
  }

  /**
   * The entries of the samples in order; the first sample without the key
   * ends the loop with a KeyError.
   */
  function EntriesFor(records: seq<Record>, key: string, c: (Invocation, string), names: seq<string>): Result<seq<SrcDest>> {
    if records == [] then Ok([])
    else
      var last := records[|records| - 1];
      match EntriesFor(records[..|records| - 1], key, c, names)
      case Err(e) => Err(e)
      case Ok(entries) =>
        if key !in last then Err(KeyError(key))
        else Ok(entries + EntriesOf(c, SampleFiles(names, last[key])))
  }

  /** fastq_subdir of get_src_dest_paths: fixed for MiSeq, under the latest analysis for NextSeq. */
  function FastqSubdir(sequencer: Sequencer, inv: Invocation, analysis: seq<string>): Result<string> {
    match sequencer
    case MiSeq => Ok("Data/Intensities/BaseCalls")
    case NextSeq =>
      match LatestAnalysisSubdir(inv, analysis)
      case Err(e) => Err(e)
      case Ok(latest) => Ok(PathJoin(PathJoin(latest, "Data"), "fastq"))
  }

  /**
   * get_src_dest_paths: analysis is the listing of <run>/Analysis (read
   * only for NextSeq, before any sample), names the listing of the FASTQ
   * directory.
   */
  function SrcDestPaths(records: seq<Record>, sequencer: Sequencer, inv: Invocation,
                        analysis: seq<string>, names: seq<string>): Result<seq<SrcDest>> {
    match FastqSubdir(sequencer, inv, analysis)
    case Err(e) => Err(e)
    case Ok(subdir) => EntriesFor(records, SampleKey(sequencer), (inv, PathJoin(inv.runDir, subdir)), names)
  }

  /** The steps of the inner loop body for one file: source, sample id, destination name, destination. */
  method FileEntry(inv: Invocation, dir: string, name: string) returns (entry: SrcDest)
    ensures entry == Entry((inv, dir), name)
  {
    var src := Abspath(inv.cwd, PathJoin(dir, name));
    var destFilename := name;
    var sampleId := FirstToken(destFilename);
    if inv.simplify {
      var read := "";
      if Contains(destFilename, "_R1_") {
        read := "R1";
      } else if Contains(destFilename, "_R2_") {
        read := "R2";
      }
      var extension := ".fastq";
      var parts := Split(destFilename, '.');
      if parts[|parts| - 1] == "gz" {
        extension := ".fastq.gz";
      }
      destFilename := sampleId + "_" + read + extension;
    }
    var dest := PathJoin(inv.outdir, destFilename);
    entry := SrcDest(src, dest, sampleId);
  }

  /** The inner loop: the entries of one sample's files, appended in order. */
  method AppendEntries(inv: Invocation, dir: string, files: seq<string>, srcDest: seq<SrcDest>) returns (r: seq<SrcDest>)
    ensures r == srcDest + EntriesOf((inv, dir), files)
  {
    r := srcDest;
    var k := 0;
    while k < |files|
      invariant k <= |files|
      invariant r == srcDest + EntriesOf((inv, dir), files[..k])
    {
      var entry := FileEntry(inv, dir, files[k]);
      assert files[..k + 1][..k] == files[..k];
      r := r + [entry];
      k := k + 1;
    }
    assert files[..k] == files;
  }

  /** The outer loop over the samples, looking each up by key. */
  method SampleLoop(samples: seq<Sample>, key: string, inv: Invocation, dir: string, names: seq<string>)
    returns (r: Result<seq<SrcDest>>)
    ensures r == EntriesFor(Fields(samples), key, (inv, dir), names)
  {
    ghost var records := Fields(samples);
    var srcDest: seq<SrcDest> := [];
    var i := 0;
    while i < |samples|
      invariant i <= |samples|
      invariant EntriesFor(records[..i], key, (inv, dir), names) == Ok(srcDest)
    {
      var fields := samples[i].fields;
      if key !in fields {
        EntriesForPrefixStops(records, i, key, (inv, dir), names);
        return Err(KeyError(key));
      }
      var files := SampleFiles(names, fields[key]);
      EntriesForPrefixStep(records, i, key, (inv, dir), names);
      srcDest := AppendEntries(inv, dir, files, srcDest);
      i := i + 1;
    }
    assert records[..i] == records;
    return Ok(srcDest);
  }

  /** One more sample with the key: its entries follow those of the samples before it. */
  lemma EntriesForPrefixStep(records: seq<Record>, i: nat, key: string, c: (Invocation, string), names: seq<string>)
    requires i < |records| && EntriesFor(records[..i], key, c, names).Ok? && key in records[i]
    ensures EntriesFor(records[..i + 1], key, c, names)
      == Ok(EntriesFor(records[..i], key, c, names).value + EntriesOf(c, SampleFiles(names, records[i][key])))
  {
    PrefixSnoc(records, i);
    EntriesForSnoc(records[..i], records[i], key, c, names);
  }

  /** A sample without the key stops the loop with KeyError for the key. */
  lemma EntriesForPrefixStops(records: seq<Record>, i: nat, key: string, c: (Invocation, string), names: seq<string>)
    requires i < |records| && EntriesFor(records[..i], key, c, names).Ok? && key !in records[i]
    ensures EntriesFor(records, key, c, names) == Err(KeyError(key))
  {
    var pre := records[..i + 1];
    assert pre[..i] == records[..i];
    assert EntriesFor(pre, key, c, names) == Err(KeyError(key));
    EntriesForStops(pre, records, key, c, names);
  }

  /** Once a prefix of the samples fails, the whole list fails with the same error. */
  lemma {:induction false} EntriesForStops(pre: seq<Record>, records: seq<Record>, key: string, c: (Invocation, string), names: seq<string>)
    requires |pre| <= |records| && pre == records[..|pre|]
    requires EntriesFor(pre, key, c, names).Err?
    ensures EntriesFor(records, key, c, names) == EntriesFor(pre, key, c, names)
    decreases |records|
  {
    if |pre| < |records| {
      var init := records[..|records| - 1];
      assert init[..|pre|] == pre;
      EntriesForStops(pre, init, key, c, names);
    } else {
      assert records == pre;
    }
  }

  /** get_src_dest_paths as the script runs it. */
  method GetSrcDestPaths(samples: seq<Sample>, sequencer: Sequencer, inv: Invocation,
                         analysis: seq<string>, names: seq<string>) returns (r: Result<seq<SrcDest>>)
    ensures r == SrcDestPaths(Fields(samples), sequencer, inv, analysis, names)
  {
    var fastqSubdir: string;
    match sequencer {
      case MiSeq =>
        fastqSubdir := "Data/Intensities/BaseCalls";
      case NextSeq =>
        var latest := LatestAnalysisSubdir(inv, analysis);
        if latest.Err? {
          return Err(latest.error);
        }
        fastqSubdir := PathJoin(PathJoin(latest.value, "Data"), "fastq");
    }
    r := SampleLoop(samples, SampleKey(sequencer), inv, PathJoin(inv.runDir, fastqSubdir), names);
  }

  // --------------------------------------------------- project-id script

  /** fastq_subdir of the project-id create_symlinks: the NextSeq directory is always Analysis/1. */
  function ProjectFastqSubdir(sequencer: Sequencer): string {
    match sequencer
    case MiSeq => "Data/Intensities/BaseCalls"
    case NextSeq => "Analysis/1/Data/fastq"
  }

  /** The (source, destination) of every entry. */
  function Links(entries: seq<SrcDest>): (r: seq<(string, string)>)
    ensures |r| == |entries|
    ensures forall i :: 0 <= i < |r| ==> r[i] == (entries[i].src, entries[i].dest)
  {
    if entries == [] then [] else Links(entries[..|entries| - 1]) + [(entries[|entries| - 1].src, entries[|entries| - 1].dest)]
  }

  /** The links the project-id create_symlinks makes, or the KeyError that stops it. */
  function ProjectLinks(records: seq<Record>, sequencer: Sequencer, inv: Invocation, names: seq<string>): Result<seq<(string, string)>> {
    match EntriesFor(records, SampleKey(sequencer), (inv, PathJoin(inv.runDir, ProjectFastqSubdir(sequencer))), names)
    case Err(e) => Err(e)
    case Ok(entries) => Ok(Links(entries))
  }

  /** The path computation of the project-id create_symlinks: the pairs it links, in order. */
  method CreateSymlinksPairs(samples: seq<Sample>, sequencer: Sequencer, inv: Invocation, names: seq<string>)
    returns (r: Result<seq<(string, string)>>)
    ensures r == ProjectLinks(Fields(samples), sequencer, inv, names)
  {
    var fastqSubdir := ProjectFastqSubdir(sequencer);
    var entries := SampleLoop(samples, SampleKey(sequencer), inv, PathJoin(inv.runDir, fastqSubdir), names);
    if entries.Err? {
      return Err(entries.error);
    }
    var pairs: seq<(string, string)> := [];
    var k := 0;
    while k < |entries.value|
      invariant k <= |entries.value|
      invariant pairs == Links(entries.value[..k])
    {
      assert entries.value[..k + 1][..k] == entries.value[..k];
      pairs := pairs + [(entries.value[k].src, entries.value[k].dest)];
      k := k + 1;
    }
    assert entries.value[..k] == entries.value;
    return Ok(pairs);
  }

  // -------------------------------------------------------------- lemmas

  /** The i-th entry is the entry of the i-th file. */
  lemma {:induction false} EntriesOfAt(c: (Invocation, string), files: seq<string>, i: nat)
    requires i < |files|
    ensures EntriesOf(c, files)[i] == Entry(c, files[i])
    decreases |files|
  {
    if i < |files| - 1 {
      EntriesOfAt(c, files[..|files| - 1], i);
    }
  }

  /** The extension the i-th file of a sample was globbed with: the .fastq matches come first. */
  function SampleFileExtension(names: seq<string>, id: string, i: nat): string {
    if i < |Matches(names, (id, ".fastq"))| then ".fastq" else ".fastq.gz"
  }

  /** The i-th file of a sample is listed and matches id_*<ext> for its extension. */
  lemma SampleFileAt(names: seq<string>, id: string, i: nat)
    requires i < |SampleFiles(names, id)|
    ensures SampleFiles(names, id)[i] in names
    ensures GlobMatch(SampleFiles(names, id)[i], (id, SampleFileExtension(names, id, i)))
  {
    var fq, gz := Matches(names, (id, ".fastq")), Matches(names, (id, ".fastq.gz"));
    var f := SampleFiles(names, id)[i];
    if i < |fq| {
      assert f == fq[i];
      MatchesMembers(names, (id, ".fastq"), f);
    } else {
      assert f == gz[i - |fq|];
      MatchesMembers(names, (id, ".fastq.gz"), f);
    }
  }

  /** The entry of a matched file: its id is the first token of the pattern's id, and a simplified destination keeps the pattern's extension. */
  lemma EntryOfMatched(c: (Invocation, string), f: string, pattern: (string, string))
    requires GlobMatch(f, pattern)
    requires pattern.1 == ".fastq" || pattern.1 == ".fastq.gz"
    ensures Entry(c, f) == SrcDest(Abspath(c.0.cwd, PathJoin(c.1, f)),
      PathJoin(c.0.outdir, if c.0.simplify then FirstToken(pattern.0) + "_" + ReadTag(f) + pattern.1 else f),
      FirstToken(pattern.0))
  {
    SimplifiedMatchedName(f, pattern);
    MatchedFirstToken(f, pattern);
  }

  /**
   * A sample's entries: one per matching file, .fastq before .fastq.gz; the
   * entry id is the first token of the sheet id, and a simplified
   * destination keeps the file's compression extension.
   */
  lemma SampleEntry(inv: Invocation, dir: string, names: seq<string>, id: string, i: nat)
    requires i < |SampleFiles(names, id)|
    ensures SampleFiles(names, id)[i] in names
    ensures GlobMatch(SampleFiles(names, id)[i], (id, SampleFileExtension(names, id, i)))
    ensures EntriesOf((inv, dir), SampleFiles(names, id))[i]
      == SrcDest(Abspath(inv.cwd, PathJoin(dir, SampleFiles(names, id)[i])),
           PathJoin(inv.outdir, if inv.simplify
             then FirstToken(id) + "_" + ReadTag(SampleFiles(names, id)[i]) + SampleFileExtension(names, id, i)
             else SampleFiles(names, id)[i]),
           FirstToken(id))
  {
    var files := SampleFiles(names, id);
    EntriesOfAt((inv, dir), files, i);
    SampleFileAt(names, id, i);
    EntryOfMatched((inv, dir), files[i], (id, SampleFileExtension(names, id, i)));
  }

  /** A failing loop over the samples fails with KeyError for the key. */
  lemma {:induction false} EntriesForErrKey(records: seq<Record>, key: string, c: (Invocation, string), names: seq<string>)
    ensures EntriesFor(records, key, c, names).Err? ==> EntriesFor(records, key, c, names).error == KeyError(key)
    decreases |records|
  {
    if records != [] {
      EntriesForErrKey(records[..|records| - 1], key, c, names);
    }
  }

  /** When the loop over the samples succeeds, sample k has the key. */
  lemma {:induction false} EntriesForOkKeyed(records: seq<Record>, key: string, c: (Invocation, string), names: seq<string>, k: nat)
    requires EntriesFor(records, key, c, names).Ok? && k < |records|
    ensures key in records[k]
    decreases |records|
  {
    var init := records[..|records| - 1];
    if k < |init| {
      EntriesForOkKeyed(init, key, c, names, k);
      assert init[k] == records[k];
    }
  }

  /** When every sample has the key, the loop over the samples succeeds. */
  lemma {:induction false} EntriesForKeyedOk(records: seq<Record>, key: string, c: (Invocation, string), names: seq<string>)
    requires forall k :: 0 <= k < |records| ==> key in records[k]
    ensures EntriesFor(records, key, c, names).Ok?
    decreases |records|
  {
    if records != [] {
      var init := records[..|records| - 1];
      assert forall k :: 0 <= k < |init| ==> init[k] == records[k];
      EntriesForKeyedOk(init, key, c, names);
    }
  }

  /** The loop over the samples succeeds exactly when every sample has the key. */
  lemma EntriesForOkIff(records: seq<Record>, key: string, c: (Invocation, string), names: seq<string>)
    ensures EntriesFor(records, key, c, names).Ok? <==> forall k :: 0 <= k < |records| ==> key in records[k]
  {
    if EntriesFor(records, key, c, names).Ok? {
      forall k | 0 <= k < |records| ensures key in records[k] {
        EntriesForOkKeyed(records, key, c, names, k);
      }
    }
    if forall k :: 0 <= k < |records| ==> key in records[k] {
      EntriesForKeyedOk(records, key, c, names);
    }
  }

  /** The loop over the samples succeeds exactly when every sample has the key; otherwise it raises KeyError for that key. */
  lemma EntriesForOutcome(records: seq<Record>, key: string, c: (Invocation, string), names: seq<string>)
    ensures EntriesFor(records, key, c, names).Ok? <==> forall k :: 0 <= k < |records| ==> key in records[k]
    ensures EntriesFor(records, key, c, names).Err? ==> EntriesFor(records, key, c, names).error == KeyError(key)
  {
    EntriesForOkIff(records, key, c, names);
    EntriesForErrKey(records, key, c, names);
  }

  /** The entries of the samples are those of the first samples followed by those of the last one. */
  lemma EntriesForSnoc(records: seq<Record>, r: Record, key: string, c: (Invocation, string), names: seq<string>)
    requires EntriesFor(records, key, c, names).Ok? && key in r
    ensures EntriesFor(records + [r], key, c, names)
      == Ok(EntriesFor(records, key, c, names).value + EntriesOf(c, SampleFiles(names, r[key])))
  {
    assert (records + [r])[..|records|] == records;
  }

  lemma IlluminaPieces(id: string, lane: string, marker: string, tail: string, ext: string)
    requires id == "SAMPLE1" && lane == "S1_L001" && marker == "_R1_" && tail == "001" && ext == ".fastq.gz"
    ensures '_' !in id && |marker| == 4 && |ext| == 9
    ensures 'R' !in id && 'R' !in lane && 'R' !in tail && 'R' !in ext
    ensures id + "_" + marker[1..3] + ext == "SAMPLE1_R1.fastq.gz"
    ensures id + "_" + ext == "SAMPLE1_.fastq.gz"
  {
  }

  /** A name id_<lane>_R1_<tail><ext>, with no '_' in id, is renamed id_R1<ext>. */
  lemma SimplifiedR1Name(id: string, lane: string, marker: string, tail: string, ext: string)
    requires '_' !in id && marker == "_R1_" && (ext == ".fastq" || ext == ".fastq.gz")
    ensures SimplifiedName(id + "_" + lane + marker + tail + ext) == id + "_" + "R1" + ext
  {
    var name := id + "_" + lane + marker + tail + ext;
    var i := |id| + 1 + |lane|;
    assert name[i..i + 4] == marker;
    ReadTagR1(name, i);
    assert name[..|id|] == id && name[|id|] == '_' && name[|name| - |ext|..] == ext;
    SimplifiedMatchedName(name, (id, ext));
    SplitNone(id, '_');
  }

  /** SAMPLE1_S1_L001_R1_001.fastq.gz is linked as SAMPLE1_R1.fastq.gz. */
  lemma SimplifiedR1Example(id: string, lane: string, marker: string, tail: string, ext: string)
    requires id == "SAMPLE1" && lane == "S1_L001" && marker == "_R1_" && tail == "001" && ext == ".fastq.gz"
    ensures SimplifiedName(id + "_" + lane + marker + tail + ext) == "SAMPLE1_R1.fastq.gz"
  {
    IlluminaPieces(id, lane, marker, tail, ext);
    SimplifiedR1Name(id, lane, marker, tail, ext);
    assert marker[1..3] == "R1";
  }

  /** A name id_<lane>_R2_<tail><ext>, with no '_' in id and no 'R' but the marker's, is renamed id_R2<ext>. */
  lemma SimplifiedR2Name(id: string, lane: string, marker: string, tail: string, ext: string)
    requires '_' !in id && marker == "_R2_" && (ext == ".fastq" || ext == ".fastq.gz")
    requires 'R' !in id && 'R' !in lane && 'R' !in tail
    ensures SimplifiedName(id + "_" + lane + marker + tail + ext) == id + "_" + "R2" + ext
  {
    var name := id + "_" + lane + marker + tail + ext;
    var pre, post := id + "_" + lane, tail + ext;
    assert name == pre + marker + post;
    assert 'R' !in ext;
    ReadTagR2(pre, marker, post);
    assert name[..|id|] == id && name[|id|] == '_' && name[|name| - |ext|..] == ext;
    SimplifiedMatchedName(name, (id, ext));
    SplitNone(id, '_');
  }

  lemma R2Pieces(id: string, lane: string, marker: string, tail: string, ext: string)
    requires id == "SAMPLE1" && lane == "S1_L001" && marker == "_R2_" && tail == "001" && ext == ".fastq.gz"
    ensures '_' !in id && 'R' !in id && 'R' !in lane && 'R' !in tail
    ensures id + "_" + "R2" + ext == "SAMPLE1_R2.fastq.gz"
  {
  }

  /** SAMPLE1_S1_L001_R2_001.fastq.gz is linked as SAMPLE1_R2.fastq.gz. */
  lemma SimplifiedR2Example(id: string, lane: string, marker: string, tail: string, ext: string)
    requires id == "SAMPLE1" && lane == "S1_L001" && marker == "_R2_" && tail == "001" && ext == ".fastq.gz"
    ensures SimplifiedName(id + "_" + lane + marker + tail + ext) == "SAMPLE1_R2.fastq.gz"
  {
    R2Pieces(id, lane, marker, tail, ext);
    SimplifiedR2Name(id, lane, marker, tail, ext);
  }

  /** A name without a read marker, SAMPLE1_S1_L001_001.fastq.gz, is linked as SAMPLE1_.fastq.gz. */
  lemma SimplifiedNoMarkerExample(id: string, lane: string, tail: string, ext: string)
    requires id == "SAMPLE1" && lane == "S1_L001" && tail == "001" && ext == ".fastq.gz"
    ensures SimplifiedName(id + "_" + lane + "_" + tail + ext) == "SAMPLE1_.fastq.gz"
  {
    IlluminaPieces(id, lane, "_R1_", tail, ext);
    var name := id + "_" + lane + "_" + tail + ext;
    assert 'R' !in name;
    ReadTagNone(name);
    assert name[..|id|] == id && name[|id|] == '_' && name[|name| - |ext|..] == ext;
    SimplifiedMatchedName(name, (id, ext));
    SplitNone(id, '_');
  }

  /** When every sample has the key, the path loop raises nothing. */
  lemma EntriesForAllKeyed(selected: seq<Sample>, key: string, c: (Invocation, string), names: seq<string>)
    requires forall i :: 0 <= i < |selected| ==> key in selected[i].fields
    ensures EntriesFor(Fields(selected), key, c, names).Ok?
  {
    EntriesForOutcome(Fields(selected), key, c, names);
  }

  /**
   * The NextSeq samples main() selects all have a sample_id, so the lookup
   * by sample_id in the path loop never raises; only an empty Analysis/
   * listing stops the sample-list run.
   */
  lemma NextSeqSelectionLinkable(samples: seq<Sample>, ids: set<string>, projectId: string,
                                 inv: Invocation, analysis: seq<string>, names: seq<string>)
    ensures analysis != [] ==> SrcDestPaths(Fields(SelectNextSeqByIds(samples, ids)), NextSeq, inv, analysis, names).Ok?
    ensures ProjectLinks(Fields(SelectNextSeqByProject(samples, projectId)), NextSeq, inv, names).Ok?
  {
    var byIds, byProject := SelectNextSeqByIds(samples, ids), SelectNextSeqByProject(samples, projectId);
    forall i | 0 <= i < |byIds|
      ensures "sample_id" in byIds[i].fields
    {
      var k :| 0 <= k < |samples| && samples[k] == byIds[i];
    }
    forall i | 0 <= i < |byProject|
      ensures "sample_id" in byProject[i].fields
    {
      var k :| 0 <= k < |samples| && samples[k] == byProject[i];
    }
    EntriesForAllKeyed(byIds, "sample_id", (inv, PathJoin(inv.runDir, ProjectFastqSubdir(NextSeq))), names);
    EntriesForAllKeyed(byProject, "sample_id", (inv, PathJoin(inv.runDir, ProjectFastqSubdir(NextSeq))), names);
    if analysis != [] {
      var subdir := FastqSubdir(NextSeq, inv, analysis).value;
      EntriesForAllKeyed(byIds, "sample_id", (inv, PathJoin(inv.runDir, subdir)), names);
    }
  }

  /** A MiSeq candidate, after the check wrote into it, has a sample_name. */
  lemma MiSeqCandidatesNamed(samples: seq<Sample>, orig: seq<Record>)
    requires |orig| == |samples|
    requires forall k :: 0 <= k < |samples| ==> samples[k].fields == Backfilled(orig[k])
    ensures forall i :: 0 <= i < |Keep(samples, IsCandidate, MiSeq)| ==> "sample_name" in Keep(samples, IsCandidate, MiSeq)[i].fields
  {
    var candidates := Keep(samples, IsCandidate, MiSeq);
    KeepAt(samples, IsCandidate, MiSeq);
    forall i | 0 <= i < |candidates|
      ensures "sample_name" in candidates[i].fields
    {
      assert candidates[i] in candidates;
      var k :| 0 <= k < |samples| && samples[k] == candidates[i];
      BackfilledIdempotent(orig[k]);
      ReadyAfterBackfill(orig[k]);
    }
  }

  /** A filter of samples that all have a key keeps only samples with that key. */
  lemma KeepKeyed<C>(samples: seq<Sample>, p: (C, Record) -> bool, c: C, key: string)
    requires forall i :: 0 <= i < |samples| ==> key in samples[i].fields
    ensures forall i :: 0 <= i < |Keep(samples, p, c)| ==> key in Keep(samples, p, c)[i].fields
  {
    KeepAt(samples, p, c);
    forall i | 0 <= i < |Keep(samples, p, c)|
      ensures key in Keep(samples, p, c)[i].fields
    {
      var k :| 0 <= k < |samples| && samples[k] == Keep(samples, p, c)[i];
    }
  }

  /**
   * The MiSeq samples main() selects were given a sample_name by the check,
   * so the lookup by sample_name in the path loop never raises: a MiSeq run
   * fails only in the id filter.
   */
  lemma MiSeqSelectionLinkable(samples: seq<Sample>, orig: seq<Record>, ids: set<string>, projectId: string,
                               inv: Invocation, analysis: seq<string>, names: seq<string>)
    requires |orig| == |samples|
    requires forall k :: 0 <= k < |samples| ==> samples[k].fields == Backfilled(orig[k])
    ensures var selected := SelectMiSeqIds(Keep(samples, IsCandidate, MiSeq), ids);
      selected.Ok? ==> SrcDestPaths(Fields(selected.value), MiSeq, inv, analysis, names).Ok?
    ensures ProjectLinks(Fields(Keep(Keep(samples, IsCandidate, MiSeq), FieldIs, ("sample_project", projectId))), MiSeq, inv, names).Ok?
  {
    var candidates := Keep(samples, IsCandidate, MiSeq);
    var c := (inv, PathJoin(inv.runDir, ProjectFastqSubdir(MiSeq)));
    MiSeqCandidatesNamed(samples, orig);
    KeepKeyed(candidates, FieldIs, ("sample_project", projectId), "sample_name");
    EntriesForAllKeyed(Keep(candidates, FieldIs, ("sample_project", projectId)), "sample_name", c, names);
    SelectMiSeqIdsOutcome(candidates, ids);
    KeepKeyed(candidates, MiSeqIdSelected, ids, "sample_name");
    EntriesForAllKeyed(Keep(candidates, MiSeqIdSelected, ids), "sample_name", c, names);
  }

  /** The NextSeq sample-list run reads nothing past an empty Analysis/ listing, whatever the samples. */
  lemma EmptyAnalysisListing(records: seq<Record>, inv: Invocation, names: seq<string>)
    ensures SrcDestPaths(records, NextSeq, inv, [], names) == Err(IndexError)
  {
  }

  /** Both scripts use the same MiSeq directory, so they link the same pairs. */
  lemma ScriptsAgreeMiSeq(records: seq<Record>, inv: Invocation, analysis: seq<string>, names: seq<string>)
    ensures match SrcDestPaths(records, MiSeq, inv, analysis, names)
      case Err(e) => ProjectLinks(records, MiSeq, inv, names) == Err(e)
      case Ok(entries) => ProjectLinks(records, MiSeq, inv, names) == Ok(Links(entries))
  {
  }

  lemma AnalysisOneDir(runDir: string, analysis: string, one: string, data: string, fastq: string, fixed: string)
    requires IsAbsolute(runDir) && runDir[|runDir| - 1] != '/'
    requires analysis == "Analysis" && one == "1" && data == "Data" && fastq == "fastq" && fixed == "Analysis/1/Data/fastq"
    ensures PathJoin(PathJoin(PathJoin(PathJoin(runDir, analysis), one), data), fastq) == PathJoin(runDir, fixed)
  {
    assert PathJoin(runDir, analysis) == runDir + "/" + analysis;
    assert PathJoin(runDir + "/" + analysis, one) == runDir + "/" + analysis + "/" + one;
    assert PathJoin(runDir + "/" + analysis + "/" + one, data) == runDir + "/" + analysis + "/" + one + "/" + data;
    assert PathJoin(runDir + "/" + analysis + "/" + one + "/" + data, fastq) == runDir + "/" + analysis + "/" + one + "/" + data + "/" + fastq;
    assert analysis + "/" + one + "/" + data + "/" + fastq == fixed;
  }

  /**
   * For a NextSeq run in an absolute directory whose latest analysis is
   * Analysis/1, the sample-list script finds the same FASTQ directory as the
   * project-id script, so both link the same pairs.
   */
  lemma ScriptsAgreeNextSeq(records: seq<Record>, inv: Invocation, analysis: seq<string>, names: seq<string>)
    requires IsAbsolute(inv.runDir) && inv.runDir[|inv.runDir| - 1] != '/'
    requires analysis != [] && analysis[|analysis| - 1] == "1"
    ensures SrcDestPaths(records, NextSeq, inv, analysis, names).Ok? <==> ProjectLinks(records, NextSeq, inv, names).Ok?
    ensures SrcDestPaths(records, NextSeq, inv, analysis, names).Ok? ==>
      ProjectLinks(records, NextSeq, inv, names).value == Links(SrcDestPaths(records, NextSeq, inv, analysis, names).value)
  {
    AnalysisOneDir(inv.runDir, "Analysis", "1", "Data", "fastq", "Analysis/1/Data/fastq");
    var latest := PathJoin(PathJoin(inv.runDir, "Analysis"), "1");
    assert IsAbsolute(latest);
    assert LatestAnalysisSubdir(inv, analysis) == Ok(latest);
    var subdir := PathJoin(PathJoin(latest, "Data"), "fastq");
    assert IsAbsolute(subdir);
    assert PathJoin(inv.runDir, subdir) == PathJoin(inv.runDir, ProjectFastqSubdir(NextSeq));
  }
}
