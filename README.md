# Illumina FASTQ symlinking, modelled in Dafny

Two scripts link the FASTQ files of an Illumina sequencing run into an
output directory:

- `symlink_illumina_fastq_by_sample_list.py` selects samples by a file of sample ids;
- `symlink_illumina_fastq_by_project_id.py` selects them by one project id.

Both run the same pipeline:

1. They classify the run directory name as MiSeq or NextSeq.
2. They parse the run's sample sheet. MiSeq sheets use the `[Data]` table; NextSeq sheets use the `[Cloud_Data]` table, whose header names are converted from CamelCase to snake_case.
3. They keep the samples that carry the fields linking needs. The MiSeq check also copies `sample_id` into an empty `sample_name`.
4. They filter the kept samples by id or by project.
5. For every selected sample, they find the files `<id>_*.fastq` and `<id>_*.fastq.gz` in the run's FASTQ directory and compute each file's absolute source path and its destination under the output directory. With `--simplify-sample-id` the destination is renamed to `<first token>_<R1|R2|>.fastq[.gz]`.

The model covers that pipeline over explicit inputs:
- the lines of the sample sheet and of the id file;
- the names listed in the FASTQ directory and in `Analysis/`;
- the working directory, the run directory, the output directory and the simplify flag.

Modules:

- `Results`: `Option`, and `Result` with the Python exceptions the scripts can raise (`StopIteration`, `KeyError`, `IndexError`).
- `Text`: the string methods the scripts call: `strip`, `rstrip(',')`, `startswith`, `split`, substring search and ASCII `lower`.
- `Seqs`: filtering, mapping and images of sequences, and subsequences.
- `CaseConvert`: `camel_to_snake`, as the two `re.sub` passes written out character by character, then `lower()`.
- `RunId`: `determine_sequencer_type`, with the two run-id patterns written out position by position.
- `SampleSheet`: both parsers. A sample is a `Sample` object holding a `map<string, string>`. Each parser is a method proved equal to a function over the lines.
- `Selection`:
  - the two field checks; the MiSeq one is a method that writes into the sample;
  - the filters `main()` chains after each parser;
  - `parse_ids_file`.
- `FastqPaths`:
  - `get_latest_analysis_subdir`;
  - `get_src_dest_paths`;
  - the path computation of the project-id `create_symlinks`.

Each script has its own copies of `camel_to_snake`, `determine_sequencer_type`, the parsers and the field checks. The copies are line-for-line the same, so they are modelled once, and the table cites both copies.

## Model

| member | source | states |
|---|---|---|
| CaseConvert.CamelToSnake | symlink_illumina_fastq_by_sample_list.py:25-30 | the converted name has no upper-case ASCII letter |
| CaseConvert.CamelToSnakeOnlyInsertsUnderscores | symlink_illumina_fastq_by_sample_list.py:25-30 | with underscores removed, the result is the lower-cased input with underscores removed: the conversion only inserts '_' and lower-cases |
| CaseConvert.CamelToSnakeIdempotent | symlink_illumina_fastq_by_sample_list.py:25-30 | converting a converted name again changes nothing |
| CaseConvert.BreakBeforeWordsAppend | symlink_illumina_fastq_by_sample_list.py:29 | the first substitution works piece by piece on a string cut where no match straddles the cut |
| CaseConvert.BreakBeforeCapsAppend | symlink_illumina_fastq_by_sample_list.py:30 | the same for the second substitution |
| CaseConvert.CamelToSnakeTwoWords | symlink_illumina_fastq_by_sample_list.py:29-30 | a word with no capital after its first letter, ending in a lower-case letter or digit, followed by a capitalised word becomes the two words lower-cased and joined by '_' |
| CaseConvert.CamelToSnakeWordAcronym | symlink_illumina_fastq_by_sample_list.py:29-30 | such a word followed by a run of capitals becomes the word and the run, lower-cased and joined by '_' |
| CaseConvert.CamelToSnakeWordAcronymWord | symlink_illumina_fastq_by_sample_list.py:29-30 | such a word, a run of capitals and a capitalised word become three lower-cased parts joined by '_': the run of capitals stays in one piece |
| CaseConvert.CamelToSnakeSampleID | symlink_illumina_fastq_by_project_id.py:12-14 | "SampleID" becomes "sample_id" |
| CaseConvert.CamelToSnakeProjectName | symlink_illumina_fastq_by_project_id.py:12-14 | "ProjectName" becomes "project_name" |
| CaseConvert.CamelToSnakeSampleIDNumber | symlink_illumina_fastq_by_sample_list.py:25-30 | the two-hump name "SampleIDNumber" becomes "sample_id_number" |
| RunId.MiSeqMatcherCorrect | symlink_illumina_fastq_by_sample_list.py:38 | the positional MiSeq matcher accepts exactly the names that start with date_M<5 digits>_<4 digits>_<9 digits>-<5 upper/digits> |
| RunId.NextSeqMatcherCorrect | symlink_illumina_fastq_by_sample_list.py:39 | the positional NextSeq matcher accepts exactly the names that start with date_VH<5 digits>_<digits>_<9 upper/digits> |
| RunId.DetermineSequencerTypeSpec | symlink_illumina_fastq_by_sample_list.py:33-46 | "miseq" iff the name starts with a MiSeq run id; otherwise "nextseq" iff it starts with a NextSeq run id; otherwise None |
| RunId.ClassificationIgnoresSuffix | symlink_illumina_fastq_by_sample_list.py:41-44 | the match is anchored at the start only: appending to a recognised name keeps its class |
| RunId.ShortRunIdUnknown | symlink_illumina_fastq_by_project_id.py:17-26 | no name shorter than 26 characters is recognised |
| RunId.MiSeqExample | symlink_illumina_fastq_by_project_id.py:17-26 | 240115_M01234_0123_000000000-ABCDE is a MiSeq run |
| RunId.NextSeqExample | symlink_illumina_fastq_by_project_id.py:17-26 | 231020_VH00468_32_AAF3KFHM5 is a NextSeq run |
| SampleSheet.FindMarker | symlink_illumina_fastq_by_sample_list.py:55-59 | the skip loop stops at the first line whose stripped text starts with the marker (or at the end) |
| SampleSheet.MarkerIndexUnique | symlink_illumina_fastq_by_sample_list.py:55-59 | that index is the only one before which no line is a marker line |
| SampleSheet.DataRowDict | symlink_illumina_fastq_by_sample_list.py:65-69 | the dictionary built cell by cell equals the [Data] record of the header and the cells |
| SampleSheet.DataRecordKeys | symlink_illumina_fastq_by_sample_list.py:65-69 | a [Data] record has exactly the header names at positions below min(header length, row length): a short row leaves keys absent, surplus cells are dropped |
| SampleSheet.DataRecordValue | symlink_illumina_fastq_by_sample_list.py:65-69 | a header name holds the cell at its last position: a repeated name keeps the later cell |
| SampleSheet.DataRows | symlink_illumina_fastq_by_sample_list.py:63-70 | one new sample per row not made only of empty fields, in order, each holding that row's record |
| SampleSheet.ParseSampleSheetMiSeq | symlink_illumina_fastq_by_sample_list.py:49-73 | StopIteration when no [Data] marker has a line after it; otherwise distinct new samples holding exactly the parsed records |
| SampleSheet.ParseMiSeqSheetFails | symlink_illumina_fastq_by_sample_list.py:55-61 | the parse fails exactly when no line with a successor is a [Data] marker |
| SampleSheet.ParseMiSeqSheetSkipsPreamble | symlink_illumina_fastq_by_sample_list.py:55-59 | lines before the first marker do not change the parse |
| SampleSheet.ParseMiSeqSheetPerRow | symlink_illumina_fastq_by_sample_list.py:61-71 | one record per non-blank row after the header, in file order, the i-th from the i-th such row |
| SampleSheet.MiSeqSheetExample | symlink_illumina_fastq_by_project_id.py:29-50 | header sample_name,sample_project with rows S1,P1 / , / S2,P2 gives exactly the two records of S1 and S2 |
| SampleSheet.ExampleBlankRow | symlink_illumina_fastq_by_project_id.py:41 | a row of empty fields gives no record |
| SampleSheet.CollectCloudLines | symlink_illumina_fastq_by_sample_list.py:86-89 | the collection loop gathers the cleaned lines up to the first line that ends the section |
| SampleSheet.CloudSectionAt | symlink_illumina_fastq_by_sample_list.py:86-89 | collected line i is line i stripped of spaces and trailing commas, and line i does not end the section |
| SampleSheet.CloudSectionEnd | symlink_illumina_fastq_by_sample_list.py:87 | collection stops at a [Cloud_Settings] line or a line empty once cleaned, or at the end of the sheet |
| SampleSheet.CloudRowDict | symlink_illumina_fastq_by_sample_list.py:96-100 | the dictionary built key by key equals the [Cloud_Data] record of the keys and values |
| SampleSheet.CloudRecordKeys | symlink_illumina_fastq_by_sample_list.py:96-100 | a [Cloud_Data] record has exactly the header's keys, however long the row |
| SampleSheet.CloudRecordValue | symlink_illumina_fastq_by_sample_list.py:96-100 | a key holds the value at its last position, or "" when the row is too short |
| SampleSheet.CloudRows | symlink_illumina_fastq_by_sample_list.py:92-101 | one new sample per collected row after the header that is not only empty fields, in order |
| SampleSheet.ParseSampleSheetNextSeq | symlink_illumina_fastq_by_sample_list.py:76-104 | distinct new samples holding exactly the parsed [Cloud_Data] records |
| SampleSheet.ParseNextSeqSheetNoMarker | symlink_illumina_fastq_by_sample_list.py:91 | a sheet without a [Cloud_Data] line gives no samples |
| SampleSheet.ParseNextSeqSheetPerRow | symlink_illumina_fastq_by_sample_list.py:91-101 | one record per collected line after the header, less those of only empty fields; never more than the collected lines minus one |
| SampleSheet.CollectedButBlank | symlink_illumina_fastq_by_sample_list.py:87-97 | the line ", ," is collected yet gives no record |
| SampleSheet.ExampleCloudKeys | symlink_illumina_fastq_by_project_id.py:66 | the header SampleID,ProjectName gives the keys sample_id and project_name |
| SampleSheet.NextSeqSheetExample | symlink_illumina_fastq_by_project_id.py:53-78 | a one-value row under SampleID,ProjectName gives project_name = "" |
| Selection.HasNecessaryFieldsMiSeq | symlink_illumina_fastq_by_sample_list.py:107-130 | true iff (sample_name or sample_id non-empty) and sample_project non-empty; the sample afterwards holds the backfilled dictionary |
| Selection.BackfilledName | symlink_illumina_fastq_by_sample_list.py:114-120 | sample_name is kept when non-empty, else takes a non-empty sample_id, else stays as it was |
| Selection.BackfilledOtherKeys | symlink_illumina_fastq_by_project_id.py:81-100 | the MiSeq check changes no key but sample_name |
| Selection.BackfillWithoutProject | symlink_illumina_fastq_by_project_id.py:84-97 | a sample without a project is refused, and its sample_name is still filled in from sample_id |
| Selection.BackfilledIdempotent | symlink_illumina_fastq_by_sample_list.py:107-130 | checking twice changes nothing more and gives the same answer |
| Selection.ReadyAfterBackfill | symlink_illumina_fastq_by_sample_list.py:107-130 | a sample that passes has a non-empty sample_name and sample_project afterwards |
| Selection.HasNecessaryFieldsNextSeq | symlink_illumina_fastq_by_project_id.py:103-119 | true iff sample_id and project_name are present and non-empty; the record is a value, so it is not changed |
| Selection.KeepMembers | symlink_illumina_fastq_by_sample_list.py:269 | filter() keeps exactly the samples whose dictionary passes |
| Selection.KeepIsSubsequence | symlink_illumina_fastq_by_sample_list.py:269 | filter() keeps the samples in their order |
| Selection.KeepKeep | symlink_illumina_fastq_by_project_id.py:180-181 | two filters in a row keep what passes both, in order |
| Selection.FilterMiSeqCandidates | symlink_illumina_fastq_by_sample_list.py:269 | the MiSeq check runs on every sample, backfilling each, and the candidates are the samples it accepts, in order |
| Selection.SelectMiSeqIdsOutcome | symlink_illumina_fastq_by_sample_list.py:270 | the id filter succeeds iff no candidate lacks sample_id (looked up first); then it keeps the candidates whose sample_id or sample_name is listed; otherwise the error comes from the first failing candidate |
| Selection.MiSeqIdMatchOnCandidate | symlink_illumina_fastq_by_sample_list.py:270 | on a checked candidate the filter raises KeyError('sample_id') iff the sheet had no sample_id column for it, and keeps it iff its id or its backfilled name is listed |
| Selection.MiSeqIdSelectionFails | symlink_illumina_fastq_by_sample_list.py:268-270 | the MiSeq id selection fails iff some sample that passes the check has no sample_id key |
| Selection.SelectMiSeqByIds | symlink_illumina_fastq_by_sample_list.py:269-270 | every sample is backfilled and the result is the id filter over the candidates |
| Selection.SelectNextSeqByIds | symlink_illumina_fastq_by_sample_list.py:277-278 | a NextSeq sample is selected iff its sample_id and project_name are non-empty and its sample_id is listed |
| Selection.NextSeqSelectionsAreFilterChains | symlink_illumina_fastq_by_sample_list.py:277-278 | the one-pass selections equal the script's two filters in a row |
| Selection.SelectMiSeqByProject | symlink_illumina_fastq_by_project_id.py:173-174 | every sample is backfilled and the candidates whose sample_project is the project are kept |
| Selection.MiSeqProjectSelection | symlink_illumina_fastq_by_project_id.py:173-174 | a sample is selected iff it passes the MiSeq check and its sample_project equals the project id |
| Selection.SelectNextSeqByProject | symlink_illumina_fastq_by_project_id.py:180-181 | a NextSeq sample is selected iff its sample_id and project_name are non-empty and project_name is the project id |
| Selection.SelectionKeepsOrder | symlink_illumina_fastq_by_project_id.py:170-181 | every selection is a subsequence of the parsed samples |
| Selection.IdsOfMembers | symlink_illumina_fastq_by_sample_list.py:238-246 | an id is in the set iff some line strips to it, so a blank line adds "" |
| Selection.ParseIdsFile | symlink_illumina_fastq_by_sample_list.py:238-246 | the set built line by line is the set of stripped lines |
| FastqPaths.LatestAnalysisSubdir | symlink_illumina_fastq_by_sample_list.py:156-161 | IndexError exactly when the Analysis/ listing is empty |
| FastqPaths.LatestAnalysisSubdirAbsolute | symlink_illumina_fastq_by_sample_list.py:159 | the latest analysis directory is an absolute path |
| FastqPaths.MatchesMembers | symlink_illumina_fastq_by_sample_list.py:186-187 | a listed name is found by the glob <id>_*<ext> iff it starts with id + '_' and ends with ext |
| FastqPaths.SampleFilesShape | symlink_illumina_fastq_by_project_id.py:136-137 | every file of a sample is listed, starts with id + '_' and ends in .fastq or .fastq.gz |
| FastqPaths.SampleFileAt | symlink_illumina_fastq_by_sample_list.py:186-188 | the .fastq matches come before the .fastq.gz matches |
| FastqPaths.MatchedFirstToken | symlink_illumina_fastq_by_sample_list.py:192 | the sample_id of an entry is the sheet id's first '_'-token, so it is the sheet id when that has no '_' |
| FastqPaths.FirstTokenOfPrefixed | symlink_illumina_fastq_by_sample_list.py:192 | a name id + '_' + rest has id's first token; that is id itself when id has no '_' |
| FastqPaths.MatchedExtension | symlink_illumina_fastq_by_sample_list.py:199-201 | the simplified extension of a matched file is the one its glob asked for |
| FastqPaths.SimplifiedMatchedName | symlink_illumina_fastq_by_project_id.py:141-151 | a matched file is renamed to the id's first token, '_', its read marker and its glob extension |
| FastqPaths.ReadTagR1 | symlink_illumina_fastq_by_sample_list.py:195-196 | a name containing _R1_ gets read R1, whether or not it also contains _R2_ |
| FastqPaths.ReadTagNone | symlink_illumina_fastq_by_sample_list.py:194-198 | a name without an R has an empty read marker |
| FastqPaths.ReadTagR2 | symlink_illumina_fastq_by_sample_list.py:194-198 | a name holding _R2_ and no other 'R' gets read R2 |
| FastqPaths.SimplifiedR1Name | symlink_illumina_fastq_by_project_id.py:141-151 | id_<lane>_R1_<tail><ext> with no '_' in id is renamed id_R1<ext> |
| FastqPaths.SimplifiedR1Example | symlink_illumina_fastq_by_project_id.py:141-151 | SAMPLE1_S1_L001_R1_001.fastq.gz becomes SAMPLE1_R1.fastq.gz |
| FastqPaths.SimplifiedR2Name | symlink_illumina_fastq_by_project_id.py:141-151 | id_<lane>_R2_<tail><ext> with no '_' in id and no other 'R' is renamed id_R2<ext> |
| FastqPaths.SimplifiedR2Example | symlink_illumina_fastq_by_project_id.py:141-151 | SAMPLE1_S1_L001_R2_001.fastq.gz becomes SAMPLE1_R2.fastq.gz |
| FastqPaths.SimplifiedNoMarkerExample | symlink_illumina_fastq_by_project_id.py:141-151 | SAMPLE1_S1_L001_001.fastq.gz becomes SAMPLE1_.fastq.gz |
| FastqPaths.FileEntry | symlink_illumina_fastq_by_sample_list.py:190-206 | the entry built step by step has the absolute source path, the destination under the output directory and the first token of the file name |
| FastqPaths.AppendEntries | symlink_illumina_fastq_by_sample_list.py:188-206 | the inner loop appends one entry per file, in order |
| FastqPaths.SampleLoop | symlink_illumina_fastq_by_sample_list.py:180-206 | the loop over the samples gives every sample's entries in order, or KeyError for the first sample without the lookup key |
| FastqPaths.GetSrcDestPaths | symlink_illumina_fastq_by_sample_list.py:164-208 | the result is the specification of get_src_dest_paths: IndexError for NextSeq with an empty Analysis/ listing, else the sample loop in the MiSeq or latest-analysis FASTQ directory |
| FastqPaths.EntriesForOutcome | symlink_illumina_fastq_by_sample_list.py:180-185 | the path loop succeeds iff every sample has the lookup key, and otherwise raises KeyError for that key |
| FastqPaths.EntriesOfAt | symlink_illumina_fastq_by_sample_list.py:188-206 | the i-th entry of a sample is the entry of its i-th file |
| FastqPaths.SampleEntry | symlink_illumina_fastq_by_sample_list.py:186-206 | entry i of a sample comes from a listed file matching id_*<ext>; its id is the first token of the sheet id; its destination is the simplified name or the file name under the output directory |
| FastqPaths.MiSeqSelectionLinkable | symlink_illumina_fastq_by_sample_list.py:181-185 | for the MiSeq samples the filters select, the sample_name lookup never raises |
| FastqPaths.NextSeqSelectionLinkable | symlink_illumina_fastq_by_project_id.py:131-135 | for the NextSeq samples the filters select, the sample_id lookup never raises |
| FastqPaths.EmptyAnalysisListing | symlink_illumina_fastq_by_sample_list.py:156-161 | a NextSeq run with an empty Analysis/ listing raises IndexError whatever its samples |
| FastqPaths.CreateSymlinksPairs | symlink_illumina_fastq_by_project_id.py:126-152 | the (source, destination) pairs the project-id script links, in order, or the KeyError that stops it |
| FastqPaths.ScriptsAgreeMiSeq | symlink_illumina_fastq_by_project_id.py:127-128 | for MiSeq both scripts compute the same pairs or the same error |
| FastqPaths.ScriptsAgreeNextSeq | symlink_illumina_fastq_by_project_id.py:129-130 | for NextSeq in an absolute run directory whose latest analysis is 1, both scripts compute the same pairs |
| FastqPaths.Links | symlink_illumina_fastq_by_project_id.py:151-154 | the i-th pair is the source and destination of the i-th entry |

## Left out

- File reading and the JSON configuration: the parsers and `parse_ids_file` take the file's lines (`main`'s `parse_config`, `jdump`, `open`).
- Filesystem queries: `glob.glob`, `os.listdir` and `os.path.isdir` are replaced by the listings they return, passed in. The listing order is an input, as it is in the scripts.
- Glob metacharacters in sample ids, the rule that `*` does not match a leading '.', and names containing '/' are not modelled: a file matches `<id>_*<ext>` when its name starts with `id_` and ends with `ext`.
- `os.path.exists` on each globbed file is not modelled: every listed name counts as an existing file, so a dangling symbolic link in the FASTQ directory is not dropped as the scripts drop it.
- `os.path.abspath` normalisation of `.` and `..` segments is not modelled: a relative path is joined to the working directory, an absolute one kept.
- Effects are not modelled: `create_symlinks` and `create_copies` of the sample-list script, the `os.symlink` calls with their print-and-continue error handling, `os.makedirs` and `shutil.copy`. The model stops at the list of source/destination entries (pairs, for the project-id script).
- `main()` wiring is not modelled: argument parsing, the loop over run parent directories, stripping '/' from the run directory, and picking `samplesheet_paths[0]`.
- A run whose name is not recognised is not modelled. In the project-id script, `main()` then passes the unbound `selected_samples` to `create_symlinks`, which raises NameError. In the sample-list script the same NameError is raised only when no earlier run in the loop was recognised. Otherwise `selected_samples` still names the previous run's filter, which `get_src_dest_paths` has already used up, so the unrecognised run yields no entries and is skipped without a message.
- Python's general regular-expression engine and Unicode behaviour are not modelled. `\d`, `[A-Z]`, `[a-z]`, `strip()` and `lower()` are their ASCII versions.
- Selection.SelectMiSeqByIds: the model runs the MiSeq check over all samples, then the id filter. Python's `filter` is lazy and interleaves the two, so when the id filter raises KeyError the samples after the failing one have not yet been checked and backfilled. The exception ends the run either way, and FastqPaths.MiSeqSelectionLinkable shows the path loop cannot raise first, so the outcome is the same.
- Selection.FilterMiSeqCandidates: requires the samples to be distinct objects. The parsers create a new object per row and prove it (SampleSheet.ParseSampleSheetMiSeq).
- Behaviour of the scripts the model keeps:
  - The latest analysis directory is the last entry in listing order, not a sorted maximum.
  - A MiSeq candidate without a `sample_id` column stops the id selection with KeyError rather than being dropped.
  - The number of `[Cloud_Data]` records can be smaller than the number of collected lines after the header (SampleSheet.CollectedButBlank).
