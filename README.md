# Topic-lookup deduplicator, modelled in Dafny

`em.py` removes from one topic-lookup document (the base file,
`Physics_C_Electricity_and_Magnetism_TopicLookup.json`) every skill that appears in any other
topic-lookup document of the same directory. A skill appears there when some other document
has a skill with the same triple of unit code, topic code and skill code, and all three codes
are non-empty strings. A topic left without skills is then dropped, and so is a unit left
without topics. The script writes the result to `NEW_Physics_C_Electricity_and_Magnetism_TopicLookup.json`
and prints before/after counts.

The model follows the script's `main()` step by step:

- `topic_lookup.dfy` (module `TopicLookup`): the documents as datatypes. A `Unit` has an
  optional `unitCd`, its `topics` and the rest of its fields. A `Topic` has `topicCd`, `skills`
  and the rest. A `Skill` has `skillCd` and the rest. A missing `topics` or `skills` key is an
  empty list, as `.get(..., [])` makes it. This module also gives the flattening of a unit list
  into its skill occurrences. Each occurrence carries the triple (`Sig`) formed from its
  enclosing codes. The counts are defined here too.
- `signatures.dfy` (module `Signatures`): the aggregation loop of em.py:51-72, as the nested
  methods `CollectSignatures`, `CollectUnits`, `CollectTopics` and `CollectSkills`. They
  update `seen_signatures` and `other_entry_count`. Each method is proved against a fold over
  the flattened occurrences.
- `base_filter.dfy` (module `BaseFilter`): the three-level filter loop of em.py:81-120, as
  `FilterUnits`, `FilterTopics` and `FilterSkills`. They grow the new lists and the counters
  `removed_skills`, `original_topics_count` and `original_skills_count`. They are proved
  against the specification functions `KeptUnits`, `KeptTopics` and `KeptSkills`, and the
  properties are lemmas about those functions.
- `dedupe.dfy` (module `Dedupe`): the file selection of em.py:37-45, the two early returns,
  and `Run`. `Run` is `main()` with the directory given as a list of files. It returns the
  document to be written and the numbers printed at em.py:42, 47, 74-75 and 143-146.
- `seqs.dfy` and `wrappers.dfy`: a generic `Filter` with its lemmas, an order-preserving
  subsequence predicate, and `Option`/`Result`.

A skill is kept when its triple is not in the set, and the set only holds triples whose
three codes are truthy. So a skill with a missing or empty code is always kept
(`InvalidAlwaysKept`).

An empty signature set removes no skill. It still drops topics that had no skills to begin
with, and units left without topics. So a run whose directory holds no other file returns
the input units unchanged only when no topic and no unit is empty
(`EmptySetRemovesNothing`, `NoOtherFilesStillDropsEmptyTopics`).

## Model

| member | source | states |
|---|---|---|
| TopicLookup.UnitEntriesMembership | em.py:62-69 | an occurrence is in the flattening exactly when it is skill `l` of topic `k` of unit `j`, with the triple of that unit's, topic's and skill's codes |
| TopicLookup.TopicEntriesMembership | em.py:65-69 | within one unit, an occurrence is in the flattening exactly when it is skill `l` of topic `k`, with the triple of the unit's, topic's and skill's codes |
| TopicLookup.SkillEntriesAt | em.py:68-69 | occurrence `l` of a topic is skill `l` with the triple of the unit's, topic's and skill's codes |
| TopicLookup.SkillEntries | em.py:68-69 | a topic contributes one occurrence per skill |
| TopicLookup.TopicCount | em.py:93 | the summed topic-list lengths; when no unit is empty it is at least the number of units |
| TopicLookup.TopicSkillCount | em.py:98 | a unit's summed skill-list lengths; when no topic is empty it is at least the number of topics |
| TopicLookup.SkillCount | em.py:136-140 | the nested sum of skill-list lengths; when no topic is empty it is at least the topic count |
| TopicLookup.SkillCountIsEntries | em.py:136-140 | the nested sum of skill-list lengths equals the number of skill occurrences |
| TopicLookup.TopicSkillCountIsEntries | em.py:95-98 | a unit's summed skill-list lengths equal its number of skill occurrences |
| Signatures.CollectSkills | em.py:68-72 | after the skill loop, the set is the old set plus the truthy triples of these skills, and the counter is the old counter plus their number |
| Signatures.CollectTopics | em.py:65-72 | after the topic loop, the set and the counter have taken in every skill occurrence of the unit's topics, in order |
| Signatures.CollectUnits | em.py:61-72 | after the unit loop, the set and the counter have taken in every skill occurrence of the document |
| Signatures.CollectSignatures | em.py:51-72 | the loop over the other files yields exactly the signature set and the entry count of their occurrences; the count is at least the set's size, and every collected triple has three truthy codes |
| Signatures.SignatureSet | em.py:51-72 | the set collected from the other documents holds only triples with three truthy codes |
| Signatures.EntryCount | em.py:70-75 | the counter over the other documents is at least the number of unique signatures |
| Signatures.SeenAfterMembership | em.py:68-71 | a triple is collected from a list of occurrences exactly when its codes are truthy and some occurrence carries it |
| Signatures.CountAfterIsQualifying | em.py:70-72 | the counter equals the number of qualifying occurrences, duplicates included |
| Signatures.CountAtLeastSeen | em.py:70-75 | the counter is never below the number of distinct triples |
| Signatures.OtherEntriesMembership | em.py:54-69 | an occurrence is visited exactly when it belongs to some other document that parsed |
| Signatures.SignatureSetMembership | em.py:54-72 | a triple is in `seen_signatures` exactly when its three codes are truthy and some skill of a parsed other document carries it |
| Signatures.EntryCountBounds | em.py:70-75 | `other_entry_count` is the number of qualifying occurrences over all other documents and at least the number of unique signatures |
| Signatures.SkipUnparseable | em.py:55-59 | a file that fails to parse, anywhere in the list, changes neither the set nor the counter |
| Signatures.ListingOrderIrrelevant | em.py:37 | any rearrangement of the other documents yields the same set and the same counter |
| BaseFilter.FilterSkills | em.py:100-108 | the skill loop returns exactly the skills whose triple is not in the set, in order, and adds the number of the rest to the removed counter |
| BaseFilter.FilterTopics | em.py:95-114 | the topic loop returns exactly the kept topics with their kept skills, adds the unit's removed skills to the removed counter and its skill-list lengths to the original skill count |
| BaseFilter.FilterUnits | em.py:81-120 | the unit loop returns exactly the kept units, `removed_skills` equal to the number of occurrences whose triple is in the set, and the original topic and skill counts |
| BaseFilter.KeptSkills | em.py:100-108 | a topic's new skill list is no longer than its skill list |
| BaseFilter.KeptTopics | em.py:110-114 | a unit's new topic list is no longer than its topic list |
| BaseFilter.KeptUnits | em.py:116-120 | the new unit list is no longer than the unit list |
| BaseFilter.DuplicateCount | em.py:104-106 | `removed_skills` never exceeds the number of occurrences visited |
| BaseFilter.SurvivorsMembership | em.py:104-108 | an occurrence survives exactly when it occurs and its triple is not in the set |
| BaseFilter.SurvivorsPartition | em.py:104-108 | removed plus surviving occurrences make up all occurrences |
| BaseFilter.SurvivorsAll | em.py:104-108 | nothing is removed from a list (both the list and the count) exactly when none of its triples is in the set |
| BaseFilter.DuplicatesAll | em.py:104-106 | every occurrence is removed exactly when every triple is in the set |
| BaseFilter.SurvivorsConcat | em.py:89-108 | filtering and counting distribute over concatenation |
| BaseFilter.KeptSkillsEntries | em.py:100-108 | the occurrences of a topic's kept skills are exactly its surviving occurrences |
| BaseFilter.KeptTopicsEntries | em.py:95-114 | the occurrences of a unit's kept topics are exactly its surviving occurrences |
| BaseFilter.KeptUnitsEntries | em.py:89-120 | the occurrences of the output units are exactly the surviving occurrences of the input, in order |
| BaseFilter.KeptMembership | em.py:101-108 | a skill occurrence is in the output exactly when it is in the input and its triple is not in the set |
| BaseFilter.InvalidAlwaysKept | em.py:101-108 | with a set of truthy-coded triples, an occurrence with a missing or empty code is always kept |
| BaseFilter.Conservation | em.py:98-108 | removed skills plus remaining skills equal the original skills; there are no more units or topics than before |
| BaseFilter.KeptTopicCount | em.py:135 | the output has no more topics than the input |
| BaseFilter.KeptTopicsNonEmpty | em.py:110-114 | every kept topic has at least one skill |
| BaseFilter.KeptUnitsNonEmpty | em.py:110-120 | every output unit has at least one topic and every output topic at least one skill |
| BaseFilter.UnitDroppedIff | em.py:116-120 | a unit is dropped exactly when every skill occurrence under its topics (possibly none) has its triple in the set |
| BaseFilter.TopicDroppedIff | em.py:110-114 | a topic is dropped exactly when all of its skills (possibly none) have their triple in the set |
| BaseFilter.KeptSkillsSubseq | em.py:100-108 | the kept skills are an order-preserving subsequence of the skills, copied unchanged |
| BaseFilter.KeptTopicsSubseq | em.py:110-114 | the kept topics are an order-preserving subsequence, each equal to its input topic except for `skills` |
| BaseFilter.KeptUnitsSubseq | em.py:116-120 | the output units are an order-preserving subsequence of the input, each equal to its input unit except for `topics`, down to unchanged skills |
| BaseFilter.KeptSkillsIdempotent | em.py:100-108 | filtering kept skills again gives the same skills |
| BaseFilter.KeptTopicsIdempotent | em.py:95-114 | filtering kept topics again gives the same topics |
| BaseFilter.KeptUnitsIdempotent | em.py:89-120 | filtering the output again with the same set gives the same units |
| BaseFilter.KeptUnitsNoDuplicates | em.py:101-108 | no output skill has its triple in the set, so filtering the output again removes no skill |
| BaseFilter.EmptySetRemovesNothing | em.py:101-120 | with an empty set no skill is removed or lost, and the units come back unchanged exactly when no unit or topic is empty |
| BaseFilter.NoEmptySkillsUnchanged | em.py:100-108 | with an empty set every skill is kept |
| BaseFilter.NoEmptyTopicsUnchanged | em.py:110-114 | with an empty set, topics that all have skills come back unchanged |
| BaseFilter.NoEmptyUnchanged | em.py:116-120 | with an empty set, units without empty topics or units come back unchanged |
| Dedupe.Discover | em.py:37 | a file is discovered exactly when it is in the directory and its name ends with `TopicLookup.json`, and as many times as it is listed |
| Dedupe.OtherFiles | em.py:45 | a discovered file is an other file exactly when its name is not the base name and does not start with `NEW_`, as many times as it is discovered; the other files keep their order |
| Dedupe.ConfigError | em.py:31-40 | the run stops with "base missing" exactly when no file has the base name, with "no lookup files" exactly when the base exists but no name ends with `TopicLookup.json`, and never with a parse error |
| Dedupe.Contents | em.py:54-59 | one parsed-or-failed document per other file, document `i` being the content of file `i` |
| Dedupe.FindFile | em.py:31-32 | the base file is found exactly when the directory has a file of that name |
| Dedupe.Run | em.py:30-148 | a missing base file or no lookup files ends the run without output, as does an unparseable base file; otherwise the output is a document holding only the kept units, and the printed numbers are the counts of lookup files and of other files (fewer other files than lookup files), the signature count, entry count, before and after counts and removed skills, with removed plus remaining skills equal to the original skills, and after the run no more units than topics and no more topics than skills |
| Dedupe.BaseNotOther | em.py:42-47 | once the base file exists, fewer files are used for deduping than were found, since the base file is found but is not an other file |
| Dedupe.NoLookupFilesUnreachable | em.py:36-40 | the "no lookup files" return cannot be taken once the base file exists, since its name matches the glob |
| Dedupe.RerunIgnoresOutput | em.py:45 | adding the output file to the directory changes neither the other files nor the signature set of the next run |
| Dedupe.OneDuplicateRemoved | em.py:101-120 | against another file with U1/T1/S1, a base unit U1 with topic T1 and skills S1, S2 keeps only S2, and one skill is removed |
| Dedupe.NoOtherFilesStillDropsEmptyTopics | em.py:110-120 | with only the base file present the set is empty, yet a unit whose only topic has no skills is dropped |
| Seqs.FilterMembership | em.py:45 | an element is kept by the filter exactly when it occurs and satisfies the predicate |
| Seqs.FilterIsSubseq | em.py:45 | the filtered list is an order-preserving subsequence of the input |
| Seqs.FilterMultiset | em.py:45 | an element satisfying the predicate is kept as many times as it occurs, any other not at all |
| Seqs.FilterShorter | em.py:45 | an element that fails the predicate makes the filtered list strictly shorter |
| Seqs.FilterConcat | em.py:45 | filtering distributes over concatenation |

## Left out

- File system access: the existence check, globbing, reading and writing (em.py:25-27, 31-39, 130-132). The directory is a list of files, each with its name and its parsed content. `Run` returns the document instead of writing it. Names are compared exactly, as on a case-sensitive file system; on a case-insensitive one `exists()` (em.py:32) can find a base file whose stored name a case-sensitive glob (em.py:37) misses, so the return of em.py:38-40 that `NoLookupFilesUnreachable` rules out could be taken there. On such a file system a base file stored under a name differing only in case (say `physics_C_…_TopicLookup.json`) also passes the glob and the `!=` test of em.py:45, so it is collected as an other file and every base skill with three truthy codes is removed; the model, comparing exactly, also treats that name as an other file, but reports the base file missing unless a file of the exact name is listed as well.
- `sorted` on the globbed paths (em.py:37): the files are taken in the order given. `ListingOrderIrrelevant` shows that the set and the counter do not depend on it; only the printed file list does.
- JSON parsing and serialisation (`json.load`, `json.dump` with `indent` and `ensure_ascii`): documents are datatypes. A parse failure of an other file is `None`. A parse failure of the base file, which the script does not catch, ends `Run` with `BaseUnparseable`.
- A document whose top level is not an object: `data.get` raises `AttributeError` (em.py:61, 79).
- `unitCd`, `topicCd` or `skillCd` holding a value other than a string or `null`: the script uses Python's general truthiness on it (em.py:70), and a list or object code raises `TypeError` when its triple is added to the set (em.py:71) or looked up in it (em.py:104). Codes are optional strings, and "truthy" means present and non-empty.
- `lookupData` that is not an object raises `AttributeError` (em.py:61, 79). `units` that is `null`, a number or a bool raises `TypeError` (em.py:62 for an other file, em.py:81 for the base file), and so do `topics` or `skills` of that kind (em.py:65, 68, 93, 98). An empty object or empty string in `units`, `topics` or `skills` reads as an empty list (in `lookupData` it raises, as said); a non-empty one is iterated over its keys or characters, which fail as in the next line. The model always has a list at each level.
- An element of `units`, `topics` or `skills` that is not an object (em.py:63, 66, 69, 90, 96, 102): `.get` raises; the model's elements are always objects.
- The `try` of em.py:55-59 covers only `load_json`. An other file that parses but has one of the raising shapes above ends the whole run with an exception instead of being skipped like a parse failure; the model has no such file.
- A missing code key and a code holding `null` are both `None` in the script and both `None` in the model, so the model does not say which of the two a kept unit, topic or skill writes back.
- The `rest` fields of `Unit`, `Topic` and `Skill` are not constrained to lack the `unitCd`/`topicCd`/`skillCd` or `topics`/`skills` keys; a well-formed document never has them there twice.
- Key order inside copied dictionaries: a kept unit or topic keeps its other fields in `rest`, and only `topics` or `skills` is replaced. The position of the replaced key among the others is not modelled.
- JSON numbers are integers only; floating point is not modelled.
- All console output and `Path.resolve()` (em.py:33, 39, 42-49, 58, 74-75, 142-148). The numbers printed at em.py:42, 47, 74-75 and 143-146 are returned by `Run` in a `Summary`; the printed file names and paths are not.
