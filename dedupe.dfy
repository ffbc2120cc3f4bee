/** The script's `main()` (em.py:30-148) without its file system and console: the directory is
    given as its list of files with their parsed contents, and the run returns the document it
    would write together with the counts it would print. */
module Dedupe {
  import opened Wrappers
  import opened Seqs
  import opened TopicLookup
  import opened Signatures
  import opened BaseFilter

  /** The glob `*TopicLookup.json` matches names with this suffix (em.py:37). */
  const LookupSuffix: string := "TopicLookup.json"
  /** Names with this prefix are earlier outputs, never used as other files (em.py:45). */
  const OutputPrefix: string := "NEW_"
  /** The base file to deduplicate, `Physics_C_Electricity_and_Magnetism_TopicLookup.json`
      (em.py:21). */
  const BaseName: string := "Physics_C_Electricity_and_Magnetism_" + LookupSuffix
  /** The file the filtered copy is written to,
      `NEW_Physics_C_Electricity_and_Magnetism_TopicLookup.json` (em.py:22). */
  const OutputName: string := OutputPrefix + BaseName

  predicate StartsWith(s: string, prefix: string) {
    |prefix| <= |s| && s[..|prefix|] == prefix
  }

  predicate EndsWith(s: string, suffix: string) {
    |suffix| <= |s| && s[|s| - |suffix|..] == suffix
  }

  /** A file of the directory: its name and the result of parsing it as a topic-lookup
      document, `None` when its JSON does not parse. */
  datatype File = File(name: string, content: Option<Document>)

  /** Matched by the glob. */
  predicate IsLookupFile(f: File) {
    EndsWith(f.name, LookupSuffix)
  }

  /** Kept as an other file: neither the base file nor an earlier output. */
  predicate IsOtherFile(f: File) {
    f.name != BaseName && !StartsWith(f.name, OutputPrefix)
  }

  /** `all_files`: the topic-lookup files of the directory, in its listing order. */
  function Discover(dir: seq<File>): (found: seq<File>)
    ensures forall f :: f in found <==> f in dir && EndsWith(f.name, LookupSuffix)
    ensures forall f :: multiset(found)[f] == if EndsWith(f.name, LookupSuffix) then multiset(dir)[f] else 0
  {
    forall f ensures f in Filter(dir, IsLookupFile) <==> f in dir && IsLookupFile(f) {
      FilterMembership(dir, IsLookupFile, f);
    }
    forall f ensures multiset(Filter(dir, IsLookupFile))[f] == if IsLookupFile(f) then multiset(dir)[f] else 0 {
      FilterMultiset(dir, IsLookupFile, f);
    }
    Filter(dir, IsLookupFile)
  }

  /** `other_files`: the discovered files minus the base file and any earlier output. */
  function OtherFiles(found: seq<File>): (others: seq<File>)
    ensures forall f :: f in others <==> f in found && f.name != BaseName && !StartsWith(f.name, OutputPrefix)
    ensures forall f :: multiset(others)[f] == if IsOtherFile(f) then multiset(found)[f] else 0
    ensures SubseqWith(others, found, Identical)
  {
    forall f ensures f in Filter(found, IsOtherFile) <==> f in found && IsOtherFile(f) {
      FilterMembership(found, IsOtherFile, f);
    }
    forall f ensures multiset(Filter(found, IsOtherFile))[f] == if IsOtherFile(f) then multiset(found)[f] else 0 {
      FilterMultiset(found, IsOtherFile, f);
    }
    FilterIsSubseq(found, IsOtherFile);
    Filter(found, IsOtherFile)
  }

  /** The parsed contents of a list of files, in order. */
  function Contents(files: seq<File>): (docs: seq<Option<Document>>)
    ensures |docs| == |files|
    ensures forall i :: 0 <= i < |files| ==> docs[i] == files[i].content
  {
    if |files| == 0 then [] else Contents(files[..|files| - 1]) + [files[|files| - 1].content]
  }

  /** The first file of the directory with the given name. */
  function FindFile(dir: seq<File>, name: string): (r: Option<File>)
    ensures r.Some? <==> exists f :: f in dir && f.name == name
    ensures r.Some? ==> r.value in dir && r.value.name == name
  {
    if |dir| == 0 then None
    else if dir[0].name == name then Some(dir[0])
    else (assert forall f :: f in dir && f != dir[0] ==> f in dir[1..]; FindFile(dir[1..], name))
  }

  /** The ways a run ends without writing anything. */
  datatype Error =
    | BaseMissing          // em.py:32-34
    | NoLookupFiles        // em.py:38-40
    | BaseUnparseable      // em.py:78: the exception of `json.load` on the base file

  /** The two early returns of em.py:31-40, in their order. */
  function ConfigError(dir: seq<File>): (r: Option<Error>)
    ensures r == Some(BaseMissing) <==> forall f :: f in dir ==> f.name != BaseName
    ensures r == Some(NoLookupFiles) <==>
      (exists f :: f in dir && f.name == BaseName) && forall f :: f in dir ==> !EndsWith(f.name, LookupSuffix)
    ensures r.None? <==>
      (exists f :: f in dir && f.name == BaseName) && exists f :: f in dir && EndsWith(f.name, LookupSuffix)
    ensures r != Some(BaseUnparseable)
  {
    if FindFile(dir, BaseName).None? then Some(BaseMissing)
    else if |Discover(dir)| == 0 then Some(NoLookupFiles)
    else None
  }

  /** What a completed run produces: the document written to `outputName` and every number the
      run prints (em.py:42, 47, 74-75 and 143-146). */
  datatype Summary = Summary(
    output: Document,
    outputName: string,
    lookupFiles: nat,
    otherFiles: nat,
    otherEntries: nat,
    uniqueSignatures: nat,
    unitsBefore: nat, unitsAfter: nat,
    topicsBefore: nat, topicsAfter: nat,
    skillsBefore: nat, skillsAfter: nat,
    removed: nat)

  /** The signature set built from the other files of a directory. */
  function OtherSignatures(dir: seq<File>): set<Sig>
  {
    SignatureSet(Contents(OtherFiles(Discover(dir))))
  }

  /** `main()`. */
  method Run(dir: seq<File>) returns (r: Result<Summary, Error>)
    ensures ConfigError(dir).Some? ==> r == Failure(ConfigError(dir).value)
    ensures ConfigError(dir).None? && FindFile(dir, BaseName).value.content.None? ==> r == Failure(BaseUnparseable)
    ensures r.Success? <==> ConfigError(dir).None? && FindFile(dir, BaseName).value.content.Some?
    ensures r.Success? ==>
      var base := FindFile(dir, BaseName).value.content.value.units;
      var seen := OtherSignatures(dir);
      var s := r.value;
      && s.output == Document(KeptUnits(base, seen), [])
      && s.outputName == OutputName
      && s.lookupFiles == |Discover(dir)| && s.otherFiles == |OtherFiles(Discover(dir))|
      && s.uniqueSignatures == |seen|
      && s.otherEntries == EntryCount(Contents(OtherFiles(Discover(dir))))
      && s.unitsBefore == |base| && s.topicsBefore == TopicCount(base) && s.skillsBefore == SkillCount(base)
      && s.removed == DuplicateCount(UnitEntries(base), seen)
      && s.unitsAfter == |s.output.units| && s.topicsAfter == TopicCount(s.output.units)
      && s.skillsAfter == SkillCount(s.output.units)
      // the relations between the printed numbers
      && s.removed + s.skillsAfter == s.skillsBefore
      && s.unitsAfter <= s.unitsBefore && s.topicsAfter <= s.topicsBefore
      && s.uniqueSignatures <= s.otherEntries
      && s.otherFiles < s.lookupFiles
      && s.unitsAfter <= s.topicsAfter <= s.skillsAfter
  {
    var err := ConfigError(dir);
    if err.Some? {
      return Failure(err.value);
    }
    var allFiles := Discover(dir);
    var otherFiles := OtherFiles(allFiles);
    var seen, otherEntryCount := CollectSignatures(Contents(otherFiles));
    var base := FindFile(dir, BaseName).value;
    if base.content.None? {
      return Failure(BaseUnparseable);
    }
    var baseUnits := base.content.value.units;
    var newUnits, removed, topicsBefore, skillsBefore := FilterUnits(baseUnits, seen);
    var newData := Document(newUnits, []);
    Conservation(baseUnits, seen);
    KeptUnitsNonEmpty(baseUnits, seen);
    BaseNotOther(dir);
    r := Success(Summary(
      newData, OutputName, |allFiles|, |otherFiles|, otherEntryCount, |seen|,
      |baseUnits|, |newUnits|,
      topicsBefore, TopicCount(newUnits),
      skillsBefore, SkillCount(newUnits),
      removed));
  }

  // ----- Properties of the run -----

  /** The base file's name matches the glob, so once it exists the "no files found" return
      cannot be taken (names compared exactly, as on a case-sensitive file system). */
  lemma NoLookupFilesUnreachable(dir: seq<File>)
    ensures ConfigError(dir) != Some(NoLookupFiles)
  {
  }

  /** Once the base file exists it is discovered but is not an other file, so fewer files
      are used for deduping than were found (em.py:42 against em.py:47). */
  lemma BaseNotOther(dir: seq<File>)
    requires exists f :: f in dir && f.name == BaseName
    ensures |OtherFiles(Discover(dir))| < |Discover(dir)|
  {
    var f :| f in dir && f.name == BaseName;
    assert EndsWith(f.name, LookupSuffix);
    FilterShorter(Discover(dir), IsOtherFile, f);
  }

  /** Writing the output into the directory does not change the other files of the next run:
      the output's name starts with the output prefix. */
  lemma RerunIgnoresOutput(dir: seq<File>, content: Option<Document>)
    ensures OtherFiles(Discover(dir + [File(OutputName, content)])) == OtherFiles(Discover(dir))
    ensures OtherSignatures(dir + [File(OutputName, content)]) == OtherSignatures(dir)
  {
    var out := File(OutputName, content);
    assert StartsWith(OutputName, OutputPrefix);
    assert EndsWith(OutputName, LookupSuffix);
    FilterConcat(dir, [out], IsLookupFile);
    var single: seq<File> := [out];
    assert single[..0] == [];
    FilterConcat(Discover(dir), [out], IsOtherFile);
    assert Filter(single, IsOtherFile) == Filter(single[..0], IsOtherFile) + [];
  }

  /** A worked example: the base file has unit U1, topic T1, skills S1 and S2; another file has
      U1/T1/S1. The output keeps U1/T1 with S2 only, and one skill is removed. */
  lemma OneDuplicateRemoved()
    ensures
      var s1, s2 := Skill(Some("S1"), []), Skill(Some("S2"), []);
      var base := [Unit(Some("U1"), [Topic(Some("T1"), [s1, s2], [])], [])];
      var other := Document([Unit(Some("U1"), [Topic(Some("T1"), [s1], [])], [])], []);
      var seen := SignatureSet([Some(other)]);
      && seen == {Sig(Some("U1"), Some("T1"), Some("S1"))}
      && KeptUnits(base, seen) == [Unit(Some("U1"), [Topic(Some("T1"), [s2], [])], [])]
      && DuplicateCount(UnitEntries(base), seen) == 1
  {
    var s1, s2 := Skill(Some("S1"), []), Skill(Some("S2"), []);
    var t := Topic(Some("T1"), [s1, s2], []);
    var base := [Unit(Some("U1"), [t], [])];
    var otherTopic := Topic(Some("T1"), [s1], []);
    var other := Document([Unit(Some("U1"), [otherTopic], [])], []);
    var sig1 := Sig(Some("U1"), Some("T1"), Some("S1"));
    var e1 := Entry(sig1, s1);
    var docs := [Some(other)];
    assert docs[..0] == [];
    assert [otherTopic][..0] == [];
    assert other.units[..0] == [];
    assert [s1][..0] == [];
    assert SkillEntries(Some("U1"), Some("T1"), [s1]) == [e1];
    assert TopicEntries(Some("U1"), [otherTopic]) == [e1];
    assert UnitEntries(other.units) == [e1];
    assert OtherEntries(docs) == [] + DocEntries(Some(other));
    assert OtherEntries(docs) == [e1];
    assert [e1][..0] == [];
    assert SeenAfter([e1]) == {sig1};
    assert SignatureSet(docs) == {sig1};
    var seen := {sig1};
    assert [s1, s2][..1] == [s1];
    assert [s1, s2][..1][..0] == [];
    assert Sig(Some("U1"), Some("T1"), Some("S2")) !in seen;
    assert KeptSkills(Some("U1"), Some("T1"), [s1, s2], seen) == [s2];
    assert [t][..0] == [];
    assert base[..0] == [];
    assert KeptTopics(Some("U1"), [t], seen) == [t.(skills := [s2])];
    assert KeptUnits(base, seen) == [base[0].(topics := [t.(skills := [s2])])];
    var es := SkillEntries(Some("U1"), Some("T1"), [s1, s2]);
    assert UnitEntries(base) == es;
    assert es[..1] == SkillEntries(Some("U1"), Some("T1"), [s1]) == [e1];
    assert [e1][..0] == [];
    assert DuplicateCount([e1], seen) == 1;
    assert es[1].sig !in seen;
    assert DuplicateCount(es, seen) == 1;
  }

  /** With no other file the signature set is empty, yet a topic without skills is still
      dropped, and with it a unit whose only topic it was: the output equals the input's units
      only when the input has no empty topic or unit (see `EmptySetRemovesNothing`). */
  lemma NoOtherFilesStillDropsEmptyTopics()
    ensures
      var base := [Unit(Some("U1"), [Topic(Some("T1"), [], [])], [])];
      var dir := [File(BaseName, Some(Document(base, [])))];
      && OtherSignatures(dir) == {}
      && KeptUnits(base, OtherSignatures(dir)) == []
  {
    var t := Topic(Some("T1"), [], []);
    var base := [Unit(Some("U1"), [t], [])];
    var dir := [File(BaseName, Some(Document(base, [])))];
    assert dir[..0] == [];
    assert EndsWith(BaseName, LookupSuffix);
    assert Discover(dir) == dir;
    assert OtherFiles(dir) == [];
    assert OtherSignatures(dir) == {};
    assert [t][..0] == [];
    assert KeptTopics(Some("U1"), [t], {}) == [];
    assert base[..0] == [];
  }
}
