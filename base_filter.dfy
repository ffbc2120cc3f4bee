/** Filtering of the base document against the collected signatures (em.py:79-120): a skill
    is dropped when its triple is in the set, a topic left without skills is dropped, and a
    unit left without topics is dropped. Everything else on a kept unit or topic is copied;
    only its `topics` or `skills` list is replaced. */
module BaseFilter {
  import opened Wrappers
  import opened Seqs
  import opened TopicLookup

  // ----- Specification -----

  /** The skills of a topic (unit code `u`, topic code `t`) whose triple is not in `seen`. */
  function KeptSkills(u: Option<string>, t: Option<string>, skills: seq<Skill>, seen: set<Sig>): (r: seq<Skill>)
    ensures |r| <= |skills|
  {
    if |skills| == 0 then []
    else
      var last := skills[|skills| - 1];
      KeptSkills(u, t, skills[..|skills| - 1], seen)
        + (if Sig(u, t, last.skillCd) in seen then [] else [last])
  }

  /** The topics of a unit coded `u` that keep at least one skill, each with its kept skills. */
  function KeptTopics(u: Option<string>, topics: seq<Topic>, seen: set<Sig>): (r: seq<Topic>)
    ensures |r| <= |topics|
  {
    if |topics| == 0 then []
    else
      var last := topics[|topics| - 1];
      var skills := KeptSkills(u, last.topicCd, last.skills, seen);
      KeptTopics(u, topics[..|topics| - 1], seen)
        + (if |skills| > 0 then [last.(skills := skills)] else [])
  }

  /** The units that keep at least one topic, each with its kept topics. */
  function KeptUnits(units: seq<Unit>, seen: set<Sig>): (r: seq<Unit>)
    ensures |r| <= |units|
  {
    if |units| == 0 then []
    else
      var last := units[|units| - 1];
      var topics := KeptTopics(last.unitCd, last.topics, seen);
      KeptUnits(units[..|units| - 1], seen)
        + (if |topics| > 0 then [last.(topics := topics)] else [])
  }

  /** The skill occurrences whose triple is not in `seen`, in order. This is `Filter` with the
      predicate `e.sig !in seen`, written out because the predicate depends on `seen`; its
      complement is counted by `DuplicateCount` (`SurvivorsPartition`). */
  function Survivors(es: seq<Entry>, seen: set<Sig>): (r: seq<Entry>)
    ensures |r| <= |es|
  {
    if |es| == 0 then []
    else Survivors(es[..|es| - 1], seen) + (if es[|es| - 1].sig in seen then [] else [es[|es| - 1]])
  }

  /** The number of skill occurrences whose triple is in `seen` (`removed_skills`). */
  function DuplicateCount(es: seq<Entry>, seen: set<Sig>): (r: nat)
    ensures r <= |es|
  {
    if |es| == 0 then 0
    else DuplicateCount(es[..|es| - 1], seen) + (if es[|es| - 1].sig in seen then 1 else 0)
  }

  lemma SurvivorsSnoc(es: seq<Entry>, e: Entry, seen: set<Sig>)
    ensures Survivors(es + [e], seen) == Survivors(es, seen) + (if e.sig in seen then [] else [e])
    ensures DuplicateCount(es + [e], seen) == DuplicateCount(es, seen) + (if e.sig in seen then 1 else 0)
  {
  }

  lemma KeptSkillsSnoc(u: Option<string>, t: Option<string>, skills: seq<Skill>, x: Skill, seen: set<Sig>)
    ensures KeptSkills(u, t, skills + [x], seen)
         == KeptSkills(u, t, skills, seen) + (if Sig(u, t, x.skillCd) in seen then [] else [x])
  {
  }

  lemma KeptTopicsSnoc(u: Option<string>, topics: seq<Topic>, x: Topic, seen: set<Sig>)
    ensures var skills := KeptSkills(u, x.topicCd, x.skills, seen);
      KeptTopics(u, topics + [x], seen) == KeptTopics(u, topics, seen) + (if |skills| > 0 then [x.(skills := skills)] else [])
  {
  }

  lemma KeptUnitsSnoc(units: seq<Unit>, x: Unit, seen: set<Sig>)
    ensures var topics := KeptTopics(x.unitCd, x.topics, seen);
      KeptUnits(units + [x], seen) == KeptUnits(units, seen) + (if |topics| > 0 then [x.(topics := topics)] else [])
  {
  }

  /** One step of the loop over the skills of a topic: with the accumulators equal to the
      specification over `skills[..l]`, removing or keeping `skills[l]` makes them equal to it
      over `skills[..l + 1]`. */
  lemma FilterSkillsStep(u: Option<string>, t: Option<string>, skills: seq<Skill>, l: nat, seen: set<Sig>,
                         removed0: nat, newSkills: seq<Skill>, removed: nat)
    requires l < |skills|
    requires newSkills == KeptSkills(u, t, skills[..l], seen)
    requires removed == removed0 + DuplicateCount(SkillEntries(u, t, skills[..l]), seen)
    ensures
      if Sig(u, t, skills[l].skillCd) in seen then
        && newSkills == KeptSkills(u, t, skills[..l + 1], seen)
        && removed + 1 == removed0 + DuplicateCount(SkillEntries(u, t, skills[..l + 1]), seen)
      else
        && newSkills + [skills[l]] == KeptSkills(u, t, skills[..l + 1], seen)
        && removed == removed0 + DuplicateCount(SkillEntries(u, t, skills[..l + 1]), seen)
  {
    assert skills[..l + 1] == skills[..l] + [skills[l]];
    SkillEntriesSnoc(u, t, skills[..l], skills[l]);
    SurvivorsSnoc(SkillEntries(u, t, skills[..l]), Entry(Sig(u, t, skills[l].skillCd), skills[l]), seen);
    KeptSkillsSnoc(u, t, skills[..l], skills[l], seen);
  }

  /** One step of the loop over the topics of a unit: the accumulators were the specification
      over `topics[..k]` and have since taken in topic `k`'s skills; with the topic appended
      when it keeps a skill, they are the specification over `topics[..k + 1]`. */
  lemma FilterTopicsStep(u: Option<string>, topics: seq<Topic>, k: nat, seen: set<Sig>,
                         removed0: nat, skills0: nat, newTopics: seq<Topic>, removedBefore: nat, skillsBefore: nat,
                         newSkills: seq<Skill>, removed: nat, skillsCount: nat)
    requires k < |topics|
    requires newTopics == KeptTopics(u, topics[..k], seen)
    requires removedBefore == removed0 + DuplicateCount(TopicEntries(u, topics[..k]), seen)
    requires skillsBefore == skills0 + TopicSkillCount(topics[..k])
    requires newSkills == KeptSkills(u, topics[k].topicCd, topics[k].skills, seen)
    requires removed == removedBefore + DuplicateCount(SkillEntries(u, topics[k].topicCd, topics[k].skills), seen)
    requires skillsCount == skillsBefore + |topics[k].skills|
    ensures removed == removed0 + DuplicateCount(TopicEntries(u, topics[..k + 1]), seen)
    ensures skillsCount == skills0 + TopicSkillCount(topics[..k + 1])
    ensures
      if |newSkills| > 0 then newTopics + [topics[k].(skills := newSkills)] == KeptTopics(u, topics[..k + 1], seen)
      else newTopics == KeptTopics(u, topics[..k + 1], seen)
  {
    assert topics[..k + 1] == topics[..k] + [topics[k]];
    TopicEntriesSnoc(u, topics[..k], topics[k]);
    SurvivorsConcat(TopicEntries(u, topics[..k]), SkillEntries(u, topics[k].topicCd, topics[k].skills), seen);
    KeptTopicsSnoc(u, topics[..k], topics[k], seen);
    TopicSkillCountSnoc(topics[..k], topics[k]);
  }

  /** One step of the loop over the units, as for topics. */
  lemma FilterUnitsStep(units: seq<Unit>, i: nat, seen: set<Sig>,
                        newUnits: seq<Unit>, removedBefore: nat, topicsBefore: nat, skillsBefore: nat,
                        newTopics: seq<Topic>, removed: nat, topicsCount: nat, skillsCount: nat)
    requires i < |units|
    requires newUnits == KeptUnits(units[..i], seen)
    requires removedBefore == DuplicateCount(UnitEntries(units[..i]), seen)
    requires topicsBefore == TopicCount(units[..i])
    requires skillsBefore == SkillCount(units[..i])
    requires newTopics == KeptTopics(units[i].unitCd, units[i].topics, seen)
    requires removed == removedBefore + DuplicateCount(TopicEntries(units[i].unitCd, units[i].topics), seen)
    requires topicsCount == topicsBefore + |units[i].topics|
    requires skillsCount == skillsBefore + TopicSkillCount(units[i].topics)
    ensures removed == DuplicateCount(UnitEntries(units[..i + 1]), seen)
    ensures topicsCount == TopicCount(units[..i + 1])
    ensures skillsCount == SkillCount(units[..i + 1])
    ensures
      if |newTopics| > 0 then newUnits + [units[i].(topics := newTopics)] == KeptUnits(units[..i + 1], seen)
      else newUnits == KeptUnits(units[..i + 1], seen)
  {
    assert units[..i + 1] == units[..i] + [units[i]];
    UnitEntriesSnoc(units[..i], units[i]);
    SurvivorsConcat(UnitEntries(units[..i]), TopicEntries(units[i].unitCd, units[i].topics), seen);
    KeptUnitsSnoc(units[..i], units[i], seen);
    CountsSnoc(units[..i], units[i]);
  }

  // ----- The loops of em.py:89-120 -----

  /** The innermost loop of em.py:100-108 over the skills of one topic (unit code `uCd`, topic
      code `tCd`): it returns the kept skills and adds the removed ones to `removed0`. */
  method FilterSkills(uCd: Option<string>, tCd: Option<string>, skills: seq<Skill>, seen: set<Sig>, removed0: nat)
    returns (newSkills: seq<Skill>, removed: nat)
    ensures newSkills == KeptSkills(uCd, tCd, skills, seen)
    ensures removed == removed0 + DuplicateCount(SkillEntries(uCd, tCd, skills), seen)
  {
    newSkills, removed := [], removed0;
    for l := 0 to |skills|
      invariant newSkills == KeptSkills(uCd, tCd, skills[..l], seen)
      invariant removed == removed0 + DuplicateCount(SkillEntries(uCd, tCd, skills[..l]), seen)
    {
      var sig := Sig(uCd, tCd, skills[l].skillCd);
      FilterSkillsStep(uCd, tCd, skills, l, seen, removed0, newSkills, removed);
      if sig in seen {
        removed := removed + 1;
      } else {
        newSkills := newSkills + [skills[l]];
      }
    }
    assert skills[..|skills|] == skills;
  }

  /** The loop of em.py:95-114 over the topics of one unit coded `uCd`: it returns the kept
      topics, adds the removed skills to `removed0` and the skills seen to `skills0`
      (`original_skills_count`). */
  method FilterTopics(uCd: Option<string>, topics: seq<Topic>, seen: set<Sig>, removed0: nat, skills0: nat)
    returns (newTopics: seq<Topic>, removed: nat, skillsCount: nat)
    ensures newTopics == KeptTopics(uCd, topics, seen)
    ensures removed == removed0 + DuplicateCount(TopicEntries(uCd, topics), seen)
    ensures skillsCount == skills0 + TopicSkillCount(topics)
  {
    newTopics, removed, skillsCount := [], removed0, skills0;
    for k := 0 to |topics|
      invariant newTopics == KeptTopics(uCd, topics[..k], seen)
      invariant removed == removed0 + DuplicateCount(TopicEntries(uCd, topics[..k]), seen)
      invariant skillsCount == skills0 + TopicSkillCount(topics[..k])
    {
      ghost var removedBefore, skillsBefore := removed, skillsCount;
      var tCd := topics[k].topicCd;
      var skills := topics[k].skills;
      skillsCount := skillsCount + |skills|;
      var newSkills;
      newSkills, removed := FilterSkills(uCd, tCd, skills, seen, removed);
      FilterTopicsStep(uCd, topics, k, seen, removed0, skills0, newTopics, removedBefore, skillsBefore,
                       newSkills, removed, skillsCount);
      if |newSkills| > 0 {
        var topicCopy := topics[k].(skills := newSkills);
        newTopics := newTopics + [topicCopy];
      }
    }
    assert topics[..|topics|] == topics;
  }

  /** The loop of em.py:81-120 over the units of the base document. It returns the kept units,
      `removed_skills`, `original_topics_count` and `original_skills_count`. */
  method FilterUnits(units: seq<Unit>, seen: set<Sig>)
    returns (newUnits: seq<Unit>, removed: nat, topicsCount: nat, skillsCount: nat)
    ensures newUnits == KeptUnits(units, seen)
    ensures removed == DuplicateCount(UnitEntries(units), seen)
    ensures topicsCount == TopicCount(units)
    ensures skillsCount == SkillCount(units)
  {
    newUnits, removed, topicsCount, skillsCount := [], 0, 0, 0;
    for i := 0 to |units|
      invariant newUnits == KeptUnits(units[..i], seen)
      invariant removed == DuplicateCount(UnitEntries(units[..i]), seen)
      invariant topicsCount == TopicCount(units[..i])
      invariant skillsCount == SkillCount(units[..i])
    {
      ghost var removedBefore, topicsBefore, skillsBefore := removed, topicsCount, skillsCount;
      var uCd := units[i].unitCd;
      var topics := units[i].topics;
      topicsCount := topicsCount + |topics|;
      var newTopics;
      newTopics, removed, skillsCount := FilterTopics(uCd, topics, seen, removed, skillsCount);
      FilterUnitsStep(units, i, seen, newUnits, removedBefore, topicsBefore, skillsBefore,
                      newTopics, removed, topicsCount, skillsCount);
      if |newTopics| > 0 {
        var unitCopy := units[i].(topics := newTopics);
        newUnits := newUnits + [unitCopy];
      }
    }
    assert units[..|units|] == units;
  }

  // ----- Properties -----

  lemma {:induction false} SurvivorsConcat(a: seq<Entry>, b: seq<Entry>, seen: set<Sig>)
    ensures Survivors(a + b, seen) == Survivors(a, seen) + Survivors(b, seen)
    ensures DuplicateCount(a + b, seen) == DuplicateCount(a, seen) + DuplicateCount(b, seen)
  {
    if |b| == 0 {
      assert a + b == a;
    } else {
      var b', last := b[..|b| - 1], b[|b| - 1];
      assert a + b == (a + b') + [last];
      assert b == b' + [last];
      SurvivorsConcat(a, b', seen);
      SurvivorsSnoc(a + b', last, seen);
      SurvivorsSnoc(b', last, seen);
    }
  }

  /** An occurrence survives exactly when it occurs and its triple is not in `seen`. */
  lemma {:induction false} SurvivorsMembership(es: seq<Entry>, seen: set<Sig>, e: Entry)
    ensures e in Survivors(es, seen) <==> e in es && e.sig !in seen
  {
    if |es| > 0 {
      SurvivorsMembership(es[..|es| - 1], seen, e);
      assert es == es[..|es| - 1] + [es[|es| - 1]];
    }
  }

  /** Each occurrence is either removed or survives. */
  lemma {:induction false} SurvivorsPartition(es: seq<Entry>, seen: set<Sig>)
    ensures DuplicateCount(es, seen) + |Survivors(es, seen)| == |es|
  {
    if |es| > 0 {
      SurvivorsPartition(es[..|es| - 1], seen);
    }
  }

  /** No occurrence of a list is removed exactly when none of its triples is in `seen`. */
  lemma {:induction false} SurvivorsAll(es: seq<Entry>, seen: set<Sig>)
    ensures Survivors(es, seen) == es <==> forall i :: 0 <= i < |es| ==> es[i].sig !in seen
    ensures DuplicateCount(es, seen) == 0 <==> forall i :: 0 <= i < |es| ==> es[i].sig !in seen
  {
    SurvivorsPartition(es, seen);
    if |es| > 0 {
      var es' := es[..|es| - 1];
      SurvivorsAll(es', seen);
      if forall i :: 0 <= i < |es| ==> es[i].sig !in seen {
        assert forall i :: 0 <= i < |es'| ==> es'[i].sig !in seen by {
          forall i | 0 <= i < |es'| ensures es'[i].sig !in seen { assert es'[i] == es[i]; }
        }
      } else {
        var i :| 0 <= i < |es| && es[i].sig in seen;
        if i < |es| - 1 {
          assert es'[i] == es[i];
        }
      }
    }
  }

  lemma {:induction false} KeptSkillsEntries(u: Option<string>, t: Option<string>, skills: seq<Skill>, seen: set<Sig>)
    ensures SkillEntries(u, t, KeptSkills(u, t, skills, seen)) == Survivors(SkillEntries(u, t, skills), seen)
  {
    if |skills| > 0 {
      var skills', last := skills[..|skills| - 1], skills[|skills| - 1];
      KeptSkillsEntries(u, t, skills', seen);
      SurvivorsSnoc(SkillEntries(u, t, skills'), Entry(Sig(u, t, last.skillCd), last), seen);
      if Sig(u, t, last.skillCd) !in seen {
        SkillEntriesSnoc(u, t, KeptSkills(u, t, skills', seen), last);
      } else {
        var kept' := KeptSkills(u, t, skills', seen);
        assert KeptSkills(u, t, skills, seen) == kept' + [] == kept';
        var surv' := Survivors(SkillEntries(u, t, skills'), seen);
        assert surv' + [] == surv';
      }
    }
  }

  lemma {:induction false} KeptTopicsEntries(u: Option<string>, topics: seq<Topic>, seen: set<Sig>)
    ensures TopicEntries(u, KeptTopics(u, topics, seen)) == Survivors(TopicEntries(u, topics), seen)
  {
    if |topics| > 0 {
      var topics', last := topics[..|topics| - 1], topics[|topics| - 1];
      var skills := KeptSkills(u, last.topicCd, last.skills, seen);
      KeptTopicsEntries(u, topics', seen);
      KeptSkillsEntries(u, last.topicCd, last.skills, seen);
      SurvivorsConcat(TopicEntries(u, topics'), SkillEntries(u, last.topicCd, last.skills), seen);
      if |skills| > 0 {
        TopicEntriesSnoc(u, KeptTopics(u, topics', seen), last.(skills := skills));
      } else {
        var kept' := KeptTopics(u, topics', seen);
        assert KeptTopics(u, topics, seen) == kept' + [] == kept';
        assert SkillEntries(u, last.topicCd, skills) == [];
        var surv' := Survivors(TopicEntries(u, topics'), seen);
        assert surv' + [] == surv';
      }
    }
  }

  /** The skill occurrences of the filtered units are exactly the surviving occurrences of the
      input, in order: no skill is lost, moved or changed except those whose triple is in the set. */
  lemma {:induction false} KeptUnitsEntries(units: seq<Unit>, seen: set<Sig>)
    ensures UnitEntries(KeptUnits(units, seen)) == Survivors(UnitEntries(units), seen)
  {
    if |units| > 0 {
      var units', last := units[..|units| - 1], units[|units| - 1];
      var topics := KeptTopics(last.unitCd, last.topics, seen);
      KeptUnitsEntries(units', seen);
      KeptTopicsEntries(last.unitCd, last.topics, seen);
      SurvivorsConcat(UnitEntries(units'), TopicEntries(last.unitCd, last.topics), seen);
      if |topics| > 0 {
        UnitEntriesSnoc(KeptUnits(units', seen), last.(topics := topics));
      } else {
        var kept' := KeptUnits(units', seen);
        assert KeptUnits(units, seen) == kept' + [] == kept';
        assert TopicEntries(last.unitCd, topics) == [];
        var surv' := Survivors(UnitEntries(units'), seen);
        assert surv' + [] == surv';
      }
    }
  }

  /** A skill occurrence is in the output exactly when it is in the input and its triple is not
      in the set: no output skill is a duplicate, and every non-duplicate is kept. */
  lemma KeptMembership(units: seq<Unit>, seen: set<Sig>, e: Entry)
    ensures e in UnitEntries(KeptUnits(units, seen)) <==> e in UnitEntries(units) && e.sig !in seen
  {
    KeptUnitsEntries(units, seen);
    SurvivorsMembership(UnitEntries(units), seen, e);
  }

  /** When the set holds only triples with three truthy codes, a skill whose unit, topic or skill
      code is missing or empty is always kept. */
  lemma InvalidAlwaysKept(units: seq<Unit>, seen: set<Sig>, e: Entry)
    requires forall s :: s in seen ==> ValidSig(s)
    requires e in UnitEntries(units) && !ValidSig(e.sig)
    ensures e in UnitEntries(KeptUnits(units, seen))
  {
    KeptMembership(units, seen, e);
  }

  /** Conservation: the removed skills and the remaining skills add up to the original skills,
      and there are no more units or topics than before. */
  lemma Conservation(units: seq<Unit>, seen: set<Sig>)
    ensures DuplicateCount(UnitEntries(units), seen) + SkillCount(KeptUnits(units, seen)) == SkillCount(units)
    ensures |KeptUnits(units, seen)| <= |units|
    ensures TopicCount(KeptUnits(units, seen)) <= TopicCount(units)
  {
    KeptUnitsEntries(units, seen);
    SurvivorsPartition(UnitEntries(units), seen);
    SkillCountIsEntries(units);
    SkillCountIsEntries(KeptUnits(units, seen));
    KeptTopicCount(units, seen);
  }

  lemma {:induction false} KeptTopicCount(units: seq<Unit>, seen: set<Sig>)
    ensures TopicCount(KeptUnits(units, seen)) <= TopicCount(units)
  {
    if |units| > 0 {
      var units', last := units[..|units| - 1], units[|units| - 1];
      var topics := KeptTopics(last.unitCd, last.topics, seen);
      KeptTopicCount(units', seen);
      var r' := KeptUnits(units', seen);
      if |topics| > 0 {
        assert (r' + [last.(topics := topics)])[..|r'|] == r';
      } else {
        assert KeptUnits(units, seen) == r' + [] == r';
      }
    }
  }

  /** Every unit has at least one topic and every topic at least one skill. */
  ghost predicate NoEmptyLevels(units: seq<Unit>) {
    forall j :: 0 <= j < |units| ==> |units[j].topics| > 0 && NoEmptyTopics(units[j].topics)
  }

  ghost predicate NoEmptyTopics(topics: seq<Topic>) {
    forall k :: 0 <= k < |topics| ==> |topics[k].skills| > 0
  }

  lemma {:induction false} KeptTopicsNonEmpty(u: Option<string>, topics: seq<Topic>, seen: set<Sig>)
    ensures NoEmptyTopics(KeptTopics(u, topics, seen))
  {
    if |topics| > 0 {
      KeptTopicsNonEmpty(u, topics[..|topics| - 1], seen);
    }
  }

  /** Every output unit has a non-empty topic list and every output topic a non-empty skill list. */
  lemma {:induction false} KeptUnitsNonEmpty(units: seq<Unit>, seen: set<Sig>)
    ensures NoEmptyLevels(KeptUnits(units, seen))
  {
    if |units| > 0 {
      var last := units[|units| - 1];
      KeptUnitsNonEmpty(units[..|units| - 1], seen);
      KeptTopicsNonEmpty(last.unitCd, last.topics, seen);
    }
  }

  /** A topic is dropped exactly when every one of its skills (possibly none) has its triple in
      the set. */
  lemma TopicDroppedIff(u: Option<string>, t: Topic, seen: set<Sig>)
    ensures KeptTopics(u, [t], seen) == [] <==>
      forall l :: 0 <= l < |t.skills| ==> Sig(u, t.topicCd, t.skills[l].skillCd) in seen
  {
    var es := SkillEntries(u, t.topicCd, t.skills);
    KeptSkillsEntries(u, t.topicCd, t.skills, seen);
    SurvivorsPartition(es, seen);
    SurvivorsAll(es, seen);
    var xs: seq<Topic> := [t];
    assert xs[..0] == [];
    forall l | 0 <= l < |t.skills| ensures es[l].sig == Sig(u, t.topicCd, t.skills[l].skillCd) {
      SkillEntriesAt(u, t.topicCd, t.skills, l);
    }
    if KeptTopics(u, [t], seen) == [] {
      assert |KeptSkills(u, t.topicCd, t.skills, seen)| == 0;
      assert DuplicateCount(es, seen) == |es|;
      DuplicatesAll(es, seen);
    } else if |es| > 0 {
      DuplicatesAll(es, seen);
    }
  }

  /** A unit is dropped exactly when every skill occurrence of its topics (possibly none) has
      its triple in the set. */
  lemma UnitDroppedIff(u: Unit, seen: set<Sig>)
    ensures KeptUnits([u], seen) == [] <==>
      forall e :: e in TopicEntries(u.unitCd, u.topics) ==> e.sig in seen
  {
    var es := TopicEntries(u.unitCd, u.topics);
    var kept := KeptTopics(u.unitCd, u.topics, seen);
    var xs: seq<Unit> := [u];
    assert xs[..0] == [];
    assert KeptUnits([u], seen) == [] <==> |kept| == 0;
    KeptTopicsEntries(u.unitCd, u.topics, seen);
    KeptTopicsNonEmpty(u.unitCd, u.topics, seen);
    TopicSkillCountIsEntries(u.unitCd, kept);
    assert |kept| == 0 <==> |Survivors(es, seen)| == 0;
    forall e | e in es {
      SurvivorsMembership(es, seen, e);
    }
    if |Survivors(es, seen)| > 0 {
      SurvivorsMembership(es, seen, Survivors(es, seen)[0]);
    }
  }

  /** All occurrences are removed exactly when all triples are in the set. */
  lemma {:induction false} DuplicatesAll(es: seq<Entry>, seen: set<Sig>)
    ensures DuplicateCount(es, seen) == |es| <==> forall i :: 0 <= i < |es| ==> es[i].sig in seen
  {
    if |es| > 0 {
      var es' := es[..|es| - 1];
      DuplicatesAll(es', seen);
      assert DuplicateCount(es', seen) <= |es'| by { SurvivorsPartition(es', seen); }
      if forall i :: 0 <= i < |es| ==> es[i].sig in seen {
        forall i | 0 <= i < |es'| ensures es'[i].sig in seen { assert es'[i] == es[i]; }
      } else {
        var i :| 0 <= i < |es| && es[i].sig !in seen;
        if i < |es| - 1 {
          assert es'[i] == es[i];
        }
      }
    }
  }

  /** A kept topic is its input topic with only `skills` replaced, by an order-preserving
      subsequence of the original skills. */
  ghost predicate TopicKept(kept: Topic, original: Topic) {
    kept == original.(skills := kept.skills) && SubseqWith(kept.skills, original.skills, Identical)
  }

  /** A kept unit is its input unit with only `topics` replaced, by an order-preserving
      subsequence of kept topics. */
  ghost predicate UnitKept(kept: Unit, original: Unit) {
    kept == original.(topics := kept.topics) && SubseqWith(kept.topics, original.topics, TopicKept)
  }

  lemma {:induction false} KeptSkillsSubseq(u: Option<string>, t: Option<string>, skills: seq<Skill>, seen: set<Sig>)
    ensures SubseqWith(KeptSkills(u, t, skills, seen), skills, Identical)
  {
    if |skills| > 0 {
      var skills', last := skills[..|skills| - 1], skills[|skills| - 1];
      var r, r' := KeptSkills(u, t, skills, seen), KeptSkills(u, t, skills', seen);
      KeptSkillsSubseq(u, t, skills', seen);
      if Sig(u, t, last.skillCd) in seen {
        assert r == r' + [] == r';
      } else {
        assert r[..|r| - 1] == r';
        assert Identical(r[|r| - 1], last);
      }
    }
  }

  lemma {:induction false} KeptTopicsSubseq(u: Option<string>, topics: seq<Topic>, seen: set<Sig>)
    ensures SubseqWith(KeptTopics(u, topics, seen), topics, TopicKept)
  {
    if |topics| > 0 {
      var topics', last := topics[..|topics| - 1], topics[|topics| - 1];
      var r, r' := KeptTopics(u, topics, seen), KeptTopics(u, topics', seen);
      var skills := KeptSkills(u, last.topicCd, last.skills, seen);
      KeptTopicsSubseq(u, topics', seen);
      if |skills| > 0 {
        assert r[..|r| - 1] == r';
        KeptSkillsSubseq(u, last.topicCd, last.skills, seen);
        assert TopicKept(r[|r| - 1], last);
      } else {
        assert r == r' + [] == r';
      }
    }
  }

  /** The output units are an order-preserving subsequence of the input units; each equals its
      input unit except for `topics`, whose elements are an order-preserving subsequence of the
      input topics, each equal to its input topic except for `skills`, an order-preserving
      subsequence of the input skills copied unchanged. */
  lemma {:induction false} KeptUnitsSubseq(units: seq<Unit>, seen: set<Sig>)
    ensures SubseqWith(KeptUnits(units, seen), units, UnitKept)
  {
    if |units| > 0 {
      var units', last := units[..|units| - 1], units[|units| - 1];
      var r, r' := KeptUnits(units, seen), KeptUnits(units', seen);
      var topics := KeptTopics(last.unitCd, last.topics, seen);
      KeptUnitsSubseq(units', seen);
      if |topics| > 0 {
        assert r[..|r| - 1] == r';
        KeptTopicsSubseq(last.unitCd, last.topics, seen);
        assert UnitKept(r[|r| - 1], last);
      } else {
        assert r == r' + [] == r';
      }
    }
  }

  lemma {:induction false} KeptSkillsIdempotent(u: Option<string>, t: Option<string>, skills: seq<Skill>, seen: set<Sig>)
    ensures KeptSkills(u, t, KeptSkills(u, t, skills, seen), seen) == KeptSkills(u, t, skills, seen)
  {
    if |skills| > 0 {
      var skills', last := skills[..|skills| - 1], skills[|skills| - 1];
      var r, r' := KeptSkills(u, t, skills, seen), KeptSkills(u, t, skills', seen);
      KeptSkillsIdempotent(u, t, skills', seen);
      if Sig(u, t, last.skillCd) in seen {
        assert r == r' + [] == r';
      } else {
        assert r[..|r| - 1] == r';
      }
    }
  }

  lemma {:induction false} KeptTopicsIdempotent(u: Option<string>, topics: seq<Topic>, seen: set<Sig>)
    ensures KeptTopics(u, KeptTopics(u, topics, seen), seen) == KeptTopics(u, topics, seen)
  {
    if |topics| > 0 {
      var topics', last := topics[..|topics| - 1], topics[|topics| - 1];
      var r, r' := KeptTopics(u, topics, seen), KeptTopics(u, topics', seen);
      var skills := KeptSkills(u, last.topicCd, last.skills, seen);
      KeptTopicsIdempotent(u, topics', seen);
      if |skills| > 0 {
        assert r[..|r| - 1] == r';
        KeptSkillsIdempotent(u, last.topicCd, last.skills, seen);
        assert last.(skills := skills).(skills := skills) == last.(skills := skills);
      } else {
        assert r == r' + [] == r';
      }
    }
  }

  /** Idempotence: filtering the output again with the same set returns the same units. */
  lemma {:induction false} KeptUnitsIdempotent(units: seq<Unit>, seen: set<Sig>)
    ensures KeptUnits(KeptUnits(units, seen), seen) == KeptUnits(units, seen)
  {
    if |units| > 0 {
      var units', last := units[..|units| - 1], units[|units| - 1];
      var r, r' := KeptUnits(units, seen), KeptUnits(units', seen);
      var topics := KeptTopics(last.unitCd, last.topics, seen);
      KeptUnitsIdempotent(units', seen);
      if |topics| > 0 {
        assert r[..|r| - 1] == r';
        KeptTopicsIdempotent(last.unitCd, last.topics, seen);
        assert last.(topics := topics).(topics := topics) == last.(topics := topics);
      } else {
        assert r == r' + [] == r';
      }
    }
  }

  /** No skill of the output has its triple in the set, so filtering it again removes nothing. */
  lemma KeptUnitsNoDuplicates(units: seq<Unit>, seen: set<Sig>)
    ensures DuplicateCount(UnitEntries(KeptUnits(units, seen)), seen) == 0
  {
    var es := UnitEntries(KeptUnits(units, seen));
    KeptUnitsEntries(units, seen);
    forall i | 0 <= i < |es| ensures es[i].sig !in seen {
      SurvivorsMembership(UnitEntries(units), seen, es[i]);
    }
    SurvivorsAll(es, seen);
  }

  /** With an empty set no skill is removed; the units come back unchanged exactly when none of
      their topics or units is empty to begin with. */
  lemma EmptySetRemovesNothing(units: seq<Unit>)
    ensures UnitEntries(KeptUnits(units, {})) == UnitEntries(units)
    ensures DuplicateCount(UnitEntries(units), {}) == 0
    ensures KeptUnits(units, {}) == units <==> NoEmptyLevels(units)
  {
    var es := UnitEntries(units);
    KeptUnitsEntries(units, {});
    SurvivorsAll(es, {});
    KeptUnitsNonEmpty(units, {});
    if NoEmptyLevels(units) {
      NoEmptyUnchanged(units);
    }
  }

  lemma {:induction false} NoEmptySkillsUnchanged(u: Option<string>, t: Option<string>, skills: seq<Skill>)
    ensures KeptSkills(u, t, skills, {}) == skills
  {
    if |skills| > 0 {
      NoEmptySkillsUnchanged(u, t, skills[..|skills| - 1]);
    }
  }

  lemma {:induction false} NoEmptyTopicsUnchanged(u: Option<string>, topics: seq<Topic>)
    requires NoEmptyTopics(topics)
    ensures KeptTopics(u, topics, {}) == topics
  {
    if |topics| > 0 {
      var last := topics[|topics| - 1];
      NoEmptyTopicsUnchanged(u, topics[..|topics| - 1]);
      NoEmptySkillsUnchanged(u, last.topicCd, last.skills);
    }
  }

  lemma {:induction false} NoEmptyUnchanged(units: seq<Unit>)
    requires NoEmptyLevels(units)
    ensures KeptUnits(units, {}) == units
  {
    if |units| > 0 {
      var last := units[|units| - 1];
      NoEmptyUnchanged(units[..|units| - 1]);
      NoEmptyTopicsUnchanged(last.unitCd, last.topics);
    }
  }
}
