/** The parsed shape of a topic-lookup document: units hold topics, topics hold skills.
    Each level keeps its identifying code (absent when the key is missing) and, verbatim,
    every other field it carries. A missing `topics` or `skills` key reads as an empty list. */
module TopicLookup {
  import opened Wrappers

  /** An arbitrary JSON value, for the fields the script passes through untouched. */
  datatype Json =
    | JNull
    | JBool(b: bool)
    | JNumber(n: int)
    | JString(str: string)
    | JArray(items: seq<Json>)
    | JObject(members: seq<Member>)

  /** One key/value pair of a JSON object, in document order. */
  datatype Member = Member(key: string, value: Json)

  /** A skill: its `skillCd` and every other field. `rest` stands for the fields other than
      the code (and, for topics and units, the child list); it is not constrained to lack
      those keys. */
  datatype Skill = Skill(skillCd: Option<string>, rest: seq<Member>)

  /** A topic: its `topicCd`, its `skills` list and every other field. */
  datatype Topic = Topic(topicCd: Option<string>, skills: seq<Skill>, rest: seq<Member>)

  /** A unit: its `unitCd`, its `topics` list and every other field. */
  datatype Unit = Unit(unitCd: Option<string>, topics: seq<Topic>, rest: seq<Member>)

  /** A whole document: the list under `lookupData.units` and everything else in the file
      (top-level siblings of `lookupData` and siblings of `units` inside it). */
  datatype Document = Document(units: seq<Unit>, rest: seq<Member>)

  /** The identifying triple `(unitCd, topicCd, skillCd)` of a skill; a component is absent
      when its key is missing. */
  datatype Sig = Sig(unitCd: Option<string>, topicCd: Option<string>, skillCd: Option<string>)

  /** Python truthiness of an optional string code: present and non-empty. */
  predicate Truthy(code: Option<string>) {
    code.Some? && |code.value| > 0
  }

  /** A triple all of whose codes are truthy: the only kind the aggregation collects. */
  predicate ValidSig(s: Sig) {
    Truthy(s.unitCd) && Truthy(s.topicCd) && Truthy(s.skillCd)
  }

  /** One skill occurrence in document order, with the triple formed from its enclosing
      unit's and topic's codes. Both phases of the script visit exactly these occurrences. */
  datatype Entry = Entry(sig: Sig, skill: Skill)

  /** The occurrences of the skills of one topic whose unit code is `u` and topic code is `t`. */
  function SkillEntries(u: Option<string>, t: Option<string>, skills: seq<Skill>): (r: seq<Entry>)
    ensures |r| == |skills|
  {
    if |skills| == 0 then []
    else
      var last := skills[|skills| - 1];
      SkillEntries(u, t, skills[..|skills| - 1]) + [Entry(Sig(u, t, last.skillCd), last)]
  }

  /** Occurrence `l` of a topic's skills is skill `l` with the topic's triple. */
  lemma {:induction false} SkillEntriesAt(u: Option<string>, t: Option<string>, skills: seq<Skill>, l: int)
    requires 0 <= l < |skills|
    ensures SkillEntries(u, t, skills)[l] == Entry(Sig(u, t, skills[l].skillCd), skills[l])
  {
    if l < |skills| - 1 {
      SkillEntriesAt(u, t, skills[..|skills| - 1], l);
    }
  }

  /** The skill occurrences of a list of topics of a unit whose code is `u`, topic by topic. */
  function TopicEntries(u: Option<string>, topics: seq<Topic>): (r: seq<Entry>)
  {
    if |topics| == 0 then []
    else
      var last := topics[|topics| - 1];
      TopicEntries(u, topics[..|topics| - 1]) + SkillEntries(u, last.topicCd, last.skills)
  }

  /** The skill occurrences of a list of units, unit by unit. */
  function UnitEntries(units: seq<Unit>): (r: seq<Entry>)
  {
    if |units| == 0 then []
    else
      var last := units[|units| - 1];
      UnitEntries(units[..|units| - 1]) + TopicEntries(last.unitCd, last.topics)
  }

  lemma SkillEntriesSnoc(u: Option<string>, t: Option<string>, skills: seq<Skill>, s: Skill)
    ensures SkillEntries(u, t, skills + [s]) == SkillEntries(u, t, skills) + [Entry(Sig(u, t, s.skillCd), s)]
  {
  }

  lemma TopicEntriesSnoc(u: Option<string>, topics: seq<Topic>, t: Topic)
    ensures TopicEntries(u, topics + [t]) == TopicEntries(u, topics) + SkillEntries(u, t.topicCd, t.skills)
  {
  }

  lemma UnitEntriesSnoc(units: seq<Unit>, x: Unit)
    ensures UnitEntries(units + [x]) == UnitEntries(units) + TopicEntries(x.unitCd, x.topics)
  {
  }

  /** `e` is the occurrence of skill `l` of topic `k` in a list of topics of the unit coded `u`. */
  ghost predicate AtTopic(u: Option<string>, topics: seq<Topic>, k: int, l: int, e: Entry) {
    && 0 <= k < |topics| && 0 <= l < |topics[k].skills|
    && e == Entry(Sig(u, topics[k].topicCd, topics[k].skills[l].skillCd), topics[k].skills[l])
  }

  /** `e` is the occurrence of skill `l` of topic `k` of unit `j`. */
  ghost predicate At(units: seq<Unit>, j: int, k: int, l: int, e: Entry) {
    0 <= j < |units| && AtTopic(units[j].unitCd, units[j].topics, k, l, e)
  }

  lemma {:induction false} TopicEntriesMembership(u: Option<string>, topics: seq<Topic>, e: Entry)
    ensures e in TopicEntries(u, topics) <==> exists k, l :: AtTopic(u, topics, k, l, e)
  {
    if |topics| > 0 {
      var n := |topics| - 1;
      var last := topics[n];
      TopicEntriesMembership(u, topics[..n], e);
      var se := SkillEntries(u, last.topicCd, last.skills);
      if e in se {
        var l :| 0 <= l < |se| && se[l] == e;
        SkillEntriesAt(u, last.topicCd, last.skills, l);
        assert AtTopic(u, topics, n, l, e);
      }
      if e in TopicEntries(u, topics[..n]) {
        var k, l :| AtTopic(u, topics[..n], k, l, e);
        assert topics[..n][k] == topics[k];
        assert AtTopic(u, topics, k, l, e);
      }
      if exists k, l :: AtTopic(u, topics, k, l, e) {
        var k, l :| AtTopic(u, topics, k, l, e);
        if k < n {
          assert topics[..n][k] == topics[k];
          assert AtTopic(u, topics[..n], k, l, e);
        } else {
          SkillEntriesAt(u, last.topicCd, last.skills, l);
          assert se[l] == e;
        }
      }
    }
  }

  /** Membership in the flattening, spelled out by path: an occurrence is in the flattening of
      a list of units exactly when it is the occurrence of some skill `l` of some topic `k` of
      some unit `j`, with the codes found along that path. */
  lemma {:induction false} UnitEntriesMembership(units: seq<Unit>, e: Entry)
    ensures e in UnitEntries(units) <==> exists j, k, l :: At(units, j, k, l, e)
  {
    if |units| > 0 {
      var n := |units| - 1;
      var last := units[n];
      UnitEntriesMembership(units[..n], e);
      TopicEntriesMembership(last.unitCd, last.topics, e);
      if e in TopicEntries(last.unitCd, last.topics) {
        var k, l :| AtTopic(last.unitCd, last.topics, k, l, e);
        assert At(units, n, k, l, e);
      }
      if e in UnitEntries(units[..n]) {
        var j, k, l :| At(units[..n], j, k, l, e);
        assert units[..n][j] == units[j];
        assert At(units, j, k, l, e);
      }
      if exists j, k, l :: At(units, j, k, l, e) {
        var j, k, l :| At(units, j, k, l, e);
        if j < n {
          assert units[..n][j] == units[j];
          assert At(units[..n], j, k, l, e);
        }
      }
    }
  }

  /** The number of topics of a list of units (`sum(len(u.get("topics", [])) for u in units)`,
      and `original_topics_count`). When no unit is without topics there are at least as many
      topics as units. */
  function TopicCount(units: seq<Unit>): (r: nat)
    ensures (forall j :: 0 <= j < |units| ==> |units[j].topics| > 0) ==> r >= |units|
  {
    if |units| == 0 then 0 else TopicCount(units[..|units| - 1]) + |units[|units| - 1].topics|
  }

  /** The number of skills of a list of topics. When no topic is without skills there are at
      least as many skills as topics. */
  function TopicSkillCount(topics: seq<Topic>): (r: nat)
    ensures (forall k :: 0 <= k < |topics| ==> |topics[k].skills| > 0) ==> r >= |topics|
  {
    if |topics| == 0 then 0 else TopicSkillCount(topics[..|topics| - 1]) + |topics[|topics| - 1].skills|
  }

  /** The number of skills of a list of units, summed over their topics (the nested sum of
      em.py:136-140, and `original_skills_count`). When no topic is without skills there are at
      least as many skills as topics. */
  function SkillCount(units: seq<Unit>): (r: nat)
    ensures (forall j, k :: 0 <= j < |units| && 0 <= k < |units[j].topics| ==> |units[j].topics[k].skills| > 0)
      ==> r >= TopicCount(units)
  {
    if |units| == 0 then 0 else SkillCount(units[..|units| - 1]) + TopicSkillCount(units[|units| - 1].topics)
  }

  lemma TopicSkillCountSnoc(topics: seq<Topic>, x: Topic)
    ensures TopicSkillCount(topics + [x]) == TopicSkillCount(topics) + |x.skills|
  {
  }

  lemma CountsSnoc(units: seq<Unit>, x: Unit)
    ensures TopicCount(units + [x]) == TopicCount(units) + |x.topics|
    ensures SkillCount(units + [x]) == SkillCount(units) + TopicSkillCount(x.topics)
  {
  }

  /** Counting skills level by level gives the number of skill occurrences. */
  lemma {:induction false} SkillCountIsEntries(units: seq<Unit>)
    ensures SkillCount(units) == |UnitEntries(units)|
  {
    if |units| > 0 {
      SkillCountIsEntries(units[..|units| - 1]);
      TopicSkillCountIsEntries(units[|units| - 1].unitCd, units[|units| - 1].topics);
    }
  }

  lemma {:induction false} TopicSkillCountIsEntries(u: Option<string>, topics: seq<Topic>)
    ensures TopicSkillCount(topics) == |TopicEntries(u, topics)|
  {
    if |topics| > 0 {
      TopicSkillCountIsEntries(u, topics[..|topics| - 1]);
    }
  }
}
