/** Aggregation of signatures from the other documents (em.py:51-72): every skill occurrence
    whose unit, topic and skill codes are all truthy contributes its triple to a set and
    one to a counter. A document that failed to parse is skipped. */
module Signatures {
  import opened Wrappers
  import opened Seqs
  import opened TopicLookup

  /** The skill occurrences of one parsed-or-failed document; a parse failure has none, and a
      document without `lookupData.units` has an empty unit list. */
  function DocEntries(doc: Option<Document>): seq<Entry>
  {
    match doc
    case None => []
    case Some(d) => UnitEntries(d.units)
  }

  /** The skill occurrences of all the other documents, file by file. */
  function OtherEntries(docs: seq<Option<Document>>): seq<Entry>
  {
    if |docs| == 0 then [] else OtherEntries(docs[..|docs| - 1]) + DocEntries(docs[|docs| - 1])
  }

  /** An occurrence counts when its three codes are all truthy (`if u_cd and t_cd and s_cd`). */
  predicate Qualifies(e: Entry) {
    ValidSig(e.sig)
  }

  /** The set of triples collected after visiting the occurrences `es` in order: the triple of
      each qualifying occurrence is added (`seen_signatures.add`). */
  function SeenAfter(es: seq<Entry>): (r: set<Sig>)
    ensures forall s :: s in r ==> ValidSig(s)
  {
    if |es| == 0 then {}
    else SeenAfter(es[..|es| - 1]) + (if Qualifies(es[|es| - 1]) then {es[|es| - 1].sig} else {})
  }

  /** The counter after visiting the occurrences `es` in order (`other_entry_count += 1`). */
  function CountAfter(es: seq<Entry>): nat
  {
    if |es| == 0 then 0
    else CountAfter(es[..|es| - 1]) + (if Qualifies(es[|es| - 1]) then 1 else 0)
  }

  /** Visiting one more occurrence adds its triple and one to the counter exactly when it qualifies. */
  lemma Visit(es: seq<Entry>, e: Entry)
    ensures SeenAfter(es + [e]) == if Qualifies(e) then SeenAfter(es) + {e.sig} else SeenAfter(es)
    ensures CountAfter(es + [e]) == if Qualifies(e) then CountAfter(es) + 1 else CountAfter(es)
  {
  }

  /** A triple has been collected exactly when it has three truthy codes and some visited
      occurrence carries it. */
  lemma {:induction false} SeenAfterMembership(es: seq<Entry>, s: Sig)
    ensures s in SeenAfter(es) <==> ValidSig(s) && exists e :: e in es && e.sig == s
  {
    if |es| > 0 {
      var es', last := es[..|es| - 1], es[|es| - 1];
      SeenAfterMembership(es', s);
      assert es == es' + [last];
      if exists e :: e in es && e.sig == s {
        var e :| e in es && e.sig == s;
        if e != last {
          assert e in es';
        }
      }
    }
  }

  /** The counter is the number of qualifying occurrences, duplicates included. */
  lemma {:induction false} CountAfterIsQualifying(es: seq<Entry>)
    ensures CountAfter(es) == |Filter(es, Qualifies)|
  {
    if |es| > 0 {
      CountAfterIsQualifying(es[..|es| - 1]);
    }
  }

  /** The counter is never below the number of distinct triples collected. */
  lemma {:induction false} CountAtLeastSeen(es: seq<Entry>)
    ensures |SeenAfter(es)| <= CountAfter(es)
  {
    if |es| > 0 {
      CountAtLeastSeen(es[..|es| - 1]);
    }
  }

  /** `seen_signatures` after the loop; it holds only triples with three truthy codes. */
  function SignatureSet(docs: seq<Option<Document>>): (r: set<Sig>)
    ensures forall s :: s in r ==> ValidSig(s)
  {
    SeenAfter(OtherEntries(docs))
  }

  /** `other_entry_count` after the loop; every unique signature was counted at least once. */
  function EntryCount(docs: seq<Option<Document>>): (r: nat)
    ensures r >= |SignatureSet(docs)|
  {
    CountAtLeastSeen(OtherEntries(docs));
    CountAfter(OtherEntries(docs))
  }

  /** Visiting two lists of occurrences one after the other collects the union of their
      triples and the sum of their counts. */
  lemma {:induction false} VisitConcat(a: seq<Entry>, b: seq<Entry>)
    ensures SeenAfter(a + b) == SeenAfter(a) + SeenAfter(b)
    ensures CountAfter(a + b) == CountAfter(a) + CountAfter(b)
  {
    if |b| == 0 {
      assert a + b == a;
    } else {
      var b', last := b[..|b| - 1], b[|b| - 1];
      assert a + b == (a + b') + [last];
      assert b == b' + [last];
      VisitConcat(a, b');
      Visit(a + b', last);
      Visit(b', last);
    }
  }

  /** One step of the loop over the skills of a topic: when the triple of `skills[l]`
      qualifies, adding it and one keeps the accumulators (which started from `seen0` and
      `count0`) equal to the folds over the next prefix; otherwise they already are. */
  lemma CollectSkillsStep(u: Option<string>, t: Option<string>, skills: seq<Skill>, l: nat,
                          seen0: set<Sig>, count0: nat, seen: set<Sig>, count: nat)
    requires l < |skills|
    requires seen == seen0 + SeenAfter(SkillEntries(u, t, skills[..l]))
    requires count == count0 + CountAfter(SkillEntries(u, t, skills[..l]))
    ensures var sig := Sig(u, t, skills[l].skillCd);
      if ValidSig(sig) then
        && seen + {sig} == seen0 + SeenAfter(SkillEntries(u, t, skills[..l + 1]))
        && count + 1 == count0 + CountAfter(SkillEntries(u, t, skills[..l + 1]))
      else
        && seen == seen0 + SeenAfter(SkillEntries(u, t, skills[..l + 1]))
        && count == count0 + CountAfter(SkillEntries(u, t, skills[..l + 1]))
  {
    assert skills[..l + 1] == skills[..l] + [skills[l]];
    SkillEntriesSnoc(u, t, skills[..l], skills[l]);
    Visit(SkillEntries(u, t, skills[..l]), Entry(Sig(u, t, skills[l].skillCd), skills[l]));
  }

  /** One step of the loop over the topics of a unit: the accumulators were the folds over the
      prefix `topics[..k]` (`before`, `countBefore`) and have since collected `topics[k]`'s
      skills, so they are the folds over `topics[..k + 1]`. */
  lemma CollectTopicsStep(u: Option<string>, topics: seq<Topic>, k: nat, seen0: set<Sig>, count0: nat,
                          before: set<Sig>, countBefore: nat, seen: set<Sig>, count: nat)
    requires k < |topics|
    requires before == seen0 + SeenAfter(TopicEntries(u, topics[..k]))
    requires countBefore == count0 + CountAfter(TopicEntries(u, topics[..k]))
    requires seen == before + SeenAfter(SkillEntries(u, topics[k].topicCd, topics[k].skills))
    requires count == countBefore + CountAfter(SkillEntries(u, topics[k].topicCd, topics[k].skills))
    ensures seen == seen0 + SeenAfter(TopicEntries(u, topics[..k + 1]))
    ensures count == count0 + CountAfter(TopicEntries(u, topics[..k + 1]))
  {
    assert topics[..k + 1] == topics[..k] + [topics[k]];
    TopicEntriesSnoc(u, topics[..k], topics[k]);
    VisitConcat(TopicEntries(u, topics[..k]), SkillEntries(u, topics[k].topicCd, topics[k].skills));
  }

  /** One step of the loop over the units of a document, as for topics. */
  lemma CollectUnitsStep(units: seq<Unit>, j: nat, seen0: set<Sig>, count0: nat,
                         before: set<Sig>, countBefore: nat, seen: set<Sig>, count: nat)
    requires j < |units|
    requires before == seen0 + SeenAfter(UnitEntries(units[..j]))
    requires countBefore == count0 + CountAfter(UnitEntries(units[..j]))
    requires seen == before + SeenAfter(TopicEntries(units[j].unitCd, units[j].topics))
    requires count == countBefore + CountAfter(TopicEntries(units[j].unitCd, units[j].topics))
    ensures seen == seen0 + SeenAfter(UnitEntries(units[..j + 1]))
    ensures count == count0 + CountAfter(UnitEntries(units[..j + 1]))
  {
    assert units[..j + 1] == units[..j] + [units[j]];
    UnitEntriesSnoc(units[..j], units[j]);
    VisitConcat(UnitEntries(units[..j]), TopicEntries(units[j].unitCd, units[j].topics));
  }

  /** The innermost loop of em.py:68-72 over the skills of one topic (unit code `uCd`, topic
      code `tCd`): it adds their qualifying triples to `seen0` and their number to `count0`. */
  method CollectSkills(uCd: Option<string>, tCd: Option<string>, skills: seq<Skill>, seen0: set<Sig>, count0: nat)
    returns (seen: set<Sig>, count: nat)
    ensures seen == seen0 + SeenAfter(SkillEntries(uCd, tCd, skills))
    ensures count == count0 + CountAfter(SkillEntries(uCd, tCd, skills))
  {
    seen, count := seen0, count0;
    for l := 0 to |skills|
      invariant seen == seen0 + SeenAfter(SkillEntries(uCd, tCd, skills[..l]))
      invariant count == count0 + CountAfter(SkillEntries(uCd, tCd, skills[..l]))
    {
      var sig := Sig(uCd, tCd, skills[l].skillCd);
      CollectSkillsStep(uCd, tCd, skills, l, seen0, count0, seen, count);
      if ValidSig(sig) {
        seen := seen + {sig};
        count := count + 1;
      }
    }
    assert skills[..|skills|] == skills;
  }

  /** The loop of em.py:65-72 over the topics of one unit coded `uCd`. */
  method CollectTopics(uCd: Option<string>, topics: seq<Topic>, seen0: set<Sig>, count0: nat)
    returns (seen: set<Sig>, count: nat)
    ensures seen == seen0 + SeenAfter(TopicEntries(uCd, topics))
    ensures count == count0 + CountAfter(TopicEntries(uCd, topics))
  {
    seen, count := seen0, count0;
    for k := 0 to |topics|
      invariant seen == seen0 + SeenAfter(TopicEntries(uCd, topics[..k]))
      invariant count == count0 + CountAfter(TopicEntries(uCd, topics[..k]))
    {
      ghost var before, countBefore := seen, count;
      seen, count := CollectSkills(uCd, topics[k].topicCd, topics[k].skills, seen, count);
      CollectTopicsStep(uCd, topics, k, seen0, count0, before, countBefore, seen, count);
    }
    assert topics[..|topics|] == topics;
  }

  /** The loop of em.py:62-72 over the units of one parsed document. */
  method CollectUnits(units: seq<Unit>, seen0: set<Sig>, count0: nat)
    returns (seen: set<Sig>, count: nat)
    ensures seen == seen0 + SeenAfter(UnitEntries(units))
    ensures count == count0 + CountAfter(UnitEntries(units))
  {
    seen, count := seen0, count0;
    for j := 0 to |units|
      invariant seen == seen0 + SeenAfter(UnitEntries(units[..j]))
      invariant count == count0 + CountAfter(UnitEntries(units[..j]))
    {
      ghost var before, countBefore := seen, count;
      seen, count := CollectTopics(units[j].unitCd, units[j].topics, seen, count);
      CollectUnitsStep(units, j, seen0, count0, before, countBefore, seen, count);
    }
    assert units[..|units|] == units;
  }

  /** One step of the loop over the other files: a file that failed to parse leaves the
      accumulators as they were, and a parsed one adds the folds over its occurrences. Either
      way they become the folds over `docs[..i + 1]`. */
  lemma CollectSignaturesStep(docs: seq<Option<Document>>, i: nat,
                              before: set<Sig>, countBefore: nat, seen: set<Sig>, count: nat)
    requires i < |docs|
    requires before == SeenAfter(OtherEntries(docs[..i]))
    requires countBefore == CountAfter(OtherEntries(docs[..i]))
    requires docs[i].None? ==> seen == before && count == countBefore
    requires docs[i].Some? ==>
      && seen == before + SeenAfter(UnitEntries(docs[i].value.units))
      && count == countBefore + CountAfter(UnitEntries(docs[i].value.units))
    ensures seen == SeenAfter(OtherEntries(docs[..i + 1]))
    ensures count == CountAfter(OtherEntries(docs[..i + 1]))
  {
    assert docs[..i + 1] == docs[..i] + [docs[i]];
    OtherEntriesSnoc(docs[..i], docs[i]);
    VisitConcat(OtherEntries(docs[..i]), DocEntries(docs[i]));
    if docs[i].None? {
      assert OtherEntries(docs[..i]) + [] == OtherEntries(docs[..i]);
    }
  }

  /** The loop of em.py:51-72 over the other files, each given as its parsed document or
      `None` when its JSON did not parse (the `except ... continue` of em.py:55-59). It
      computes `seen_signatures` and `other_entry_count`. */
  method CollectSignatures(docs: seq<Option<Document>>) returns (seen: set<Sig>, count: nat)
    ensures seen == SignatureSet(docs)
    ensures count == EntryCount(docs)
    ensures count >= |seen|
    ensures forall s :: s in seen ==> ValidSig(s)
  {
    EntryCountBounds(docs);
    seen, count := {}, 0;
    for i := 0 to |docs|
      invariant seen == SeenAfter(OtherEntries(docs[..i]))
      invariant count == CountAfter(OtherEntries(docs[..i]))
    {
      if docs[i].None? {
        CollectSignaturesStep(docs, i, seen, count, seen, count);
        continue;
      }
      ghost var before, countBefore := seen, count;
      seen, count := CollectUnits(docs[i].value.units, seen, count);
      CollectSignaturesStep(docs, i, before, countBefore, seen, count);
    }
    assert docs[..|docs|] == docs;
  }

  /** `e` is a skill occurrence of the `i`-th other document, which parsed. */
  ghost predicate FoundIn(docs: seq<Option<Document>>, i: int, e: Entry) {
    0 <= i < |docs| && docs[i].Some? && e in UnitEntries(docs[i].value.units)
  }

  lemma {:induction false} OtherEntriesMembership(docs: seq<Option<Document>>, e: Entry)
    ensures e in OtherEntries(docs) <==> exists i :: FoundIn(docs, i, e)
  {
    if |docs| > 0 {
      var n := |docs| - 1;
      assert docs == docs[..n] + [docs[n]];
      OtherEntriesSnoc(docs[..n], docs[n]);
      OtherEntriesMembership(docs[..n], e);
      if e in OtherEntries(docs[..n]) {
        var i :| FoundIn(docs[..n], i, e);
        assert FoundIn(docs, i, e);
      }
      if e in DocEntries(docs[n]) {
        assert FoundIn(docs, n, e);
      }
      if exists i :: FoundIn(docs, i, e) {
        var i :| FoundIn(docs, i, e);
        if i < n {
          assert FoundIn(docs[..n], i, e);
        }
      }
    }
  }

  /** A triple is in the signature set exactly when all three of its codes are truthy and some
      skill of some other document that parsed carries it: missing or empty codes never
      contribute, and every qualifying occurrence does. */
  lemma SignatureSetMembership(docs: seq<Option<Document>>, s: Sig)
    ensures s in SignatureSet(docs) <==> ValidSig(s) && exists i, e :: FoundIn(docs, i, e) && e.sig == s
  {
    var es := OtherEntries(docs);
    SeenAfterMembership(es, s);
    if s in SignatureSet(docs) {
      var e :| e in es && e.sig == s;
      OtherEntriesMembership(docs, e);
      var i :| FoundIn(docs, i, e);
    }
    if ValidSig(s) && exists i, e :: FoundIn(docs, i, e) && e.sig == s {
      var i, e :| FoundIn(docs, i, e) && e.sig == s;
      OtherEntriesMembership(docs, e);
    }
  }

  /** `other_entry_count` is the number of qualifying skill occurrences of the other documents,
      duplicates included, and so at least the number of distinct signatures. */
  lemma EntryCountBounds(docs: seq<Option<Document>>)
    ensures EntryCount(docs) == |Filter(OtherEntries(docs), Qualifies)|
    ensures |SignatureSet(docs)| <= EntryCount(docs)
  {
    CountAfterIsQualifying(OtherEntries(docs));
    CountAtLeastSeen(OtherEntries(docs));
  }

  lemma OtherEntriesSnoc(docs: seq<Option<Document>>, doc: Option<Document>)
    ensures OtherEntries(docs + [doc]) == OtherEntries(docs) + DocEntries(doc)
  {
  }

  lemma {:induction false} OtherEntriesConcat(a: seq<Option<Document>>, b: seq<Option<Document>>)
    ensures OtherEntries(a + b) == OtherEntries(a) + OtherEntries(b)
  {
    if |b| == 0 {
      assert a + b == a;
    } else {
      var b', last := b[..|b| - 1], b[|b| - 1];
      assert a + b == (a + b') + [last];
      assert b == b' + [last];
      OtherEntriesConcat(a, b');
      OtherEntriesSnoc(a + b', last);
      OtherEntriesSnoc(b', last);
    }
  }

  /** A file whose JSON does not parse, wherever it sits among the other files, adds nothing
      to the signature set or to the counter. */
  lemma SkipUnparseable(a: seq<Option<Document>>, b: seq<Option<Document>>)
    ensures SignatureSet(a + [None] + b) == SignatureSet(a + b)
    ensures EntryCount(a + [None] + b) == EntryCount(a + b)
  {
    OtherEntriesConcat(a + [None], b);
    OtherEntriesConcat(a, [None]);
    OtherEntriesConcat(a, b);
    var failed: seq<Option<Document>> := [None];
    assert failed[..0] == [];
    assert OtherEntries(failed) == [];
    assert OtherEntries(a + [None]) == OtherEntries(a);
  }

  /** Splitting the documents around position `j` splits the collected triples and the counter. */
  lemma AroundOne(docs: seq<Option<Document>>, j: nat)
    requires j < |docs|
    ensures var rest := docs[..j] + docs[j + 1..];
      && SignatureSet(docs) == SignatureSet(rest) + SeenAfter(DocEntries(docs[j]))
      && EntryCount(docs) == EntryCount(rest) + CountAfter(DocEntries(docs[j]))
  {
    var pre, x, post := docs[..j], docs[j], docs[j + 1..];
    assert docs == pre + [x] + post;
    OtherEntriesConcat(pre + [x], post);
    OtherEntriesConcat(pre, [x]);
    OtherEntriesConcat(pre, post);
    OtherEntriesSnoc([], x);
    assert [] + [x] == [x];
    VisitConcat(OtherEntries(pre) + DocEntries(x), OtherEntries(post));
    VisitConcat(OtherEntries(pre), DocEntries(x));
    VisitConcat(OtherEntries(pre), OtherEntries(post));
  }

  lemma MultisetAround<T>(s: seq<T>, j: nat)
    requires j < |s|
    ensures multiset(s) == multiset(s[..j] + s[j + 1..]) + multiset{s[j]}
  {
    assert s == s[..j] + [s[j]] + s[j + 1..];
  }

  /** Removing the last element of `s` and an equal element of a rearrangement `s'` leaves
      rearrangements of each other. */
  lemma MultisetRemove<T>(s: seq<T>, s': seq<T>, j: nat)
    requires |s| > 0 && j < |s'| && s'[j] == s[|s| - 1]
    requires multiset(s) == multiset(s')
    ensures multiset(s[..|s| - 1]) == multiset(s'[..j] + s'[j + 1..])
  {
    var n := |s| - 1;
    MultisetAround(s, n);
    MultisetAround(s', j);
    assert s[..n] + s[n + 1..] == s[..n];
    var m, m', x := multiset(s[..n]), multiset(s'[..j] + s'[j + 1..]), multiset{s[n]};
    assert m + x == m' + x;
    assert m == (m + x) - x;
    assert m' == (m' + x) - x;
  }

  /** The order in which the other files are listed (em.py:37 sorts them) does not matter: any
      rearrangement of the same documents collects the same triples and the same count. */
  lemma {:induction false} ListingOrderIrrelevant(docs: seq<Option<Document>>, docs': seq<Option<Document>>)
    requires multiset(docs) == multiset(docs')
    ensures SignatureSet(docs) == SignatureSet(docs')
    ensures EntryCount(docs) == EntryCount(docs')
    decreases |docs|
  {
    if |docs| > 0 {
      var n := |docs| - 1;
      var x := docs[n];
      assert x in multiset(docs');
      var j :| 0 <= j < |docs'| && docs'[j] == x;
      var rest' := docs'[..j] + docs'[j + 1..];
      MultisetRemove(docs, docs', j);
      ListingOrderIrrelevant(docs[..n], rest');
      AroundOne(docs, n);
      assert docs[..n] + docs[n + 1..] == docs[..n];
      AroundOne(docs', j);
    } else {
      assert |multiset(docs')| == 0;
    }
  }
}
