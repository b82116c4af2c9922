/**
 The three filter scenarios over the four sample records (script.js
 lines 4-52 filtered by lines 107-114).
 */
module SampleScenarios {
  import opened Text
  import opened PromiseData
  import opened PromiseFilter

  /** A query whose first character, a letter, is absent from the three lower-cased fields is not matched. */
  lemma SearchMissesWithoutLetter(p: Record, searchQuery: string, c: char)
    requires |searchQuery| > 0 && LowerChar(searchQuery[0]) == c
    requires c !in Lower(p.promise) && c !in Lower(p.politician) && c !in Lower(p.state)
    ensures !MatchesSearch(p, searchQuery)
  {
    NotIncludedWithoutFirstChar(Lower(p.promise), Lower(searchQuery));
    NotIncludedWithoutFirstChar(Lower(p.politician), Lower(searchQuery));
    NotIncludedWithoutFirstChar(Lower(p.state), Lower(searchQuery));
  }

  /** A character absent from the lower-cased forms of two strings is absent from that of their concatenation. */
  lemma LowerLacksLetter(a: string, b: string, c: char)
    requires c !in Lower(a) && c !in Lower(b)
    ensures c !in Lower(a + b)
  {
    LowerAppend(a, b);
  }

  // Each fact about a record's field is proved in two steps: the field is
  // its literal text, and the literal text has the fact.

  // Record 1 (Maharashtra jobs): no `k` in its three searched fields.

  lemma JobsFields()
    ensures MAHARASHTRA_JOBS.promise == "Create 2 million jobs " + "in the tech sector by 2025"
    ensures MAHARASHTRA_JOBS.politician == "CM of Maharashtra"
    ensures MAHARASHTRA_JOBS.state == "Maharashtra"
  {
  }

  lemma JobsPromiseHeadLacksK()
    ensures 'k' !in Lower("Create 2 million jobs ")
  {
    LowerExcludes("Create 2 million jobs ", 'k');
  }

  lemma JobsPromiseTailLacksK()
    ensures 'k' !in Lower("in the tech sector by 2025")
  {
    LowerExcludes("in the tech sector by 2025", 'k');
  }

  lemma JobsPromiseLacksK()
    ensures 'k' !in Lower("Create 2 million jobs " + "in the tech sector by 2025")
  {
    JobsPromiseHeadLacksK();
    JobsPromiseTailLacksK();
    LowerLacksLetter("Create 2 million jobs ", "in the tech sector by 2025", 'k');
  }

  lemma JobsPoliticianLacksK()
    ensures 'k' !in Lower("CM of Maharashtra")
  {
    LowerExcludes("CM of Maharashtra", 'k');
  }

  lemma JobsStateLacksK()
    ensures 'k' !in Lower("Maharashtra")
  {
    LowerExcludes("Maharashtra", 'k');
  }

  lemma JobsLackK()
    ensures 'k' !in Lower(MAHARASHTRA_JOBS.promise)
    ensures 'k' !in Lower(MAHARASHTRA_JOBS.politician)
    ensures 'k' !in Lower(MAHARASHTRA_JOBS.state)
  {
    JobsFields();
    JobsPromiseLacksK();
    JobsPoliticianLacksK();
    JobsStateLacksK();
  }

  // Record 4 (Tamil Nadu bus travel): no `k` in its three searched fields.

  lemma BusFields()
    ensures TAMIL_NADU_BUS.promise == "Establish universal " + "free bus travel for women"
    ensures TAMIL_NADU_BUS.politician == "Tamil Nadu Government"
    ensures TAMIL_NADU_BUS.state == "Tamil Nadu"
  {
  }

  lemma BusPromiseHeadLacksK()
    ensures 'k' !in Lower("Establish universal ")
  {
    LowerExcludes("Establish universal ", 'k');
  }

  lemma BusPromiseTailLacksK()
    ensures 'k' !in Lower("free bus travel for women")
  {
    LowerExcludes("free bus travel for women", 'k');
  }

  lemma BusPromiseLacksK()
    ensures 'k' !in Lower("Establish universal " + "free bus travel for women")
  {
    BusPromiseHeadLacksK();
    BusPromiseTailLacksK();
    LowerLacksLetter("Establish universal ", "free bus travel for women", 'k');
  }

  lemma BusPoliticianLacksK()
    ensures 'k' !in Lower("Tamil Nadu Government")
  {
    LowerExcludes("Tamil Nadu Government", 'k');
  }

  lemma BusStateLacksK()
    ensures 'k' !in Lower("Tamil Nadu")
  {
    LowerExcludes("Tamil Nadu", 'k');
  }

  lemma BusLacksK()
    ensures 'k' !in Lower(TAMIL_NADU_BUS.promise)
    ensures 'k' !in Lower(TAMIL_NADU_BUS.politician)
    ensures 'k' !in Lower(TAMIL_NADU_BUS.state)
  {
    BusFields();
    BusPromiseLacksK();
    BusPoliticianLacksK();
    BusStateLacksK();
  }

  // Record 3 (Karnataka milk centres): no `b` in its three searched fields.

  lemma MilkFields()
    ensures KARNATAKA_MILK.promise == "Launch 500 new milk collection " + "centers in rural areas"
    ensures KARNATAKA_MILK.politician == "Karnataka CM"
    ensures KARNATAKA_MILK.state == "Karnataka"
  {
  }

  lemma MilkPromiseHeadLacksB()
    ensures 'b' !in Lower("Launch 500 new milk collection ")
  {
    LowerExcludes("Launch 500 new milk collection ", 'b');
  }

  lemma MilkPromiseTailLacksB()
    ensures 'b' !in Lower("centers in rural areas")
  {
    LowerExcludes("centers in rural areas", 'b');
  }

  lemma MilkPromiseLacksB()
    ensures 'b' !in Lower("Launch 500 new milk collection " + "centers in rural areas")
  {
    MilkPromiseHeadLacksB();
    MilkPromiseTailLacksB();
    LowerLacksLetter("Launch 500 new milk collection ", "centers in rural areas", 'b');
  }

  lemma MilkPoliticianLacksB()
    ensures 'b' !in Lower("Karnataka CM")
  {
    LowerExcludes("Karnataka CM", 'b');
  }

  lemma MilkStateLacksB()
    ensures 'b' !in Lower("Karnataka")
  {
    LowerExcludes("Karnataka", 'b');
  }

  lemma MilkLacksB()
    ensures 'b' !in Lower(KARNATAKA_MILK.promise)
    ensures 'b' !in Lower(KARNATAKA_MILK.politician)
    ensures 'b' !in Lower(KARNATAKA_MILK.state)
  {
    MilkFields();
    MilkPromiseLacksB();
    MilkPoliticianLacksB();
    MilkStateLacksB();
  }

  // Record 2 (UP tablets): `"karnataka"` in none of its three searched fields.

  lemma TabletsFields()
    ensures UP_TABLETS.promise == "Provide free tablets to 10 la" + "k" + "h students"
    ensures UP_TABLETS.politician == "UP Government"
    ensures UP_TABLETS.state == "Uttar Pradesh"
  {
  }

  lemma TabletsPromiseHeadLacksK()
    ensures 'k' !in Lower("Provide free tablets to 10 la")
  {
    LowerExcludes("Provide free tablets to 10 la", 'k');
  }

  lemma TabletsPromiseTailLacksK()
    ensures 'k' !in Lower("h students")
  {
    LowerExcludes("h students", 'k');
  }

  /** Record 2's promise mentions "lakh", but its one `k` is not followed by an `a`. */
  lemma TabletsPromiseMissesKarnataka()
    ensures !Includes(Lower("Provide free tablets to 10 la" + "k" + "h students"), "karnataka")
  {
    var before, after := "Provide free tablets to 10 la", "h students";
    LowerAppend(before + "k", after);
    LowerAppend(before, "k");
    LowerKeepsNonUpper("k");
    TabletsPromiseHeadLacksK();
    TabletsPromiseTailLacksK();
    NotIncludedAround(Lower(before), 'k', Lower(after), "karnataka");
  }

  lemma TabletsOtherFieldsMissKarnataka()
    ensures !Includes(Lower("UP Government"), "karnataka")
    ensures !Includes(Lower("Uttar Pradesh"), "karnataka")
  {
    LowerExcludes("UP Government", 'k');
    NotIncludedWithoutFirstChar(Lower("UP Government"), "karnataka");
    LowerExcludes("Uttar Pradesh", 'k');
    NotIncludedWithoutFirstChar(Lower("Uttar Pradesh"), "karnataka");
  }

  lemma TabletsLackKarnataka()
    ensures !MatchesSearch(UP_TABLETS, "karnataka")
  {
    TabletsFields();
    LowerKeepsNonUpper("karnataka");
    TabletsPromiseMissesKarnataka();
    TabletsOtherFieldsMissKarnataka();
  }

  // Record 3 matches `"karnataka"`; then the three scenarios.

  /** Record 3's state is "Karnataka". */
  lemma MilkMatchesKarnataka()
    ensures MatchesSearch(KARNATAKA_MILK, "karnataka")
  {
    assert KARNATAKA_MILK.state == "K" + "arnataka";
    LowerAppend("K", "arnataka");
    assert Lower("K") == "k";
    LowerKeepsNonUpper("arnataka");
    LowerKeepsNonUpper("karnataka");
    assert StartsWith(Lower(KARNATAKA_MILK.state), Lower("karnataka"));
  }

  /** Tab `"fulfilled"` with an empty query shows records 2 and 4. */
  lemma FulfilledScenario()
    ensures Ids(Filter(PROMISES, "fulfilled", "")) == [2, 4]
  {
    assert MAHARASHTRA_JOBS.status[0] != 'f' && KARNATAKA_MILK.status[0] != 'f';
    IncludesEmpty(Lower(UP_TABLETS.promise));
    IncludesEmpty(Lower(TAMIL_NADU_BUS.promise));
    FilterByFour(MAHARASHTRA_JOBS, UP_TABLETS, KARNATAKA_MILK, TAMIL_NADU_BUS, p => Keep(p, "fulfilled", ""));
  }

  /** Tab `"all"` with query `"karnataka"` shows record 3 only. */
  lemma KarnatakaScenario()
    ensures Ids(Filter(PROMISES, "all", "karnataka")) == [3]
  {
    JobsLackK();
    SearchMissesWithoutLetter(MAHARASHTRA_JOBS, "karnataka", 'k');
    TabletsLackKarnataka();
    MilkMatchesKarnataka();
    BusLacksK();
    SearchMissesWithoutLetter(TAMIL_NADU_BUS, "karnataka", 'k');
    FilterByFour(MAHARASHTRA_JOBS, UP_TABLETS, KARNATAKA_MILK, TAMIL_NADU_BUS, p => Keep(p, "all", "karnataka"));
  }

  /** Tab `"delayed"` with query `"bus"` shows nothing: the one delayed record does not mention "bus". */
  lemma DelayedBusScenario()
    ensures Filter(PROMISES, "delayed", "bus") == []
  {
    assert MAHARASHTRA_JOBS.status[0] != 'd' && UP_TABLETS.status[0] != 'd' && TAMIL_NADU_BUS.status[0] != 'd';
    MilkLacksB();
    SearchMissesWithoutLetter(KARNATAKA_MILK, "bus", 'b');
    FilterByFour(MAHARASHTRA_JOBS, UP_TABLETS, KARNATAKA_MILK, TAMIL_NADU_BUS, p => Keep(p, "delayed", "bus"));
  }
}
