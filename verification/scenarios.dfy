/** Worked examples over the fixed catalog and advisor table. */
module Scenarios {
  import opened Outcomes
  import opened Text
  import opened Seqs
  import opened Records
  import opened DataService

  // Each searched field of the other entries lacks, in either case, the letter 'p'
  // (position 0 of "paracetamol") or 'c' (position 4).

  lemma AmoxicillinNotParacetamol()
    ensures !MatchesTerm("paracetamol")(Amoxicillin)
  {
    MissingCharExcludes("paracetamol", "Amoxicillin", 0);
    MissingCharExcludes("paracetamol", "Amoxicillin Trihydrate", 0);
    MissingCharExcludes("paracetamol", "Antibiotic for bacterial infections", 0);
  }

  lemma IbuprofenNotParacetamol()
    ensures !MatchesTerm("paracetamol")(Ibuprofen)
  {
    MissingCharExcludes("paracetamol", "Ibuprofen", 4);
    MissingCharExcludes("paracetamol", "Anti-inflammatory and pain relief", 4);
  }

  lemma AspirinNotParacetamol()
    ensures !MatchesTerm("paracetamol")(Aspirin)
  {
    MissingCharExcludes("paracetamol", "Aspirin", 4);
    MissingCharExcludes("paracetamol", "Acetylsalicylic Acid", 0);
    MissingCharExcludes("paracetamol", "Blood thinner and pain relief", 4);
  }

  lemma MetforminNotParacetamol()
    ensures !MatchesTerm("paracetamol")(Metformin)
  {
    MissingCharExcludes("paracetamol", "Metformin", 0);
    MissingCharExcludes("paracetamol", "Metformin Hydrochloride", 0);
    MissingCharExcludes("paracetamol", "Diabetes medication", 0);
  }

  /** The query "paracetamol" is not blank, is its own lower-case form, and matches Paracetamol. */
  lemma ParacetamolMatches()
    ensures Trim("paracetamol") != [] && Lower("paracetamol") == "paracetamol"
    ensures MatchesTerm("paracetamol")(Paracetamol)
  {
    var q := "paracetamol";
    assert !IsWhitespace(q[0]);
    assert Lower(q) == q;
    assert Lower(Paracetamol.name) == q;
    assert OccursAt(q, Lower(Paracetamol.name), 0);
  }

  /** Searching for "paracetamol" finds the Paracetamol entry and nothing else. */
  lemma SearchParacetamol()
    ensures Search(Catalog, "paracetamol") == [Paracetamol]
  {
    ParacetamolMatches();
    AmoxicillinNotParacetamol();
    IbuprofenNotParacetamol();
    AspirinNotParacetamol();
    MetforminNotParacetamol();
    var p := MatchesTerm("paracetamol");
    assert Catalog[1] == Amoxicillin && Catalog[2] == Ibuprofen;
    assert Catalog[3] == Aspirin && Catalog[4] == Metformin;
    forall j | 0 < j < |Catalog| ensures !p(Catalog[j]) {
      assert j == 1 || j == 2 || j == 3 || j == 4;
    }
    FilterExactlyOne(p, Catalog, 0);
  }

  /** Each catalog id looks up its own entry. */
  lemma CatalogLookups()
    ensures FindById(Catalog, "1") == Some(Paracetamol)
    ensures FindById(Catalog, "2") == Some(Amoxicillin)
    ensures FindById(Catalog, "3") == Some(Ibuprofen)
    ensures FindById(Catalog, "4") == Some(Aspirin)
    ensures FindById(Catalog, "5") == Some(Metformin)
  {
    CatalogWellFormed();
    FindByIdInverse(Catalog, 0);
    FindByIdInverse(Catalog, 1);
    FindByIdInverse(Catalog, 2);
    FindByIdInverse(Catalog, 3);
    FindByIdInverse(Catalog, 4);
  }

  /** The ids the advisor table recommends, entry by entry. */
  lemma AdvisorTableIds()
    ensures |AdvisorTable| == 4
    ensures AdvisorTable[0].keyword == "headache" && AdvisorTable[0].recommended == ["1", "3"]
    ensures AdvisorTable[0].response == HeadacheResponse
    ensures AdvisorTable[1].keyword == "fever" && AdvisorTable[1].recommended == ["1"]
    ensures AdvisorTable[2].keyword == "infection" && AdvisorTable[2].recommended == ["2"]
    ensures AdvisorTable[3].keyword == "diabetes" && AdvisorTable[3].recommended == ["5"]
  {
  }

  /** Ids that all name catalog entries resolve one-for-one, in order. */
  lemma ResolveCatalogIds(ids: seq<string>)
    requires forall k :: 0 <= k < |ids| ==> ids[k] in {"1", "2", "3", "4", "5"}
    ensures |Resolve(Catalog, ids)| == |ids|
    ensures forall k :: 0 <= k < |ids| ==> Resolve(Catalog, ids)[k].id == ids[k]
  {
    CatalogLookups();
    FilterMapTotal(Lookup(Catalog), ids);
  }

  /** Every id the advisor table recommends is in the catalog, so no recommendation is ever
      dropped and each entry's ids resolve one-for-one, in order. */
  lemma AdvisorIdsAllResolve(e: nat)
    requires e < |AdvisorTable|
    ensures |Resolve(Catalog, AdvisorTable[e].recommended)| == |AdvisorTable[e].recommended|
    ensures forall k :: 0 <= k < |AdvisorTable[e].recommended| ==>
              Resolve(Catalog, AdvisorTable[e].recommended)[k].id == AdvisorTable[e].recommended[k]
  {
    AdvisorTableIds();
    ResolveCatalogIds(AdvisorTable[e].recommended);
  }

  /** The headache keyword occurs in "I have a headache" once lowered. */
  lemma HeadacheOccurs()
    ensures Occurs("headache", Lower("I have a headache"))
  {
    assert Lower("I have a headache")[9..17] == "headache";
    assert OccursAt("headache", Lower("I have a headache"), 9);
  }

  /** The headache entry's ids resolve to Paracetamol and Ibuprofen. */
  lemma HeadacheRecommendations()
    ensures Resolve(Catalog, ["1", "3"]) == [Catalog[0], Catalog[2]]
  {
    CatalogWellFormed();
    FindByIdInverse(Catalog, 0);
    FindByIdInverse(Catalog, 2);
    var ids := ["1", "3"];
    assert Lookup(Catalog)(ids[0]) == Some(Catalog[0]);
    assert Lookup(Catalog)(ids[1]) == Some(Catalog[2]);
    FilterMapTotal(Lookup(Catalog), ids);
  }

  /** "I have a headache" is answered by the headache entry, recommending Paracetamol and
      Ibuprofen, in that order. */
  lemma HeadacheAdvice()
    ensures Advise(Catalog, AdvisorTable, "I have a headache")
            == Advice(HeadacheResponse, [Catalog[0], Catalog[2]])
  {
    AdvisorTableIds();
    HeadacheOccurs();
    AdviseFirstMatch(Catalog, AdvisorTable, "I have a headache", 0);
    HeadacheRecommendations();
  }

  /** None of the four keywords occurs in "purple elephant": it has no 'd', 'f' or 'i'. */
  lemma NoKeywordInPurpleElephant()
    ensures !Occurs("headache", Lower("purple elephant"))
    ensures !Occurs("fever", Lower("purple elephant"))
    ensures !Occurs("infection", Lower("purple elephant"))
    ensures !Occurs("diabetes", Lower("purple elephant"))
  {
    var q := "purple elephant";
    MissingCharExcludes("headache", q, 5);
    MissingCharExcludes("fever", q, 0);
    MissingCharExcludes("infection", q, 0);
    MissingCharExcludes("diabetes", q, 0);
  }

  /** "purple elephant" contains none of the keywords, so the fallback answers: it quotes the
      query and recommends nothing. */
  lemma PurpleElephantFallback()
    ensures Advise(Catalog, AdvisorTable, "purple elephant")
            == Advice(FallbackResponse("purple elephant"), [])
  {
    AdvisorTableIds();
    NoKeywordInPurpleElephant();
    AdviseFallback(Catalog, AdvisorTable, "purple elephant");
  }
}
