/** The simulated back end: catalog search, lookup by id, the keyword advisor, and the two
    append-only ledgers (reservations and quality reports), each behind the connectivity guard.
    The online flag, the clock readings and the random text are parameters. */
module DataService {
  import opened Outcomes
  import opened Text
  import opened Seqs
  import opened Records
  import opened Storage

  /** How long a reservation is held: 24 hours in milliseconds. */
  const DayMs: nat := 24 * 60 * 60 * 1000

  /** What a ledger call returns, together with the store it leaves behind. */
  datatype Call<+T> = Call(result: Result<T>, store: Store)

  // ---------------------------------------------------------------------------
  // Connectivity guard
  // ---------------------------------------------------------------------------

  /** The error every guarded operation fails with while offline. */
  const Offline: Error := ConnectivityError(OfflineMessage)

  /** The guard every data-service operation runs first: it passes exactly when online. */
  function CheckOnline(online: bool): (r: Result<()>)
    ensures r.Success? <==> online
    ensures r.Failure? ==> r.error == Offline
  {
    if online then Success(()) else Failure(Offline)
  }

  // ---------------------------------------------------------------------------
  // Search
  // ---------------------------------------------------------------------------

  /** The specification of a search hit: the lowered query is a substring of the lowered
      name, generic name or description. */
  ghost predicate Hit(m: Medicine, query: string) {
    || Occurs(Lower(query), Lower(m.name))
    || Occurs(Lower(query), Lower(m.genericName))
    || Occurs(Lower(query), Lower(m.description))
  }

  /** The filter callback of the search, for an already lowered search term. */
  function MatchesTerm(term: string): Medicine -> bool {
    (m: Medicine) => Includes(Lower(m.name), term) || Includes(Lower(m.genericName), term)
         || Includes(Lower(m.description), term)
  }

  /** The search over a catalog: a blank query returns the catalog itself, any other query
      keeps the entries the lowered query occurs in. */
  function Search(cat: seq<Medicine>, query: string): seq<Medicine> {
    if Trim(query) == [] then cat
    else Filter(MatchesTerm(Lower(query)), cat)
  }

  /** `searchMedicines`: guarded search over the fixed catalog. */
  function SearchMedicines(online: bool, query: string): (r: Result<seq<Medicine>>)
    ensures r.Success? <==> online
    ensures r.Failure? ==> r.error == Offline
    ensures r.Success? ==> r.value == Search(Catalog, query)
  {
    match CheckOnline(online)
    case Failure(e) => Failure(e)
    case Success(_) => Success(Search(Catalog, query))
  }

  /** A query with nothing but whitespace returns the whole catalog, in its order. */
  lemma BlankQueryReturnsCatalog(cat: seq<Medicine>, query: string)
    requires AllWhitespace(query)
    ensures Search(cat, query) == cat
  {
    TrimEmptyIffAllWhitespace(query);
  }

  /** Any other query returns exactly the hits, in catalog order: `picks` are the positions of
      the kept entries, ascending, every hit's position is among them and no other is. */
  lemma SearchIsOrderedFilter(cat: seq<Medicine>, query: string) returns (picks: seq<nat>)
    requires !AllWhitespace(query)
    ensures |picks| == |Search(cat, query)|
    ensures Ascending(picks)
    ensures forall k :: 0 <= k < |picks| ==> picks[k] < |cat| && Search(cat, query)[k] == cat[picks[k]]
    ensures forall i :: 0 <= i < |cat| ==> (Hit(cat[i], query) <==> i in picks)
  {
    TrimEmptyIffAllWhitespace(query);
    var p := MatchesTerm(Lower(query));
    picks := FilterPositions(p, cat);
    forall i | 0 <= i < |cat| ensures p(cat[i]) <==> Hit(cat[i], query) {
    }
  }

  /** Every result of a non-blank search is a hit. */
  lemma SearchResultsAreHits(cat: seq<Medicine>, query: string)
    requires !AllWhitespace(query)
    ensures forall m :: m in Search(cat, query) ==> Hit(m, query)
  {
    var picks := SearchIsOrderedFilter(cat, query);
    forall m | m in Search(cat, query) ensures Hit(m, query) {
      var k :| 0 <= k < |Search(cat, query)| && Search(cat, query)[k] == m;
      assert picks[k] in picks;
    }
  }

  // ---------------------------------------------------------------------------
  // Lookup by id
  // ---------------------------------------------------------------------------

  function HasId(id: string): Medicine -> bool {
    (m: Medicine) => m.id == id
  }

  /** The first catalog entry with the given id, or nothing. */
  function FindById(cat: seq<Medicine>, id: string): (r: Option<Medicine>)
    ensures r.None? <==> forall i :: 0 <= i < |cat| ==> cat[i].id != id
    ensures r.Some? ==> exists i :: 0 <= i < |cat| && cat[i] == r.value && r.value.id == id
                          && forall j :: 0 <= j < i ==> cat[j].id != id
  {
    Find(HasId(id), cat)
  }

  /** `getMedicineById`: guarded lookup in the fixed catalog; an unknown id is not an error. */
  function GetMedicineById(online: bool, id: string): (r: Result<Option<Medicine>>)
    ensures r.Success? <==> online
    ensures r.Failure? ==> r.error == Offline
    ensures r.Success? ==> r.value == FindById(Catalog, id)
  {
    match CheckOnline(online)
    case Failure(e) => Failure(e)
    case Success(_) => Success(FindById(Catalog, id))
  }

  /** In a catalog without duplicate ids, looking up an entry's id yields that entry. */
  lemma FindByIdInverse(cat: seq<Medicine>, i: nat)
    requires UniqueIds(cat)
    requires i < |cat|
    ensures FindById(cat, cat[i].id) == Some(cat[i])
  {
    var r := FindById(cat, cat[i].id);
    var j :| 0 <= j < |cat| && cat[j] == r.value && r.value.id == cat[i].id
             && forall j' :: 0 <= j' < j ==> cat[j'].id != cat[i].id;
    assert j == i;
  }

  // ---------------------------------------------------------------------------
  // Advisor
  // ---------------------------------------------------------------------------

  /** The advisor's answer: the response text and the recommended catalog entries. */
  datatype Advice = Advice(response: string, recommended: seq<Medicine>)

  /** The `find` callback of the advisor, for an already lowered query. */
  function KeywordIn(term: string): AdvisorEntry -> bool {
    (e: AdvisorEntry) => Includes(term, e.keyword)
  }

  /** The `map` callback of the advisor: an id to its catalog entry, if any. */
  function Lookup(cat: seq<Medicine>): string -> Option<Medicine> {
    id => FindById(cat, id)
  }

  /** Recommended ids mapped to catalog entries, with ids the catalog lacks dropped. */
  function Resolve(cat: seq<Medicine>, ids: seq<string>): seq<Medicine> {
    FilterMap(Lookup(cat), ids)
  }

  const FallbackOpening: string := "I understand you're asking about \""
  const FallbackClosing: string :=
    "\". Based on your symptoms, I recommend consulting with a healthcare provider for proper diagnosis. In the meantime, you can search our pharmacy network for common medications that might help."

  /** The text returned when no keyword matches; it quotes the query as typed. */
  function FallbackResponse(query: string): string {
    FallbackOpening + query + FallbackClosing
  }

  /** The advisor: the first table entry whose keyword occurs in the lowered query answers. */
  function Advise(cat: seq<Medicine>, table: seq<AdvisorEntry>, query: string): Advice {
    match FindFirst(KeywordIn(Lower(query)), table)
    case Some(i) => Advice(table[i].response, Resolve(cat, table[i].recommended))
    case None => Advice(FallbackResponse(query), [])
  }

  /** `getAIResponse`: the guarded advisor over the fixed catalog and table. */
  function GetAIResponse(online: bool, query: string): (r: Result<Advice>)
    ensures r.Success? <==> online
    ensures r.Failure? ==> r.error == Offline
    ensures r.Success? ==> r.value == Advise(Catalog, AdvisorTable, query)
  {
    match CheckOnline(online)
    case Failure(e) => Failure(e)
    case Success(_) => Success(Advise(Catalog, AdvisorTable, query))
  }

  /** The entry answering is the first, in table order, whose keyword occurs in the lowered
      query, whatever later entries also match. */
  lemma AdviseFirstMatch(cat: seq<Medicine>, table: seq<AdvisorEntry>, query: string, i: nat)
    requires i < |table|
    requires Occurs(table[i].keyword, Lower(query))
    requires forall j :: 0 <= j < i ==> !Occurs(table[j].keyword, Lower(query))
    ensures Advise(cat, table, query) == Advice(table[i].response, Resolve(cat, table[i].recommended))
  {
    var p := KeywordIn(Lower(query));
    assert p(table[i]);
    assert FindFirst(p, table) == Some(i);
  }

  /** With no keyword occurring, the answer is the fallback text, which quotes the query
      verbatim, and nothing is recommended. */
  lemma AdviseFallback(cat: seq<Medicine>, table: seq<AdvisorEntry>, query: string)
    requires forall j :: 0 <= j < |table| ==> !Occurs(table[j].keyword, Lower(query))
    ensures Advise(cat, table, query) == Advice(FallbackResponse(query), [])
    ensures Occurs(query, Advise(cat, table, query).response)
  {
    var p := KeywordIn(Lower(query));
    assert forall j :: 0 <= j < |table| ==> !p(table[j]);
    OccursInMiddle(FallbackOpening, query, FallbackClosing);
  }

  /** The recommendations keep the table's id order and drop exactly the ids the catalog does
      not have: `picks` are the positions of the kept ids. */
  lemma ResolvePositions(cat: seq<Medicine>, ids: seq<string>) returns (picks: seq<nat>)
    ensures |picks| == |Resolve(cat, ids)|
    ensures Ascending(picks)
    ensures forall k :: 0 <= k < |picks| ==>
              && picks[k] < |ids| && FindById(cat, ids[picks[k]]).Some?
              && Resolve(cat, ids)[k] == FindById(cat, ids[picks[k]]).value
    ensures forall i :: 0 <= i < |ids| ==>
              ((exists j :: 0 <= j < |cat| && cat[j].id == ids[i]) <==> i in picks)
  {
    picks := FilterMapPositions(Lookup(cat), ids);
  }

  // ---------------------------------------------------------------------------
  // Generated ids
  // ---------------------------------------------------------------------------

  /** `Math.random().toString(36).substr(2, 9)`, given the base-36 rendering. */
  function RandomSuffix(rendered: string): (r: string)
    ensures |r| <= 9
    ensures |rendered| >= 2 ==> r == rendered[2..if |rendered| < 11 then |rendered| else 11]
    ensures |rendered| < 2 ==> r == []
  {
    Substr(rendered, 2, 9)
  }

  /** `${prefix}${tick}-${suffix}`. */
  function GeneratedId(prefix: string, tick: nat, suffix: string): string {
    prefix + NatToString(tick) + "-" + suffix
  }

  /** A generated id determines the clock reading and the random suffix it was built from:
      ids built from different readings or suffixes differ. */
  lemma GeneratedIdInjective(prefix: string, t1: nat, s1: string, t2: nat, s2: string)
    requires GeneratedId(prefix, t1, s1) == GeneratedId(prefix, t2, s2)
    ensures t1 == t2 && s1 == s2
  {
    var a, b := NatToString(t1), NatToString(t2);
    var x := GeneratedId(prefix, t1, s1);
    assert x[|prefix|..] == a + "-" + s1;
    assert x[|prefix|..] == b + "-" + s2;
    var u, v := a + "-" + s1, b + "-" + s2;
    DashAfterDigits(a, s1);
    DashAfterDigits(b, s2);
    assert |a| == |b|;
    assert a == u[..|a|] == v[..|b|] == b;
    NatToStringInjective(t1, t2);
    assert s1 == u[|a| + 1..] == v[|b| + 1..] == s2;
  }

  // ---------------------------------------------------------------------------
  // Reservation ledger
  // ---------------------------------------------------------------------------

  /** `reserveMedicine`: guarded; appends one confirmed reservation. The ids are not checked
      against the catalog and no stock is taken. An absent quantity means 1. */
  function ReserveMedicine(online: bool, store: Store, medicineId: string, pharmacyId: string,
                           quantity: Option<int>, clock: Clock, random: string): (c: Call<Reservation>)
    ensures c.result.Success? <==> online
    ensures !online ==> c.result.error == Offline && c.store == store
    ensures online ==> Items(c.store.reservations) == Items(store.reservations) + [c.result.value]
    ensures online ==> c.store.qualityReports == store.qualityReports
                       && c.store.medicineNotifications == store.medicineNotifications
  {
    match CheckOnline(online)
    case Failure(e) => Call(Failure(e), store)
    case Success(_) =>
      var r := Reservation(
        GeneratedId("RES-", clock.forId, RandomSuffix(random)),
        medicineId, pharmacyId,
        if quantity.Some? then quantity.value else 1,
        ConfirmedStatus,
        clock.forCreatedAt,
        clock.forExpiry + DayMs);
      Call(Success(r), store.(reservations := Push(store.reservations, r)))
  }

  /** `getUserReservations`: the stored reservations, empty when none were ever stored. */
  function GetUserReservations(store: Store): seq<Reservation> {
    Items(store.reservations)
  }

  /** A new reservation is confirmed, records the given ids and quantity (1 when absent), has
      the `RES-` id built from the id clock reading and the random suffix, is created at the
      creation reading and expires a day after the expiry reading; with a single clock reading
      that is exactly one day after creation, and with a monotone clock at least one day. */
  lemma ReservationRecord(store: Store, medicineId: string, pharmacyId: string,
                          quantity: Option<int>, clock: Clock, random: string)
    ensures var c := ReserveMedicine(true, store, medicineId, pharmacyId, quantity, clock, random);
      var r := c.result.value;
      && r.status == ConfirmedStatus
      && r.medicineId == medicineId && r.pharmacyId == pharmacyId
      && (quantity.None? ==> r.quantity == 1)
      && (quantity.Some? ==> r.quantity == quantity.value)
      && r.id == GeneratedId("RES-", clock.forId, RandomSuffix(random))
      && r.id[..4] == "RES-"
      && r.createdAt == clock.forCreatedAt
      && r.expiresAt == clock.forExpiry + DayMs
      && (SingleReading(clock) ==> r.expiresAt - r.createdAt == DayMs)
      && (Monotone(clock) ==> r.expiresAt - r.createdAt >= DayMs)
      && GetUserReservations(c.store)[|GetUserReservations(store)|] == r
  {
  }

  /** Before anything is stored both lists read as empty, and the first reservation made is
      then the only one listed. */
  lemma FirstReservation(medicineId: string, pharmacyId: string, quantity: Option<int>,
                         clock: Clock, random: string)
    ensures GetUserReservations(EmptyStore) == [] && GetUserReports(EmptyStore) == []
    ensures var c := ReserveMedicine(true, EmptyStore, medicineId, pharmacyId, quantity, clock, random);
      GetUserReservations(c.store) == [c.result.value] && GetUserReports(c.store) == []
  {
  }

  // ---------------------------------------------------------------------------
  // Quality report ledger
  // ---------------------------------------------------------------------------

  /** The caller's report object: the form fields, plus whichever of the keys `id`, `status`
      and `createdAt` the caller chose to include. */
  datatype ReportInput = ReportInput(
    fields: ReportFormData,
    id: Option<string>,
    status: Option<string>,
    createdAt: Option<string>)

  /** `{ id: generated, ...input, status: 'submitted', createdAt: now }`: a caller `id` replaces
      the generated one; the caller's `status` and `createdAt` are overwritten. */
  function MakeReport(input: ReportInput, clock: Clock, random: string): QualityReport {
    var generated := GeneratedId("QR-", clock.forId, RandomSuffix(random));
    QualityReport(
      if input.id.Some? then input.id.value else generated,
      input.fields,
      SubmittedStatus,
      clock.forCreatedAt)
  }

  /** `submitQualityReport`: guarded; appends one submitted report. It performs no validation
      of the fields. */
  function SubmitQualityReport(online: bool, store: Store, input: ReportInput, clock: Clock,
                               random: string): (c: Call<QualityReport>)
    ensures c.result.Success? <==> online
    ensures !online ==> c.result.error == Offline && c.store == store
    ensures online ==> Items(c.store.qualityReports) == Items(store.qualityReports) + [c.result.value]
    ensures online ==> c.store.reservations == store.reservations
                       && c.store.medicineNotifications == store.medicineNotifications
  {
    match CheckOnline(online)
    case Failure(e) => Call(Failure(e), store)
    case Success(_) =>
      var r := MakeReport(input, clock, random);
      Call(Success(r), store.(qualityReports := Push(store.qualityReports, r)))
  }

  /** `getUserReports`: the stored reports, empty when none were ever stored. */
  function GetUserReports(store: Store): seq<QualityReport> {
    Items(store.qualityReports)
  }

  /** A new report carries the caller's fields, status `submitted` and the creation reading
      whatever the caller put in `status` and `createdAt`; its id is the caller's when given,
      otherwise the `QR-` id built from the id clock reading and the random suffix. */
  lemma ReportRecord(input: ReportInput, clock: Clock, random: string)
    ensures var r := MakeReport(input, clock, random);
      && r.fields == input.fields
      && r.status == SubmittedStatus
      && r.createdAt == clock.forCreatedAt
      && (input.id.Some? ==> r.id == input.id.value)
      && (input.id.None? ==> r.id == GeneratedId("QR-", clock.forId, RandomSuffix(random)))
      && (input.id.None? ==> r.id[..3] == "QR-")
  {
  }

  /** Two inputs that agree on the fields and the id give the same report: the caller's
      `status` and `createdAt` never reach the record. */
  lemma CallerStatusIgnored(a: ReportInput, b: ReportInput, clock: Clock, random: string)
    requires a.fields == b.fields && a.id == b.id
    ensures MakeReport(a, clock, random) == MakeReport(b, clock, random)
  {
  }

  /** After a successful submission the listed reports grow by exactly one, the earlier ones
      unchanged and in order, the new one last. */
  lemma ReportsGrowByOne(store: Store, input: ReportInput, clock: Clock, random: string)
    ensures var c := SubmitQualityReport(true, store, input, clock, random);
      && |GetUserReports(c.store)| == |GetUserReports(store)| + 1
      && GetUserReports(c.store)[..|GetUserReports(store)|] == GetUserReports(store)
      && GetUserReports(c.store)[|GetUserReports(store)|] == c.result.value
  {
  }

  // ---------------------------------------------------------------------------
  // The guard, across operations
  // ---------------------------------------------------------------------------

  /** Offline, every guarded operation fails with the connectivity error and no ledger changes;
      the two listing functions are not guarded and keep answering from the store. */
  lemma OfflineFailsEverywhere(store: Store, query: string, id: string, medicineId: string,
                               pharmacyId: string, quantity: Option<int>, input: ReportInput,
                               clock: Clock, random: string)
    ensures SearchMedicines(false, query) == Failure(Offline)
    ensures GetMedicineById(false, id) == Failure(Offline)
    ensures GetAIResponse(false, query) == Failure(Offline)
    ensures ReserveMedicine(false, store, medicineId, pharmacyId, quantity, clock, random)
            == Call(Failure(Offline), store)
    ensures SubmitQualityReport(false, store, input, clock, random) == Call(Failure(Offline), store)
  {
  }
}
