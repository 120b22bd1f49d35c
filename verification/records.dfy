/** The entities of the medicine service and its fixed reference data: the five-medicine
    catalog and the four-entry advisor table. */
module Records {

  datatype StockLevel = High | Medium | Low

  /** One pharmacy's stock of one medicine. The rating is kept in tenths (4.8 is 48);
      distance is a display string. */
  datatype PharmacyStock = PharmacyStock(
    id: string,
    name: string,
    distance: string,
    ratingTenths: nat,
    stockCount: nat,
    address: string,
    phone: string)

  /** A catalog entry. Price and expiry date are display strings. */
  datatype Medicine = Medicine(
    id: string,
    name: string,
    genericName: string,
    strength: string,
    form: string,
    price: string,
    inStock: bool,
    stockLevel: StockLevel,
    description: string,
    manufacturer: string,
    expiryDate: string,
    pharmacies: seq<PharmacyStock>)

  /** A row of the advisor table: the keyword looked for, the canned answer, the ids it recommends. */
  datatype AdvisorEntry = AdvisorEntry(keyword: string, response: string, recommended: seq<string>)

  /** A stored reservation. Times are milliseconds since the epoch. */
  datatype Reservation = Reservation(
    id: string,
    medicineId: string,
    pharmacyId: string,
    quantity: int,
    status: string,
    createdAt: nat,
    expiresAt: nat)

  /** The fields of the quality-report form, which are also the fields a report carries. */
  datatype ReportFormData = ReportFormData(
    medicineName: string,
    pharmacyName: string,
    location: string,
    issueType: string,
    description: string,
    anonymous: bool,
    contactInfo: string)

  /** A stored quality report: the caller's fields plus the generated id, status and time. */
  datatype QualityReport = QualityReport(id: string, fields: ReportFormData, status: string, createdAt: nat)

  /** A stored WhatsApp availability notification request. */
  datatype Notification = Notification(
    id: string,
    medicineName: string,
    phoneNumber: string,
    createdAt: nat,
    status: string)

  /** The clock readings one call takes, in the order it takes them: one for the generated id,
      one for `createdAt`, one for the expiry (the last is used by reservations only). */
  datatype Clock = Clock(forId: nat, forCreatedAt: nat, forExpiry: nat)

  /** All readings coincide: the clock did not advance during the call. */
  predicate SingleReading(c: Clock) {
    c.forId == c.forCreatedAt == c.forExpiry
  }

  /** The readings never go backwards. */
  predicate Monotone(c: Clock) {
    c.forId <= c.forCreatedAt <= c.forExpiry
  }

  const ConfirmedStatus: string := "confirmed"
  const SubmittedStatus: string := "submitted"
  const ActiveStatus: string := "active"

  /** The consistency rule between `inStock` and the stock records: in stock exactly when some
      listed pharmacy has a unit. */
  predicate StockConsistent(m: Medicine) {
    m.inStock <==> exists p :: p in m.pharmacies && p.stockCount > 0
  }

  /** No two catalog entries share an id. */
  predicate UniqueIds(cat: seq<Medicine>) {
    forall i, j :: 0 <= i < j < |cat| ==> cat[i].id != cat[j].id
  }

  const Paracetamol := Medicine(
    "1", "Paracetamol", "Acetaminophen", "500mg", "Tablets", "2,500 FC", true, High,
    "Pain relief and fever reducer", "Pharma Plus", "2025-12-31",
    [ PharmacyStock("1", "Pharmacie Centrale", "0.8 km", 48, 45, "Avenue de la Paix, Goma", "+243 123 456 789"),
      PharmacyStock("2", "Pharmacie Sainte-Anne", "1.2 km", 46, 23, "Rue du March\U{00E9}, Goma", "+243 987 654 321"),
      PharmacyStock("3", "Pharmacie Moderne", "2.1 km", 47, 12, "Boulevard Kanyamuhanga, Goma", "+243 456 789 123") ])

  const Amoxicillin := Medicine(
    "2", "Amoxicillin", "Amoxicillin Trihydrate", "250mg", "Capsules", "8,000 FC", true, Medium,
    "Antibiotic for bacterial infections", "MediCongo", "2025-08-15",
    [ PharmacyStock("1", "Pharmacie Centrale", "0.8 km", 48, 8, "Avenue de la Paix, Goma", "+243 123 456 789"),
      PharmacyStock("4", "Pharmacie du March\U{00E9}", "1.5 km", 45, 15, "March\U{00E9} Central, Bukavu", "+243 321 654 987") ])

  const Ibuprofen := Medicine(
    "3", "Ibuprofen", "Ibuprofen", "400mg", "Tablets", "3,200 FC", false, Low,
    "Anti-inflammatory and pain relief", "HealthCare Ltd", "2024-06-30", [])

  const Aspirin := Medicine(
    "4", "Aspirin", "Acetylsalicylic Acid", "100mg", "Tablets", "1,800 FC", true, High,
    "Blood thinner and pain relief", "Pharma Plus", "2026-03-20",
    [ PharmacyStock("2", "Pharmacie Sainte-Anne", "1.2 km", 46, 67, "Rue du March\U{00E9}, Goma", "+243 987 654 321"),
      PharmacyStock("5", "Pharmacie Nouvelle", "3.2 km", 44, 34, "Quartier Himbi, Bukavu", "+243 789 123 456") ])

  const Metformin := Medicine(
    "5", "Metformin", "Metformin Hydrochloride", "500mg", "Tablets", "12,500 FC", true, Medium,
    "Diabetes medication", "DiabetCare", "2025-11-10",
    [ PharmacyStock("1", "Pharmacie Centrale", "0.8 km", 48, 19, "Avenue de la Paix, Goma", "+243 123 456 789") ])

  /** The fixed catalog, in its insertion order. */
  const Catalog: seq<Medicine> := [Paracetamol, Amoxicillin, Ibuprofen, Aspirin, Metformin]

  /** The advisor's canned answers. */
  const HeadacheResponse: string :=
    "For headache relief, I recommend Paracetamol 500mg or Ibuprofen 400mg. Paracetamol is gentler on the stomach and suitable for most people. Take 1-2 tablets every 4-6 hours as needed."

  const FeverResponse: string :=
    "For fever reduction, Paracetamol is very effective and safe. Take 500mg every 4-6 hours. Stay hydrated and rest. If fever persists above 39\U{00B0}C or lasts more than 3 days, consult a doctor."

  const InfectionResponse: string :=
    "For bacterial infections, Amoxicillin is commonly prescribed. However, antibiotics should only be used under medical supervision. Please consult a healthcare provider for proper diagnosis and dosage."

  const DiabetesResponse: string :=
    "For Type 2 diabetes management, Metformin is often the first-line treatment. It helps control blood sugar levels. This medication requires regular monitoring and should be prescribed by a doctor."

  /** The advisor table, in the order it is searched. */
  const AdvisorTable: seq<AdvisorEntry> := [
    AdvisorEntry("headache", HeadacheResponse, ["1", "3"]),
    AdvisorEntry("fever", FeverResponse, ["1"]),
    AdvisorEntry("infection", InfectionResponse, ["2"]),
    AdvisorEntry("diabetes", DiabetesResponse, ["5"])
  ]

  /** The catalog's ids are distinct and every entry's `inStock` agrees with its stock records. */
  lemma CatalogWellFormed()
    ensures |Catalog| == 5
    ensures UniqueIds(Catalog)
    ensures forall i :: 0 <= i < |Catalog| ==> StockConsistent(Catalog[i])
  {
    assert Paracetamol.pharmacies[0].stockCount > 0;
    assert Amoxicillin.pharmacies[0].stockCount > 0;
    assert Aspirin.pharmacies[0].stockCount > 0;
    assert Metformin.pharmacies[0].stockCount > 0;
  }
}
