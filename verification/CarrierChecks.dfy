/** The checks of `validateCarrierDocument` on a normalised document: which apply, which are met, and what it
  * means that all are. */
module CarrierChecks {
  import opened Options
  import opened CarrierText
  import Text
  import opened CarrierDocument
  import opened CarrierTotals

  datatype Snapshot = Snapshot(profile: Value, packages: seq<Value>, containers: seq<Value>)

  /** Everything the checks read. */
  datatype Case = Case(h: Host, profile: Value, totals: Totals, hasContainers: bool, containers: Value, seals: Value,
                       document: Document, evidence: Value)

  function Numbers(containers: seq<Value>, key: string): Value {
    List(seq(|containers|, i requires 0 <= i < |containers| => Get(containers[i], key)))
  }

  function CaseOf(h: Host, s: Snapshot, raw: RawDocument): Case {
    Case(h, s.profile, TotalsOf(h, s.packages), s.containers != [],
         Numbers(s.containers, "containerNumber"), Numbers(s.containers, "sealNumber"),
         Normalize(h, raw), Or(Get(raw.rest, "evidence"), raw.rest))
  }

  // ----- reading a case -----

  function ValueAt(c: Case, f: Field): Value {
    At(c.document, f)
  }

  function Word(c: Case, f: Field): string {
    if ValueAt(c, f).Str? then ValueAt(c, f).text else ""
  }

  function FigureAt(c: Case, f: Field): Figure {
    if ValueAt(c, f).Num? then Some(ValueAt(c, f).value) else None
  }

  function Kind(c: Case): string {
    Word(c, DocumentType)
  }

  predicate Positive(x: Figure) {
    x.Some? && x.value > 0.0
  }

  predicate Integral(x: Figure) {
    x.Some? && x.value.Floor as real == x.value
  }

  /** The one transport mode of a known document type. */
  function ModeFor(kind: string): Option<string> {
    if kind == "bill_of_lading" then Some("sea")
    else if kind == "fbl" then Some("multimodal")
    else if kind == "air_waybill" then Some("air")
    else if kind == "cmr" then Some("road")
    else if kind == "cim" then Some("rail")
    else None
  }

  predicate KnownMode(mode: string) {
    mode == "sea" || mode == "air" || mode == "road" || mode == "rail" || mode == "multimodal"
  }

  predicate EvidenceFits(kind: string, evidence: string) {
    if kind == "bill_of_lading" then evidence == "bill_of_lading" || evidence == "carrier_bill_of_lading"
    else if kind == "fbl" then evidence == "fbl" || evidence == "carrier_fbl"
    else if kind == "air_waybill" then evidence == "air_waybill" || evidence == "airway_bill" || evidence == "awb"
    else if kind == "cmr" then evidence == "cmr" || evidence == "carrier_cmr"
    else if kind == "cim" then evidence == "cim" || evidence == "carrier_cim"
    else false
  }

  predicate Confirmed(status: string) {
    status == "operator_confirmed" || status == "issuer_verified"
  }

  predicate KnownOriginal(status: string) {
    status == "original" || status == "copy" || status == "electronic" || status == "sea_waybill"
    || status == "non_negotiable" || status == "unknown"
  }

  function EvidenceWord(c: Case): string {
    Text.Lower(TextOf(c.h, Or(Get(c.evidence, "type"), Get(c.evidence, "evidenceType"))))
  }

  predicate HexDigest(s: string) {
    |s| == 64 && forall i :: 0 <= i < |s| ==> '0' <= s[i] <= '9' || 'a' <= s[i] <= 'f' || 'A' <= s[i] <= 'F'
  }

  predicate StoredFile(c: Case) {
    HexDigest(TextOf(c.h, Get(c.evidence, "checksumSha256"))) && Positive(NumberOf(c.h, Get(c.evidence, "fileSizeBytes")))
  }

  /** `replace(/\D/g, '')`. */
  function DigitsOf(s: string): string {
    if s == "" then "" else (if '0' <= s[0] <= '9' then [s[0]] else "") + DigitsOf(s[1..])
  }

  function Abs(x: real): real {
    if x < 0.0 then -x else x
  }

  predicate CloseEnough(actual: real, expected: real, absolute: real, relative: real) {
    var scaled := Abs(expected) * relative;
    Abs(actual - expected) <= if absolute < scaled then scaled else absolute
  }

  /** The texts that the shipment profile may fix. */
  datatype Item = DocumentNo | Carrier | Mode | ExporterName | ConsigneeName | Loading | Discharge | Delivery

  function Actual(c: Case, item: Item): Value {
    match item
    case DocumentNo => ValueAt(c, DocumentNumber)
    case Carrier => ValueAt(c, IssuerName)
    case Mode => ValueAt(c, TransportMode)
    case ExporterName => Get(ValueAt(c, Shipper), "name")
    case ConsigneeName => Get(ValueAt(c, Consignee), "name")
    case Loading => ValueAt(c, PlaceOfLoading)
    case Discharge => ValueAt(c, PlaceOfDischarge)
    case Delivery => ValueAt(c, PlaceOfDelivery)
  }

  function Expected(c: Case, item: Item): Value {
    match item
    case DocumentNo => Get(c.profile, "billOfLadingNo")
    case Carrier => Get(c.profile, "carrierName")
    case Mode => Get(c.profile, "transportMode")
    case ExporterName => Get(Get(c.profile, "exporter"), "name")
    case ConsigneeName => Get(Get(c.profile, "consignee"), "name")
    case Loading => Get(c.profile, "portOfLoading")
    case Discharge => Get(c.profile, "portOfDischarge")
    case Delivery => Get(c.profile, "placeOfDelivery")
  }

  // ----- what each check says -----

  datatype Code =
    | TypeKnown | ModeKnown | ModeFits | Needed(f: Field) | ShipperNamed | ConsigneeNamed | Authentic | OriginalStated
    | CountPositive | GrossPositive | MeasurementGiven | Matches(item: Item)
    | CountAgrees | GrossAgrees | MeasurementAgrees | ContainersAgree | SealsAgree
    | WaybillNumber | EvidenceTyped | EvidenceStored

  datatype Status = Ready | Missing | Invalid

  datatype Check = Check(code: Code, status: Status)

  /** The fields that must not be empty. */
  predicate Required(kind: string, f: Field) {
    match f
    case DocumentNumber | IssuerName | IssueDate | IssuePlace | GoodsDescription | PackageType | MarksAndNumbers
       | AuthenticationMethod | AuthenticationReference => true
    case VesselName | VoyageNumber | PlaceOfDischarge | FreightTerms => kind == "bill_of_lading" || kind == "fbl"
    case FlightNumber => kind == "air_waybill"
    case VehicleRegistration => kind == "cmr"
    case TrainNumber => kind == "cim"
    case PlaceOfLoading => ModeFor(kind).Some?
    case PlaceOfDelivery => kind == "air_waybill" || kind == "cmr" || kind == "cim"
    case _ => false
  }

  predicate Applies(c: Case, code: Code) {
    match code
    case ModeFits => ModeFor(Kind(c)).Some?
    case Needed(f) => Required(Kind(c), f)
    case Matches(item) => TextOf(c.h, Expected(c, item)) != ""
    case CountAgrees => Positive(c.totals.count) && Integral(FigureAt(c, PackageCount))
    case GrossAgrees => Positive(c.totals.gross) && FigureAt(c, GrossWeightKg).Some?
    case MeasurementAgrees => Positive(c.totals.cbm) && FigureAt(c, MeasurementCbm).Some?
    case ContainersAgree | SealsAgree => c.hasContainers
    case WaybillNumber => Kind(c) == "air_waybill"
    case _ => true
  }

  /** Within an absolute distance, or within a fraction of the expected amount. */
  predicate Near(actual: Figure, expected: Figure, absolute: real, fraction: real) {
    && actual.Some? && expected.Some?
    && (-absolute <= actual.value - expected.value <= absolute
        || -(expected.value * fraction) <= actual.value - expected.value <= expected.value * fraction)
  }

  ghost predicate Met(c: Case, code: Code) {
    match code
    case TypeKnown => ModeFor(Kind(c)).Some?
    case ModeKnown => KnownMode(Word(c, TransportMode))
    case ModeFits => ModeFor(Kind(c)) == Some(Word(c, TransportMode))
    case Needed(f) => TextOf(c.h, ValueAt(c, f)) != ""
    case ShipperNamed => TextOf(c.h, Get(ValueAt(c, Shipper), "name")) != ""
    case ConsigneeNamed => TextOf(c.h, Get(ValueAt(c, Consignee), "name")) != ""
    case Authentic => Confirmed(Word(c, AuthenticityStatus))
    case OriginalStated => KnownOriginal(Word(c, OriginalStatus)) && Word(c, OriginalStatus) != "unknown"
    case CountPositive => Integral(FigureAt(c, PackageCount)) && Positive(FigureAt(c, PackageCount))
    case GrossPositive => Positive(FigureAt(c, GrossWeightKg))
    case MeasurementGiven => FigureAt(c, MeasurementCbm).Some? && FigureAt(c, MeasurementCbm).value >= 0.0
    case Matches(item) => Comparable(c.h, Actual(c, item)) == Comparable(c.h, Expected(c, item))
    case CountAgrees => FigureAt(c, PackageCount) == c.totals.count
    case GrossAgrees => Near(FigureAt(c, GrossWeightKg), c.totals.gross, 0.01, 0.001)
    case MeasurementAgrees => Near(FigureAt(c, MeasurementCbm), c.totals.cbm, 0.001, 0.01)
    case ContainersAgree => TextSet(c.h, ValueAt(c, ContainerNumbers)) == TextSet(c.h, c.containers)
    case SealsAgree => TextSet(c.h, ValueAt(c, SealNumbers)) == TextSet(c.h, c.seals)
    case WaybillNumber => |DigitsOf(Word(c, DocumentNumber))| == 11
    case EvidenceTyped => EvidenceFits(Kind(c), EvidenceWord(c))
    case EvidenceStored => StoredFile(c)
  }

  /** Every requirement of the list that applies is met. */
  ghost predicate Satisfied(c: Case, codes: seq<Code>) {
    forall code :: code in codes && Applies(c, code) ==> Met(c, code)
  }

  ghost function StatusOf(c: Case, code: Code): Status {
    if Met(c, code) then Ready
    else if code.Needed? || code.ShipperNamed? || code.ConsigneeNamed? || code.MeasurementGiven? then Missing
    else Invalid
  }

  /** The checks of those codes that apply, in order. */
  ghost function Report(c: Case, codes: seq<Code>): seq<Check> {
    if codes == [] then []
    else
      var last := codes[|codes| - 1];
      Report(c, codes[..|codes| - 1]) + if Applies(c, last) then [Check(last, StatusOf(c, last))] else []
  }

  const KIND_CODES := [TypeKnown, ModeKnown, ModeFits]
  const ALWAYS_CODES := [Needed(DocumentNumber), Needed(IssuerName), Needed(IssueDate), Needed(IssuePlace), ShipperNamed,
                        ConsigneeNamed, Needed(GoodsDescription), Needed(PackageType), Needed(MarksAndNumbers),
                        Needed(AuthenticationMethod), Needed(AuthenticationReference)]
  const FIGURE_CODES := [Authentic, OriginalStated, CountPositive, GrossPositive, MeasurementGiven]
  const PROFILE_CODES := [Matches(DocumentNo), Matches(Carrier), Matches(Mode), Matches(ExporterName), Matches(ConsigneeName),
                         Matches(Loading), Matches(Discharge), Matches(Delivery)]
  const LEDGER_CODES := [CountAgrees, GrossAgrees, MeasurementAgrees, ContainersAgree, SealsAgree]
  const EVIDENCE_CODES := [EvidenceTyped, EvidenceStored]

  const SEA_CODES := [Needed(VesselName), Needed(VoyageNumber), Needed(PlaceOfLoading), Needed(PlaceOfDischarge),
                     Needed(FreightTerms)]
  const AIR_CODES := [Needed(FlightNumber), Needed(PlaceOfLoading), Needed(PlaceOfDelivery), WaybillNumber]
  const ROAD_CODES := [Needed(VehicleRegistration), Needed(PlaceOfLoading), Needed(PlaceOfDelivery)]
  const RAIL_CODES := [Needed(TrainNumber), Needed(PlaceOfLoading), Needed(PlaceOfDelivery)]

  function TransportCodes(kind: string): seq<Code> {
    if kind == "bill_of_lading" || kind == "fbl" then SEA_CODES
    else if kind == "air_waybill" then AIR_CODES
    else if kind == "cmr" then ROAD_CODES
    else if kind == "cim" then RAIL_CODES
    else []
  }

  ghost function AllCodes(kind: string): seq<Code> {
    KIND_CODES + ALWAYS_CODES + FIGURE_CODES + PROFILE_CODES + LEDGER_CODES + TransportCodes(kind) + EVIDENCE_CODES
  }

  lemma ReportStep(c: Case, codes: seq<Code>, code: Code)
    ensures Report(c, codes + [code]) == Report(c, codes) + if Applies(c, code) then [Check(code, StatusOf(c, code))] else []
  {
    assert (codes + [code])[..|codes|] == codes;
  }

  /** The report holds the checks of the codes that apply, each with its status, and no other. */
  lemma {:induction false} ReportHas(c: Case, codes: seq<Code>, check: Check)
    ensures check in Report(c, codes) <==> check.code in codes && Applies(c, check.code) && check.status == StatusOf(c, check.code)
    decreases |codes|
  {
    hide Applies, StatusOf;
    if codes != [] {
      var n := |codes| - 1;
      ReportHas(c, codes[..n], check);
      assert codes == codes[..n] + [codes[n]];
    }
  }

  lemma {:induction false} ReportSkip(c: Case, codes: seq<Code>, more: seq<Code>)
    requires forall code :: code in more ==> !Applies(c, code)
    ensures Report(c, codes + more) == Report(c, codes)
    decreases |more|
  {
    hide Report, Applies;
    if more == [] {
      assert codes + more == codes;
    } else {
      var n := |more| - 1;
      ReportSkip(c, codes, more[..n]);
      ReportStep(c, codes + more[..n], more[n]);
      assert codes + more[..n] + [more[n]] == codes + more;
    }
  }

  /** No blocking check is open; every check is blocking. */
  predicate AllReady(checks: seq<Check>) {
    forall i :: 0 <= i < |checks| ==> checks[i].status == Ready
  }

  lemma ReadyStep(checks: seq<Check>, last: Check)
    ensures AllReady(checks + [last]) <==> AllReady(checks) && last.status == Ready
  {
    assert (checks + [last])[|checks|] == last;
    assert forall i :: 0 <= i < |checks| ==> (checks + [last])[i] == checks[i];
  }

  lemma {:induction false} AllReadyIff(c: Case, codes: seq<Code>)
    ensures AllReady(Report(c, codes)) <==> Satisfied(c, codes)
    decreases |codes|
  {
    hide Applies, Met;
    if codes != [] {
      var n := |codes| - 1;
      var report := Report(c, codes[..n]);
      AllReadyIff(c, codes[..n]);
      assert codes == codes[..n] + [codes[n]];
      assert forall code :: code in codes <==> code in codes[..n] || code == codes[n];
      ReadyStep(report, Check(codes[n], StatusOf(c, codes[n])));
      assert report + [] == report;
    }
  }

  // ----- what passing means -----

  ghost predicate Acceptable(c: Case) {
    && ModeFor(Kind(c)) == Some(Word(c, TransportMode))
    && (forall f: Field :: Required(Kind(c), f) ==> TextOf(c.h, ValueAt(c, f)) != "")
    && (forall party :: party in [Shipper, Consignee] ==> TextOf(c.h, Get(ValueAt(c, party), "name")) != "")
    && Confirmed(Word(c, AuthenticityStatus))
    && KnownOriginal(Word(c, OriginalStatus)) && Word(c, OriginalStatus) != "unknown"
    && (forall item: Item :: Agrees(c, item))
    && FiguresAgree(c)
    && (c.hasContainers ==>
          && TextSet(c.h, ValueAt(c, ContainerNumbers)) == TextSet(c.h, c.containers)
          && TextSet(c.h, ValueAt(c, SealNumbers)) == TextSet(c.h, c.seals))
    && (Kind(c) == "air_waybill" ==> |DigitsOf(Word(c, DocumentNumber))| == 11)
    && EvidenceFits(Kind(c), EvidenceWord(c)) && StoredFile(c)
  }

  /** The document repeats what the profile says. */
  ghost predicate Agrees(c: Case, item: Item) {
    TextOf(c.h, Expected(c, item)) == "" || Comparable(c.h, Actual(c, item)) == Comparable(c.h, Expected(c, item))
  }

  /** The figures are given, and agree with every total that is known. */
  ghost predicate FiguresAgree(c: Case) {
    var count, gross, cbm := FigureAt(c, PackageCount), FigureAt(c, GrossWeightKg), FigureAt(c, MeasurementCbm);
    && Integral(count) && count.value > 0.0 && (Positive(c.totals.count) ==> count == c.totals.count)
    && gross.Some? && gross.value > 0.0 && (Positive(c.totals.gross) ==> Near(gross, c.totals.gross, 0.01, 0.001))
    && cbm.Some? && cbm.value >= 0.0 && (Positive(c.totals.cbm) ==> Near(cbm, c.totals.cbm, 0.001, 0.01))
  }

  lemma SatisfiedBoth(c: Case, some: seq<Code>, more: seq<Code>)
    ensures Satisfied(c, some + more) <==> Satisfied(c, some) && Satisfied(c, more)
  {
    hide Applies, Met;
    assert forall code :: code in some + more <==> code in some || code in more;
  }

  lemma KindMeans(c: Case)
    ensures Satisfied(c, KIND_CODES) <==> ModeFor(Kind(c)) == Some(Word(c, TransportMode))
  {
    assert TypeKnown in KIND_CODES && ModeKnown in KIND_CODES && ModeFits in KIND_CODES;
  }

  ghost predicate RequiredFilled(c: Case) {
    && (forall f: Field :: Required(Kind(c), f) ==> TextOf(c.h, ValueAt(c, f)) != "")
    && (forall party :: party in [Shipper, Consignee] ==> TextOf(c.h, Get(ValueAt(c, party), "name")) != "")
    && (Kind(c) == "air_waybill" ==> |DigitsOf(Word(c, DocumentNumber))| == 11)
  }

  lemma AlwaysAsked(kind: string, code: Code)
    ensures code in ALWAYS_CODES ==> (code.Needed? && Required(kind, code.f)) || code == ShipperNamed || code == ConsigneeNamed
    ensures code == ShipperNamed || code == ConsigneeNamed ==> code in ALWAYS_CODES
  {}

  lemma TransportAsked(kind: string, code: Code)
    ensures code in TransportCodes(kind) ==>
      (code.Needed? && Required(kind, code.f)) || (code == WaybillNumber && kind == "air_waybill")
    ensures code == WaybillNumber && kind == "air_waybill" ==> code in TransportCodes(kind)
  {}

  lemma RequiredIsAsked(kind: string, f: Field)
    requires Required(kind, f)
    ensures Needed(f) in ALWAYS_CODES || Needed(f) in TransportCodes(kind)
  {}

  lemma RequiredMeans(c: Case)
    ensures Satisfied(c, ALWAYS_CODES) && Satisfied(c, TransportCodes(Kind(c))) <==> RequiredFilled(c)
  {
    hide Required, ValueAt, Word, Kind, DigitsOf, TextOf, ALWAYS_CODES, TransportCodes;
    var kind := Kind(c);
    if Satisfied(c, ALWAYS_CODES) && Satisfied(c, TransportCodes(kind)) {
      forall f: Field | Required(kind, f) ensures TextOf(c.h, ValueAt(c, f)) != "" {
        RequiredIsAsked(kind, f);
        assert Applies(c, Needed(f)) && Met(c, Needed(f));
      }
      AlwaysAsked(kind, ShipperNamed);
      AlwaysAsked(kind, ConsigneeNamed);
      TransportAsked(kind, WaybillNumber);
      assert Met(c, ShipperNamed) && Met(c, ConsigneeNamed);
      assert kind == "air_waybill" ==> Met(c, WaybillNumber);
    }
    if RequiredFilled(c) {
      assert Shipper in [Shipper, Consignee] && Consignee in [Shipper, Consignee];
      forall code | (code in ALWAYS_CODES || code in TransportCodes(kind)) && Applies(c, code) ensures Met(c, code) {
        AlwaysAsked(kind, code);
        TransportAsked(kind, code);
      }
    }
  }

  lemma ProfileIsAsked(item: Item)
    ensures Matches(item) in PROFILE_CODES
  {
    match item case _ =>
  }

  lemma ProfileMeans(c: Case)
    ensures Satisfied(c, PROFILE_CODES) <==> forall item: Item :: Agrees(c, item)
  {
    hide Actual, Expected, TextOf, Comparable;
    if Satisfied(c, PROFILE_CODES) {
      forall item: Item ensures Agrees(c, item) {
        ProfileIsAsked(item);
        assert Applies(c, Matches(item)) ==> Met(c, Matches(item));
      }
    }
    if forall item: Item :: Agrees(c, item) {
      forall code | code in PROFILE_CODES && Applies(c, code) ensures Met(c, code) {
        assert code.Matches? && Agrees(c, code.item);
      }
    }
  }

  lemma FiguresMean(c: Case)
    ensures Satisfied(c, FIGURE_CODES) && Satisfied(c, LEDGER_CODES) <==>
      && Confirmed(Word(c, AuthenticityStatus))
      && KnownOriginal(Word(c, OriginalStatus)) && Word(c, OriginalStatus) != "unknown"
      && FiguresAgree(c)
      && (c.hasContainers ==> Met(c, ContainersAgree) && Met(c, SealsAgree))
  {
    hide Word, FigureAt, Confirmed, KnownOriginal, Near, TextSet;
    FigureCodesAre(c);
    LedgerCodesAre(c);
    hide Satisfied;
  }

  lemma FigureCodesAre(c: Case)
    ensures Satisfied(c, FIGURE_CODES) <==>
      Met(c, Authentic) && Met(c, OriginalStated) && Met(c, CountPositive) && Met(c, GrossPositive) && Met(c, MeasurementGiven)
  {
    hide Met;
    assert Authentic in FIGURE_CODES && OriginalStated in FIGURE_CODES && CountPositive in FIGURE_CODES
      && GrossPositive in FIGURE_CODES && MeasurementGiven in FIGURE_CODES;
  }

  lemma LedgerCodesAre(c: Case)
    ensures Satisfied(c, LEDGER_CODES) <==>
      && (Applies(c, CountAgrees) ==> Met(c, CountAgrees)) && (Applies(c, GrossAgrees) ==> Met(c, GrossAgrees))
      && (Applies(c, MeasurementAgrees) ==> Met(c, MeasurementAgrees))
      && (Applies(c, ContainersAgree) ==> Met(c, ContainersAgree)) && (Applies(c, SealsAgree) ==> Met(c, SealsAgree))
  {
    hide Met, Applies;
    assert CountAgrees in LEDGER_CODES && GrossAgrees in LEDGER_CODES && MeasurementAgrees in LEDGER_CODES
      && ContainersAgree in LEDGER_CODES && SealsAgree in LEDGER_CODES;
  }

  lemma EvidenceMeans(c: Case)
    ensures Satisfied(c, EVIDENCE_CODES) <==> EvidenceFits(Kind(c), EvidenceWord(c)) && StoredFile(c)
  {
    hide EvidenceFits, EvidenceWord, StoredFile;
    assert EvidenceTyped in EVIDENCE_CODES && EvidenceStored in EVIDENCE_CODES;
  }

  /** Every applicable check is met exactly when the document is acceptable. */
  lemma AcceptableIff(c: Case)
    ensures Acceptable(c) <==> Satisfied(c, AllCodes(Kind(c)))
  {
    SatisfiedGroups(c);
    KindMeans(c);
    RequiredMeans(c);
    FiguresMean(c);
    ProfileMeans(c);
    EvidenceMeans(c);
    hide Satisfied, Applies, Agrees, FiguresAgree, EvidenceFits, StoredFile, Confirmed, KnownOriginal, Required, TextSet;
  }

  lemma SatisfiedGroups(c: Case)
    ensures Satisfied(c, AllCodes(Kind(c))) <==>
      && Satisfied(c, KIND_CODES) && Satisfied(c, ALWAYS_CODES) && Satisfied(c, FIGURE_CODES) && Satisfied(c, PROFILE_CODES)
      && Satisfied(c, LEDGER_CODES) && Satisfied(c, TransportCodes(Kind(c))) && Satisfied(c, EVIDENCE_CODES)
  {
    hide Applies, Met;
    SatisfiedBoth(c, KIND_CODES, ALWAYS_CODES);
    SatisfiedBoth(c, KIND_CODES + ALWAYS_CODES, FIGURE_CODES);
    SatisfiedBoth(c, KIND_CODES + ALWAYS_CODES + FIGURE_CODES, PROFILE_CODES);
    SatisfiedBoth(c, KIND_CODES + ALWAYS_CODES + FIGURE_CODES + PROFILE_CODES, LEDGER_CODES);
    SatisfiedBoth(c, KIND_CODES + ALWAYS_CODES + FIGURE_CODES + PROFILE_CODES + LEDGER_CODES, TransportCodes(Kind(c)));
    SatisfiedBoth(c, KIND_CODES + ALWAYS_CODES + FIGURE_CODES + PROFILE_CODES + LEDGER_CODES + TransportCodes(Kind(c)), EVIDENCE_CODES);
  }

  /** No check against the profile is open exactly when the document agrees with every item of it. */
  lemma {:induction false} ProfileChecksIff(c: Case)
    ensures (forall check :: check in Report(c, AllCodes(Kind(c))) && check.code.Matches? ==> check.status == Ready)
      <==> forall item: Item :: Agrees(c, item)
  {
    hide Report, AllCodes, Kind, Actual, Expected, TextOf, Comparable;
    var checks := Report(c, AllCodes(Kind(c)));
    if forall check :: check in checks && check.code.Matches? ==> check.status == Ready {
      forall item: Item ensures Agrees(c, item) {
        ProfileIsAsked(item);
        InAllCodes(Kind(c), Matches(item));
        ReportHas(c, AllCodes(Kind(c)), Check(Matches(item), StatusOf(c, Matches(item))));
      }
    }
    if forall item: Item :: Agrees(c, item) {
      forall check | check in checks && check.code.Matches? ensures check.status == Ready {
        ReportHas(c, AllCodes(Kind(c)), check);
        assert Agrees(c, check.code.item);
      }
    }
  }

  lemma {:induction false} InAllCodes(kind: string, code: Code)
    requires code in PROFILE_CODES
    ensures code in AllCodes(kind)
  {}
}
