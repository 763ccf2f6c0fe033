/** When a carrier document passes, said about the texts and figures that the client sends and the shipment
  * has, without the normal form and without the list of checks. */
module CarrierRules {
  import opened Options
  import opened Text
  import opened CarrierText
  import opened CarrierDocument
  import opened CarrierTotals
  import opened CarrierChecks

  // ----- what the client gives -----

  function Given(raw: RawDocument, f: Field): Value {
    Or(At(raw.camel, f), At(raw.snake, f))
  }

  function GivenText(h: Host, raw: RawDocument, f: Field): string {
    TextOf(h, Given(raw, f))
  }

  function GivenWord(h: Host, raw: RawDocument, f: Field): string {
    Lower(GivenText(h, raw, f))
  }

  function GivenFigure(h: Host, raw: RawDocument, f: Field): Figure {
    var v := if At(raw.camel, f).Null? then At(raw.snake, f) else At(raw.camel, f);
    if v.Null? || v == Str("") then None else NumberOf(h, v)
  }

  function PartyName(raw: RawDocument, f: Field): Value {
    Get(At(raw.camel, f), "name")
  }

  function EvidenceOf(raw: RawDocument): Value {
    Or(Get(raw.rest, "evidence"), raw.rest)
  }

  predicate IsDate(h: Host, raw: RawDocument, f: Field) {
    Given(raw, f).Truthy() && CalendarDate(GivenText(h, raw, f))
  }

  // ----- the normal form, field by field -----

  function OrElse(word: string, default: string): string {
    if word == "" then default else word
  }

  /** What becomes of a field. */
  function Meaning(h: Host, raw: RawDocument, f: Field): Value {
    match f
    case DocumentType | TransportMode | FreightTerms => Str(GivenWord(h, raw, f))
    case ContractLevel => Str(OrElse(GivenWord(h, raw, f), "direct"))
    case AuthenticityStatus => Str(OrElse(GivenWord(h, raw, f), "unverified"))
    case OriginalStatus => Str(OrElse(GivenWord(h, raw, f), "unknown"))
    case MetadataSource => Str(OrElse(GivenWord(h, raw, f), "manual"))
    case IssueDate | OnBoardDate => if IsDate(h, raw, f) then Str(GivenText(h, raw, f)) else Null
    case PackageCount | GrossWeightKg | MeasurementCbm =>
      (match GivenFigure(h, raw, f) case Some(x) => Num(x) case None => Null)
    case ContainerNumbers | SealNumbers => AsList(UniqueTexts(h, Given(raw, f)))
    case Shipper | Consignee | Metadata => if At(raw.camel, f).Obj? then At(raw.camel, f) else Obj(map[])
    case NotifyParty => if Given(raw, f).Obj? then Given(raw, f) else Obj(map[])
    case Negotiable => if At(raw.camel, f).Bool? then At(raw.camel, f) else Null
    case SupersedesId => if GivenText(h, raw, f) == "" then Null else Str(GivenText(h, raw, f))
    case EvidenceDocumentId | DocumentNumber | IssuerName | IssuerIdentifier | IssuePlace | VesselName | VoyageNumber
       | FlightNumber | VehicleRegistration | TrainNumber | PlaceOfReceipt | PlaceOfLoading | PlaceOfDischarge
       | PlaceOfDelivery | GoodsDescription | PackageType | MarksAndNumbers | PaymentTerms | AuthenticationMethod
       | AuthenticationReference => Str(GivenText(h, raw, f))
  }

  /** The normal form means what is given, under either name. */
  lemma {:induction false} NormalFormMeans(h: Host, raw: RawDocument, f: Field)
    ensures f in Normalize(h, raw) && Normalize(h, raw)[f] == Meaning(h, raw, f)
  {
    hide Normalize;
    FieldOfNormalForm(h, raw, f);
    FieldMeans(h, raw, f);
  }

  lemma {:induction false} FieldOfNormalForm(h: Host, raw: RawDocument, f: Field)
    ensures f in Normalize(h, raw) && Normalize(h, raw)[f] == Apply(h, RuleOf(f), Pick(raw, f))
  {
    hide Apply, RuleOf, Pick;
  }

  lemma {:induction false} FieldMeans(h: Host, raw: RawDocument, f: Field)
    ensures Apply(h, RuleOf(f), Pick(raw, f)) == Meaning(h, raw, f)
  {
    hide TextOf, Lower, UniqueTexts, AsList, CalendarDate, NumberOf, At;
    match f
    case DocumentType | TransportMode | FreightTerms =>
    case ContractLevel | AuthenticityStatus | OriginalStatus | MetadataSource =>
    case IssueDate | OnBoardDate =>
    case PackageCount | GrossWeightKg | MeasurementCbm =>
    case ContainerNumbers | SealNumbers =>
    case Shipper | Consignee | Metadata | NotifyParty | Negotiable =>
    case SupersedesId =>
    case _ => PlainMeans(h, raw, f);
  }

  lemma {:induction false} PlainMeans(h: Host, raw: RawDocument, f: Field)
    requires Meaning(h, raw, f) == Str(GivenText(h, raw, f)) && RuleOf(f).Plain? && HasSnake(f)
    ensures Apply(h, RuleOf(f), Pick(raw, f)) == Meaning(h, raw, f)
  {
    hide Meaning, RuleOf, HasSnake, At, TextOf;
  }

  /** What becomes of a document without any field: it is direct, unverified, of unknown status and entered by
    * hand, and nothing else is known. */
  lemma {:induction false} EmptyDocument(h: Host, rest: Value, f: Field)
    ensures f in Normalize(h, RawDocument(map[], map[], rest))
    ensures Normalize(h, RawDocument(map[], map[], rest))[f] ==
      match f
      case ContractLevel => Str("direct")
      case AuthenticityStatus => Str("unverified")
      case OriginalStatus => Str("unknown")
      case MetadataSource => Str("manual")
      case IssueDate | OnBoardDate | PackageCount | GrossWeightKg | MeasurementCbm | Negotiable | SupersedesId => Null
      case ContainerNumbers | SealNumbers => List([])
      case Shipper | Consignee | NotifyParty | Metadata => Obj(map[])
      case _ => Str("")
  {
    var raw := RawDocument(map[], map[], rest);
    hide Normalize;
    NormalFormMeans(h, raw, f);
    EmptyGives(h, raw, f);
    hide Given, At, TextOf, Lower, UniqueTexts, AsList, CalendarDate, NumberOf;
    assert GivenText(h, raw, f) == GivenWord(h, raw, f) == "" && !IsDate(h, raw, f) && GivenFigure(h, raw, f) == None;
    hide GivenText, GivenWord, IsDate, GivenFigure;
  }

  lemma {:induction false} EmptyGives(h: Host, raw: RawDocument, f: Field)
    requires raw.camel == map[] && raw.snake == map[]
    ensures Given(raw, f) == Null && At(raw.camel, f) == Null && At(raw.snake, f) == Null
    ensures TextOf(h, Null) == "" && Lower("") == "" && AsList(UniqueTexts(h, Null)) == List([])
  {
    TrimKeepsTrimmed("");
  }

  // ----- the rules -----

  ghost predicate TypeFitsMode(kind: string, mode: string) {
    || (kind == "bill_of_lading" && mode == "sea") || (kind == "fbl" && mode == "multimodal")
    || (kind == "air_waybill" && mode == "air") || (kind == "cmr" && mode == "road") || (kind == "cim" && mode == "rail")
  }

  ghost predicate TypeFitsEvidence(kind: string, evidence: string) {
    || (kind == "bill_of_lading" && evidence in ["bill_of_lading", "carrier_bill_of_lading"])
    || (kind == "fbl" && evidence in ["fbl", "carrier_fbl"])
    || (kind == "air_waybill" && evidence in ["air_waybill", "airway_bill", "awb"])
    || (kind == "cmr" && evidence in ["cmr", "carrier_cmr"])
    || (kind == "cim" && evidence in ["cim", "carrier_cim"])
  }

  const ALWAYS_REQUIRED := [DocumentNumber, IssuerName, IssuePlace, GoodsDescription, PackageType, MarksAndNumbers,
                            AuthenticationMethod, AuthenticationReference]

  /** The fields that every document, or a document of that type, must carry. */
  ghost predicate CarriesFields(h: Host, raw: RawDocument, kind: string) {
    && (forall f :: f in ALWAYS_REQUIRED ==> GivenText(h, raw, f) != "")
    && IsDate(h, raw, IssueDate)
    && TextOf(h, PartyName(raw, Shipper)) != "" && TextOf(h, PartyName(raw, Consignee)) != ""
    && (kind == "bill_of_lading" || kind == "fbl" ==>
          forall f :: f in [VesselName, VoyageNumber, PlaceOfLoading, PlaceOfDischarge, FreightTerms] ==> GivenText(h, raw, f) != "")
    && (kind == "air_waybill" ==>
          forall f :: f in [FlightNumber, PlaceOfLoading, PlaceOfDelivery] ==> GivenText(h, raw, f) != "")
    && (kind == "cmr" ==>
          forall f :: f in [VehicleRegistration, PlaceOfLoading, PlaceOfDelivery] ==> GivenText(h, raw, f) != "")
    && (kind == "cim" ==>
          forall f :: f in [TrainNumber, PlaceOfLoading, PlaceOfDelivery] ==> GivenText(h, raw, f) != "")
  }

  /** A blank expectation asks for nothing; otherwise the two agree but for case and white space. */
  ghost predicate Repeats(h: Host, actual: Value, expected: Value) {
    TextOf(h, expected) == "" || Comparable(h, actual) == Comparable(h, expected)
  }

  ghost predicate RepeatsProfile(h: Host, profile: Value, raw: RawDocument) {
    && Repeats(h, Given(raw, DocumentNumber), Get(profile, "billOfLadingNo"))
    && Repeats(h, Given(raw, IssuerName), Get(profile, "carrierName"))
    && Repeats(h, Given(raw, TransportMode), Get(profile, "transportMode"))
    && Repeats(h, PartyName(raw, Shipper), Get(Get(profile, "exporter"), "name"))
    && Repeats(h, PartyName(raw, Consignee), Get(Get(profile, "consignee"), "name"))
    && Repeats(h, Given(raw, PlaceOfLoading), Get(profile, "portOfLoading"))
    && Repeats(h, Given(raw, PlaceOfDischarge), Get(profile, "portOfDischarge"))
    && Repeats(h, Given(raw, PlaceOfDelivery), Get(profile, "placeOfDelivery"))
  }

  ghost predicate AuthenticityStands(word: string) {
    word in ["operator_confirmed", "issuer_verified"]
  }

  ghost predicate OriginalStands(word: string) {
    word in ["original", "copy", "electronic", "sea_waybill", "non_negotiable"]
  }

  ghost predicate StatusesStated(h: Host, raw: RawDocument) {
    AuthenticityStands(GivenWord(h, raw, AuthenticityStatus)) && OriginalStands(GivenWord(h, raw, OriginalStatus))
  }

  /** `actual` is off by at most the amount, or by at most the fraction of `expected`. */
  ghost predicate Within(actual: real, expected: real, amount: real, fraction: real) {
    -amount <= actual - expected <= amount || -(expected * fraction) <= actual - expected <= expected * fraction
  }

  /** A positive whole number of packages, a positive weight and a measurement, each in agreement with the
    * total of the packages if that is known and positive. */
  ghost predicate FiguresFit(h: Host, raw: RawDocument, totals: Totals) {
    var count, gross, cbm := GivenFigure(h, raw, PackageCount), GivenFigure(h, raw, GrossWeightKg), GivenFigure(h, raw, MeasurementCbm);
    && count.Some? && gross.Some? && cbm.Some?
    && count.value > 0.0 && count.value.Floor as real == count.value && gross.value > 0.0 && cbm.value >= 0.0
    && (totals.count.Some? && totals.count.value > 0.0 ==> count.value == totals.count.value)
    && (totals.gross.Some? && totals.gross.value > 0.0 ==> Within(gross.value, totals.gross.value, 0.01, 0.001))
    && (totals.cbm.Some? && totals.cbm.value > 0.0 ==> Within(cbm.value, totals.cbm.value, 0.001, 0.01))
  }

  /** Both ledgers of the shipment's containers are repeated, as sets of texts. */
  ghost predicate ContainersFit(h: Host, raw: RawDocument, containers: seq<Value>) {
    containers != [] ==>
      && TextSet(h, Given(raw, ContainerNumbers)) == TextSet(h, Numbers(containers, "containerNumber"))
      && TextSet(h, Given(raw, SealNumbers)) == TextSet(h, Numbers(containers, "sealNumber"))
  }

  ghost predicate EvidenceStands(h: Host, evidence: Value, kind: string) {
    var digest, size := TextOf(h, Get(evidence, "checksumSha256")), NumberOf(h, Get(evidence, "fileSizeBytes"));
    && TypeFitsEvidence(kind, Lower(TextOf(h, Or(Get(evidence, "type"), Get(evidence, "evidenceType")))))
    && |digest| == 64
    && (forall i :: 0 <= i < 64 ==> '0' <= digest[i] <= '9' || 'a' <= digest[i] <= 'f' || 'A' <= digest[i] <= 'F')
    && size.Some? && size.value > 0.0
  }

  ghost function DigitPlaces(s: string): set<int> {
    set i | 0 <= i < |s| && '0' <= s[i] <= '9'
  }

  ghost predicate Passes(h: Host, s: Snapshot, raw: RawDocument) {
    var kind := GivenWord(h, raw, DocumentType);
    && TypeFitsMode(kind, GivenWord(h, raw, TransportMode))
    && CarriesFields(h, raw, kind)
    && (kind == "air_waybill" ==> |DigitPlaces(GivenText(h, raw, DocumentNumber))| == 11)
    && StatusesStated(h, raw)
    && RepeatsProfile(h, s.profile, raw)
    && FiguresFit(h, raw, TotalsOf(h, s.packages))
    && ContainersFit(h, raw, s.containers)
    && EvidenceStands(h, EvidenceOf(raw), kind)
  }

  // ----- the rules are what the checks come down to -----

  lemma {:induction false} DigitsOfMore(s: string, c: char)
    ensures DigitsOf(s + [c]) == DigitsOf(s) + if '0' <= c <= '9' then [c] else ""
  {
    if s != "" {
      assert (s + [c])[1..] == s[1..] + [c];
      DigitsOfMore(s[1..], c);
    }
  }

  lemma {:induction false} DigitsCount(s: string)
    ensures |DigitsOf(s)| == |DigitPlaces(s)|
    decreases |s|
  {
    if s == "" {
      assert DigitPlaces(s) == {};
    } else {
      var n := |s| - 1;
      DigitsCount(s[..n]);
      DigitsOfMore(s[..n], s[n]);
      assert s == s[..n] + [s[n]];
      assert DigitPlaces(s) == DigitPlaces(s[..n]) + if '0' <= s[n] <= '9' then {n} else {};
    }
  }

  lemma {:induction false} ComparableOfText(h: Host, v: Value)
    ensures Comparable(h, Str(TextOf(h, v))) == Comparable(h, v)
    ensures Comparable(h, Str(Lower(TextOf(h, v)))) == Comparable(h, v)
  {
    var t := TextOf(h, v);
    TrimTrims(Print(h, v));
    TrimKeepsTrimmed(t);
    LowerKeepsTrimmed(t);
    TrimKeepsTrimmed(Lower(t));
    assert Upper(Lower(t)) == Upper(t);
  }

  lemma {:induction false} TypeMeans(kind: string, mode: string, evidence: string)
    ensures TypeFitsMode(kind, mode) <==> ModeFor(kind) == Some(mode)
    ensures TypeFitsEvidence(kind, evidence) <==> EvidenceFits(kind, evidence)
  {}

  lemma {:induction false} LowerIsBlank(t: string)
    requires Trimmed(t)
    ensures Lower(t) == "" <==> t == ""
    ensures Trim(Lower(t)) == Lower(t) && Trim(t) == t
  {
    LowerKeepsTrimmed(t);
    TrimKeepsTrimmed(Lower(t));
    TrimKeepsTrimmed(t);
  }

  // ----- reading the case -----

  /** The fields of the case are those that are given. */
  ghost predicate Reads(c: Case, h: Host, raw: RawDocument) {
    c.h == h && forall f: Field :: ValueAt(c, f) == Meaning(h, raw, f)
  }

  lemma CaseIs(c: Case, h: Host, raw: RawDocument, f: Field)
    requires Reads(c, h, raw)
    ensures ValueAt(c, f) == Meaning(h, raw, f) && c.h == h
  {
    hide Meaning, ValueAt;
  }

  lemma {:induction false} CaseReads(h: Host, s: Snapshot, raw: RawDocument)
    ensures Reads(CaseOf(h, s, raw), h, raw)
  {
    hide Normalize, Meaning, TotalsOf, Numbers;
    forall f: Field ensures ValueAt(CaseOf(h, s, raw), f) == Meaning(h, raw, f) {
      NormalFormMeans(h, raw, f);
    }
  }

  ghost predicate HasLedgers(c: Case, containers: seq<Value>) {
    && c.hasContainers == (containers != [])
    && c.containers == Numbers(containers, "containerNumber") && c.seals == Numbers(containers, "sealNumber")
  }

  lemma {:induction false} CaseParts(h: Host, s: Snapshot, raw: RawDocument)
    ensures var c := CaseOf(h, s, raw);
      c.profile == s.profile && c.totals == TotalsOf(h, s.packages) && HasLedgers(c, s.containers) && c.evidence == EvidenceOf(raw)
  {
    hide Normalize, TotalsOf, Numbers;
  }

  /** A text that is given and normalised, and read again. */
  lemma {:induction false} TextAgain(h: Host, raw: RawDocument, f: Field)
    ensures var t, w := GivenText(h, raw, f), GivenWord(h, raw, f);
      && TextOf(h, Str(t)) == t && TextOf(h, Str(w)) == w && (w == "" <==> t == "")
      && Comparable(h, Str(t)) == Comparable(h, Given(raw, f)) && Comparable(h, Str(w)) == Comparable(h, Given(raw, f))
  {
    ComparableOfText(h, Given(raw, f));
    TrimTrims(Print(h, Given(raw, f)));
    LowerIsBlank(GivenText(h, raw, f));
    hide Trim, Lower, Comparable, Given;
  }

  lemma {:induction false} TypeRules(c: Case, h: Host, raw: RawDocument)
    requires Reads(c, h, raw)
    ensures Kind(c) == GivenWord(h, raw, DocumentType)
    ensures ModeFor(Kind(c)) == Some(Word(c, TransportMode))
      <==> TypeFitsMode(GivenWord(h, raw, DocumentType), GivenWord(h, raw, TransportMode))
  {
    hide Reads;
    CaseIs(c, h, raw, DocumentType);
    CaseIs(c, h, raw, TransportMode);
    TypeMeans(GivenWord(h, raw, DocumentType), GivenWord(h, raw, TransportMode), "");
    hide GivenWord, ModeFor, TypeFitsMode;
  }

  lemma {:induction false} StatusIs(c: Case, h: Host, raw: RawDocument)
    requires Reads(c, h, raw)
    ensures Word(c, AuthenticityStatus) == OrElse(GivenWord(h, raw, AuthenticityStatus), "unverified")
    ensures Word(c, OriginalStatus) == OrElse(GivenWord(h, raw, OriginalStatus), "unknown")
  {
    hide Reads, GivenWord, OrElse;
    CaseIs(c, h, raw, AuthenticityStatus);
    CaseIs(c, h, raw, OriginalStatus);
  }

  lemma {:induction false} StatusRules(c: Case, h: Host, raw: RawDocument)
    requires Reads(c, h, raw)
    ensures (Confirmed(Word(c, AuthenticityStatus)) && KnownOriginal(Word(c, OriginalStatus)) && Word(c, OriginalStatus) != "unknown")
      <==> StatusesStated(h, raw)
  {
    hide Reads, GivenWord, Word, Confirmed, KnownOriginal, AuthenticityStands, OriginalStands, OrElse;
    StatusIs(c, h, raw);
    StatusWords(GivenWord(h, raw, AuthenticityStatus));
    StatusWords(GivenWord(h, raw, OriginalStatus));
  }

  lemma {:induction false} StatusWords(w: string)
    ensures Confirmed(OrElse(w, "unverified")) <==> AuthenticityStands(w)
    ensures KnownOriginal(OrElse(w, "unknown")) && OrElse(w, "unknown") != "unknown" <==> OriginalStands(w)
  {}

  lemma {:induction false} NameOf(c: Case, h: Host, raw: RawDocument, party: Field)
    requires Reads(c, h, raw)
    requires party.Shipper? || party.Consignee?
    ensures Get(ValueAt(c, party), "name") == PartyName(raw, party)
  {
    hide Reads;
    CaseIs(c, h, raw, party);
    hide At;
  }

  lemma {:induction false} TextRule(c: Case, h: Host, raw: RawDocument, f: Field)
    requires Reads(c, h, raw)
    requires Meaning(h, raw, f) == Str(GivenText(h, raw, f)) || Meaning(h, raw, f) == Str(GivenWord(h, raw, f))
    ensures TextOf(c.h, ValueAt(c, f)) == "" <==> GivenText(h, raw, f) == ""
    ensures Comparable(h, ValueAt(c, f)) == Comparable(h, Given(raw, f))
  {
    hide Reads;
    CaseIs(c, h, raw, f);
    TextAgain(h, raw, f);
    hide Meaning, GivenText, GivenWord, Given, Comparable, TextOf;
  }

  lemma {:induction false} DateRule(c: Case, h: Host, raw: RawDocument)
    requires Reads(c, h, raw)
    ensures TextOf(c.h, ValueAt(c, IssueDate)) != "" <==> IsDate(h, raw, IssueDate)
  {
    hide Reads;
    CaseIs(c, h, raw, IssueDate);
    TextAgain(h, raw, IssueDate);
    TrimKeepsTrimmed("");
    if IsDate(h, raw, IssueDate) { DateIsText(GivenText(h, raw, IssueDate)); }
    hide GivenText, CalendarDate, Trim, Given;
  }

  /** Which fields are required, as the rules list them. */
  ghost predicate Listed(kind: string, f: Field) {
    || f in ALWAYS_REQUIRED || f == IssueDate
    || ((kind == "bill_of_lading" || kind == "fbl") && f in [VesselName, VoyageNumber, PlaceOfLoading, PlaceOfDischarge, FreightTerms])
    || (kind == "air_waybill" && f in [FlightNumber, PlaceOfLoading, PlaceOfDelivery])
    || (kind == "cmr" && f in [VehicleRegistration, PlaceOfLoading, PlaceOfDelivery])
    || (kind == "cim" && f in [TrainNumber, PlaceOfLoading, PlaceOfDelivery])
  }

  lemma {:induction false} RequiredAtSea(kind: string, f: Field)
    requires f.VesselName? || f.VoyageNumber? || f.PlaceOfDischarge? || f.FreightTerms?
    ensures Required(kind, f) <==> Listed(kind, f)
  {}

  lemma {:induction false} RequiredByOne(kind: string, f: Field)
    requires f.FlightNumber? || f.VehicleRegistration? || f.TrainNumber?
    ensures Required(kind, f) <==> Listed(kind, f)
  {}

  lemma {:induction false} RequiredPlaces(kind: string)
    ensures Required(kind, PlaceOfLoading) <==> Listed(kind, PlaceOfLoading)
    ensures Required(kind, PlaceOfDelivery) <==> Listed(kind, PlaceOfDelivery)
  {}

  lemma {:induction false} RequiredByAll(kind: string, f: Field)
    requires !(f.VesselName? || f.VoyageNumber? || f.PlaceOfDischarge? || f.FreightTerms? || f.FlightNumber?
               || f.VehicleRegistration? || f.TrainNumber? || f.PlaceOfLoading? || f.PlaceOfDelivery?)
    ensures Required(kind, f) <==> Listed(kind, f)
  {
    hide ModeFor;
  }

  lemma {:induction false} RequiredIsListed(kind: string, f: Field)
    ensures Required(kind, f) <==> Listed(kind, f)
  {
    hide Required, Listed;
    match f
    case VesselName | VoyageNumber | PlaceOfDischarge | FreightTerms => RequiredAtSea(kind, f);
    case FlightNumber | VehicleRegistration | TrainNumber => RequiredByOne(kind, f);
    case PlaceOfLoading | PlaceOfDelivery => RequiredPlaces(kind);
    case _ => RequiredByAll(kind, f);
  }

  lemma {:induction false} ListedFieldIsText(h: Host, raw: RawDocument, kind: string, f: Field)
    requires Listed(kind, f) && f != IssueDate
    ensures Meaning(h, raw, f) == Str(GivenText(h, raw, f)) || Meaning(h, raw, f) == Str(GivenWord(h, raw, f))
  {
    ListedFields(kind, f);
    hide GivenText, GivenWord, Listed;
  }

  lemma {:induction false} ListedFields(kind: string, f: Field)
    requires Listed(kind, f) && f != IssueDate
    ensures f.DocumentNumber? || f.IssuerName? || f.IssuePlace? || f.GoodsDescription? || f.PackageType? || f.MarksAndNumbers?
      || f.AuthenticationMethod? || f.AuthenticationReference? || f.VesselName? || f.VoyageNumber? || f.PlaceOfLoading?
      || f.PlaceOfDischarge? || f.FreightTerms? || f.FlightNumber? || f.PlaceOfDelivery? || f.VehicleRegistration? || f.TrainNumber?
  {}

  lemma {:induction false} FieldRule(c: Case, h: Host, raw: RawDocument, kind: string, f: Field)
    requires Reads(c, h, raw)
    requires Listed(kind, f)
    ensures TextOf(c.h, ValueAt(c, f)) != "" <==> if f == IssueDate then IsDate(h, raw, f) else GivenText(h, raw, f) != ""
  {
    hide Reads;
    CaseIs(c, h, raw, f);
    hide TextOf, ValueAt, IsDate, GivenText, GivenWord, Given, Comparable;
    if f == IssueDate {
      DateRule(c, h, raw);
    } else {
      ListedFieldIsText(h, raw, kind, f);
      hide Listed, Meaning;
      TextRule(c, h, raw, f);
    }
  }

  ghost predicate AllFilled(c: Case) {
    && (forall f: Field :: Required(Kind(c), f) ==> TextOf(c.h, ValueAt(c, f)) != "")
    && (forall party :: party in [Shipper, Consignee] ==> TextOf(c.h, Get(ValueAt(c, party), "name")) != "")
  }

  ghost predicate AllListedGiven(h: Host, raw: RawDocument, kind: string) {
    && (forall f :: Listed(kind, f) ==> if f == IssueDate then IsDate(h, raw, f) else GivenText(h, raw, f) != "")
    && TextOf(h, PartyName(raw, Shipper)) != "" && TextOf(h, PartyName(raw, Consignee)) != ""
  }

  lemma {:induction false} CarriesIsListed(h: Host, raw: RawDocument, kind: string)
    ensures CarriesFields(h, raw, kind) <==> AllListedGiven(h, raw, kind)
  {
    hide IsDate, GivenText, TextOf, PartyName;
    assert IssueDate !in ALWAYS_REQUIRED;
    if AllListedGiven(h, raw, kind) {
      assert Listed(kind, IssueDate);
      forall f | f in ALWAYS_REQUIRED ensures GivenText(h, raw, f) != "" {
        assert Listed(kind, f);
      }
      forall f | f != IssueDate && Listed(kind, f) ensures GivenText(h, raw, f) != "" {}
    }
  }

  lemma {:induction false} FieldRules(c: Case, h: Host, raw: RawDocument)
    requires Reads(c, h, raw)
    ensures AllFilled(c) <==> CarriesFields(h, raw, GivenWord(h, raw, DocumentType))
  {
    var kind := GivenWord(h, raw, DocumentType);
    hide Reads, Kind, TextOf, ValueAt, IsDate, GivenText, GivenWord, PartyName, Listed, Required, CarriesFields, Meaning, Get, ModeFor,
         TypeFitsMode, Word, AllFilled, AllListedGiven;
    TypeRules(c, h, raw);
    CaseIs(c, h, raw, Shipper);
    NameOf(c, h, raw, Shipper);
    NameOf(c, h, raw, Consignee);
    CarriesIsListed(h, raw, kind);
    forall f ensures Required(kind, f) <==> Listed(kind, f) {
      RequiredIsListed(kind, f);
    }
    forall f | Listed(kind, f) ensures Filled(c, h, raw, f) {
      FieldRule(c, h, raw, kind, f);
    }
    FilledIff(c, h, raw, kind);
  }

  ghost predicate Filled(c: Case, h: Host, raw: RawDocument, f: Field) {
    TextOf(c.h, ValueAt(c, f)) != "" <==> if f == IssueDate then IsDate(h, raw, f) else GivenText(h, raw, f) != ""
  }

  lemma {:induction false} FilledIff(c: Case, h: Host, raw: RawDocument, kind: string)
    requires kind == Kind(c) && c.h == h
    requires forall f :: Required(kind, f) <==> Listed(kind, f)
    requires forall f :: Listed(kind, f) ==> Filled(c, h, raw, f)
    requires Get(ValueAt(c, Shipper), "name") == PartyName(raw, Shipper)
    requires Get(ValueAt(c, Consignee), "name") == PartyName(raw, Consignee)
    ensures AllFilled(c) <==> AllListedGiven(h, raw, kind)
  {
    hide Kind, TextOf, ValueAt, IsDate, GivenText, PartyName, Listed, Required, Get;
    assert Shipper in [Shipper, Consignee] && Consignee in [Shipper, Consignee];
  }

  lemma {:induction false} ProfileRule(c: Case, h: Host, raw: RawDocument, item: Item)
    requires Reads(c, h, raw)
    ensures Agrees(c, item) <==>
      match item
      case DocumentNo => Repeats(h, Given(raw, DocumentNumber), Get(c.profile, "billOfLadingNo"))
      case Carrier => Repeats(h, Given(raw, IssuerName), Get(c.profile, "carrierName"))
      case Mode => Repeats(h, Given(raw, TransportMode), Get(c.profile, "transportMode"))
      case ExporterName => Repeats(h, PartyName(raw, Shipper), Get(Get(c.profile, "exporter"), "name"))
      case ConsigneeName => Repeats(h, PartyName(raw, Consignee), Get(Get(c.profile, "consignee"), "name"))
      case Loading => Repeats(h, Given(raw, PlaceOfLoading), Get(c.profile, "portOfLoading"))
      case Discharge => Repeats(h, Given(raw, PlaceOfDischarge), Get(c.profile, "portOfDischarge"))
      case Delivery => Repeats(h, Given(raw, PlaceOfDelivery), Get(c.profile, "placeOfDelivery"))
  {
    hide Reads;
    CaseIs(c, h, raw, Shipper);
    hide Comparable, TextOf, Get, GivenText, GivenWord, Given, ValueAt, At;
    match item
    case DocumentNo => TextRule(c, h, raw, DocumentNumber);
    case Carrier => TextRule(c, h, raw, IssuerName);
    case Mode => TextRule(c, h, raw, TransportMode);
    case ExporterName => NameOf(c, h, raw, Shipper);
    case ConsigneeName => NameOf(c, h, raw, Consignee);
    case Loading => TextRule(c, h, raw, PlaceOfLoading);
    case Discharge => TextRule(c, h, raw, PlaceOfDischarge);
    case Delivery => TextRule(c, h, raw, PlaceOfDelivery);
  }

  lemma {:induction false} ProfileRules(c: Case, h: Host, raw: RawDocument)
    requires Reads(c, h, raw)
    ensures (forall item: Item :: Agrees(c, item)) <==> RepeatsProfile(h, c.profile, raw)
  {
    hide Reads;
    CaseIs(c, h, raw, Shipper);
    hide Agrees, Repeats, Given, PartyName, Get;
    forall item: Item { ProfileRule(c, h, raw, item); }
    ProfileRule(c, h, raw, DocumentNo);
    ProfileRule(c, h, raw, Carrier);
    ProfileRule(c, h, raw, Mode);
    ProfileRule(c, h, raw, ExporterName);
    ProfileRule(c, h, raw, ConsigneeName);
    ProfileRule(c, h, raw, Loading);
    ProfileRule(c, h, raw, Discharge);
    ProfileRule(c, h, raw, Delivery);
  }

  lemma {:induction false} FigureIs(c: Case, h: Host, raw: RawDocument, f: Field)
    requires Reads(c, h, raw)
    requires f.PackageCount? || f.GrossWeightKg? || f.MeasurementCbm?
    ensures FigureAt(c, f) == GivenFigure(h, raw, f)
  {
    hide Reads;
    CaseIs(c, h, raw, f);
    hide GivenFigure;
  }

  lemma {:induction false} FigureRules(c: Case, h: Host, raw: RawDocument)
    requires Reads(c, h, raw)
    ensures FiguresAgree(c) <==> FiguresFit(h, raw, c.totals)
  {
    hide Reads;
    CaseIs(c, h, raw, PackageCount);
    FigureIs(c, h, raw, PackageCount);
    FigureIs(c, h, raw, GrossWeightKg);
    FigureIs(c, h, raw, MeasurementCbm);
    hide GivenFigure, TotalsOf, FigureAt, ValueAt, Meaning;
  }

  lemma {:induction false} ListIs(c: Case, h: Host, raw: RawDocument, f: Field)
    requires Reads(c, h, raw)
    requires f.ContainerNumbers? || f.SealNumbers?
    ensures TextSet(h, ValueAt(c, f)) == TextSet(h, Given(raw, f))
  {
    hide Reads, UniqueTexts, TextSet, Given, AsList, ValueAt;
    CaseIs(c, h, raw, f);
    UniqueTextsTwice(h, Given(raw, f));
  }

  ghost predicate ContainersAgreeIn(c: Case) {
    c.hasContainers ==>
      && TextSet(c.h, ValueAt(c, ContainerNumbers)) == TextSet(c.h, c.containers)
      && TextSet(c.h, ValueAt(c, SealNumbers)) == TextSet(c.h, c.seals)
  }

  lemma {:induction false} ContainerRules(c: Case, h: Host, raw: RawDocument, containers: seq<Value>)
    requires Reads(c, h, raw) && HasLedgers(c, containers)
    ensures ContainersAgreeIn(c) <==> ContainersFit(h, raw, containers)
  {
    hide Reads;
    CaseIs(c, h, raw, ContainerNumbers);
    ListIs(c, h, raw, ContainerNumbers);
    ListIs(c, h, raw, SealNumbers);
    hide TextSet, Given, Meaning, ValueAt, Numbers;
  }

  lemma {:induction false} EvidenceRules(c: Case, h: Host, raw: RawDocument)
    requires Reads(c, h, raw) && c.evidence == EvidenceOf(raw)
    ensures (EvidenceFits(Kind(c), EvidenceWord(c)) && StoredFile(c))
      <==> EvidenceStands(h, EvidenceOf(raw), GivenWord(h, raw, DocumentType))
  {
    hide Reads;
    CaseIs(c, h, raw, DocumentType);
    TypeRules(c, h, raw);
    TypeMeans(GivenWord(h, raw, DocumentType), "", EvidenceWord(c));
    hide Kind, GivenWord, TextOf, NumberOf, Get, EvidenceFits, TypeFitsEvidence, Meaning, Lower, EvidenceOf, ModeFor, TypeFitsMode;
  }

  /** The verdict, on what the client and the shipment give. */
  lemma {:induction false} PassesIff(h: Host, s: Snapshot, raw: RawDocument)
    ensures Acceptable(CaseOf(h, s, raw)) <==> Passes(h, s, raw)
  {
    var c := CaseOf(h, s, raw);
    hide CaseOf, Reads, HasLedgers, Kind, Word, ModeFor, TypeFitsMode, Confirmed, KnownOriginal, StatusesStated, CarriesFields, Required, TextOf, ValueAt, Get,
         Agrees, RepeatsProfile, FiguresAgree, FiguresFit, TextSet, ContainersFit, EvidenceFits, EvidenceWord, StoredFile, EvidenceStands,
         DigitsOf, DigitPlaces, GivenText, GivenWord, TotalsOf, Numbers, EvidenceOf;
    CaseParts(h, s, raw);
    CaseReads(h, s, raw);
    TypeRules(c, h, raw);
    StatusRules(c, h, raw);
    FieldRules(c, h, raw);
    ProfileRules(c, h, raw);
    FigureRules(c, h, raw);
    ContainerRules(c, h, raw, s.containers);
    EvidenceRules(c, h, raw);
    NumberRule(c, h, raw);
  }

  lemma {:induction false} NumberRule(c: Case, h: Host, raw: RawDocument)
    requires Reads(c, h, raw)
    ensures |DigitsOf(Word(c, DocumentNumber))| == |DigitPlaces(GivenText(h, raw, DocumentNumber))|
  {
    hide Reads;
    CaseIs(c, h, raw, DocumentNumber);
    DigitsCount(GivenText(h, raw, DocumentNumber));
    hide GivenText, DigitsOf, DigitPlaces;
  }
}
