/** `validateCarrierDocument`: the check list of a carrier document against the shipment. */
module CarrierControls {
  import opened CarrierText
  import opened CarrierDocument
  import opened CarrierTotals
  import opened CarrierChecks
  import opened CarrierRules

  /** The growing list of checks; `asked` is the list of codes that have been dealt with. */
  class Checklist {
    const c: Case
    var checks: seq<Check>
    ghost var asked: seq<Code>

    ghost predicate Valid()
      reads this
    {
      checks == Report(c, asked)
    }

    constructor (c: Case)
      ensures Valid() && this.c == c && asked == []
    {
      this.c := c;
      checks, asked := [], [];
    }

    method Add(code: Code, status: Status)
      requires Valid() && Applies(c, code) && status == StatusOf(c, code)
      modifies this
      ensures Valid() && asked == old(asked) + [code]
    {
      ReportStep(c, asked, code);
      checks := checks + [Check(code, status)];
      asked := asked + [code];
    }

    method Need(code: Code, value: Value)
      requires Valid() && Applies(c, code)
      requires StatusOf(c, code) == if TextOf(c.h, value) != "" then Ready else Missing
      modifies this
      ensures Valid() && asked == old(asked) + [code]
    {
      Add(code, if TextOf(c.h, value) != "" then Ready else Missing);
    }

    method NeedField(f: Field)
      requires Valid() && Required(Kind(c), f)
      modifies this
      ensures Valid() && asked == old(asked) + [Needed(f)]
    {
      Need(Needed(f), ValueAt(c, f));
    }

    method MatchText(item: Item)
      requires Valid()
      modifies this
      ensures Valid() && asked == old(asked) + [Matches(item)]
    {
      ReportStep(c, asked, Matches(item));
      if TextOf(c.h, Expected(c, item)) == "" {
        asked := asked + [Matches(item)];
        return;
      }
      Add(Matches(item), if Comparable(c.h, Actual(c, item)) == Comparable(c.h, Expected(c, item)) then Ready else Invalid);
    }

    ghost method Skip(codes: seq<Code>)
      requires Valid() && forall code :: code in codes ==> !Applies(c, code)
      modifies this`asked
      ensures Valid() && asked == old(asked) + codes
    {
      ReportSkip(c, asked, codes);
      asked := asked + codes;
    }

    method CheckKind()
      requires Valid()
      modifies this
      ensures Valid() && asked == old(asked) + KIND_CODES
    {
      hide Report;
      var kind, mode := Kind(c), Word(c, TransportMode);
      Add(TypeKnown, if ModeFor(kind).Some? then Ready else Invalid);
      Add(ModeKnown, if KnownMode(mode) then Ready else Invalid);
      if ModeFor(kind).Some? {
        Add(ModeFits, if ModeFor(kind).value == mode then Ready else Invalid);
      } else {
        Skip([ModeFits]);
      }
    }

    method NeedName(party: Field)
      requires Valid() && party in [Shipper, Consignee]
      modifies this
      ensures Valid() && asked == old(asked) + [if party.Shipper? then ShipperNamed else ConsigneeNamed]
    {
      Need(if party.Shipper? then ShipperNamed else ConsigneeNamed, Get(ValueAt(c, party), "name"));
    }

    method CheckAlways()
      requires Valid()
      modifies this
      ensures Valid() && asked == old(asked) + ALWAYS_CODES
    {
      hide Report, Kind;
      NeedField(DocumentNumber);
      NeedField(IssuerName);
      NeedField(IssueDate);
      NeedField(IssuePlace);
      NeedName(Shipper);
      NeedName(Consignee);
      NeedField(GoodsDescription);
      NeedField(PackageType);
      NeedField(MarksAndNumbers);
      NeedField(AuthenticationMethod);
      NeedField(AuthenticationReference);
    }

    method CheckFigures()
      requires Valid()
      modifies this
      ensures Valid() && asked == old(asked) + FIGURE_CODES
    {
      hide Report;
      var count, gross, cbm := FigureAt(c, PackageCount), FigureAt(c, GrossWeightKg), FigureAt(c, MeasurementCbm);
      var original := Word(c, OriginalStatus);
      hide ValueAt, Integral, Positive, Applies;
      Add(Authentic, if Confirmed(Word(c, AuthenticityStatus)) then Ready else Invalid);
      Add(OriginalStated, if KnownOriginal(original) && original != "unknown" then Ready else Invalid);
      Add(CountPositive, if Integral(count) && Positive(count) then Ready else Invalid);
      Add(GrossPositive, if Positive(gross) then Ready else Invalid);
      Add(MeasurementGiven, if cbm.Some? && cbm.value >= 0.0 then Ready else Missing);
    }

    method CheckProfile()
      requires Valid()
      modifies this
      ensures Valid() && asked == old(asked) + PROFILE_CODES
    {
      hide Report;
      MatchText(DocumentNo);
      MatchText(Carrier);
      MatchText(Mode);
      MatchText(ExporterName);
      MatchText(ConsigneeName);
      MatchText(Loading);
      MatchText(Discharge);
      MatchText(Delivery);
    }

    method CheckLedger()
      requires Valid()
      modifies this
      ensures Valid() && asked == old(asked) + LEDGER_CODES
    {
      hide Report;
      var count, gross, cbm := FigureAt(c, PackageCount), FigureAt(c, GrossWeightKg), FigureAt(c, MeasurementCbm);
      if Positive(c.totals.count) && Integral(count) {
        Add(CountAgrees, if count.value == c.totals.count.value then Ready else Invalid);
      } else {
        Skip([CountAgrees]);
      }
      if Positive(c.totals.gross) && gross.Some? {
        Add(GrossAgrees, if CloseEnough(gross.value, c.totals.gross.value, 0.01, 0.001) then Ready else Invalid);
      } else {
        Skip([GrossAgrees]);
      }
      if Positive(c.totals.cbm) && cbm.Some? {
        Add(MeasurementAgrees, if CloseEnough(cbm.value, c.totals.cbm.value, 0.001, 0.01) then Ready else Invalid);
      } else {
        Skip([MeasurementAgrees]);
      }
      CheckContainers();
    }

    method CheckContainers()
      requires Valid()
      modifies this
      ensures Valid() && asked == old(asked) + [ContainersAgree, SealsAgree]
    {
      hide Report, TextSet, SameSet;
      if c.hasContainers {
        SameSetIff(c.h, ValueAt(c, ContainerNumbers), c.containers);
        SameSetIff(c.h, ValueAt(c, SealNumbers), c.seals);
        Add(ContainersAgree, if SameSet(c.h, ValueAt(c, ContainerNumbers), c.containers) then Ready else Invalid);
        Add(SealsAgree, if SameSet(c.h, ValueAt(c, SealNumbers), c.seals) then Ready else Invalid);
      } else {
        Skip([ContainersAgree, SealsAgree]);
      }
    }

    method CheckTransport()
      requires Valid()
      modifies this
      ensures Valid() && asked == old(asked) + TransportCodes(Kind(c))
    {
      hide Report;
      if Kind(c) == "bill_of_lading" || Kind(c) == "fbl" {
        CheckSea();
      } else if Kind(c) == "air_waybill" {
        CheckAir();
      } else if Kind(c) == "cmr" {
        NeedField(VehicleRegistration);
        NeedField(PlaceOfLoading);
        NeedField(PlaceOfDelivery);
      } else if Kind(c) == "cim" {
        NeedField(TrainNumber);
        NeedField(PlaceOfLoading);
        NeedField(PlaceOfDelivery);
      }
    }

    method CheckSea()
      requires Valid() && (Kind(c) == "bill_of_lading" || Kind(c) == "fbl")
      modifies this
      ensures Valid() && asked == old(asked) + SEA_CODES
    {
      hide Report;
      NeedField(VesselName);
      NeedField(VoyageNumber);
      NeedField(PlaceOfLoading);
      NeedField(PlaceOfDischarge);
      NeedField(FreightTerms);
    }

    method CheckAir()
      requires Valid() && Kind(c) == "air_waybill"
      modifies this
      ensures Valid() && asked == old(asked) + AIR_CODES
    {
      hide Report;
      NeedField(FlightNumber);
      NeedField(PlaceOfLoading);
      NeedField(PlaceOfDelivery);
      Add(WaybillNumber, if |DigitsOf(Word(c, DocumentNumber))| == 11 then Ready else Invalid);
    }

    method CheckEvidence()
      requires Valid()
      modifies this
      ensures Valid() && asked == old(asked) + EVIDENCE_CODES
    {
      hide Report;
      Add(EvidenceTyped, if EvidenceFits(Kind(c), EvidenceWord(c)) then Ready else Invalid);
      Add(EvidenceStored, if StoredFile(c) then Ready else Invalid);
    }
  }

  datatype Summary = Summary(totals: Totals, containers: seq<string>, seals: seq<string>)

  /** The verdict is the declarative one, and the list reports every applicable requirement once, in order. */
  method ValidateCarrierDocument(h: Host, snapshot: Snapshot, raw: RawDocument)
    returns (passed: bool, checks: seq<Check>, summary: Summary)
    ensures passed <==> Passes(h, snapshot, raw)
    ensures passed <==> Acceptable(CaseOf(h, snapshot, raw))
    ensures var c := CaseOf(h, snapshot, raw); checks == Report(c, AllCodes(Kind(c)))
    ensures (forall check :: check in checks && check.code.Matches? ==> check.status == Ready)
      <==> RepeatsProfile(h, snapshot.profile, raw)
    ensures summary.totals == TotalsOf(h, snapshot.packages)
    ensures forall t :: t in summary.containers <==> t in TextSet(h, Numbers(snapshot.containers, "containerNumber"))
    ensures forall t :: t in summary.seals <==> t in TextSet(h, Numbers(snapshot.containers, "sealNumber"))
  {
    hide Passes, RepeatsProfile, Agrees, Report, Acceptable, Satisfied, TextSet, UniqueTexts, Ordered, AllReady, TotalsOf, Normalize, Numbers;
    hide KIND_CODES, ALWAYS_CODES, FIGURE_CODES, PROFILE_CODES, LEDGER_CODES, TransportCodes, EVIDENCE_CODES;
    var c := CaseOf(h, snapshot, raw);
    var list := new Checklist(c);
    list.CheckKind();
    list.CheckAlways();
    list.CheckFigures();
    list.CheckProfile();
    list.CheckLedger();
    list.CheckTransport();
    list.CheckEvidence();
    checks := list.checks;
    assert list.asked == AllCodes(Kind(c));
    passed := AllReady(checks);
    AllReadyIff(c, AllCodes(Kind(c)));
    AcceptableIff(c);
    PassesIff(h, snapshot, raw);
    ProfileChecksIff(c);
    CaseReads(h, snapshot, raw);
    ProfileRules(c, h, raw);
    UniqueTextsAre(h, c.containers);
    UniqueTextsAre(h, c.seals);
    summary := Summary(c.totals, UniqueTexts(h, c.containers), UniqueTexts(h, c.seals));
  }
}
