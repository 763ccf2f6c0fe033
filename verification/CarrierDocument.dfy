/** `normalizeCarrierDocument`: one shape for the carrier documents that clients send in two spellings. */
module CarrierDocument {
  import opened Text
  import opened CarrierText

  datatype Field =
    | EvidenceDocumentId | DocumentType | ContractLevel | TransportMode | DocumentNumber | IssuerName
    | IssuerIdentifier | IssueDate | IssuePlace | OnBoardDate | Shipper | Consignee | NotifyParty | VesselName
    | VoyageNumber | FlightNumber | VehicleRegistration | TrainNumber | PlaceOfReceipt | PlaceOfLoading
    | PlaceOfDischarge | PlaceOfDelivery | GoodsDescription | PackageCount | PackageType | MarksAndNumbers
    | GrossWeightKg | MeasurementCbm | ContainerNumbers | SealNumbers | FreightTerms | PaymentTerms
    | AuthenticationMethod | AuthenticationReference | AuthenticityStatus | OriginalStatus | Negotiable
    | MetadataSource | Metadata | SupersedesId

  /** How a field is normalised. */
  datatype Rule = Plain | Lowered(default: string) | Nullable | Date | Number | Party | Texts | Flag

  function RuleOf(f: Field): Rule {
    match f
    case DocumentType | TransportMode | FreightTerms => Lowered("")
    case ContractLevel => Lowered("direct")
    case AuthenticityStatus => Lowered("unverified")
    case OriginalStatus => Lowered("unknown")
    case MetadataSource => Lowered("manual")
    case IssueDate | OnBoardDate => Date
    case Shipper | Consignee | NotifyParty | Metadata => Party
    case PackageCount | GrossWeightKg | MeasurementCbm => Number
    case ContainerNumbers | SealNumbers => Texts
    case Negotiable => Flag
    case SupersedesId => Nullable
    case _ => Plain
  }

  /** Does the name have two words, and so a snake_case spelling of its own? */
  predicate HasSnake(f: Field) {
    !(f.Shipper? || f.Consignee? || f.Negotiable? || f.Metadata?)
  }

  /** A client's object: the known fields under either spelling, and `rest` with its other properties. */
  datatype RawDocument = RawDocument(camel: map<Field, Value>, snake: map<Field, Value>, rest: Value)

  type Document = map<Field, Value>

  function At(values: map<Field, Value>, f: Field): Value {
    if f in values then values[f] else Null
  }

  /** `input.someField || input.some_field`, with `??` for the numbers. */
  function Pick(raw: RawDocument, f: Field): Value {
    var camel, snake := At(raw.camel, f), At(raw.snake, f);
    if !HasSnake(f) then camel
    else if RuleOf(f).Number? then (if camel.Null? then snake else camel)
    else Or(camel, snake)
  }

  // ----- the rules -----

  function Digit(c: char): nat {
    if '0' <= c <= '9' then c as nat - '0' as nat else 0
  }

  predicate IsLeap(year: nat) {
    year % 4 == 0 && (year % 100 != 0 || year % 400 == 0)
  }

  function DaysInMonth(year: nat, month: nat): nat {
    if month == 2 then (if IsLeap(year) then 29 else 28)
    else if month in {4, 6, 9, 11} then 30
    else 31
  }

  /** `YYYY-MM-DD` naming a day that exists, which is what survives the round trip through `Date`. */
  predicate CalendarDate(s: string) {
    && |s| == 10
    && (forall i :: 0 <= i < 10 ==> if i == 4 || i == 7 then s[i] == '-' else '0' <= s[i] <= '9')
    && var year := 1000 * Digit(s[0]) + 100 * Digit(s[1]) + 10 * Digit(s[2]) + Digit(s[3]);
    var month, day := 10 * Digit(s[5]) + Digit(s[6]), 10 * Digit(s[8]) + Digit(s[9]);
    1 <= month <= 12 && 1 <= day <= DaysInMonth(year, month)
  }

  function Apply(h: Host, rule: Rule, v: Value): Value {
    match rule
    case Plain => Str(TextOf(h, v))
    case Lowered(default) =>
      var t := Lower(TextOf(h, v));
      Str(if t == "" then default else t)
    case Nullable =>
      var t := TextOf(h, v);
      if t == "" then Null else Str(t)
    case Date =>
      var t := TextOf(h, v);
      if v.Truthy() && CalendarDate(t) then Str(t) else Null
    case Number =>
      if v.Null? || v == Str("") then Null
      else (match NumberOf(h, v) case Some(x) => Num(x) case None => Null)
    case Party => if v.Obj? then v else Obj(map[])
    case Texts => AsList(UniqueTexts(h, v))
    case Flag => if v.Bool? then v else Null
  }

  function Normalize(h: Host, raw: RawDocument): Document {
    map f: Field {:trigger RuleOf(f)} | true :: Apply(h, RuleOf(f), Pick(raw, f))
  }

  // ----- normalising twice -----

  /** A normalised document as input. */
  function AsRaw(d: Document, rest: Value): RawDocument {
    RawDocument(d, map[], rest)
  }

  lemma ApplyTwice(h: Host, rule: Rule, v: Value)
    requires rule.Lowered? ==> Trimmed(rule.default) && Lower(rule.default) == rule.default
    ensures Apply(h, rule, Apply(h, rule, v)) == Apply(h, rule, v)
    ensures rule.Number? || rule.Flag? || Apply(h, rule, Or(Apply(h, rule, v), Null)) == Apply(h, rule, v)
  {
    hide CalendarDate, UniqueTexts, Trim, Lower;
    var t := TextOf(h, v);
    TrimTwice(Print(h, v));
    TrimTrims(Print(h, v));
    assert Trim("") == "" by { TrimKeepsTrimmed(""); }
    match rule
    case Lowered(default) =>
      LowerKeepsTrimmed(t);
      LowerKeepsTrimmed("");
      TrimKeepsTrimmed(Lower(t));
      TrimKeepsTrimmed(default);
    case Texts => UniqueTextsTwice(h, v);
    case Date => if CalendarDate(t) { DateIsText(t); }
    case _ =>
  }

  lemma DateIsText(s: string)
    requires CalendarDate(s)
    ensures s != ""
  {}

  lemma FlagsHaveOneName(f: Field)
    ensures RuleOf(f).Flag? ==> !HasSnake(f)
  {}

  lemma DefaultsAreClean(f: Field)
    requires RuleOf(f).Lowered?
    ensures var d := RuleOf(f).default; Trimmed(d) && Lower(d) == d && d !in ["0", "false"]
  {}

  lemma {:induction false} NormalizeTwice(h: Host, raw: RawDocument, rest: Value)
    ensures Normalize(h, AsRaw(Normalize(h, raw), rest)) == Normalize(h, raw)
  {
    hide Apply, Or, RuleOf;
    var d := Normalize(h, raw);
    forall f: Field ensures Apply(h, RuleOf(f), Pick(AsRaw(d, rest), f)) == d[f] {
      if RuleOf(f).Lowered? { DefaultsAreClean(f); }
      FlagsHaveOneName(f);
      ApplyTwice(h, RuleOf(f), Pick(raw, f));
    }
  }

  // ----- the two spellings -----

  /** The same values, those of the fields in `snake` written under the snake_case name. */
  function Spell(values: map<Field, Value>, snake: set<Field>, rest: Value): RawDocument {
    RawDocument(
      map f <- values | !(f in snake && HasSnake(f)) :: values[f],
      map f <- values | f in snake && HasSnake(f) :: values[f],
      rest)
  }

  /** Zero and false where a text is expected: `||` drops them before the snake_case name, but not after it. */
  predicate SpellingMatters(f: Field, v: Value) {
    HasSnake(f) && (RuleOf(f).Plain? || RuleOf(f).Lowered? || RuleOf(f).Nullable?) && v in {Num(0.0), Bool(false)}
  }

  /** The spelling of the fields is irrelevant exactly when no zero or false stands for a text in snake_case. */
  lemma {:induction false} SpellingIff(h: Host, values: map<Field, Value>, snake: set<Field>, rest: Value)
    requires h.show(0.0) == "0"
    ensures Normalize(h, Spell(values, snake, rest)) == Normalize(h, Spell(values, {}, rest))
      <==> forall f :: f in values && f in snake ==> !SpellingMatters(f, values[f])
  {
    hide Apply, RuleOf, Or, SpellingMatters, HasSnake;
    var a, b := Normalize(h, Spell(values, snake, rest)), Normalize(h, Spell(values, {}, rest));
    forall f: Field ensures a[f] == b[f] <==> !(f in values && f in snake && SpellingMatters(f, values[f])) {
      if f in values && f in snake {
        SpellingOfField(h, f, values, snake, rest);
      }
    }
    assert a == b <==> forall f: Field :: a[f] == b[f];
  }

  lemma {:induction false} SpellingOfField(h: Host, f: Field, values: map<Field, Value>, snake: set<Field>, rest: Value)
    requires h.show(0.0) == "0" && f in values && f in snake
    ensures Apply(h, RuleOf(f), Pick(Spell(values, snake, rest), f)) == Apply(h, RuleOf(f), Pick(Spell(values, {}, rest), f))
      <==> !SpellingMatters(f, values[f])
  {
    hide Apply, RuleOf, Or, HasSnake;
    var v := values[f];
    assert Pick(Spell(values, {}, rest), f) == if HasSnake(f) && !RuleOf(f).Number? then Or(v, Null) else v;
    assert Pick(Spell(values, snake, rest), f) == v by { assert Or(Null, v) == v by { OrNull(v); } }
    if RuleOf(f).Lowered? { DefaultsAreClean(f); }
    FlagsHaveOneName(f);
    SpellingOfValue(h, RuleOf(f), v);
  }

  lemma OrNull(v: Value)
    ensures Or(Null, v) == v
  {}

  lemma SpellingOfValue(h: Host, rule: Rule, v: Value)
    requires h.show(0.0) == "0" && (rule.Lowered? ==> rule.default !in ["0", "false"])
    ensures rule.Number? || rule.Flag? || (Apply(h, rule, v) == Apply(h, rule, Or(v, Null))
      <==> !((rule.Plain? || rule.Lowered? || rule.Nullable?) && v in {Num(0.0), Bool(false)}))
  {
    hide CalendarDate, SortTexts, TextOf, Lower;
    FalsyTexts(h);
  }

  lemma FalsyTexts(h: Host)
    requires h.show(0.0) == "0"
    ensures TextOf(h, Null) == TextOf(h, Str("")) == ""
    ensures TextOf(h, Num(0.0)) == Lower("0") == "0" && TextOf(h, Bool(false)) == Lower("false") == "false"
    ensures Lower("") == ""
  {
    TrimKeepsTrimmed("");
    TrimKeepsTrimmed("0");
    TrimKeepsTrimmed("false");
  }

  /** A document number sent as 0 is lost under one name and kept under the other. */
  lemma {:induction false} SpellingExample(h: Host)
    requires h.show(0.0) == "0"
    ensures var values := map[DocumentNumber := Num(0.0)];
      && Normalize(h, Spell(values, {}, Null))[DocumentNumber] == Str("")
      && Normalize(h, Spell(values, {DocumentNumber}, Null))[DocumentNumber] == Str("0")
  {
    FalsyTexts(h);
  }

  // ----- dates -----

  function Two(n: nat): string
    requires n < 100
  {
    [(n / 10) as char + '0', (n % 10) as char + '0']
  }

  /** Thirty days, and one more in every second month up to July and again from August; February apart. */
  function MonthLength(year: nat, month: nat): nat {
    if month != 2 then Thirty(month) else if HasLeapDay(year) then 29 else 28
  }

  /** Every fourth year, but of the full centuries only every fourth. */
  predicate HasLeapDay(year: nat) {
    if year % 100 == 0 then (year / 100) % 4 == 0 else (year % 100) % 4 == 0
  }

  function Thirty(month: nat): nat {
    30 + (month + month / 8) % 2
  }

  /** The text is the numeral of that day. */
  ghost predicate Names(s: string, century: nat, year: nat, month: nat, day: nat) {
    && century < 100 && year < 100 && 1 <= month <= 12 && 1 <= day < 100 && day <= MonthLength(100 * century + year, month)
    && s == Two(century) + Two(year) + "-" + Two(month) + "-" + Two(day)
  }

  /** A text is a date exactly when it is the numeral of a day of the Gregorian calendar. */
  lemma {:induction false} CalendarDateIff(s: string)
    ensures CalendarDate(s) <==> exists century, year, month, day :: Names(s, century, year, month, day)
  {
    if CalendarDate(s) {
      var century, year := 10 * Digit(s[0]) + Digit(s[1]), 10 * Digit(s[2]) + Digit(s[3]);
      var month, day := 10 * Digit(s[5]) + Digit(s[6]), 10 * Digit(s[8]) + Digit(s[9]);
      DateIsNamed(s, century, year, month, day);
    }
    if century, year, month, day :| Names(s, century, year, month, day) {
      NamedIsDate(s, century, year, month, day);
    }
  }

  lemma {:induction false} TwoDigits(a: char, b: char, n: nat)
    requires '0' <= a <= '9' && '0' <= b <= '9' && n == 10 * Digit(a) + Digit(b)
    ensures n < 100 && Two(n) == [a, b]
  {}

  lemma {:induction false} DigitsOfTwo(n: nat)
    requires n < 100
    ensures |Two(n)| == 2 && '0' <= Two(n)[0] <= '9' && '0' <= Two(n)[1] <= '9' && 10 * Digit(Two(n)[0]) + Digit(Two(n)[1]) == n
  {}

  lemma {:induction false} DateIsNamed(s: string, century: nat, year: nat, month: nat, day: nat)
    requires CalendarDate(s)
    requires century == 10 * Digit(s[0]) + Digit(s[1]) && year == 10 * Digit(s[2]) + Digit(s[3])
    requires month == 10 * Digit(s[5]) + Digit(s[6]) && day == 10 * Digit(s[8]) + Digit(s[9])
    ensures Names(s, century, year, month, day)
  {
    TwoDigits(s[0], s[1], century);
    TwoDigits(s[2], s[3], year);
    TwoDigits(s[5], s[6], month);
    TwoDigits(s[8], s[9], day);
    hide Two, Digit;
    assert s == [s[0], s[1]] + [s[2], s[3]] + [s[4]] + [s[5], s[6]] + [s[7]] + [s[8], s[9]];
    MonthsAgree(100 * century + year, month);
    hide DaysInMonth, MonthLength;
  }

  lemma {:induction false} NamedIsDate(s: string, century: nat, year: nat, month: nat, day: nat)
    requires Names(s, century, year, month, day)
    ensures CalendarDate(s)
  {
    DigitsOfTwo(century);
    DigitsOfTwo(year);
    DigitsOfTwo(month);
    DigitsOfTwo(day);
    MonthsAgree(100 * century + year, month);
    hide Two, Digit, DaysInMonth, MonthLength;
    assert |s| == 10 && s[..2] == Two(century) && s[2..4] == Two(year) && s[5..7] == Two(month) && s[8..] == Two(day);
    assert s[0] == s[..2][0] && s[1] == s[..2][1] && s[2] == s[2..4][0] && s[3] == s[2..4][1];
    assert s[5] == s[5..7][0] && s[6] == s[5..7][1] && s[8] == s[8..][0] && s[9] == s[8..][1];
  }

  lemma {:induction false} ThirtyIs(month: nat)
    requires 1 <= month <= 12 && month != 2
    ensures Thirty(month) == if month in {4, 6, 9, 11} then 30 else 31
  {}

  lemma {:induction false} LeapIff(year: nat)
    ensures IsLeap(year) <==> HasLeapDay(year)
  {
    var c, r := year / 100, year % 100;
    assert year == 4 * (25 * c) + r && year % 4 == r % 4;
    if r == 0 {
      var q, m := c / 4, c % 4;
      assert year == 400 * q + 100 * m && year % 400 == 100 * m;
    }
  }

  lemma {:induction false} MonthsAgree(year: nat, month: nat)
    requires 1 <= month <= 12
    ensures DaysInMonth(year, month) == MonthLength(year, month) <= 31
  {
    hide Thirty, IsLeap, HasLeapDay;
    LeapIff(year);
    if month != 2 { ThirtyIs(month); }
  }
}
