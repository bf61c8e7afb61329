/**
 * A date attribute collected as three separate parts (day, month, year) on a
 * form. Declaring it generates, per part, a getter, an integer-coercing
 * `_value` reader and a setter; the setters assemble the composite date as soon
 * as the parts form a real date, and a validation hook reports an invalid date.
 */
module MultiPartDate {
  import opened Wrappers
  import opened Calendar

  datatype Part = Day | Month | Year

  /**
   * What the composite date attribute holds: nothing (`nil`), a date, or a
   * truthy value that is not a date and has no `day`/`month`/`year` readers.
   */
  datatype Composite = Nil | DateVal(date: Date) | NonDate

  /** The raw parts, as the form's virtual properties store them. */
  datatype Raw = Raw(day: Option<int>, month: Option<int>, year: Option<int>)

  /** The options of a declaration: `as:`, `discard_day:`, `discard_month:`, `discard_year:`, `validate_if:`. */
  datatype Options = Options(
    alias: Option<string>,
    discardDay: bool,
    discardMonth: bool,
    discardYear: bool,
    validateIf: Option<string>)

  const NoOptions: Options := Options(None, false, false, false, None)

  /** A declared field: its name, the key of its part properties, the discard flags and the gate. */
  datatype Config = Config(
    fieldName: string,
    key: string,
    discardDay: bool,
    discardMonth: bool,
    discardYear: bool,
    validateIf: Option<string>)

  /** An entry of the form's error collection. */
  datatype Error = Error(attribute: string, message: string)

  const InvalidDateMessage: string := "is not a valid date"

  /** The part properties are keyed by the alias when one is given, by the field name otherwise. */
  function Configure(fieldName: string, opts: Options): (c: Config)
    ensures c.fieldName == fieldName && (opts.alias.None? ==> c.key == fieldName)
    ensures opts.alias.Some? ==> c.key == opts.alias.value
    ensures c.discardDay == opts.discardDay && c.discardMonth == opts.discardMonth && c.discardYear == opts.discardYear
    ensures c.validateIf == opts.validateIf
  {
    Config(fieldName, if opts.alias.Some? then opts.alias.value else fieldName,
           opts.discardDay, opts.discardMonth, opts.discardYear, opts.validateIf)
  }

  function PartName(p: Part): string {
    match p
    case Day => "day"
    case Month => "month"
    case Year => "year"
  }

  /** The name of the property that holds part `p`, such as `birth_month`. */
  function PropertyName(c: Config, p: Part): (name: string)
    ensures |name| > |c.key| + 1
    ensures name[..|c.key|] == c.key && name[|c.key|] == '_'
  {
    c.key + "_" + PartName(p)
  }

  /** Each part has a property of its own, whatever the key. */
  lemma PropertyNamesDistinct(c: Config, p: Part, q: Part)
    requires p != q
    ensures PropertyName(c, p) != PropertyName(c, q)
  {
  }

  predicate Discarded(c: Config, p: Part) {
    match p
    case Day => c.discardDay
    case Month => c.discardMonth
    case Year => c.discardYear
  }

  function RawPart(raw: Raw, p: Part): Option<int> {
    match p
    case Day => raw.day
    case Month => raw.month
    case Year => raw.year
  }

  /** The raw parts with part `p` replaced by `v`: what a setter stores. */
  function WithPart(raw: Raw, p: Part, v: Option<int>): Raw {
    match p
    case Day => raw.(day := v)
    case Month => raw.(month := v)
    case Year => raw.(year := v)
  }

  function DatePart(d: CivilDate, p: Part): int {
    match p
    case Day => d.day
    case Month => d.month
    case Year => d.year
  }

  /**
   * The generated `<key>_<part>` getter: a discarded part reads 1; otherwise a
   * set composite takes precedence (its part if it is a date, `nil` if it is
   * some other value), and only an unset composite falls back to the raw part.
   */
  function Getter(c: Config, comp: Composite, raw: Raw, p: Part): (r: Option<int>)
    ensures Discarded(c, p) ==> r == Some(1)
    ensures r.None? <==> !Discarded(c, p) && (comp.NonDate? || (comp.Nil? && RawPart(raw, p).None?))
  {
    if Discarded(c, p) then Some(1)
    else match comp
      case DateVal(d) => Some(DatePart(d, p))
      case NonDate => None
      case Nil => RawPart(raw, p)
  }

  /** Ruby's `to_i` on a part: `nil` becomes 0, an integer stays itself. */
  function ToI(v: Option<int>): (n: int)
    ensures v.Some? ==> n == v.value
    ensures n == 0 <==> v.None? || v == Some(0)
  {
    match v
    case None => 0
    case Some(n) => n
  }

  /** The generated `<key>_<part>_value` reader. */
  function PartValue(c: Config, comp: Composite, raw: Raw, p: Part): (n: int)
    ensures Discarded(c, p) ==> n == 1
    ensures comp.NonDate? && !Discarded(c, p) ==> n == 0
    ensures comp.DateVal? && p != Year ==> 1 <= n <= 31
  {
    ToI(Getter(c, comp, raw, p))
  }

  /** The generated `valid_<field>_date?`: the coerced parts form a real date. */
  predicate ValidDateOf(c: Config, comp: Composite, raw: Raw)
    ensures ValidDateOf(c, comp, raw) ==> 1 <= PartValue(c, comp, raw, Month) <= 12
    ensures ValidDateOf(c, comp, raw) ==> 1 <= PartValue(c, comp, raw, Day) <= 31
    ensures comp.NonDate? && !(c.discardDay && c.discardMonth) ==> !ValidDateOf(c, comp, raw)
  {
    IsValidDate(PartValue(c, comp, raw, Year), PartValue(c, comp, raw, Month), PartValue(c, comp, raw, Day))
  }

  /** The generated `set_<field>`: writes the date of the coerced parts when they are valid, else leaves the composite. */
  function AssembleStep(c: Config, comp: Composite, raw: Raw): (r: Composite)
    ensures r == comp || (r.DateVal? && ValidDateOf(c, comp, raw))
    ensures ValidDateOf(c, comp, raw) ==>
      r.DateVal? && forall p: Part :: PartValue(c, r, raw, p) == PartValue(c, comp, raw, p)
    ensures ValidDateOf(c, comp, raw) ==>
      forall p: Part :: DatePart(r.date, p) == PartValue(c, comp, raw, p)
  {
    if ValidDateOf(c, comp, raw) then
      DateVal(CivilDate(PartValue(c, comp, raw, Year), PartValue(c, comp, raw, Month), PartValue(c, comp, raw, Day)))
    else comp
  }

  /**
   * The composite after a setter: the presence check blanks the composite and
   * always passes (every coerced part is an Integer, and ActiveSupport counts
   * every Integer as present), so assembly then runs on the raw parts.
   */
  function AfterSet(c: Config, raw: Raw): (r: Composite)
    ensures r.Nil? || r.DateVal?
    ensures r.DateVal? <==> ValidDateOf(c, Nil, raw)
  {
    AssembleStep(c, Nil, raw)
  }

  /**
   * The value a part amounts to from the raw parts alone: 1 if discarded, 0 if
   * absent. It is the reference form, free of the composite, in which
   * AfterSetIsCalendarDate and Scenarios.Submit are stated; ClearedReadsRaw
   * equates it with the coerced getter once the composite is blanked.
   */
  function Resolved(c: Config, raw: Raw, p: Part): int {
    if Discarded(c, p) then 1
    else match RawPart(raw, p)
      case None => 0
      case Some(n) => n
  }

  /** Whether the `validate ..., if:` registration lets the hook run for this field. */
  predicate ValidationRuns(c: Config, resolve: string -> bool)
    ensures c.validateIf.None? ==> ValidationRuns(c, resolve)
    ensures c.validateIf.Some? ==> ValidationRuns(c, resolve) == resolve(c.validateIf.value)
  {
    c.validateIf.None? || resolve(c.validateIf.value)
  }

  /** A setter stores its argument in its own part and leaves the other two alone. */
  lemma WithPartUpdatesOnePart(raw: Raw, p: Part, v: Option<int>, q: Part)
    ensures RawPart(WithPart(raw, p, v), q) == if p == q then v else RawPart(raw, q)
  {
  }

  /**
   * The getter precedence rule: a discarded part reads 1 whatever is stored; a
   * set composite hides the raw part (and a non-date composite reads `nil`);
   * an unset composite exposes the raw part.
   */
  lemma GetterPrecedence(c: Config, comp: Composite, comp2: Composite, raw: Raw, raw2: Raw, p: Part)
    ensures Discarded(c, p) ==> Getter(c, comp, raw, p) == Getter(c, comp2, raw2, p) == Some(1)
    ensures comp != Nil ==> Getter(c, comp, raw, p) == Getter(c, comp, raw2, p)
    ensures comp.NonDate? && !Discarded(c, p) ==> Getter(c, comp, raw, p) == None
    ensures comp.DateVal? && !Discarded(c, p) ==> Getter(c, comp, raw, p) == Some(DatePart(comp.date, p))
    ensures !Discarded(c, p) ==> Getter(c, Nil, raw, p) == RawPart(raw, p)
  {
  }

  /** Once the composite is blanked, the coerced parts are the resolved raw parts. */
  lemma ClearedReadsRaw(c: Config, raw: Raw, p: Part)
    ensures PartValue(c, Nil, raw, p) == Resolved(c, raw, p)
    ensures RawPart(raw, p).None? && !Discarded(c, p) ==> PartValue(c, Nil, raw, p) == 0
  {
  }

  /**
   * After any setter the composite is the date of the resolved raw parts when
   * they form a real date, and `nil` otherwise; what it held before never leaks.
   */
  lemma AfterSetIsCalendarDate(c: Config, raw: Raw)
    ensures AfterSet(c, raw).DateVal? <==> IsValidDate(Resolved(c, raw, Year), Resolved(c, raw, Month), Resolved(c, raw, Day))
    ensures AfterSet(c, raw).DateVal? ==>
      AfterSet(c, raw).date == CivilDate(Resolved(c, raw, Year), Resolved(c, raw, Month), Resolved(c, raw, Day))
    ensures !AfterSet(c, raw).DateVal? ==> AfterSet(c, raw) == Nil
  {
  }

  /** A missing day or month coerces to 0, so the date is invalid and nothing is assembled. */
  lemma MissingDayOrMonthNeverAssembles(c: Config, raw: Raw, p: Part)
    requires p != Year && !Discarded(c, p) && RawPart(raw, p).None?
    ensures !ValidDateOf(c, Nil, raw) && AfterSet(c, raw) == Nil
  {
  }

  /**
   * A missing year coerces to 0, which is a real (proleptic) year, so a valid
   * month and day with no year assemble a date in year 0.
   */
  lemma MissingYearAssemblesYearZero(c: Config, raw: Raw)
    requires !c.discardYear && raw.year.None?
    requires IsValidDate(0, Resolved(c, raw, Month), Resolved(c, raw, Day))
    ensures AfterSet(c, raw) == DateVal(CivilDate(0, Resolved(c, raw, Month), Resolved(c, raw, Day)))
  {
  }

  /** A date that was assembled reads back, through the getters, as the parts it was built from. */
  lemma AssembledReadsBack(c: Config, raw: Raw, raw2: Raw, p: Part)
    requires AfterSet(c, raw).DateVal?
    ensures PartValue(c, AfterSet(c, raw), raw2, p) == Resolved(c, raw, p)
  {
  }

  /**
   * Validation agrees with assembly: right after a setter, the validation hook
   * accepts exactly when the setter wrote a date.
   */
  lemma ValidationAgreesWithAssembly(c: Config, raw: Raw)
    ensures ValidDateOf(c, AfterSet(c, raw), raw) <==> AfterSet(c, raw).DateVal?
  {
  }

  /** Assembling again with nothing changed keeps the composite as it is. */
  lemma AssembleIdempotent(c: Config, comp: Composite, raw: Raw)
    ensures AssembleStep(c, AssembleStep(c, comp, raw), raw) == AssembleStep(c, comp, raw)
  {
  }

  /** The order in which two different parts are set does not change the outcome. */
  lemma SettingOrderIrrelevant(c: Config, raw: Raw, p: Part, v: Option<int>, q: Part, w: Option<int>)
    requires p != q
    ensures WithPart(WithPart(raw, p, v), q, w) == WithPart(WithPart(raw, q, w), p, v)
    ensures AfterSet(c, WithPart(WithPart(raw, p, v), q, w)) == AfterSet(c, WithPart(WithPart(raw, q, w), p, v))
  {
  }

  /** The `as:` alias renames only the part properties; the error key and the date logic stay the same. */
  lemma AliasOnlyRenamesProperties(fieldName: string, a: Options, b: Options, comp: Composite, raw: Raw)
    requires a.(alias := None) == b.(alias := None)
    ensures Configure(fieldName, a).fieldName == Configure(fieldName, b).fieldName == fieldName
    ensures ValidDateOf(Configure(fieldName, a), comp, raw) == ValidDateOf(Configure(fieldName, b), comp, raw)
    ensures AfterSet(Configure(fieldName, a), raw) == AfterSet(Configure(fieldName, b), raw)
  {
  }

  /** The form that owns the fields: it holds the error collection the hooks add to. */
  class Form {
    var errors: seq<Error>

    constructor ()
      ensures errors == []
    {
      errors := [];
    }
  }

  /** One declared multi-part date field of a form. */
  class DateField {
    const host: Form
    const config: Config
    var rawDay: Option<int>
    var rawMonth: Option<int>
    var rawYear: Option<int>
    var composite: Composite

    function RawParts(): Raw
      reads this
    {
      Raw(rawDay, rawMonth, rawYear)
    }

    /** Declares the field on `host`; the composite starts as whatever the model holds. */
    constructor (host: Form, fieldName: string, opts: Options, initial: Composite)
      ensures this.host == host
      ensures config.fieldName == fieldName
      ensures config.key == if opts.alias.Some? then opts.alias.value else fieldName
      ensures config == Configure(fieldName, opts)
      ensures RawParts() == Raw(None, None, None) && composite == initial
    {
      this.host := host;
      config := Configure(fieldName, opts);
      rawDay, rawMonth, rawYear := None, None, None;
      composite := initial;
    }

    /** The generated `<key>_<part>=` setter. */
    method SetPart(p: Part, v: Option<int>)
      modifies this
      ensures RawParts() == WithPart(old(RawParts()), p, v)
      ensures RawPart(RawParts(), p) == v
      ensures composite == AfterSet(config, RawParts())
    {
      match p {
        case Day => rawDay := v;
        case Month => rawMonth := v;
        case Year => rawYear := v;
      }
      var present := PartsPresent();
      if present {
        Assemble();
      }
    }

    /** The generated `<field>_parts_present?`: blanks the composite, then checks the coerced parts. */
    method PartsPresent() returns (present: bool)
      modifies this`composite
      ensures composite == Nil
      ensures present
    {
      composite := Nil;
      // Each coerced part is an Integer, and ActiveSupport's `present?` holds of every Integer.
      present := true;
    }

    /** The generated `set_<field>`. */
    method Assemble()
      modifies this`composite
      ensures composite == AssembleStep(config, old(composite), RawParts())
      ensures composite != old(composite) ==> ValidDateOf(config, old(composite), RawParts())
    {
      var raw := RawParts();
      if !ValidDateOf(config, composite, raw) {
        return;
      }
      var y := PartValue(config, composite, raw, Year);
      var m := PartValue(config, composite, raw, Month);
      var d := PartValue(config, composite, raw, Day);
      composite := DateVal(CivilDate(y, m, d));
    }

    /** The generated `validate_<field>_date` hook. */
    method ValidateDate() returns (ok: bool)
      modifies host`errors
      ensures ok == ValidDateOf(config, composite, RawParts())
      ensures host.errors == if ok then old(host.errors)
                             else old(host.errors) + [Error(config.fieldName, InvalidDateMessage)]
    {
      if ValidDateOf(config, composite, RawParts()) {
        return true;
      }
      host.errors := host.errors + [Error(config.fieldName, InvalidDateMessage)];
      ok := false;
    }

    /** The hook as the declaration registers it: run unconditionally, or only when the `validate_if:` predicate holds. */
    method RunValidation(resolve: string -> bool)
      modifies host`errors
      ensures host.errors ==
        if ValidationRuns(config, resolve) && !ValidDateOf(config, composite, RawParts())
        then old(host.errors) + [Error(config.fieldName, InvalidDateMessage)]
        else old(host.errors)
    {
      if ValidationRuns(config, resolve) {
        var _ := ValidateDate();
      }
    }
  }
}
