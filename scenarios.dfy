/**
 * Clients of a declared field, driving it the way a form does: the submitted
 * parts go through the setters, then the validation hook runs. The concrete
 * cases are those the repository's own examples describe.
 */
module Scenarios {
  import opened Wrappers
  import opened Calendar
  import opened MultiPartDate

  /**
   * Submits month, day and year (in that order) to a freshly declared field and
   * runs its validation hook. For every input, the stored composite is the date
   * of the resolved parts when they form a real date and `nil` otherwise, and
   * exactly one error is reported when the hook runs and no date was stored.
   */
  method Submit(fieldName: string, opts: Options, initial: Composite,
                month: Option<int>, day: Option<int>, year: Option<int>, resolve: string -> bool)
    returns (stored: Composite, errors: seq<Error>)
    ensures var c, raw := Configure(fieldName, opts), Raw(day, month, year);
      var y, m, d := Resolved(c, raw, Year), Resolved(c, raw, Month), Resolved(c, raw, Day);
      stored == if IsValidDate(y, m, d) then DateVal(CivilDate(y, m, d)) else Nil
    ensures errors ==
      if ValidationRuns(Configure(fieldName, opts), resolve) && !stored.DateVal?
      then [Error(fieldName, InvalidDateMessage)]
      else []
  {
    var form := new Form();
    var field := new DateField(form, fieldName, opts, initial);
    field.SetPart(Month, month);
    field.SetPart(Day, day);
    field.SetPart(Year, year);
    assert field.RawParts() == Raw(day, month, year);
    AfterSetIsCalendarDate(field.config, field.RawParts());
    ValidationAgreesWithAssembly(field.config, field.RawParts());
    field.RunValidation(resolve);
    stored := field.composite;
    errors := form.errors;
  }

  function NoPredicate(name: string): bool {
    false
  }

  /** December 25th, 2000 is stored and no error is reported. */
  method ValidDateIsStored() returns (stored: Composite, errors: seq<Error>)
    ensures stored == DateVal(CivilDate(2000, 12, 25)) && errors == []
  {
    stored, errors := Submit("date_of_birth", NoOptions, NonDate, Some(12), Some(25), Some(2000), NoPredicate);
  }

  /** December 50th is rejected: nothing is stored and one error is keyed by the field. */
  method InvalidDayIsRejected() returns (stored: Composite, errors: seq<Error>)
    ensures stored == Nil && errors == [Error("date_of_birth", InvalidDateMessage)]
  {
    stored, errors := Submit("date_of_birth", NoOptions, NonDate, Some(12), Some(50), Some(2000), NoPredicate);
  }

  /** A missing day is rejected like an invalid one. */
  method MissingDayIsRejected() returns (stored: Composite, errors: seq<Error>)
    ensures stored == Nil && errors == [Error("date_of_birth", InvalidDateMessage)]
  {
    stored, errors := Submit("date_of_birth", NoOptions, NonDate, Some(12), None, Some(2000), NoPredicate);
  }

  /** A missing year reads as year 0 and is accepted: 0000-12-25 is stored without an error. */
  method MissingYearIsAccepted() returns (stored: Composite, errors: seq<Error>)
    ensures stored == DateVal(CivilDate(0, 12, 25)) && errors == []
  {
    stored, errors := Submit("date_of_birth", NoOptions, NonDate, Some(12), Some(25), None, NoPredicate);
  }

  /** With `as: :birth` the parts are the `birth_*` properties, but the date and the error key are unchanged. */
  method AliasedFieldIsStored() returns (stored: Composite, errors: seq<Error>, monthProperty: string)
    ensures stored == DateVal(CivilDate(2000, 12, 25)) && errors == []
    ensures monthProperty == "birth_month"
  {
    var opts := NoOptions.(alias := Some("birth"));
    stored, errors := Submit("date_of_birth", opts, NonDate, Some(12), Some(25), Some(2000), NoPredicate);
    monthProperty := PropertyName(Configure("date_of_birth", opts), Month);
  }

  /** With `discard_day: true`, month 12 of 2000 is stored as 2000-12-01. */
  method DiscardedDayDefaultsToFirst() returns (stored: Composite, errors: seq<Error>)
    ensures stored == DateVal(CivilDate(2000, 12, 1)) && errors == []
  {
    stored, errors := Submit("date_of_birth", NoOptions.(discardDay := true), NonDate, Some(12), None, Some(2000), NoPredicate);
  }

  /** With `discard_day: true`, month 14 is rejected. */
  method DiscardedDayWithInvalidMonth() returns (stored: Composite, errors: seq<Error>)
    ensures stored == Nil && errors == [Error("date_of_birth", InvalidDateMessage)]
  {
    stored, errors := Submit("date_of_birth", NoOptions.(discardDay := true), NonDate, Some(14), None, Some(2000), NoPredicate);
  }

  /**
   * Two fields on one form, gated by `validate_if:` predicates that resolve to
   * true and to false: both invalid dates are left unstored, and only the
   * field whose predicate holds reports an error.
   */
  method ValidateIfGatesTheHook() returns (birth: Composite, marriage: Composite, errors: seq<Error>)
    ensures birth == Nil && marriage == Nil
    ensures errors == [Error("date_of_birth", InvalidDateMessage)]
  {
    var resolve := (name: string) => name == "some_truthy_method";
    var form := new Form();
    var b := new DateField(form, "date_of_birth", NoOptions.(validateIf := Some("some_truthy_method")), NonDate);
    var m := new DateField(form, "date_of_marriage", NoOptions.(validateIf := Some("some_falsy_method")), NonDate);
    b.SetPart(Day, Some(25));
    b.SetPart(Month, Some(14));
    b.SetPart(Year, Some(1990));
    m.SetPart(Day, Some(40));
    m.SetPart(Month, Some(5));
    m.SetPart(Year, Some(2015));
    b.RunValidation(resolve);
    m.RunValidation(resolve);
    birth, marriage, errors := b.composite, m.composite, form.errors;
  }

  /**
   * The `validate_if:` gate covers only the hook: valid dates are stored by the
   * setters even for the field whose predicate resolves to false.
   */
  method ValidateIfLeavesAssemblyAlone() returns (birth: Composite, marriage: Composite, errors: seq<Error>)
    ensures birth == DateVal(CivilDate(1990, 12, 25))
    ensures marriage == DateVal(CivilDate(2015, 5, 1))
    ensures errors == []
  {
    var resolve := (name: string) => name == "some_truthy_method";
    var form := new Form();
    var b := new DateField(form, "date_of_birth", NoOptions.(validateIf := Some("some_truthy_method")), NonDate);
    var m := new DateField(form, "date_of_marriage", NoOptions.(validateIf := Some("some_falsy_method")), NonDate);
    b.SetPart(Day, Some(25));
    b.SetPart(Month, Some(12));
    b.SetPart(Year, Some(1990));
    m.SetPart(Day, Some(1));
    m.SetPart(Month, Some(5));
    m.SetPart(Year, Some(2015));
    b.RunValidation(resolve);
    m.RunValidation(resolve);
    birth, marriage, errors := b.composite, m.composite, form.errors;
  }

  /** Submitting the same part again reproduces the stored date and, on validation, no error. */
  method ResubmittingIsIdempotent(y: int, m: int, d: int) returns (first: Composite, second: Composite, errors: seq<Error>)
    requires IsValidDate(y, m, d)
    ensures first == second == DateVal(CivilDate(y, m, d))
    ensures errors == []
  {
    var form := new Form();
    var field := new DateField(form, "date_of_birth", NoOptions, Nil);
    field.SetPart(Year, Some(y));
    field.SetPart(Month, Some(m));
    field.SetPart(Day, Some(d));
    first := field.composite;
    field.SetPart(Day, Some(d));
    second := field.composite;
    ValidationAgreesWithAssembly(field.config, field.RawParts());
    field.RunValidation(NoPredicate);
    errors := form.errors;
  }
}
