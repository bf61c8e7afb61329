# multi_part_date in Dafny

A model of the `multi_part_date` form helper. The helper collects one date
attribute through three separate parts: day, month and year. Declaring
`multi_part_date :date_of_birth` on a form generates the following, for each part:

- a getter;
- a `_value` reader that coerces with `to_i`;
- a setter.

It also generates these for the whole field:

- a presence check;
- an assembler (`set_<field>`);
- a validity check (`valid_<field>_date?`);
- a validation hook (`validate_<field>_date`), registered unconditionally or behind a `validate_if:` predicate.

The model has four modules:

- `Calendar` (calendar.dfy) is the calendar rule that `Date.valid_date?` applies. The months are 1 to 12, both included. A day runs from 1 to the month's length, and the Gregorian leap-year rule decides February. `Date` is the subset type of real dates, so building one is proved never to fail. As an independent check on the validity predicate, the module also defines the day of the year. It proves this is a bijection between a year's valid dates and 1..365 (or 1..366 in a leap year).
- `MultiPartDate` (multi_part_date.dfy) is the declared field. Pure functions give the getters, `to_i`, validity and assembly over the field's configuration, its composite value and its raw parts. The `DateField` class holds those raw parts. It also holds the composite (`Nil`, a date, or `NonDate`: a truthy value with no date readers, like the `true` the test doubles return). Its methods are the generated setter, presence check, assembler, validation hook and gated registration. The `Form` class owns the error list that the hooks of all its fields append to.
- `Scenarios` (scenarios.dfy) drives fields the way a form does: setters first, then the hook. `Submit` states the outcome for every input. The other methods are the repository's example cases.
- `Wrappers` (wrappers.dfy) holds `Option`. `None` stands for `nil`.

Four behaviours of the code are easy to miss:

- A missing year is not rejected. It coerces to 0, and year 0 is a real proleptic year, so month 12, day 25 with no year stores 0000-12-25 and reports no error (`MultiPartDate.MissingYearAssemblesYearZero`, `Scenarios.MissingYearIsAccepted`). Only a missing day or month makes the date invalid (`MultiPartDate.MissingDayOrMonthNeverAssembles`).
- Every coerced part is an Integer, and ActiveSupport counts every Integer as present, so the presence check never fails.
- A setter whose parts do not form a date leaves the composite `nil`, whatever it held before, because the presence check blanks it on every setter call.
- `validate_if:` gates only the hook. The setters still store a valid date (`Scenarios.ValidateIfLeavesAssemblyAlone`).

## Model

| member | source | states |
|---|---|---|
| Calendar.IsValidDate | lib/multi_part_date.rb:98-102 | `Date.valid_date?` for positive parts: a valid date has month 1..12 and day 1..31; days 1 to 28 are valid in every month of every year; day 31 is invalid in February, April, June, September and November |
| Calendar.DaysInMonth | lib/multi_part_date.rb:96-103 | a month has 28 to 31 days, and fewer than 30 only in February |
| Calendar.LeapDayRule | lib/multi_part_date.rb:96-103 | February 29th is a real date exactly in Gregorian leap years |
| Calendar.ThirtyFirstRule | lib/multi_part_date.rb:96-103 | day 31 is valid exactly in months 1, 3, 5, 7, 8, 10 and 12 |
| Calendar.ZeroIsNeitherMonthNorDay | lib/multi_part_date.rb:84-86 | a month or day that coerced to 0 never forms a valid date |
| Calendar.YearLengthByLeap | lib/multi_part_date.rb:96-103 | the month lengths add up to 366 days in a leap year and 365 otherwise |
| Calendar.OrdinalDay | lib/multi_part_date.rb:96-103 | every valid date is day 1 to YearLength of its year |
| Calendar.DateFrom | lib/multi_part_date.rb:96-103 | counting n days from the start of a month lands on a valid date of that year, at the same offset from January 1st |
| Calendar.DateOfOrdinal | lib/multi_part_date.rb:96-103 | every day number 1..YearLength of a year is a valid date of that year, at that position |
| Calendar.OrdinalDayInjective | lib/multi_part_date.rb:96-103 | two valid dates of one year with the same day number are equal |
| Calendar.OrdinalRoundTrip | lib/multi_part_date.rb:96-103 | day number to date undoes date to day number, so valid dates and day numbers are in bijection |
| MultiPartDate.PropertyName | lib/multi_part_date.rb:19-21 | a part's property name starts with the key (the `as:` alias or the field name) followed by `_` |
| MultiPartDate.PropertyNamesDistinct | lib/multi_part_date.rb:19-21 | the three parts have three different properties |
| MultiPartDate.AliasOnlyRenamesProperties | lib/multi_part_date.rb:12 | two options that differ only in `as:` give the same error key, the same validity and the same assembled date |
| MultiPartDate.Configure | lib/multi_part_date.rb:11-15 | the field name is kept as the error key, the part key is the `as:` alias when one is given and the field name otherwise, and the discard flags and the `validate_if:` name are taken from the options |
| MultiPartDate.Getter | lib/multi_part_date.rb:34-50 | a discarded part reads 1; a part reads `nil` exactly when it is not discarded and either the composite is a non-date value or the composite is unset and the raw part is `nil` |
| MultiPartDate.ToI | lib/multi_part_date.rb:85 | `to_i` keeps an integer, and gives 0 exactly for `nil` or 0 |
| MultiPartDate.PartValue | lib/multi_part_date.rb:82-88 | a discarded part's `_value` is 1; a non-date composite makes every other `_value` 0; a date composite gives a month and day between 1 and 31 |
| MultiPartDate.ValidDateOf | lib/multi_part_date.rb:96-103 | when the check holds, the coerced month is 1..12 and the coerced day 1..31; a non-date composite fails the check unless the day and the month are both discarded |
| MultiPartDate.AssembleStep | lib/multi_part_date.rb:61-71 | `set_<field>` changes the composite only to a date and only when the check holds; the date it writes has as its year, month and day the coerced `_value` parts (1 for a discarded part), and it reads back through the getters as those same parts |
| MultiPartDate.AfterSet | lib/multi_part_date.rb:54-58 | after a setter the composite is `nil` or a date, never a non-date value, and it is a date exactly when the check holds of the raw parts with the composite blanked |
| MultiPartDate.ValidationRuns | lib/multi_part_date.rb:74-80 | without `validate_if:` the hook always runs; with it, the hook runs exactly when the named predicate resolves to true |
| MultiPartDate.WithPartUpdatesOnePart | lib/multi_part_date.rb:54-55 | a setter stores its argument in its own part and leaves the other two parts as they were |
| MultiPartDate.GetterPrecedence | lib/multi_part_date.rb:34-50 | a discarded part reads 1 whatever is stored; a set composite hides the raw part, and a non-date composite reads `nil`; an unset composite exposes the raw part |
| MultiPartDate.ClearedReadsRaw | lib/multi_part_date.rb:82-88 | with the composite blanked, a coerced part is the raw part, 1 if discarded, 0 if absent |
| MultiPartDate.AfterSetIsCalendarDate | lib/multi_part_date.rb:52-71 | after any setter the composite is the date of the resolved raw parts when they form a real date and `nil` otherwise, whatever it held before |
| MultiPartDate.MissingDayOrMonthNeverAssembles | lib/multi_part_date.rb:84-103 | an absent, not discarded day or month makes the date invalid, and nothing is assembled |
| MultiPartDate.MissingYearAssemblesYearZero | lib/multi_part_date.rb:106-115 | an absent, not discarded year reads as year 0, and a valid month and day then assemble a year-0 date |
| MultiPartDate.AssembledReadsBack | lib/multi_part_date.rb:41-47 | read back through the getters, an assembled date gives the parts it was built from, whatever the raw parts are now |
| MultiPartDate.ValidationAgreesWithAssembly | lib/multi_part_date.rb:118-124 | right after a setter, the validity check holds exactly when the setter wrote a date |
| MultiPartDate.AssembleIdempotent | lib/multi_part_date.rb:61-71 | assembling a second time with nothing changed keeps the composite as it is |
| MultiPartDate.SettingOrderIrrelevant | lib/multi_part_date.rb:52-59 | setting two different parts in either order gives the same raw parts and the same composite |
| MultiPartDate.DateField.constructor | lib/multi_part_date.rb:11-24 | a declared field's part key is the alias or the field name; the raw parts start absent and the composite starts as the model's value |
| MultiPartDate.DateField.SetPart | lib/multi_part_date.rb:52-59 | the setter stores the raw part, and the composite becomes the assembly of the raw parts from a blanked composite |
| MultiPartDate.DateField.PartsPresent | lib/multi_part_date.rb:106-116 | the presence check blanks the composite and always answers true |
| MultiPartDate.DateField.Assemble | lib/multi_part_date.rb:61-71 | `set_<field>` writes the date of the coerced parts when they are valid and changes nothing otherwise |
| MultiPartDate.DateField.ValidateDate | lib/multi_part_date.rb:118-124 | the hook answers whether the date is valid, and otherwise appends exactly one `(field name, 'is not a valid date')` error |
| MultiPartDate.DateField.RunValidation | lib/multi_part_date.rb:74-80 | the hook runs unconditionally, or only when the `validate_if:` predicate holds; when skipped, the errors are unchanged |
| Scenarios.Submit | lib/multi_part_date.rb:52-124 | for every submitted month, day and year, the stored composite is the date of the resolved parts or `nil`, and exactly one error is reported when the hook runs and nothing was stored |
| Scenarios.ValidDateIsStored | spec/multi_part_date_spec.rb:24-44 | 2000-12-25 is stored with no error |
| Scenarios.InvalidDayIsRejected | spec/multi_part_date_spec.rb:46-66 | day 50 of December stores nothing and reports one error on `date_of_birth` |
| Scenarios.MissingDayIsRejected | spec/multi_part_date_spec.rb:69-89 | a missing day stores nothing and reports one error |
| Scenarios.MissingYearIsAccepted | lib/multi_part_date.rb:106-115 | a missing year stores 0000-12-25 with no error |
| Scenarios.AliasedFieldIsStored | spec/multi_part_date_spec.rb:92-116 | under `as: :birth` the month property is `birth_month`, and 2000-12-25 is still stored with no error |
| Scenarios.DiscardedDayDefaultsToFirst | spec/multi_part_date_spec.rb:167-187 | with `discard_day:`, month 12 of 2000 stores 2000-12-01 with no error |
| Scenarios.DiscardedDayWithInvalidMonth | spec/multi_part_date_spec.rb:189-208 | with `discard_day:`, month 14 stores nothing and reports one error |
| Scenarios.ValidateIfGatesTheHook | spec/multi_part_date_spec.rb:357-395 | of two invalid fields on one form, only the one whose predicate holds reports an error, and neither stores a date |
| Scenarios.ValidateIfLeavesAssemblyAlone | spec/multi_part_date_spec.rb:331-355 | valid dates are stored for both fields, including the one whose predicate is false, with no error |
| Scenarios.ResubmittingIsIdempotent | lib/multi_part_date.rb:54-71 | setting a part again with the same value keeps the stored valid date, and validation then reports no error |

## Left out

- Ruby metaprogramming (`define_method`, `send`, `super`) and Reform's `property` declarations are left out. The part properties and the composite are plain fields of `DateField`. The generated method names are modelled only as `PropertyName`.
- `Types::Form::Int` and `Types::Form::Date` coercion is left out. Raw parts are already integers or absent. The `type:` option, which chooses the composite's coercion, is left out for the same reason.
- The `on:` option is left out. It routes the properties to a nested model (Reform's `Composition`), and the date logic is the same wherever the value lives.
- `save`, syncing to the model, and rendering errors as full messages ("Date of birth is not a valid date") are left out. These belong to the form framework. Errors are kept as `(attribute, message)` pairs.
- ActiveSupport's `present?` is not modelled in general. It is applied only to Integers here, and every Integer is present, so the presence check simply answers true.
- Calendar.IsValidDate: models only the proleptic Gregorian rule for positive months and days. Ruby's `Date.valid_date?` also has two behaviours that are not modelled. First, it uses Julian leap years before the Italian reform of 1582, and it rejects the reform gap 1582-10-05 to 1582-10-14. Second, it counts negative months and days from the end of the year or month.
- A `validate_if:` given as a proc is left out. The predicate is a method name, resolved by a function the caller supplies.
- The order of part assignment, and which setters a submission calls, belong to the form framework. `Submit` sets month, day and then year. By `SettingOrderIrrelevant`, the outcome does not depend on that order.
- The values that Ruby returns from the setters and from `set_<field>` are ignored by every caller, so they are not modelled.
