# TED back office: a verified model of the transfer core

This project models, in Dafny, the business core of a back-office API for TED
wire transfers (Transferência Eletrônica Disponível). Clients ask for transfers,
list their own transfers and cancel them. Administrators list every transfer with
wider filters, approve or reject them, and maintain the single row of daily
limits.

The model covers these parts:

- **Admission of a request** (`ClienteService`). The request is validated and
  mapped to a new row `InProcess`. Then the day's limits are checked against the
  client's transfers scheduled for today. A request within the caps whose schedule
  falls inside the configured settlement window is sent for settlement and stored
  `Approved` with the confirmation id it got back. Every other valid request is
  stored `InProcess` without a confirmation and without an error.
- **The life of a transfer** (`Lifecycle`, the two repositories). Cancelling,
  approving and rejecting are guarded transitions out of `InProcess`. Each action
  has its own message for "already done" and for "can no longer be done". A
  successful transition rewrites one row and only the status, the update stamp and
  the field the action records. The services put an id check and an existence
  check in front of each transition.
- **Approval by an administrator** (`AdminService`). The settlement entry is built
  and submitted for any transfer that exists, whatever its status. The status
  guard runs afterwards, in the repository. The contract of
  `AdminService.AdminTedService.AprovaTed` states this order.
- **Listings and paging** (`TedQueries`, `TedStore`, `Paging`). Filters are
  AND-combined and rows stay in store order. Paging is `Skip((p-1)*s).Take(s)`,
  and the total is counted before paging. The administrator's list fills a
  missing start or end date with the current time. `TotalPages` is the ceiling of
  count over size.
- **Validators** (`ClienteTedRequestValidator`, `SinacorTedRequestValidator`,
  `LimiteTedRequestValidator`, `QueryValidators`). Each rule is a constructor of a
  rule datatype. A validator returns the failing rules in declaration order, as
  FluentValidation reports them. The services trim trailing dots from the
  messages.
- **The settlement payload and the response envelopes** (`Settlement`,
  `SinacorDto`, `Responses`).

The tables live in one object, `TedStore.AppDb`. It holds the `Ted` rows in store
order, the `LimiteTed` rows and the last value of the identity column. Its
invariant says that ids increase along the table, are positive and do not exceed
the last identity value. It also says that stored dates are valid. The repositories
and services are classes over that object. Their methods state the whole new
state against specification functions such as `Lifecycle.Transition` and
`ClienteService.Submission`, and the lemmas state what those functions promise.

Time is a parameter. The current time `now` is passed in, and `DateTime` is a date
plus a tick count within the day. The settlement side is also a parameter,
`reply`: the confirmation id it returns, or the error it raises. The payload is
checked against the entry rules before `reply` is consulted.

The settlement-window test follows the code, not a time-of-day reading. The code
compares the whole scheduled `DateTime` with the two configured `DateTime` bounds
(`src/TED.API/Services/ClienteTedService.cs:70`). The bounds are whole
`DateTime` values: parsed from the configured texts when the settings are first
resolved, or taken from the local configuration as written. The model takes them
as the service's constructor parameters. So with a window that ends today, a
transfer scheduled for a later day is never approved on request
(`ClienteService.LaterDayNeverApproved`).

## Model

| member | source | states |
|---|---|---|
| Entities.StatusCode | src/TED.API/Enums/StatusEnum.cs:8-33 | each status's underlying integer lies in 0..3 |
| Entities.StatusOfCode | src/TED.API/Enums/StatusEnum.cs:8-33 | an integer names a status exactly when it is in 0..3, and the status it names has that integer |
| Entities.StatusCodeRoundTrip | src/TED.API/Enums/StatusEnum.cs:8-33 | every status is found again from its integer |
| SinacorDto.NewLancamento | src/TED.API/DTOs/SinacorTedRequestDto.cs:31-42 | a new entry: "TED", settlement group 17, house bank "467", agency "0001", account 10001, empty agency digit, account type "CC", situation "E", external system "SPBX"; every other field zero or empty (its rule outcomes are `SinacorTedRequestValidator.FreshEntryFails`) |
| SinacorDto.NewSinacorTedRequest | src/TED.API/DTOs/SinacorTedRequestDto.cs:20-22 | a new request has an empty list of entries |
| Text.NotEmpty | src/TED.API/Validators/ClienteTedRequestDtoValidator.cs:13 | FluentValidation's `NotEmpty` on a string: some character is not white space (null is the empty string) |
| Text.TrimEndDots | src/TED.API/Services/ClienteTedService.cs:42 | `TrimEnd('.')` gives a prefix of the message that does not end in '.', and only dots are cut |
| Text.TrimEndDotsIdempotent | src/TED.API/Services/ClienteTedService.cs:62 | trimming an already trimmed message changes nothing |
| Text.TrimEndDotsAppend | src/TED.API/Services/ClienteTedService.cs:62 | a message followed by any number of dots trims back to exactly that message |
| Text.Join | src/TED.API/Response/ApiResponse.cs:54 | joining one error gives that error; joining none gives the empty string |
| Text.JoinAppend | src/TED.API/Response/ApiResponse.cs:54 | joining one more part appends the separator and that part, so with the empty and one-part cases the joined text is fixed: the parts in order, a separator between each two |
| Text.JoinLength | src/TED.API/Response/ApiResponse.cs:54 | the joined text is as long as every part plus one separator between each two |
| Text.JoinContainsEach | src/TED.API/Response/ApiResponse.cs:54 | every part occurs in the joined text |
| NumberText.TryParseInt32 | src/TED.API/Validators/ClienteTedRequestDtoValidator.cs:40-52 | `int.TryParse` only yields values in the Int32 range |
| NumberText.ParsedHasDigit | src/TED.API/Validators/ClienteTedRequestDtoValidator.cs:40-52 | a string that parses contains a digit |
| NumberText.ParseDecimalString | src/TED.API/Validators/ClienteTedRequestDtoValidator.cs:40-52 | the decimal rendering of any n up to Int32.MaxValue parses back to n |
| NumberText.ParseDigits | src/TED.API/Validators/ClienteTedRequestDtoValidator.cs:40-52 | a non-empty digit string within range parses to its decimal value |
| NumberText.LeadingZeros | src/TED.API/Validators/ClienteTedRequestDtoValidator.cs:40-45 | leading zeros do not change a digit string's value |
| Calendar.Le | src/TED.API/Services/ClienteTedService.cs:70 | `DateTime` `<=`: an earlier day, or the same day at the same or an earlier tick |
| Calendar.Midnight | src/TED.API/Validators/ClienteTedRequestDtoValidator.cs:16-18 | `Now.Date` keeps the day and is at or before the time it was taken from |
| Calendar.AtOrAfterMidnight | src/TED.API/Validators/ClienteTedRequestDtoValidator.cs:16-18 | a time is at or after today's midnight exactly when its date is today or later |
| Calendar.LaterDayIsLater | src/TED.API/Services/ClienteTedService.cs:70 | a `DateTime` on a later day is never at or before one on an earlier day |
| Calendar.FormatIsoDate | src/TED.API/Services/ClienteTedService.cs:82-83 | `ToString("yyyy-MM-dd")` gives ten characters with '-' at positions 4 and 7 |
| Calendar.ParseIsoDate | src/TED.API/Validators/SinacorTedRequestDtoValidator.cs:60-70 | a text that parses yields a valid calendar date |
| Calendar.ParseFormatIsoDate | src/TED.API/Services/ClienteTedService.cs:82-83 | a formatted date parses back to the same date |
| Calendar.FormatParseIsoDate | src/TED.API/Validators/SinacorTedRequestDtoValidator.cs:60-70 | a text that parses is exactly the formatting of the date it yields |
| Errors.Failing | src/TED.API/Validators/ClienteTedRequestDtoValidator.cs:8-38 | a rule is reported exactly when it is declared and fails; none is reported exactly when all hold; all are reported when all fail |
| Errors.FailingAppend | src/TED.API/Validators/ClienteTedRequestDtoValidator.cs:8-38 | declaring one more rule adds it at the end of the report when it fails and changes nothing else |
| Errors.FailingInOrder | src/TED.API/Validators/ClienteTedRequestDtoValidator.cs:8-38 | the report is every declared rule's contribution in declaration order: the rule itself when it fails, nothing when it holds |
| Errors.FailingNoRepeats | src/TED.API/Validators/ClienteTedRequestDtoValidator.cs:8-38 | when no rule is declared twice, no rule is reported twice |
| Errors.Concat | src/TED.API/Validators/SinacorTedRequestDtoValidator.cs:10 | the batch's failures are empty exactly when every entry's are, and contain every entry's |
| Errors.TrimAll | src/TED.API/Services/ClienteTedService.cs:62 | every message is trimmed, in order, and none is lost |
| Errors.FromValidation | src/TED.API/Services/ClienteTedService.cs:62 | the `ValidationException` carries one trimmed message per failed rule, in order |
| ClienteTedRequestValidator.BeANonZeroNumber | src/TED.API/Validators/ClienteTedRequestDtoValidator.cs:40-45 | `int.TryParse` succeeds with a value above 0 |
| ClienteTedRequestValidator.BeANonNegativeInteger | src/TED.API/Validators/ClienteTedRequestDtoValidator.cs:47-52 | `int.TryParse` succeeds with a value at or above 0 |
| ClienteTedRequestValidator.Validate | src/TED.API/Validators/ClienteTedRequestDtoValidator.cs:10-36 | a rule is reported exactly when it fails on the request |
| ClienteTedRequestValidator.Messages | src/TED.API/Validators/ClienteTedRequestDtoValidator.cs:10-36 | one message per rule `Validate` reports, at the same index; `ValidateInOrder` and `EachRuleOnce` make these the failed rules, once each, in declaration order |
| ClienteTedRequestValidator.ValidateInOrder | src/TED.API/Validators/ClienteTedRequestDtoValidator.cs:10-36 | the report takes the nine rules in declaration order, each failing rule in its place and each holding rule left out |
| ClienteTedRequestValidator.EachRuleOnce | src/TED.API/Validators/ClienteTedRequestDtoValidator.cs:10-36 | no rule is reported twice |
| ClienteTedRequestValidator.ValidIff | src/TED.API/Validators/ClienteTedRequestDtoValidator.cs:10-36 | a request passes exactly when the client id is positive, both names are non-blank, the schedule is not before today's midnight, the value is positive, agency, account and bank parse as integers above 0 and the digit as one at or above 0 |
| ClienteTedRequestValidator.ScheduleRuleIsByDate | src/TED.API/Validators/ClienteTedRequestDtoValidator.cs:16-18 | the schedule rule fails exactly when the scheduled date is before today |
| ClienteTedRequestValidator.LeadingZerosAccepted | src/TED.API/Validators/ClienteTedRequestDtoValidator.cs:40-45 | "0001" counts as a number above zero |
| ClienteTedRequestValidator.ZeroRejectedAsNumber | src/TED.API/Validators/ClienteTedRequestDtoValidator.cs:40-52 | "0" fails the above-zero check and passes the at-or-above-zero check |
| ClienteTedRequestValidator.NonNumericFailsBoth | src/TED.API/Validators/ClienteTedRequestDtoValidator.cs:40-52 | a string that does not parse fails both numeric checks |
| ClienteTedRequestValidator.PositiveRenderingsAccepted | src/TED.API/Validators/ClienteTedRequestDtoValidator.cs:40-45 | every positive Int32, with any number of leading zeros, passes the above-zero check |
| ClienteTedRequestValidator.NumbersAreNotBlank | src/TED.API/Validators/ClienteTedRequestDtoValidator.cs:47-52 | a string that passes the numeric checks is not blank |
| SinacorTedRequestValidator.BeAValidDate | src/TED.API/Validators/SinacorTedRequestDtoValidator.cs:60-63 | the reference date parses as a date |
| SinacorTedRequestValidator.BeAPastOrPresentDate | src/TED.API/Validators/SinacorTedRequestDtoValidator.cs:65-70 | the reference date parses, and its day is not after today; a text that does not parse fails |
| SinacorTedRequestValidator.ValidateEntry | src/TED.API/Validators/SinacorTedRequestDtoValidator.cs:18-57 | an entry rule is reported exactly when it fails, and none exactly when all hold |
| SinacorTedRequestValidator.EntryInOrder | src/TED.API/Validators/SinacorTedRequestDtoValidator.cs:18-57 | an entry's report takes the fifteen rules in declaration order, each failing rule in its place and each holding rule left out |
| SinacorTedRequestValidator.EachRuleOnce | src/TED.API/Validators/SinacorTedRequestDtoValidator.cs:18-57 | no entry rule is reported twice for one entry |
| SinacorTedRequestValidator.Validate | src/TED.API/Validators/SinacorTedRequestDtoValidator.cs:10 | a batch passes exactly when every entry passes, and each entry's failures are reported |
| SinacorTedRequestValidator.Messages | src/TED.API/Validators/SinacorTedRequestDtoValidator.cs:18-57 | one message per reported failure, in order |
| SinacorTedRequestValidator.EmptyBatchIsValid | src/TED.API/Validators/SinacorTedRequestDtoValidator.cs:10 | a batch with no entries passes |
| SinacorTedRequestValidator.OneBadEntrySpoilsTheBatch | src/TED.API/Validators/SinacorTedRequestDtoValidator.cs:10 | a rule that fails on any one entry is reported for the batch |
| SinacorTedRequestValidator.FreshEntryFails | src/TED.API/DTOs/SinacorTedRequestDto.cs:31-42 | a new entry fails exactly the rules on the fields its constructor leaves unset (the reference date's three rules, client code, amount and the four client routing fields); the defaulted fields pass their rules |
| SinacorTedRequestValidator.UnsetFieldsFail | src/TED.API/DTOs/SinacorTedRequestDto.cs:31-42 | on a new entry, the rules on the fields the constructor leaves unset all fail |
| SinacorTedRequestValidator.DefaultedFieldsPass | src/TED.API/DTOs/SinacorTedRequestDto.cs:31-42 | on a new entry, the rules on the fields the constructor sets all hold |
| SinacorTedRequestValidator.DigitoAgenciaClienteUnchecked | src/TED.API/Validators/SinacorTedRequestDtoValidator.cs:38-57 | the client's agency digit never affects the result |
| LimiteTedRequestValidator.Validate | src/TED.API/Validators/LimiteTedRequestDtoValidator.cs:8-18 | a limit rule is reported exactly when it fails |
| LimiteTedRequestValidator.Messages | src/TED.API/Validators/LimiteTedRequestDtoValidator.cs:8-18 | one message per rule `Validate` reports, at the same index; `ValidateInOrder` makes these the failed caps, once each, in declaration order |
| LimiteTedRequestValidator.ValidateInOrder | src/TED.API/Validators/LimiteTedRequestDtoValidator.cs:8-18 | the report is the daily value, daily count and per-transfer caps that fail, once each, in that order |
| LimiteTedRequestValidator.ValidIff | src/TED.API/Validators/LimiteTedRequestDtoValidator.cs:8-18 | new limits pass exactly when all three caps are positive; there is no rule between caps |
| LimiteTedRequestValidator.ZeroLimitsFailEveryRule | src/TED.API/Validators/LimiteTedRequestDtoValidator.cs:8-18 | all-zero limits fail all three rules, in order |
| QueryValidators.ValidateCliente | src/TED.API/Validators/ClienteTedQueryParametersValidator.cs:8-15 | the status and date-order rules are reported exactly when they fail |
| QueryValidators.ValidateAdmin | src/TED.API/Validators/AdminTedQueryParametersValidator.cs:8-18 | the status, client-id and date-order rules are reported exactly when they fail |
| QueryValidators.ClienteMessages | src/TED.API/Validators/ClienteTedQueryParametersValidator.cs:8-15 | one message per rule `ValidateCliente` reports, at the same index; `ClienteInOrder` makes these the failed rules, once each, in declaration order |
| QueryValidators.AdminMessages | src/TED.API/Validators/AdminTedQueryParametersValidator.cs:8-18 | one message per rule `ValidateAdmin` reports, at the same index; `AdminInOrder` makes these the failed rules, once each, in declaration order |
| QueryValidators.ClienteInOrder | src/TED.API/Validators/ClienteTedQueryParametersValidator.cs:8-15 | the client report is the status rule then the date-order rule, each only when it fails |
| QueryValidators.AdminInOrder | src/TED.API/Validators/AdminTedQueryParametersValidator.cs:8-18 | the admin report is the status, client-id and date-order rules, in that order, each only when it fails |
| QueryValidators.ClienteValidIff | src/TED.API/Validators/ClienteTedQueryParametersValidator.cs:8-15 | client parameters pass exactly when a given status is in 0..3 and, if both dates are given, the start is not after the end |
| QueryValidators.AdminValidIff | src/TED.API/Validators/AdminTedQueryParametersValidator.cs:8-18 | admin parameters pass exactly when the client rules pass and a given client id is positive |
| QueryValidators.SameDayLaterStartFails | src/TED.API/Validators/ClienteTedQueryParametersValidator.cs:12-14 | the date rule compares times, so a start later on the end's day fails |
| QueryValidators.NoFiltersPass | src/TED.API/Validators/AdminTedQueryParametersValidator.cs:8-18 | parameters with every optional filter left out pass |
| Paging.TotalPages | src/TED.API/Response/PagedResponse.cs:57 | for a positive size, (pages-1)*size < count <= pages*size (the ceiling); none for size 0 |
| Paging.NewPagedResponse | src/TED.API/Response/PagedResponse.cs:51-58 | items, count, page number and size are stored as given, and the page count is `TotalPages` |
| Paging.TotalPagesExact | src/TED.API/Response/PagedResponse.cs:57 | a count of k full pages gives k pages (0 for no items), and one more item gives k+1 |
| Paging.EveryItemHasAPage | src/TED.API/Response/PagedResponse.cs:57 | the page of every item is between 1 and the page count |
| Responses.Success | src/TED.API/Response/ApiResponse.cs:36-41 | success flag set, message and data stored unchanged |
| Responses.Error | src/TED.API/Response/ApiResponse.cs:48-56 | failure flag, the default message when none is given, and exactly one notification that contains every error |
| Responses.Validation | src/TED.API/Response/ApiResponse.cs:62-69 | failure flag, message "Erro na validação", and one notification per error, in order and unchanged |
| Responses.ValidationKeepsMessages | src/TED.API/Response/ApiResponse.cs:62-69 | the notifications' messages are exactly the validation errors |
| Responses.ErrorWithOneMessage | src/TED.API/Response/ApiResponse.cs:52-55 | a single error is the notification's message as it is; no errors give "" |
| Responses.ErrorMessageLength | src/TED.API/Response/ApiResponse.cs:52-55 | the notification's message is as long as all the errors plus "; " between each two |
| Responses.ErrorMessageAppend | src/TED.API/Response/ApiResponse.cs:52-55 | one more error extends the notification's message by "; " and that error; with `ErrorWithOneMessage` this fixes the message as the errors joined with "; " in order |
| TedStore.AppDb.constructor | src/TED.API/Entities/BaseEntity.cs:14-16 | an empty transfer table whose identity column has handed out nothing |
| TedStore.FindById | src/TED.API/Repositories/ClienteTedRepository.cs:68-78 | the row found is in the table and has that id; nothing is found exactly when no row has it |
| TedStore.FindByIdAt | src/TED.API/Repositories/ClienteTedRepository.cs:68-78 | with unique ids, the row found under a row's id is that row |
| TedStore.ReplaceById | src/TED.API/Repositories/ClienteTedRepository.cs:99-100 | `Update` overwrites the rows with the new row's id and keeps the others and their order |
| TedStore.ReplaceKeepsIds | src/TED.API/Repositories/AdminTedRepository.cs:99-100 | overwriting a row by its own id keeps the ids and makes the new row the one found |
| TedStore.MaxId | src/TED.API/Repositories/ClienteTedRepository.cs:143-147 | the largest id, held by some row, or none for an empty table |
| TedStore.NextLancamentoId | src/TED.API/Repositories/ClienteTedRepository.cs:139-155 | the settlement id is above every id, 1 for an empty table, and one above the largest id otherwise |
| TedStore.NextLancamentoIdAndIdentity | src/TED.API/Repositories/AdminTedRepository.cs:156-172 | in a valid table the settlement id is the last row's id plus one and never above the next identity value |
| TedStore.Filter | src/TED.API/Repositories/ClienteTedRepository.cs:27-36 | the rows kept are exactly the rows that pass, never more rows than the table |
| TedStore.FilterAppend | src/TED.API/Repositories/ClienteTedRepository.cs:27-36 | filtering keeps store order |
| TedStore.SumValues | src/TED.API/Services/ClienteTedService.cs:141 | `Sum(t => t.ValorSolicitado)`: 0 for no rows, never negative when no value is |
| TedStore.SumAppend | src/TED.API/Services/ClienteTedService.cs:141 | the sum of values grows by the new row's value |
| TedStore.Skip | src/TED.API/Repositories/ClienteTedRepository.cs:40 | `Skip(n)` drops the first n rows (none for n <= 0) and keeps the rest in order |
| TedStore.Take | src/TED.API/Repositories/ClienteTedRepository.cs:41 | `Take(n)` is a prefix of min(n, count) rows (none for n <= 0) |
| TedStore.Page | src/TED.API/Repositories/ClienteTedRepository.cs:40-41 | every row of a page comes from the list |
| TedStore.PageBound | src/TED.API/Repositories/ClienteTedRepository.cs:40-41 | a page never holds more rows than the page size |
| TedStore.PagePosition | src/TED.API/Repositories/ClienteTedRepository.cs:40-41 | row i of the list is row i mod size of page i div size + 1 |
| TedStore.PagePastEnd | src/TED.API/Repositories/ClienteTedRepository.cs:40-41 | a page starting past the last row is empty |
| Lifecycle.Apply | src/TED.API/Repositories/AdminTedRepository.cs:95-97 | the new status and stamp, the confirmation id for an approval or the reason for a rejection; every other field unchanged |
| Lifecycle.Transition | src/TED.API/Repositories/AdminTedRepository.cs:83-100 | succeeds exactly when the row exists and is in process; a refusal raises an `Exception` and leaves the table as it was; a success rewrites that row |
| Lifecycle.TransitionErrors | src/TED.API/Repositories/AdminTedRepository.cs:85-92 | a missing row, a row already in the target state and a row in another final state each raise their own message |
| Lifecycle.OnlyTargetRowChanges | src/TED.API/Repositories/ClienteTedRepository.cs:84-100 | a success changes only the row with that id, as `Apply` says, and keeps the table's invariant |
| Lifecycle.NoSecondTransition | src/TED.API/Repositories/ClienteTedRepository.cs:89-93 | after a success every later action on that row is refused, with "already" for the same target and "can no longer" for another |
| Lifecycle.RecordsWhatItIsGiven | src/TED.API/Repositories/AdminTedRepository.cs:124-126 | the row found afterwards has the new status and stamp and exactly the reason or confirmation id given |
| TedQueries.ClienteMatches | src/TED.API/Repositories/ClienteTedRepository.cs:27-36 | the client's row, created on or after the start day and on or before the end day when those are given, with the given status when one is given |
| TedQueries.ClienteList | src/TED.API/Repositories/ClienteTedRepository.cs:25-38 | exactly the rows that pass `ClienteMatches`, in store order, never more than the table |
| TedQueries.AdminMatches | src/TED.API/Repositories/AdminTedRepository.cs:28-50 | the client id when one above 0 is given, the two name substrings when non-empty, the creation-day window and the status |
| TedQueries.AdminList | src/TED.API/Repositories/AdminTedRepository.cs:26-52 | exactly the rows that pass `AdminMatches`, in store order, never more than the table |
| TedQueries.TodaysTedsMembers | src/TED.API/Repositories/ClienteTedRepository.cs:112-113 | `TodaysTeds` holds exactly the client's rows whose scheduled day is today, whatever their status, and is no longer than the table |
| TedQueries.ClienteListMembers | src/TED.API/Repositories/ClienteTedRepository.cs:27-36 | the client list holds exactly the client's rows with the given status whose creation date is within the given dates |
| TedQueries.WithDateDefaults | src/TED.API/Repositories/AdminTedRepository.cs:37-41 | a missing start or end becomes `now`; given dates and every other parameter are kept |
| TedQueries.AdminListDefaultsToToday | src/TED.API/Repositories/AdminTedRepository.cs:37-47 | with no dates given, every listed row was created today |
| TedQueries.FutureStartAloneIsEmpty | src/TED.API/Repositories/AdminTedRepository.cs:37-47 | a start after today with no end lists nothing |
| TedQueries.UnfilteredAdminListIsToday | src/TED.API/Repositories/AdminTedRepository.cs:26-50 | with every filter left out, the list is exactly today's rows in store order |
| TedQueries.TodaysTedsAppend | src/TED.API/Repositories/ClienteTedRepository.cs:108-121 | a new row joins today's list exactly when it is the client's and scheduled for today |
| ClienteRepository.FirstLimit | src/TED.API/Repositories/ClienteTedRepository.cs:123-137 | the first limit row, or "Os limites não podem ser nulos" when there is none |
| ClienteRepository.ClienteTedRepository.ObtemListaTed | src/TED.API/Repositories/ClienteTedRepository.cs:21-51 | the count of the filtered rows before paging, the requested page of them, and only the client's rows that pass the filters |
| ClienteRepository.ClienteTedRepository.SolicitaTed | src/TED.API/Repositories/ClienteTedRepository.cs:53-66 | the row is appended under the next identity value and returned; nothing else changes |
| ClienteRepository.ClienteTedRepository.ObtemTedPeloId | src/TED.API/Repositories/ClienteTedRepository.cs:68-78 | the first row with that id, if any |
| ClienteRepository.ClienteTedRepository.CancelaTed | src/TED.API/Repositories/ClienteTedRepository.cs:80-106 | the outcome and new table are the cancel transition's; limits and identity unchanged |
| ClienteRepository.ClienteTedRepository.VerificaLimiteTedDoDia | src/TED.API/Repositories/ClienteTedRepository.cs:108-121 | exactly the client's rows scheduled for today, whatever their status |
| ClienteRepository.ClienteTedRepository.ObtemLimiteTed | src/TED.API/Repositories/ClienteTedRepository.cs:123-137 | the first limit row, or the error when there is none |
| ClienteRepository.ClienteTedRepository.ObtemLancamentoIdTed | src/TED.API/Repositories/ClienteTedRepository.cs:139-155 | the largest id plus one (1 for an empty table), above every id |
| AdminRepository.ReasonOf | src/TED.API/Repositories/AdminTedRepository.cs:126 | no body gives no reason; a body gives its reason |
| AdminRepository.UpdatedLimits | src/TED.API/Repositories/AdminTedRepository.cs:137-154 | the first row takes the three new caps and keeps its id, the other rows are kept; without a row the update raises |
| AdminRepository.AdminTedRepository.ObtemListaTed | src/TED.API/Repositories/AdminTedRepository.cs:22-65 | the parameters with dates filled in, the count before paging, the requested page, and only rows that pass every filter |
| AdminRepository.AdminTedRepository.ObtemTedPeloId | src/TED.API/Repositories/AdminTedRepository.cs:67-77 | the first row with that id, if any |
| AdminRepository.AdminTedRepository.AprovaTed | src/TED.API/Repositories/AdminTedRepository.cs:79-106 | the outcome and new table are the approve transition's with the given confirmation id |
| AdminRepository.AdminTedRepository.ReprovaTed | src/TED.API/Repositories/AdminTedRepository.cs:108-135 | the outcome and new table are the reject transition's with the body's reason |
| AdminRepository.AdminTedRepository.AtualizaLimiteTed | src/TED.API/Repositories/AdminTedRepository.cs:137-154 | the limit table becomes `UpdatedLimits`, or the error is raised with the table unchanged |
| AdminRepository.AdminTedRepository.ObtemLancamentoIdTed | src/TED.API/Repositories/AdminTedRepository.cs:156-172 | the largest id plus one (1 for an empty table), above every id |
| AdminRepository.AdminTedRepository.ObtemLimiteTed | src/TED.API/Repositories/AdminTedRepository.cs:174-184 | the first limit row, or none |
| Settlement.DebitValue | src/TED.API/Services/ClienteTedService.cs:85 | the entry's amount is never positive, is the value or its negation, and is zero only for a zero value |
| Settlement.BuildLancamento | src/TED.API/Services/ClienteTedService.cs:79-90 | the id, the two dates (which parse back to the transfer's dates), client code, negated value and routing fields are copied; every other field keeps its default |
| Settlement.BuildRequest | src/TED.API/Services/ClienteTedService.cs:74-93 | a batch of exactly that one entry |
| Settlement.SendToSinacor | src/TED.API/Services/SinacorTedService.cs:60-70 | a batch that fails a rule raises the trimmed messages and is not sent; otherwise the settlement side's answer is returned |
| Settlement.PayloadOfValidTedPasses | src/TED.API/Services/ClienteTedService.cs:74-95 | the payload of a transfer that passed the request rules, created no later than today, passes every entry rule |
| Settlement.EntryPasses | src/TED.API/Validators/SinacorTedRequestDtoValidator.cs:18-57 | an entry with the copied fields filled in and the defaults untouched passes every rule |
| Settlement.OneEntryBatchPasses | src/TED.API/Validators/SinacorTedRequestDtoValidator.cs:10 | a batch of one entry passes exactly when that entry does |
| Settlement.RoutingFieldsNotBlank | src/TED.API/Validators/ClienteTedRequestDtoValidator.cs:40-52 | bank, agency, account and digit that passed the numeric rules are non-blank |
| Settlement.CopiedFieldsFilled | src/TED.API/Services/ClienteTedService.cs:79-90 | a built entry has a non-blank reference date and non-blank copied routing fields, and keeps the house-account defaults |
| Settlement.ZeroValueIsRefused | src/TED.API/Validators/SinacorTedRequestDtoValidator.cs:26-27 | a zero-value transfer's payload fails the amount rule and is never sent |
| ClienteService.ExceedsLimit | src/TED.API/Services/ClienteTedService.cs:138-147 | a cap is broken when today's count reaches the count cap, today's sum plus the value passes the daily cap, or the value passes the per-transfer cap |
| ClienteService.InWindow | src/TED.API/Services/ClienteTedService.cs:70 | the whole scheduled `DateTime` lies between the two configured bounds, both included |
| ClienteService.MapToTed | src/TED.API/Services/ClienteTedService.cs:67 | a new row in process, stamped now, with the request's fields and no id, reason or confirmation |
| ClienteService.Submission | src/TED.API/Services/ClienteTedService.cs:56-110 | an invalid request raises its trimmed messages; a stored row needs a valid request and a limit row, is in process or approved, and differs from the mapped request only in status and confirmation |
| ClienteService.ApprovedIffWithinLimitsAndWindow | src/TED.API/Services/ClienteTedService.cs:69-98 | a valid request is stored approved, with the confirmation given, exactly when no cap is broken and the schedule is inside the window; otherwise it is stored as mapped, in process |
| ClienteService.SettlementErrorPropagates | src/TED.API/Services/ClienteTedService.cs:95 | an eligible request whose submission fails raises that error |
| ClienteService.MissingLimitRowFails | src/TED.API/Services/ClienteTedService.cs:132-136 | a valid request with no limit row raises "Os limites não podem ser nulos" |
| ClienteService.LaterDayNeverApproved | src/TED.API/Services/ClienteTedService.cs:70 | with a window ending today, a request scheduled for a later day is stored in process |
| ClienteService.ApprovalKeepsTheDayWithinCaps | src/TED.API/Services/ClienteTedService.cs:132-148 | with a window inside today, after an approval the client's transfers for today, the new one included, are within the count, daily value and per-transfer caps |
| ClienteService.ClienteTedService.ObtemListaTed | src/TED.API/Services/ClienteTedService.cs:33-54 | a client id <= 0 raises "O ClienteId não é válido" before the parameters are checked; bad parameters raise their messages; otherwise the requested page of the client's own rows with the count before paging |
| ClienteService.ClienteTedService.SolicitaTed | src/TED.API/Services/ClienteTedService.cs:56-110 | the decided row is inserted under the next identity value and returned; on any error nothing is inserted |
| ClienteService.ClienteTedService.DecideTed | src/TED.API/Services/ClienteTedService.cs:58-98 | the steps before the insert produce exactly `Submission` |
| ClienteService.ClienteTedService.VerificaLimiteTedDoDia | src/TED.API/Services/ClienteTedService.cs:132-148 | no limit row raises; otherwise the cap is broken exactly when today's count reaches the count cap, today's sum plus the value passes the daily cap, or the value passes the per-transfer cap |
| ClienteService.ClienteTedService.CancelaTed | src/TED.API/Services/ClienteTedService.cs:112-130 | an id <= 0 raises "O Id não é válido" and a missing row "não existe Ted com o Id informado.", changing nothing; otherwise the repository's cancel transition |
| AdminService.MapToLimite | src/TED.API/Services/AdminTedService.cs:127 | the three caps copied, no id |
| AdminService.AcceptedUpdateInstallsPositiveCaps | src/TED.API/Services/AdminTedService.cs:116-135 | an update that passes its rules leaves the limit row with the requested caps, all positive, under its old id |
| AdminService.FutureStartPassesButListsNothing | src/TED.API/Services/AdminTedService.cs:31-40 | a start after today with no end passes validation and lists nothing |
| AdminService.AdminTedService.ObtemListaTed | src/TED.API/Services/AdminTedService.cs:29-48 | bad parameters raise their messages before the query; otherwise the requested page with the count before paging, and the requested page number and size echoed back |
| AdminService.AdminTedService.AprovaTed | src/TED.API/Services/AdminTedService.cs:50-94 | bad id and missing row are refused before anything is sent; for any existing row, whatever its status, the entry is built and submitted; a submission error is raised with nothing changed; otherwise the repository's approve transition with exactly the returned confirmation id |
| AdminService.AdminTedService.ReprovaTed | src/TED.API/Services/AdminTedService.cs:96-114 | bad id and missing row are refused, changing nothing; otherwise the repository's reject transition with the caller's body |
| AdminService.AdminTedService.AtualizaLimiteTed | src/TED.API/Services/AdminTedService.cs:116-135 | limits that fail a rule raise the trimmed messages and change nothing; otherwise the repository's update |
| AdminService.AdminTedService.ObtemLimiteTed | src/TED.API/Services/AdminTedService.cs:137-149 | the limit row, or none when the table is empty |

## Left out

- The HTTP layer (controllers, the validation filter, start-up wiring), logging and configuration loading are not modelled. They hold no logic beyond calling the services.
- The settlement network client (token exchange, headers, JSON, the random local confirmation id) is not modelled. The settlement side is the `reply` parameter; only its validate-before-send step is modelled.
- Entity Framework, `AsNoTracking` and `SaveChangesAsync` are not modelled: the tables are sequences in store order. No list promises an order beyond store order, because the queries have no `OrderBy`.
- Concurrency is not modelled. Two requests racing on a status or on the largest id plus one are outside a sequential model.
- Money and limits are `double` in the program and `real` here, so IEEE rounding in sums and comparisons is not modelled.
- Paging.TotalPages: a page size of 0 gives none. The program divides by a zero `double` and casts the result to `int`, and that value is not modelled.
- TedStore.Page: the Int32 overflow of `(page-1)*size` for very large page numbers is not modelled; the product is an unbounded integer.
- TedStore.Page, TedStore.Skip, TedStore.Take and TedStore.PagePosition follow LINQ to Objects, as the in-memory database does: a count of zero or less skips or takes nothing, and pages split the list in store order. On SQL Server, `Skip`/`Take` become OFFSET/FETCH. The server refuses a negative offset (page number 0 or less) and a fetch of zero or fewer rows (page size 0 or less), and without `OrderBy` it promises no stable order, so pages need not partition the list. That behaviour is not modelled. The zero-size case of `Paging.TotalPages` is reached only on the in-memory database.
- NumberText.TryParseInt32 models `int.TryParse` (integer style) for ASCII digits with optional surrounding white space and one ASCII '+' or '-'. The trailing '\0' characters .NET also accepts after the number, and a culture's own sign symbols, are not modelled.
- Calendar.ParseIsoDate: `DateTime.TryParse` is modelled as a parser for the "yyyy-MM-dd" text the services produce, in the Gregorian calendar. Other formats it accepts, and cultures whose calendar is not Gregorian, are not modelled.
- Calendar.FormatIsoDate: `ToString("yyyy-MM-dd")` is modelled with Gregorian years. Under a culture whose default calendar is not Gregorian (Thai Buddhist, for example) the program prints another year, and that is not modelled.
- Entities.LimiteTed leaves out the `CriadoEm` and `AtualizadoEm` stamps the row inherits. No operation of the core reads or changes them, and the limit update keeps them; only the row read back would show them.
- Text.Contains is an ordinal substring test. The database collation that decides `Contains` in the admin list is not modelled.
- AutoMapper projections to the response DTOs are not modelled: services return the `Ted` and `LimiteTed` rows themselves.
- Notification keys are fresh GUIDs in the program; here the caller supplies them.
- The 500-character limit on a rejection reason is not modelled, because the service never runs that validator.
- AdminRepository.UpdatedLimits: with no limit row the program dereferences null; the model raises an `Exception` with .NET's null-reference message.
- ClienteService.Submission and the methods that build a payload require valid `DateTime` values for now and the schedule. .NET `DateTime` values are always valid; the requirement only restates that.
- ClienteService.ClienteTedService.DecideTed is the first part of `SolicitaTedAsync`, split out as its own method; the program has one method.
- The identity column is modelled as a counter that only grows. Explicit id inserts and reseeding are not modelled.
