# Calorizer core, modelled in Dafny

Calorizer is an ASP.NET Core record manager for a nutrition clinic. It keeps clients and four kinds of dated sub-records: weight/height measurements, biochemical tests, drugs and supplements, and medical notes. It also serves reference lookups and a bilingual (English/Arabic) UI. This project models the logic behind those features and proves what it promises:

- **Validation.** The five FluentValidation validators are pure functions from a DTO to its ordered list of failures (`validators.dfy`). Each validator is proved to report a failure exactly when the rule is broken, and to return an empty list exactly when every rule holds.
- **Envelopes.** `Response`/`Response<T>` are datatype constructors (`responses.dfy`). The validation processor turns a failed result into the 422 "ValidationError" envelope with a loop proved against a specification function (`validation.dfy`). `BaseService` picks a validator by the DTO's runtime type (`base_service.dfy`).
- **Store.** The EF repository is a class holding a primary-key table and an identity counter (`store.dfy`). It has one method per write and functions for the reads, and its scans are proved to return exactly the matching rows in key order.
- **Services.**
  - `ClientService` validates, performs its ordered store writes and re-reads the sorted listing (`client_service.dfy`). Every branch, error paths included, states the whole new state.
  - Listings are sorted newest first by a stable insertion sort (`ordering.dfy`), proved ordered, a permutation, and stable on ids.
  - `LookupService` filters lookups by their category's code (`lookup_service.dfy`).
- **Languages.**
  - `LocalizationService` (`localization.dfy`) holds the translation table. A load is a transition on the table, driven by the abstract outcome of reading the file.
  - `LanguageService` and `Localizer` (`language.dfy`) read and set the session language.
  - `LanguageMiddleware` and `HomeController.SetLanguage` (`web.dfy`) update a modelled `HttpContext` (`http.dfy`).

Value choices:

- `decimal` is `real`, which is exact.
- A nullable value is `Option`.
- `DateTime` is a (year, month, day, tick-of-day) datatype ordered lexicographically (`dates.dfy`). `DateTime.MinValue` is 0001-01-01.
- `DateTime.Now` and `DateTime.UtcNow` are parameters. The validator factory holds the clock reading at which `ClientDtoValidator` was constructed, and the validator compares with `Dates.Today` of that reading.
- Whether a store write of `CreateClientAsync`/`UpdateClientAsync` throws is a `StoreOutcome` parameter.
- The outcome of reading and parsing the translation file is a `LoadOutcome` parameter.

Where this model and the documentation differ, it follows the code:

- Weight and Height are optional in `ClientDtoValidator`.
- The services return `Response<…>` envelopes, although `IClientService` declares other return types.

## Model

| member | source | states |
|---|---|---|
| Validators.NameFailures | Calorizer.Business/DTOs/Validator/ClientDtoValidator.cs:9-15 | a blank FullNameEn/FullNameAr yields its "required" failure and one over 500 characters its "must not exceed" failure, each exactly then; no failure iff both names pass; failures name only these two properties |
| Validators.ClientNameRulesReported | Calorizer.Business/DTOs/Validator/ClientDtoValidator.cs:9-15 | in the whole ClientDtoValidator result, each of the four name failures appears exactly when its rule is broken |
| Validators.MobileNumberFailures | Calorizer.Business/DTOs/Validator/ClientDtoValidator.cs:17-20 | a null or empty number is never checked; otherwise it fails on length over 20 and, separately, when it is not an optional '+' followed only by digits, whitespace, '-', '(' or ')' |
| Validators.AddressFailures | Calorizer.Business/DTOs/Validator/ClientDtoValidator.cs:25-27 | a null or empty address is never checked; otherwise it fails exactly when longer than 2000 |
| Validators.ContactFailures | Calorizer.Business/DTOs/Validator/ClientDtoValidator.cs:17-27 | the mobile-number, gender (GenderId <= 0 yields "Gender is required") and address failures, each exactly when broken; empty iff all three rules hold |
| Validators.ClientContactRulesReported | Calorizer.Business/DTOs/Validator/ClientDtoValidator.cs:17-27 | in the whole result, each mobile, gender and address failure appears exactly when its rule is broken |
| Validators.DateOfBirthFailures | Calorizer.Business/DTOs/Validator/ClientDtoValidator.cs:29-31 | the default date yields "Date of birth is required", and a date not strictly before the captured today yields "must be in the past", each exactly then |
| Validators.BodyFailures | Calorizer.Business/DTOs/Validator/ClientDtoValidator.cs:29-39 | the date-of-birth failures, and a present Height or Weight outside [0.01, 999.99] fails exactly then, an absent one never |
| Validators.ClientBodyRulesReported | Calorizer.Business/DTOs/Validator/ClientDtoValidator.cs:29-39 | in the whole result, each date-of-birth, height and weight failure appears exactly when its rule is broken |
| Validators.ValidateClient | Calorizer.Business/DTOs/Validator/ClientDtoValidator.cs:9-39 | the failure list is empty iff every rule of the validator holds (ClientRulesHold, stated field by field) |
| Validators.ClientFailuresFollowRuleOrder | Calorizer.Business/DTOs/Validator/ClientDtoValidator.cs:9-39 | every failure pairs a message with the property whose rule chain declares it, always one of the eight ClientDto properties; failures appear in rule declaration order, so no rule is reported twice |
| Validators.BornTodayIsRejected | Calorizer.Business/DTOs/Validator/ClientDtoValidator.cs:31 | a date of birth equal to the captured today is reported as not in the past |
| Validators.MeasurementFailures | Calorizer.Business/DTOs/Validator/WeightHistoryDtoValidator.cs:9-15 | a present measurement fails exactly when outside the inclusive range; an absent one never; the only failure it yields is its own |
| Validators.MeasurementRangeIsInclusive | Calorizer.Business/DTOs/Validator/WeightHistoryDtoValidator.cs:10-14 | 0.01 and 999.99 pass; 0.009 and 999.991 do not |
| Validators.ValidateWeightHistory | Calorizer.Business/DTOs/Validator/WeightHistoryDtoValidator.cs:9-15 | weight and height failures each exactly when the present value is out of range; empty iff both pass; both absent is valid; at most two failures, only those two |
| Validators.WeightHistoryChecksOnlyMeasurements | Calorizer.Business/DTOs/Validator/WeightHistoryDtoValidator.cs:7-16 | DTOs that agree on Weight and Height get the same result: Id, ClientId, CreatedOn and CreatedBy are never checked |
| Validators.RequiredText | Calorizer.Business/DTOs/Validator/BiochemicalMedicalTestDtoValidator.cs:9-11 | for a NotEmpty-then-MaximumLength chain: "required" exactly when null, empty or whitespace-only, "too long" exactly when longer than the limit, empty iff neither, failures only on that property |
| Validators.ValidateBiochemicalMedicalTest | Calorizer.Business/DTOs/Validator/BiochemicalMedicalTestDtoValidator.cs:9-11 | blank MedicalData yields "Medical data is required", over 4000 characters the limit message, each exactly then; empty iff non-blank and at most 4000; every failure is one of those two (MedicalData, message) pairs |
| Validators.ValidateDrugsSupplement | Calorizer.Business/DTOs/Validator/DrugsSupplementDtoValidator.cs:9-11 | the same for Drug with limit 500 and its two messages |
| Validators.ValidateMedicalHistory | Calorizer.Business/DTOs/Validator/MedicalHistoryDtoValidator.cs:9-11 | the same for MedicalNote with limit 4000 and its two messages |
| Validators.BlankAndTooLongBothReported | Calorizer.Business/DTOs/Validator/MedicalHistoryDtoValidator.cs:9-11 | a whitespace-only note over 4000 characters gets both failures, in rule order: the chain does not stop at the first |
| Responses.Default | Calorizer.Business/Models/Response.cs:8-16 | the parameterless constructor gives success, 200, empty message, no broken rules and default data |
| Responses.OfOutcome | Calorizer.Business/Models/Response.cs:18-22 | `Response(b)` gives Succeeded = b and status 200 when b, 400 otherwise, with default data |
| Responses.OfData | Calorizer.Business/Models/Response.cs:33-38 | `Response<T>(data)` gives success, 200, the data, no broken rules |
| Responses.Error | Calorizer.Business/Services/ClientService.cs:70-78 | the services' error envelope: failure, 400, the given message, no broken rules, no data |
| Responses.OutcomeConstructors | Calorizer.Business/Models/Response.cs:27-31 | `Response<T>(true)` equals `Response<T>()`, and `Response<T>(false)` differs from it only in the outcome and the 400 status |
| Validation.RulesOf | Calorizer.Business/Validation/ValidationProcessor.cs:22-31 | one broken rule per failure, in order, each with the failure's property name and message |
| Validation.FailureEnvelope | Calorizer.Business/Validation/ValidationProcessor.cs:15-31 | always failure, "ValidationError", 422; broken rules one per failure in order; a valid result still gives the 422 envelope with none |
| Validation.ProcessValidationResultOnFailure | Calorizer.Business/Validation/ValidationProcessor.cs:13-35 | the loop that appends a rule per failure builds exactly FailureEnvelope of the result |
| Validation.ProcessValidationResultOnFailureAsync | Calorizer.Business/Validation/ValidationProcessor.cs:8-11 | the async variant returns exactly the synchronous result |
| Validation.ConvertToResponseOf | Calorizer.Business/Validation/ValidationProcessor.cs:40-50 | Succeeded, Message, StatusCode and BrokenRules copied unchanged; Data is the object when it has the target type, else the default |
| BaseService.RunValidator | Calorizer.Business/Services/BaseService.cs:27-28 | a validator class exists for every DTO type but LookupDto |
| BaseService.GetValidatorFailures | Calorizer.Business/Services/BaseService.cs:27-33 | the factory yields failures exactly for a registered type that has a validator class |
| BaseService.ValidateAsync | Calorizer.Business/Services/BaseService.cs:22-40 | success (200, no rules) without a factory, without a validator, or when the validator passes; otherwise the 422 "ValidationError" envelope carrying the failures in order; success iff no failure is reported |
| BaseService.Validate | Calorizer.Business/Services/BaseService.cs:16-20 | the status fields of ValidateAsync, unchanged, with Data = the object |
| BaseService.ClientAcceptedIffRulesHold | Calorizer.Business/Services/BaseService.cs:16-40 | with ClientDtoValidator registered, a client DTO is accepted exactly when every client rule holds |
| BaseService.RejectionCarriesFailures | Calorizer.Business/Services/BaseService.cs:31-34 | a rejection has status 422, message "ValidationError" and exactly the validator's failures, in order, as broken rules |
| BaseService.LookupNeverRejected | Calorizer.Business/Services/BaseService.cs:27-39 | a LookupDto is always accepted: no validator exists for its type |
| Store.ScanContents | Calorizer.DAL/Repositories/Repository.cs:29-32 | a scan of the table holds exactly the matching rows, keys strictly ascending |
| Store.ScanAllCount | Calorizer.DAL/Repositories/Repository.cs:78-81 | an unfiltered scan has one row per stored key |
| Store.Repository.GetById | Calorizer.DAL/Repositories/Repository.cs:24-27 | the row stored under the id, or null exactly when there is none |
| Store.Repository.Find | Calorizer.DAL/Repositories/Repository.cs:29-32 | exactly the stored rows satisfying the predicate, in ascending key order |
| Store.Repository.GetAll | Calorizer.DAL/Repositories/Repository.cs:19-22 | exactly the stored rows, in ascending key order |
| Store.Repository.Exists | Calorizer.DAL/Repositories/Repository.cs:83-87 | true iff a row is stored under the id, which is when GetById is non-null |
| Store.Repository.Count | Calorizer.DAL/Repositories/Repository.cs:78-81 | the number of stored rows, the length of GetAll |
| Store.Repository.constructor | Calorizer.DAL/Repositories/Repository.cs:12-16 | an empty table whose identity counter starts at 1 |
| Store.Repository.Add | Calorizer.DAL/Repositories/Repository.cs:35-40 | stores the entity under a fresh key, returns that key, leaves every other row untouched |
| Store.Repository.AddRange | Calorizer.DAL/Repositories/Repository.cs:42-47 | stores all entities under consecutive fresh keys, in order, and nothing else |
| Store.Repository.Update | Calorizer.DAL/Repositories/Repository.cs:49-53 | replaces the row with that key; an absent key is reported and changes nothing |
| Store.Repository.Delete | Calorizer.DAL/Repositories/Repository.cs:55-63 | removes only the row with that key; a no-op when there is none |
| Store.AddedRowIsFound | Calorizer.DAL/Repositories/Repository.cs:35-40 | a row just added under the next key is found by every scan its entity satisfies |
| Store.Keyed | Calorizer.DAL/Repositories/Repository.cs:42-47 | the consecutively keyed table AddRange inserts: exactly the keys from the start, each with the entity at that position |
| Store.ProjectedFind | Calorizer.DAL/Repositories/Repository.cs:29-32 | a projected Find holds exactly the matching rows, each converted, with ascending ids |
| Ordering.Insert | Calorizer.Business/Services/ClientService.cs:237 | inserting into the listing adds exactly that record (multiset) |
| Ordering.SortNewestFirst | Calorizer.Business/Services/ClientService.cs:237 | the sort is a permutation of its input |
| Ordering.InsertKeepsOrder | Calorizer.Business/Services/ClientService.cs:237 | inserting into a newest-first list keeps it newest first |
| Ordering.SortIsNewestFirst | Calorizer.Business/Services/ClientService.cs:237 | the sorted listing has no record older than one after it |
| Ordering.InsertKeepsTies | Calorizer.Business/Services/ClientService.cs:237 | inserting a record with a smaller id keeps equal-time records in ascending id order |
| Ordering.SortIsStable | Calorizer.Business/Services/ClientService.cs:237 | records with the same CreatedOn keep the ascending id order they arrived in |
| ClientService.ClientConversionsRoundTrip | Calorizer.Business/Services/ClientService.cs:34-46 | writing a DTO to a Client row and reading it back yields the DTO; no field is lost either way |
| ClientService.ListingContents | Calorizer.Business/Services/ClientService.cs:224-237 | every Get*Async listing holds exactly the stored rows that belong, converted, with distinct ids, newest first, ties in id order |
| ClientService.RejectedAsWritten | Calorizer.Business/Services/ClientService.cs:24-30 | the rejection envelope as written copies status, message and broken rules but says Succeeded = true |
| ClientService.RejectedAsWrittenIsInconsistent | Calorizer.Business/Services/ClientService.cs:24-30 | for any failed verdict, the as-written envelope claims success with a non-200 status |
| ClientService.BlankClientReportedAsSuccess | Calorizer.Business/Services/ClientService.cs:22-30 | a client DTO with blank names is rejected with 422, and the as-written envelope says Succeeded |
| ClientService.Rejected | Calorizer.Business/Services/ClientService.cs:24-30 | the rejection envelope as intended: the verdict's outcome, status, message and broken rules, no data; consistent iff the verdict is |
| ClientService.ClientService.constructor | Calorizer.Business/Services/ClientService.cs:14-18 | the five repositories start empty and distinct |
| ClientService.ClientService.GetClientById | Calorizer.Business/Services/ClientService.cs:147-164 | the stored client as a DTO with its id, or null exactly when absent |
| ClientService.ClientService.GetAllClients | Calorizer.Business/Services/ClientService.cs:166-181 | exactly the stored clients as DTOs, in key order |
| ClientService.ClientService.GetWeightHistories | Calorizer.Business/Services/ClientService.cs:224-238 | exactly the client's measurement rows, fields copied, distinct ids, newest first, ties by id |
| ClientService.ClientService.GetBiochemicalTests | Calorizer.Business/Services/ClientService.cs:274-287 | the same for biochemical tests |
| ClientService.ClientService.GetDrugsSupplements | Calorizer.Business/Services/ClientService.cs:323-336 | the same for drugs and supplements |
| ClientService.ClientService.GetMedicalHistories | Calorizer.Business/Services/ClientService.cs:372-385 | the same for medical notes |
| ClientService.ClientService.CreateClient | Calorizer.Business/Services/ClientService.cs:20-79 | invalid: the verdict's envelope, no writes. Otherwise one Client row copying the DTO under a fresh id, one measurement row (new id, weight, height, user, now) iff a weight or height is given, and success carrying the DTO with its new id. A throwing write gives "ErrorCreatingClient" and keeps the writes already committed |
| ClientService.ClientService.UpdateClient | Calorizer.Business/Services/ClientService.cs:81-144 | invalid: the verdict's envelope, no writes. An absent id gives "ClientNotFound", no writes. Otherwise all eight fields overwritten, and one measurement row iff the stored weight or height differs (null equal only to null); success carries the DTO. A throwing write gives "ErrorUpdatingClient" |
| ClientService.ClientService.DeleteClient | Calorizer.Business/Services/ClientService.cs:183-186 | the repository delete by id |
| ClientService.ClientService.AddWeightHistory | Calorizer.Business/Services/ClientService.cs:190-222 | invalid: the verdict's envelope, no writes. Otherwise a row under the clientId parameter (the DTO's own is ignored), the existing client's Weight/Height set to the DTO's, nulls included; success carries the re-read listing, which holds the new row |
| ClientService.ClientService.DeleteWeightHistory | Calorizer.Business/Services/ClientService.cs:240-243 | the repository delete by id |
| ClientService.ClientService.AddBiochemicalTest | Calorizer.Business/Services/ClientService.cs:249-272 | invalid: the verdict's envelope, no writes; otherwise one row under clientId and success carrying the re-read listing, which holds it |
| ClientService.ClientService.DeleteBiochemicalTest | Calorizer.Business/Services/ClientService.cs:289-292 | the repository delete by id |
| ClientService.ClientService.AddDrugsSupplement | Calorizer.Business/Services/ClientService.cs:298-321 | the same for drugs and supplements |
| ClientService.ClientService.DeleteDrugsSupplement | Calorizer.Business/Services/ClientService.cs:338-341 | the repository delete by id |
| ClientService.ClientService.AddMedicalHistory | Calorizer.Business/Services/ClientService.cs:347-370 | the same for medical notes |
| ClientService.ClientService.DeleteMedicalHistory | Calorizer.Business/Services/ClientService.cs:387-390 | the repository delete by id |
| LookupService.LookupService.GetLookupItemsByCategoryId | Calorizer.Business/Services/LookupService.cs:25-37 | exactly the lookups whose category has the code, each DTO copying Id, NameEn, NameAr and Code, in key order |
| LookupService.LookupService.GetLookupItems | Calorizer.Business/Services/LookupService.cs:19-23 | the listing for the enumeration value's integer code |
| LookupService.LookupService.GetLookupById | Calorizer.Business/Services/LookupService.cs:39-53 | null iff no lookup has the id, else the copied DTO |
| LookupService.ListedLookupsAreFoundById | Calorizer.Business/Services/LookupService.cs:25-53 | every listed lookup is the DTO GetLookupById returns for its id |
| Localization.ArabicLanguages | Calorizer.Business/Services/LocalizationService.cs:77-82 | the languages that select Arabic are exactly "ar" in any letter case |
| Localization.Select | Calorizer.Business/Services/LocalizationService.cs:77-82 | ValueAr when the language lower-cases to "ar", ValueEn for every other language |
| Localization.Loaded | Calorizer.Business/Services/LocalizationService.cs:22-65 | a parsed dictionary replaces the table, a missing file or null parse keeps it, an exception empties it |
| Localization.LoadIsIdempotent | Calorizer.Business/Services/LocalizationService.cs:109-112 | reloading with the same outcome changes nothing more |
| Localization.LocalizationService.constructor | Calorizer.Business/Services/LocalizationService.cs:14-20 | the table starts empty and is loaded once |
| Localization.LocalizationService.LoadTranslations | Calorizer.Business/Services/LocalizationService.cs:22-65 | the table becomes the load transition of the old table |
| Localization.LocalizationService.ReloadTranslations | Calorizer.Business/Services/LocalizationService.cs:109-112 | reload is exactly a load |
| Localization.LocalizationService.GetValue | Calorizer.Business/Services/LocalizationService.cs:67-90 | "" for an empty key, the selected text for a known key, the key itself for an unknown one |
| Localization.LocalizationService.GetAllTranslations | Calorizer.Business/Services/LocalizationService.cs:92-107 | exactly the loaded keys, each with its text selected by the language rule, agreeing with GetValue |
| Http.HttpContext.SessionString | Calorizer.Business/Services/LanguageService.cs:17 | the session value under the key, or null exactly when unset |
| Language.CurrentLanguage | Calorizer.Business/Middleware/Localizer.cs:30-33 | the session "Language" value, or "en" without a context or a value |
| Language.LanguageService.GetCurrentLanguage | Calorizer.Business/Services/LanguageService.cs:15-18 | the session value, or "en" when unset or without a context |
| Language.LanguageService.SetCurrentLanguage | Calorizer.Business/Services/LanguageService.cs:20-23 | stores the string verbatim under "Language", after which get returns it, and leaves the response cookies alone; without a context a no-op |
| Language.Localizer.Item | Calorizer.Business/Middleware/Localizer.cs:20-27 | the provider's value for the key in the current language |
| Language.Localizer.GetAll | Calorizer.Business/Middleware/Localizer.cs:36-40 | the provider's whole table in the current language |
| Language.Localizer.Get | Calorizer.Business/Middleware/Localizer.cs:43-47 | the fallback when the translated value is empty or equals the key, the translated value otherwise; an unknown key yields the fallback |
| Language.Localizer.GetOrEmpty | Calorizer.Business/Middleware/Localizer.cs:43 | with the default fallback "", an untranslated key yields "", and no key is ever echoed back |
| Web.ResolveLanguage | Calorizer.Web/Middleware/LanguageMiddleware.cs:17-45 | a non-empty session language is kept; otherwise a valid query `lang`, then a valid `Language` cookie, then "ar" iff Accept-Language starts with "ar", else "en" |
| Web.SessionAfter | Calorizer.Web/Middleware/LanguageMiddleware.cs:17-45 | afterwards the session has a non-empty "Language" and every other key unchanged |
| Web.MiddlewareSettlesLanguage | Calorizer.Web/Middleware/LanguageMiddleware.cs:17-45 | a non-empty session language is left as it was; an empty or missing one becomes "en" or "ar" |
| Web.MiddlewareIsIdempotent | Calorizer.Web/Middleware/LanguageMiddleware.cs:17-19 | running the middleware again on the same request changes nothing |
| Web.LanguageMiddleware.InvokeAsync | Calorizer.Web/Middleware/LanguageMiddleware.cs:14-48 | the session becomes SessionAfter, the response cookies are untouched, and the next component is invoked exactly once |
| Web.LanguageCookie | Calorizer.Web/Controllers/HomeController.cs:42-45 | the cookie carries the language and expires one year later: same month, same time of day, same day except that 29 February becomes 28 February; a valid date before year 9999 gives a valid expiry |
| Web.HomeController.SetLanguage | Calorizer.Web/Controllers/HomeController.cs:33-49 | "ar" or "en" is stored in the session and in a one-year cookie; any other value changes neither; it always redirects to returnUrl, "/" by default |
| Web.ChosenLanguageIsRemembered | Calorizer.Web/Controllers/HomeController.cs:39-45 | the language SetLanguage stores is kept by the middleware; on a fresh session its cookie is picked up when no valid query overrides it |
| Dates.AddYears | Calorizer.Web/Controllers/HomeController.cs:44 | `AddYears(n)` moves the year by n, keeps month and time, and clips 29 February to the 28th in non-leap years |
| Dates.Today | Calorizer.Business/DTOs/Validator/ClientDtoValidator.cs:31 | the midnight starting the day of `now`: not after it, and after every earlier-day moment |

## Left out

- Text length is counted in Dafny characters. .NET counts UTF-16 code units, so a character outside the Basic Multilingual Plane counts twice there.
- `ToLower` is modelled on the ASCII letters only. Culture-specific lower-casing, and the culture-sensitive `StartsWith` of the Accept-Language header, are not modelled; `StartsWith` is an ordinal prefix test.
- The regular expression engine is not modelled: the mobile pattern is a character-class predicate.
- Foreign keys, cascade deletes and the other database constraints of the EF model are not modelled. Deleting a client leaves its sub-records.
- EF change tracking and `SaveChanges` are not modelled. Every repository write commits at once, and the identity column is the `nextId` counter.
- Store.Repository.Update: SaveChanges on an absent key throws in EF; here that is reported as `ok == false` with the table untouched.
- Store.Repository.Update: EF's `Update` of an entity whose key is 0 marks it as added and inserts a new row; the model only ever replaces an existing key, so an update of Id 0 is reported as absent.
- The `Add*Async` methods of ClientService have no try/catch, and their store writes are modelled as always committing. A throwing write there would propagate as an exception.
- `Repository.DeleteAsync(entity)` and `DeleteRangeAsync` are not used by the core services and are not modelled.
- Store.Repository.Find: the order of a query result is not fixed by SQL; the model takes ascending primary key, the clustered-index order. Listings that sort by CreatedOn therefore break ties by id.
- Dates.AddYears: the exception `AddYears` throws past year 9999 is not modelled.
- File reading, JSON deserialisation and logging in `LoadTranslations` are the abstract `LoadOutcome`. `Failed` also stands for an exception thrown while logging after a successful parse, which empties the table as well.
- A JSON entry with null texts, a null key and a null language argument are not modelled; strings are never null here.
- Redirect to an empty `returnUrl` throws in ASP.NET Core; the model returns the target unchanged.
- async/`Task`, dependency injection and `ILogger` are not modelled. `LocalizationAdapter` forwards to LocalizationService unchanged and is the identity.
- DrugsSupplementDto.cs and the LookupTypes enumeration are not part of this model. Their shapes are taken from their uses in ClientService.cs and LookupService.cs.
- The audit columns of Lookup and LookupCategory are not modelled; the services never read them.
- IClientService.cs declares return types that disagree with ClientService.cs; the model follows ClientService.cs.
- The web controllers other than `HomeController.SetLanguage`, Program.cs and client.js are not modelled.

## Findings

| source | as written | input that shows it | evidently intended | confidence | as-written member | corrected member |
|---|---|---|---|---|---|---|
| Calorizer.Business/Services/ClientService.cs:24-30 (also 85-91, 193-199, 252-258, 301-307, 350-356) | an invalid DTO is answered with `new Response<T> { BrokenRules, StatusCode, Message }`. The parameterless constructor sets `Succeeded = true` and the initializer never resets it, so the 422 envelope reports success | CreateClientAsync with FullNameEn = "" and FullNameAr = "": the validator fails and the envelope has Succeeded = true with StatusCode 422 | the envelope carries the verdict's `Succeeded = false`, as ValidationProcessor sets it explicitly | not executed | ClientService.RejectedAsWritten (the discrepancy is shown by ClientService.RejectedAsWrittenIsInconsistent and ClientService.BlankClientReportedAsSuccess) | ClientService.Rejected, which every write operation of ClientService.ClientService uses |
