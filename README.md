# medAppApi core, modelled in Dafny

medAppApi is the REST backend of a sanatorium application. It has two parts.

- The **organizer** app books patients onto services. A `Record` is a booking. A `RecordService` row links a record to a service of the catalogue.
- The **med** app keeps the user accounts, the links between services and medical staff, the assignments of patients to medical staff, and the patients' medical cards.

This project models:

- the decision and table logic of both apps;
- the login and account rules;
- the permission predicates.

Each database table is an in-memory collection of rows. A table that the code changes is a field of a class. Each handler that changes a table is a method on that class. Its contract states every outcome: the status returned and the new contents of every table it changes. A handler that only reads is a function over the rows.

Modules, one per concern:

| module | file | models |
|---|---|---|
| `Http` | http.dfy | response statuses, request values, Python truthiness |
| `Tables` | tables.dfy | `filter` over a queryset (`Select`) and its laws |
| `Records` | records.dfy | `Record` / `RecordService` rows, defaults, bounds, default order |
| `Booking` | booking.dfy | the `RecordServiceList` / `RecordServiceDetail` handlers and the delete cascades |
| `ServiceTypeFilter` | service_type_filter.dfy | `RecordFilter` / `RecordServiceFilter` by service type |
| `TimetableFilter` | timetable_filter.dfy | `TimetableFilter.filter_service` |
| `Users` | users.dfy | `UserProfile` rows, role choices, `create_user`, `create_superuser` |
| `Serializers` | serializers.dfy | password and role bounds, login validation, `update` by `setattr` |
| `License` | license.dfy | the owner-or-read-only permission and the three role permissions |
| `MedViews` | med_views.dfy | ServiceMedPersona queries, MedPersonaPatient list/delete, medical cards |

Some tables the code touches are abstract: Service, its four catalogue sub-kinds, Patient, TimeTable, ServiceMedPersona, MedPersonaPatient and Medcard. Each keeps only the columns the code reads. Service, Procedure, Event, Survey, Speciality, TimeTable, MedPersona, ServiceMedPersona, MedPersonaPatient, Medcard and the `SERVICE_CHOICES` list are imported by the code but not defined in med/models.py as shown, and their definitions are not part of this model.

## Model

| member | source | states |
|---|---|---|
| Booking.BookingStore.ServiceRecords | organizer/views.py:29-31 | the list holds exactly the stored records that at least one RecordService points to, each once, in the default order |
| Booking.BookingStore.ServiceRecord | organizer/views.py:47-54 | the detail view finds a record iff it is stored and some RecordService points to it, and then returns that stored record |
| Booking.BookingStore.RetrieveAgreesWithList | organizer/views.py:29-54 | the detail view finds a record iff the list view shows it |
| Booking.BookingStore.CreateServiceRecord | organizer/views.py:33-44 | the outcomes in order: an absent or null `service_id` gives 400 and writes nothing; a `service_id` that does not convert to an id, or names no service, raises (500) before any write; invalid fields give 400 and write nothing; otherwise 201, with exactly one new Record and one new RecordService linking it to the service |
| Booking.BookingStore.UpdateServiceRecord | organizer/views.py:56-87 | the exits in order: a missing record, an absent or null `service_id`, an unknown service and invalid fields each give 400, and a `service_id` that does not convert to an id raises (500), all with the tables unchanged; otherwise the record is rewritten; with exactly one link that link is pointed at the new service and the answer is 200; with no link or several, the record stays rewritten and the request fails |
| Booking.BookingStore.DestroyServiceRecord | organizer/views.py:89-97 | a missing id gives 404 and removes nothing; otherwise the record and every link to it are removed and the answer is 204 |
| Booking.BookingStore.DeleteService | organizer/models.py:26 | deleting a service removes exactly the links to it and keeps every record |
| Booking.BookingStore.DeletePatient | organizer/models.py:7 | deleting a patient removes exactly that patient's records, then the links to those records |
| Booking.SecondLinkBreaksUpdate | organizer/models.py:25 | a valid store can hold two links to one record; updating that record then rewrites it and fails |
| Records.NewRecord | organizer/models.py:5-13 | a record built from valid fields respects the 100 / 500 character bounds and names an existing patient |
| Records.NewRecordDefaults | organizer/models.py:12 | `done` is false unless supplied; omitted `name` and `description` are empty |
| Records.Overwrite | organizer/models.py:6-13 | saving valid fields over a stored record keeps the bounds and a valid patient |
| Records.OverwriteKeepsOmitted | organizer/views.py:76-79 | the saved record keeps its id and every optional field the body left out |
| Records.ListedBeforeIsTotalPreorder | organizer/models.py:18 | the order `['done', '-date_start']` is reflexive, total and transitive |
| Records.DefaultOrderMeaning | organizer/models.py:18 | a list is in default order iff every undone record precedes every done one and, within equal `done`, `date_start` never increases |
| Records.InsertOrdered | organizer/models.py:18 | inserting into an ordered list keeps it ordered and adds exactly that row |
| Records.SortDefault | organizer/models.py:18 | sorting yields the default order and a permutation of the input; distinct rows stay distinct |
| ServiceTypeFilter.RecordFilterServiceType | organizer/filters.py:8-22 | fails (500) exactly for a value naming none of the four sub-kinds; otherwise a record is kept iff its own id is a service id of the named sub-kind, and the result is a sub-multiset of the input |
| ServiceTypeFilter.RecordServiceFilterServiceType | organizer/filters.py:40-54 | a link is kept iff its own id is a service id of the named sub-kind; the result is a sub-multiset of the input |
| ServiceTypeFilter.FiltersShareOneRule | organizer/filters.py:8-54 | for a value naming a sub-kind, both filters keep exactly the queryset ids that are also service ids of that sub-kind |
| ServiceTypeFilter.NameMatchIgnoresCase | organizer/filters.py:10 | two values equal up to letter case select the same rows |
| ServiceTypeFilter.CapitalisedNamesSelect | organizer/filters.py:10-19 | "Procedure", "Event", "Survey" and "SPECIALITY" pick their sub-kind |
| ServiceTypeFilter.UnknownKindOutcome | organizer/filters.py:9-22 | a value naming none of the four sub-kinds makes the record filter fail with 500 and empties the link queryset |
| ServiceTypeFilter.RecordFilterQuery | organizer/filters.py:5-22 | an empty value keeps every record; a value outside the choices gives 400; a choice naming no sub-kind gives 500; a choice naming one keeps the records whose own id is a service id of it |
| ServiceTypeFilter.RecordServiceFilterQuery | organizer/filters.py:37-54 | an empty value keeps every link; a value outside the choices gives 400; any choice keeps the links whose own id is a service id of the sub-kind it names |
| ServiceTypeFilter.ChoicesOfKindsNeverFail | organizer/filters.py:6-22 | when every choice names a sub-kind, the record filter refuses only values outside the choices, with 400 |
| ServiceTypeFilter.ServiceTypeFilterIdempotent | organizer/filters.py:22 | applying either filter twice with one value equals applying it once, when the first application succeeds |
| ServiceTypeFilter.OwnIdComparisonMisfiltersLinks | organizer/filters.py:53-54 | on two concrete links the filter as written keeps the link to the wrong service and drops the right one |
| ServiceTypeFilter.OwnIdComparisonMisfiltersRecords | organizer/filters.py:21-22 | on two concrete records the filter as written keeps an unbooked record and drops the one booked for the procedure |
| ServiceTypeFilter.RecordServicesOfServiceType | organizer/filters.py:40-54 | corrected: a link is kept iff its service is of the named sub-kind |
| ServiceTypeFilter.RecordsOfServiceType | organizer/filters.py:8-22 | corrected: a record is kept iff some link books it for a service of the named sub-kind |
| TimetableFilter.Trunc | med/filters.py:6 | the decimal value becomes the whole number next to it toward zero, as Python's `int()` |
| TimetableFilter.FilterService | med/filters.py:8-14 | the decimal value is truncated to an id; for an existing service, exactly the timetable rows of that service; for an unknown one, nothing and no error; always a sub-multiset of the input |
| TimetableFilter.FilterServiceIdempotent | med/filters.py:12 | filtering twice by one service equals filtering once |
| TimetableFilter.FilterServiceKeepsOnlyRows | med/filters.py:12 | a table whose rows all belong to the service comes back whole |
| TimetableFilter.FractionSelectsWholePart | med/filters.py:6-11 | a value with a fraction selects the same rows as its whole part |
| License.HasObjectPermission | medAppApi/license.py:4-8 | the owner of an object always has permission on it; a refusal is always an unsafe method by someone else |
| License.IsUserPatient | medAppApi/license.py:11-15 | passes iff the role is "Patient", which is one of the role choices |
| License.IsUserMedic | medAppApi/license.py:17-21 | passes iff the role is "Doctor", which is one of the role choices |
| License.IsUserAdmin | medAppApi/license.py:24-28 | passes iff the role is "Admin", which is one of the role choices |
| License.SafeMethodsAlwaysPermitted | medAppApi/license.py:6-7 | GET, HEAD and OPTIONS always have object permission |
| License.UnsafeMethodsNeedOwner | medAppApi/license.py:8 | any other method has object permission iff the object's user is the requesting user |
| License.RoleChecksPartitionChoices | medAppApi/license.py:11-28 | at most one of the patient, medic and admin checks holds; one holds iff the role is one of the role choices ("Patient", "Doctor", "Admin") |
| License.NewUserHasNoRole | med/models.py:34 | a user fresh from `create_user` passes none of the role checks |
| Users.NewUser | med/models.py:34-35 | the new user has the given username and email; the credential is usable iff a password was given, and is then that password |
| Users.NewUserFlags | med/models.py:81-85 | a new user is active, not staff, not superuser; without a password the credential is unusable |
| Users.UserStore.CreateUser | med/models.py:26-38 | no username, then no email, is refused with nothing created; a username or email already in use is refused with nothing created; otherwise exactly the new user is appended |
| Users.UserStore.CreateSuperuser | med/models.py:40-50 | no password is refused before any user exists; then, as in `create_user`, a missing username, a missing email, and a taken username or email are refused in that order; a refusal changes nothing; a created superuser is exactly the new user of `create_user` with staff and superuser set, appended; account uniqueness holds afterwards |
| Users.Promoted | med/models.py:46-48 | sets `is_superuser` and `is_staff` and keeps every other attribute and the credential |
| Serializers.RegistrationAccepted | med/serializers.py:20-40 | accepted registration data carries username, email, password and role, with the password within 8 to 128 characters, the role one of the choices, and a username and email no user has |
| Serializers.AcceptedRegistrationKeepsAccountsUnique | med/models.py:72-73 | the user built from accepted registration data can be appended without breaking the uniqueness of usernames and emails |
| Serializers.UpdateAccepted | med/serializers.py:105-122 | an empty update is always accepted; an accepted password is within bounds; an accepted email is no other user's |
| Serializers.PasswordOutOfBoundsRejected | med/serializers.py:25-29 | a password shorter than 8 or longer than 128 characters fails registration and update |
| Serializers.RoleOutsideChoicesRejected | med/models.py:95 | a role other than Admin, Doctor or Patient fails registration and update |
| Serializers.AuthenticateFrom | med/serializers.py:79 | finds the first user the backend accepts (email and password match and, with a backend that refuses inactive users, the user may authenticate), or proves that none is accepted |
| Serializers.Authenticate | med/serializers.py:79 | a found user matches the email and password, and may authenticate when the backend refuses inactive users; no user is found only when none is accepted |
| Serializers.AuthenticateFindsTheMatch | med/models.py:73 | with unique emails, the user found is the one that matches, or nobody when the backend refuses that user |
| Serializers.LoginValidate | med/serializers.py:55-102 | a successful login belongs to an active user whose email and password match and returns exactly that user's email, token and role |
| Serializers.LoginChecksPresenceFirst | med/serializers.py:60-73 | a missing email is reported first, a missing password next |
| Serializers.LoginWithoutMatchRejected | med/serializers.py:79-86 | a pair matching no user is refused as not found |
| Serializers.DeactivatedUserRejected | med/serializers.py:79-94 | a deactivated user is refused even with the right password: as deactivated, or as not found when the backend refuses inactive users itself |
| Serializers.ActiveUserLogsIn | med/serializers.py:98-102 | an active user with the right password gets their own email, token and role, whichever backend is configured |
| Serializers.UnusablePasswordNeverLogsIn | med/models.py:35 | a table of users without usable passwords admits no login |
| Serializers.SetAttrs | med/serializers.py:163-207 | every supplied key takes the supplied value, every other attribute is unchanged, and no key is lost or invented |
| Serializers.UpdateUser | med/serializers.py:132-150 | invalid data gives 400 with nothing written; otherwise every non-password key is copied onto that user only; the password never goes through `setattr`; the credential changes only for a truthy password; accounts stay unique |
| Serializers.UpdateKeepsAccountsUnique | med/models.py:72-73 | an accepted update keeps usernames and emails unique |
| Serializers.PasswordNeverSetByAttribute | med/serializers.py:140-143 | the merge leaves the row's `password` attribute as it was |
| MedViews.ByService | med/views.py:414-418 | exactly the links whose service is the path key |
| MedViews.ByMedic | med/views.py:427-431 | exactly the links whose medical person is the path key |
| MedViews.ByIdIn | med/views.py:371-384 | a truthy `medpersona` lists exactly its links; otherwise a truthy `service` lists exactly its links; a truthy value that does not convert to an id gives 500; with neither, 400; no rows unless 200 |
| MedViews.ByIdInIgnoresServiceForMedic | med/views.py:386-399 | with a truthy `medpersona`, `service` does not change the answer, which is the by-medic list; the post handler is the same read-only function |
| MedViews.ByIdInFallsBackToService | med/views.py:373-380 | without a medical person, the answer is the by-service list |
| MedViews.ListMedPersonaPatients | med/views.py:621-637 | corrected: no parameters lists every row; parameters within patient/medpersona/id list exactly the matching rows; a refused value or any other key gives 406 and no rows |
| MedViews.ListMedPersonaPatientsAsWritten | med/views.py:623-627 | as written, differs from the corrected listing only when there are no parameters |
| MedViews.EmptyQueryListingRefusedAsWritten | med/views.py:623-627 | with one stored row and no parameters, the written handler answers 400 where the corrected one lists the row |
| MedViews.MedPersonaPatientTable.Delete | med/views.py:639-644 | keys outside the filter fields give 406, a refused value gives 400, both removing nothing; otherwise exactly the matching rows are removed and the answer is 200 |
| MedViews.DeleteRemovesWhatListShows | med/views.py:628-642 | for accepted parameters a row is deleted iff the listing shows it |
| MedViews.EmptyQueryDeletesEverything | med/views.py:640-642 | a delete without parameters removes every row |
| MedViews.Matching | med/views.py:630 | a row is listed iff it satisfies every numeric parameter |
| MedViews.Remaining | med/views.py:641-642 | a row survives the delete iff it is stored and fails some numeric parameter |
| MedViews.MedcardStore.Retrieve | med/views.py:585-590 | 404 iff the patient is unknown or has no card; 500 iff they have several; otherwise their one card |
| MedViews.MedcardStore.Create | med/views.py:592-600 | 404 for an unknown patient, 400 for invalid data, each writing nothing; otherwise one card carrying the data with `patient` set to the path key, which retrieve then finds when the patient had no card |
| MedViews.MedcardStore.Update | med/views.py:602-609 | the retrieve exits come first; invalid data gives 400; otherwise the data is merged over that card's columns and nothing else changes |

## Left out

- Password hashing is abstracted. A credential keeps the secret it was set from, or is unusable. `set_password(None)` gives the unusable one.
- `normalize_email` is not modelled. The email is stored as given.
- The JWT token is not modelled (`token`, med/models.py:139-151: date arithmetic, `jwt.encode`, the secret key). It is an opaque value derived from the user.
- `authenticate` is a lookup over the user table by email and password. The authentication backend comes from settings, which are outside this model, so whether it refuses inactive users (`user_can_authenticate`) is the parameter `refusesInactive`. Only the default email-as-username backend behaviour is modelled.
- Field validation by the serializers and the ORM is abstracted, except for the bounds stated above: the Record text bounds, the password length, the role choices and account uniqueness. The required Record fields and an existing patient form the `FieldsValid` predicate. For medical cards, validation is a predicate parameter.
- `Serializers.UpdateUser` treats the update as partial, as the `update` and `put` handlers of the user view both do (they pass `partial=True`, med/views.py:150-166), so `PATCH` and `PUT` are both partial.
- The Record and RecordService views pass the body through `RecordServiceSerializer` where a Record is meant (organizer/views.py:39-41, 76-79). The model reads this as validating the Record fields, then inserting or overwriting a Record. It does not model what that serializer would do with Record fields.
- Both `get_queryset` views filter ids through `values_list`. The model lists linked records in default order, because the table's `Meta.ordering` applies.
- `Service.objects.get(id=service_id)` for an unknown service, or for a value it cannot convert, is uncaught in create (organizer/views.py:38). In update only `DoesNotExist` is caught (organizer/views.py:71-74), so an unconvertible value also fails there. The model gives it the status `ServerError500`, before any write. Likewise for the failed link lookup after the save in update, and for a value the ORM cannot convert in the ServiceMedPersona queries.
- Converting a text value to an id (`Http.KeyOf`) is a parameter, `parseId`. Floating-point numbers, lists and dicts in request bodies are not modelled; `service_id` in the Record views and the ServiceMedPersona keys are one of null, a boolean, an integer or a text.
- `TimetableFilter.FilterService`: the filter value is an exact decimal (`real`). Rejection of non-numeric query values by the filter form happens before the filter method and is not modelled.
- `MedPersonaPatientAPIView` declares `filter_fields`. Some releases of the filter library read only `filterset_fields` and would then ignore the parameters. The model assumes the filtering applies.
- The view mutates `request.data` in `MedCardView.create` to set `patient`. For form-encoded bodies that dict is immutable; this is not modelled.
- The Medcard model is not part of this model. No uniqueness of `patient` is assumed.
- The `RecordFilter.Meta.fields` list names `editable`, which is not a Record column. How the filter library reacts to that is not modelled.
- `RegistrationSerializer.create` forwards every validated field to `create_user`, which takes only username, email and password. Registration is modelled by its validation (`RegistrationAccepted`) and by `create_user`. The keyword mismatch is not modelled.
- Concurrency, transactions, timestamps (`auto_now`), images, admin registration, URL routing, renderers, swagger decorators, the deployment script, `__str__`, and the pass-through CRUD views with no logic of their own are not modelled.
- `ServiceTypeFilter.RecordFilterQuery` and `ServiceTypeFilter.RecordServiceFilterQuery` take the `ChoiceFilter`'s choices as a parameter, because `SERVICE_CHOICES` is not part of this model; the check that a value is one of them is exact, as form validation does it.
- `ServiceTypeFilter.Lower` lowers ASCII letters only. Python's `str.lower` also lowers other alphabets.

## Findings

| source | as written | input that shows it | evidently intended | confidence | as-written member | corrected member |
|---|---|---|---|---|---|---|
| organizer/filters.py:53-54 | keeps the links whose own id is a service id of the sub-kind | one procedure for service 5; links (id 5, record 1, service 9) and (id 6, record 2, service 5); value "procedure" | keep the links whose service is of the sub-kind | high; not executed | ServiceTypeFilter.OwnIdComparisonMisfiltersLinks | ServiceTypeFilter.RecordServicesOfServiceType |
| organizer/filters.py:21-22 | keeps the records whose own id is a service id of the sub-kind | the same catalogue and links; records 2 and 5 | keep the records booked for a service of the sub-kind | high; not executed | ServiceTypeFilter.OwnIdComparisonMisfiltersRecords | ServiceTypeFilter.RecordsOfServiceType |
| med/views.py:623-627 | with no parameters, validates the queryset as incoming list data, which fails, so `is_valid(raise_exception=True)` answers 400 | one stored MedPersonaPatient row, empty query string | list every row with 200 | medium; not executed | MedViews.EmptyQueryListingRefusedAsWritten | MedViews.ListMedPersonaPatients |
