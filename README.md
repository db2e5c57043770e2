# furlorn REST API: a verified model of its core logic

furlorn is a Django REST Framework backend for posting lost and found pets.
Most of it is framework configuration. This project models, in Dafny, the
parts of it that carry their own logic, and proves what they promise:

- **Event log buffer** (`EventLogging`). A bounded, ordered buffer of log
  records. When it is full, the oldest record is dropped before the new one
  is appended. A record at or above the flush level hands the whole buffer,
  in arrival order, to the target handler, and the buffer is emptied.
  - The handler is a class whose methods are proved against a pure
    one-step function, `EmitStep`.
  - Lemmas about `EmitStep` and runs of it (`EmitAll`) cover eviction,
    bounds, ordering and delivery.
  - The configured instance has capacity 100, flushes at ERROR and has a
    target.
- **Photo storage adapter** (`Storage`). The object key of each upload is a
  UUID text followed by the upload's extension, as POSIX `os.path.splitext`
  computes it.
  - A free key is found by drawing keys until one is absent from the bucket.
  - The existence probe maps a 200 response to true and a 404 error to false.
    Any other error is re-raised.
  - Saving and deleting change the bucket, which is a map from key to bytes.
    Presigned URL generation is best effort: it gives None on error.
- **Multipart JSON parser** (`Parsers`). The field mapping is rebuilt key by
  key. A text value containing `[` or `{` is replaced by its JSON decoding
  when decoding succeeds. Every other value is kept.
- **Composite writers** (`Serializers`). Creating a pet pops `breed`,
  `last_known_location` and `photos` from the validated data. It then
  inserts, in this order:
  1. the pet;
  2. one link per breed;
  3. one location row;
  4. one photo row per entry.

  Creating a user inserts the user, then a profile that refers to it.
  - The database is a class holding in-memory tables and id counters.
  - Every write a writer issues is listed, in order, by a *plan*. Each
    writer is proved to leave the tables as the plan's writes would, up to
    the write that raises.
  - There is no transaction, so the rows written before a failure stay.
- **Views** (`Views`). The validate / save / respond flow gives:
  - 400 with the errors, without saving;
  - 500 with a fixed detail message when the save raises;
  - otherwise 201 (create), 200 (update) or 204 (delete).

  The primary-key lookup turns a missing row into a 404 with detail
  "Object not found.". Before validating a new pet, the view overwrites
  each uploaded photo, in place, with `{"order": i, "file": f}`.
- **Password length validator** (`Validators`). A password is accepted
  exactly when its length is within the bounds (8 and 128 by default), both
  inclusive. Otherwise the message is
  "Password must be {min}-{max} characters long.", with the numbers written
  in decimal.
- **Object permissions** (`Permissions`):
  - Owner-or-read-only permits GET, HEAD and OPTIONS to everyone, and any
    other method only to the object's owner.
  - Same-user permits exactly the account itself.
- **Model code tables and field rules** (`Models`). The integer choices for
  sex (ISO/IEC 5218: 0, 1, 2, 9), animal (0 to 2), color (0 to 11) and
  status (0 to 3), with round-trip lemmas. The field rules of a pet and of
  a breed:
  - name of 1 to 50 characters, information of at most 5000;
  - age and weight non-negative when present;
  - known codes only;
  - defaults of omitted fields: unknown sex and colors, empty information.

`Wrappers` holds `Option` and `Result`. `Values` holds `Datum`, the model of
the Python values carried by request and validated data; a float or
`Decimal` (the location's coordinates) is kept as its decimal text, since
no part of the core does arithmetic on it.

Collaborators the model cannot see are parameters:
- the JSON decoder is a function `string -> Option<Datum>`;
- the UUIDs drawn are a sequence of attempts;
- a failure of the bucket or of the database appears as an injected
  `fault` / `fails` / `failAt` argument;
- the serializers' validation and rendering are given functions and
  outcomes.

Definitions without a contract that the lemmas below are stated over:
- `EventLogging.ShouldFlush` (api/logging.py:25-29): a record is severe
  enough exactly when its level is at least the flush level.
- `EventLogging.EmitStep` and `EventLogging.EmitAll` (api/logging.py:19-23).
- `Storage.S3Storage.GetAvailableName` (api/storage.py:69-74).
- `Serializers.PetPlan` and `Serializers.UserPlan` (api/serializers.py:34-49
  and 61-64).
- The `Views.Response200` … `Views.Response500` helpers (api/views.py:117-143).
- `Validators.Message` (api/validators.py:14-16): the f-string of the
  validation error, built from `Validators.IntToString` of both bounds.
- `Storage.Load` (api/storage.py:45): the metadata load of a key against
  the bucket, a 404 error for a missing key, or the injected fault.
- `Serializers.Apply` and `Serializers.Run` (api/serializers.py:38-47 and
  62-63): the effect of one ORM insert or link that succeeds, and of a
  sequence of them.
- `Views.UserSaveOutcome` (api/views.py:24), `Views.PetSaveOutcome` and
  `Views.PetSaveTables` (api/views.py:106): what `serializer.save()` returns
  or raises, and where it leaves the tables.

## Model

| member | source | states |
|---|---|---|
| EventLogging.EmitRaisesOnlyAtZeroCapacity | api/logging.py:19-21 | with the buffer within capacity, emit raises (`pop(0)` of an empty list) exactly when the capacity is 0 |
| EventLogging.EmitEvictsOldest | api/logging.py:19-21 | below the flush level, a full buffer loses exactly its first record and gains the new record last; the target receives nothing |
| EventLogging.EmitBounded | api/logging.py:19-21 | with capacity at least 1, emit succeeds and the buffer stays within capacity |
| EventLogging.EmitBelowLevel | api/logging.py:19-23 | below the flush level the surviving records keep their order, the new record is last, and what the target has received is unchanged |
| EventLogging.EmitAtLevelFlushes | api/logging.py:19-23 | at or above the flush level, with a target, the target receives the surviving buffer in arrival order followed by the triggering record, and the buffer is empty |
| EventLogging.EmitWithoutTargetKeeps | api/logging.py:21-23 | without a target, a flush does nothing and the record stays buffered |
| EventLogging.EmitAllRetainsLast | api/logging.py:19-21 | a run of emits with no record at the flush level leaves exactly the last `capacity` records of the old buffer plus the emitted ones, and delivers nothing |
| EventLogging.ConfiguredRetainsLastHundred | furlorn_restapi/settings.py:134-140 | for the configured handler (capacity 100, flush at ERROR), 101 records below ERROR leave exactly the last 100 |
| EventLogging.EventMemoryHandler.Flush | api/logging.py:22-23 | the inherited flush: with a target, the buffer is appended in order to what the target received and then cleared; without a target nothing changes |
| EventLogging.EventMemoryHandler.Emit | api/logging.py:11-23 | the handler's new buffer and delivered records are exactly those of `EmitStep`, or it raises IndexError and changes nothing; the capacity bound is kept |
| EventLogging.NewConfiguredHandler | furlorn_restapi/settings.py:134-140 | a fresh handler with capacity 100, flush level ERROR, a target, and nothing buffered or delivered |
| Storage.SplitExt | api/storage.py:77 | root and extension concatenate to the path; the extension is empty or a dot followed by no dot and no '/'; a non-empty extension is preceded by a non-dot character of the last component; an empty one means every dot of the last component has only dots before it |
| Storage.GetUniqueName | api/storage.py:76-78 | the name starts with the UUID text and continues with a suffix of the original name containing no '/' and no dot after the first character |
| Storage.UniqueNameRoundTrip | api/storage.py:76-78 | splitting a unique name gives back the UUID as root and the original name's extension |
| Storage.SplitPlainRoot | api/storage.py:77 | a root with no '/' and no dot, followed by an empty extension or a dot and then no dot or '/', splits back into exactly that root and extension |
| Storage.DogJpgExtension | api/tests/test_storage.py:21-25 | `"dog.jpg"` splits into `"dog"` and `".jpg"`, and its unique name is the UUID followed by `".jpg"` |
| Storage.UniqueNameInjective | api/storage.py:76-78 | two UUIDs of the same length that give the same unique name for one upload are the same UUID |
| Storage.ExistsFromResponse | api/storage.py:42-53 | true exactly on a 200 response; false on another response or a 404 error; any other error is re-raised unchanged |
| Storage.S3Storage.Exists | api/storage.py:42-53 | without a fault, whether the key is in the bucket; false on a 404 fault; any other fault raised |
| Storage.S3Storage.Save | api/storage.py:27-34 | without a fault, stores the body under the name and returns the name unchanged, after which the key exists; a fault propagates and the bucket is unchanged |
| Storage.S3Storage.Delete | api/storage.py:36-40 | without a fault, removes exactly that key, after which it does not exist; a fault propagates and the bucket is unchanged |
| Storage.S3Storage.Url | api/storage.py:58-67 | a URL exactly when generation does not fail, and it is signed for `get_object` on this bucket and key with a 60-second expiry |
| Storage.AvailableNameIsFirstAbsent | api/storage.py:69-74 | a returned name is the candidate of the first attempt whose probe said absent, and every earlier candidate's probe said it exists |
| Storage.FirstAbsentShift | api/storage.py:69-74 | a first probe that said the key exists moves the first absent candidate one attempt later, with every earlier probe saying it exists |
| Storage.ProbeErrorPropagates | api/storage.py:69-74 | a probe that raises a non-404 error stops the search with that error |
| Storage.ExhaustedMeansAllTaken | api/storage.py:69-74 | with truthful probes the search either finds a name or runs out, and running out means every candidate was in the bucket |
| Storage.AvailableWithinStoreSize | api/storage.py:69-74 | with truthful probes and distinct UUIDs, `|bucket| + 1` attempts always find a free name |
| Storage.CandidatesDistinct | api/storage.py:69-78 | distinct UUID texts give pairwise distinct candidate keys, as many as there are attempts |
| Storage.SomeCandidateFree | api/storage.py:69-78 | with one more distinct UUID than there are objects, some candidate key is not in the bucket |
| Parsers.DecodedValue | api/parsers.py:21-30 | non-text values and text without '[' or '{' are kept; text with either becomes its decoding when it decodes and stays raw when it does not; a changed value is always the decoding |
| Parsers.Parse | api/parsers.py:10-32 | the output has exactly the input's keys, each mapped to the decoded value of the input's value, and the files are passed through unchanged |
| Serializers.BreedIds | api/serializers.py:35-42 | a None breed list links nothing; otherwise one id per listed breed, in order |
| Serializers.PetPlanShape | api/serializers.py:34-49 | the pet is inserted first, then one link per breed id, then the location, then one photo row per entry, in that order |
| Serializers.RunLinks | api/serializers.py:40-42 | the breed loop adds exactly the pairs (pet, id) for the listed ids to the breed relation and changes nothing else |
| Serializers.RunPhotos | api/serializers.py:46-47 | the photo loop inserts entry k's row under the k-th freshly allocated photo id and changes nothing but the photo table and its counter |
| Serializers.PetCreateEffect | api/serializers.py:34-49 | a completed create inserts the pet row (payload minus the three nested keys) under the next pet id, links every breed, inserts one location row, and inserts one photo row per entry with that entry's fields and the pet's id, and advances exactly those three counters; every other table and counter (users, profiles and their counters) is unchanged |
| Serializers.RunFourStages | api/serializers.py:34-49 | the writes of a create take effect in the order the source issues them: the pet insert, the breed links, the location insert, then the photo inserts |
| Serializers.PetCreateKeepsValid | api/serializers.py:34-49 | a completed create leaves every table's ids below that table's counter, so the next insert into any table takes a fresh id |
| Serializers.LocationRowContents | api/serializers.py:44 | the location row refers to the pet and carries exactly the submitted location fields |
| Serializers.RunKeepsPets | api/serializers.py:40-47 | writes that insert no pet leave the pet table unchanged |
| Serializers.PetPlanInsertsPetOnce | api/serializers.py:38-47 | the pet insert is the plan's first write and no later write inserts a pet |
| Serializers.PetSurvivesLaterFailure | api/serializers.py:34-49 | a pet create interrupted after its first write leaves the new pet row in the table |
| Serializers.Database.Execute | api/serializers.py:38-47 | a write that does not raise has exactly the effect `Apply` gives it; a raising write changes nothing |
| Serializers.Database.DeleteUser | api/views.py:81 | a delete that does not raise removes the user row and changes no other table (cascades left out); a raising one changes nothing |
| Serializers.LinkBreeds | api/serializers.py:40-42 | issues the breed-link writes of the plan in order, stopping at the one that raises |
| Serializers.InsertPhotos | api/serializers.py:46-47 | issues the photo-row writes of the plan in order, stopping at the one that raises |
| Serializers.IssuePetAndBreeds | api/serializers.py:38-42 | issues the pet insert and then the breed links in plan order, stopping at the write that raises |
| Serializers.IssueLocationAndPhotos | api/serializers.py:44-47 | issues the location insert and then the photo rows in plan order, stopping at the write that raises |
| Serializers.IssuePetWrites | api/serializers.py:38-47 | issues every write of the pet plan in order, stopping at the write that raises; the tables are then as the writes issued so far leave them |
| Serializers.CreatePet | api/serializers.py:34-49 | without `photos` it raises KeyError before writing; otherwise the tables end as the plan's first `Completed` writes leave them, and it returns the new pet's id or the position of the write that raised |
| Serializers.UserCreateEffect | api/serializers.py:61-64 | a completed user create inserts the validated user row and one profile row referring to the new user, and advances exactly the user and profile counters; every other table and counter (pets, links, locations, photos and their counters) is unchanged |
| Serializers.UserSurvivesProfileFailure | api/serializers.py:61-64 | a failing profile insert leaves the user row in place and adds no profile |
| Serializers.CreateUser | api/serializers.py:61-64 | the tables end as the user plan's completed writes leave them; it returns the new profile's id or the position of the write that raised |
| Views.ValidateSaveRespond | api/views.py:20-28 | save is called exactly when the data is valid; invalid data gives 400 with the errors, a raising save 500 with "Server error. Please try again later.", and a successful save the success status with the serialized data |
| Views.StatusTellsOutcome | api/views.py:20-28 | with a success status of 200, 201 or 204: status 400 exactly for invalid data, 500 exactly for a raising save, the success status exactly for a successful save |
| Views.GetObj | api/views.py:146-150 | a row exactly when the key is given and present, and then the row stored under it |
| Views.UserDetailGet | api/views.py:38-43 | a missing user gives 404 with "Object not found.", otherwise 200 with the user's representation |
| Views.UserDetailUpdate | api/views.py:45-73 | a missing user gives 404 without saving; otherwise the validate / save / respond flow with success status 200 |
| Views.PetListGet | api/views.py:93-96 | 200 with a list holding, position by position, the rendering of each pet the query yields |
| Views.PetListRendersEveryPet | api/views.py:93-96 | when the query yields every pet, each pet's rendering is in the list and every entry is the rendering of some pet |
| Views.UserDetailDelete | api/views.py:75-85 | a missing user gives 404 and changes nothing; otherwise 204 with the user row removed (cascades left out), or 500 with nothing changed when the delete raises |
| Views.UserListPost | api/views.py:19-28 | invalid data writes nothing and gives 400; otherwise the user writer runs, and the response is 201 with the rendered profile or 500 when a write raised |
| Views.PhotoEntriesRoundTrip | api/views.py:100-101 | numbered entries have exactly the keys order and file, entry i has order i, and the files come back in their original order |
| Views.RenumberPhotos | api/views.py:100-101 | the array afterwards holds, at each index i, the entry with order i and the file that was there |
| Views.PetListPost | api/views.py:98-110 | without a `photos` entry it raises KeyError and writes nothing; otherwise the photos are numbered in place, validation sees the numbered list, and the response and the tables follow the validate / save / respond flow over the pet writer with success status 201 |
| Views.DeclaredPhotoRejectsFirstPhoto | api/serializers.py:46-47 | with the `Photo` fields api/models.py:64-66 declares, the first photo row (carrying `order`) is a write that raises: the save fails and the pet row stays |
| Validators.Validate | api/validators.py:11-17 | accepted exactly when min <= length <= max; otherwise the error message is "Password must be {min}-{max} characters long." |
| Validators.NatToString | api/validators.py:15 | a bound is written as a non-empty string of decimal digits without a leading zero |
| Validators.NatToStringRoundTrip | api/validators.py:15 | the decimal text of a bound reads back as that bound |
| Validators.DefaultBounds | api/validators.py:7-9 | the default bounds are 8 and 128, and the default validator accepts exactly the lengths 8 to 128, both included |
| Validators.DefaultMessage | api/validators.py:14-16 | the default validator's message is "Password must be 8-128 characters long." |
| Validators.MessageNamesMinimum | api/validators.py:14-16 | for a non-negative minimum, the message begins "Password must be " followed by the decimal text of the minimum, which reads back as the minimum |
| Validators.IntToString | api/validators.py:15 | Python's `str` of an int: non-empty, starting with "-" exactly for a negative number |
| Validators.IntToStringRoundTrip | api/validators.py:15 | the text of any bound, negative ones included, reads back as that bound |
| Permissions.IsOwnerOrReadOnly | api/permissions.py:4-9 | a safe method is always permitted; any other method exactly when the object's owner is the requesting user |
| Permissions.OwnerOrReadOnlyCases | api/permissions.py:5-9 | the owner is permitted every method, and anyone else exactly GET, HEAD and OPTIONS |
| Permissions.IsSameUser | api/permissions.py:12-15 | permitted exactly when the object is the requesting user |
| Permissions.SameUserIgnoresMethod | api/permissions.py:12-15 | the request method does not affect the decision |
| Models.SexFromCode | api/models.py:7-12 | only the codes 0, 1, 2 and 9 are sexes, each decoding to the member with that code |
| Models.SexCodeRoundTrip | api/models.py:7-12 | decoding a sex's code gives back that sex |
| Models.SexCodesFollowIso5218 | api/models.py:7-12 | not known is 0, male 1, female 2, not applicable 9 |
| Models.AnimalFromCode | api/models.py:15-18 | only 0 to 2 are animals, each decoding to the member with that code |
| Models.AnimalCodeRoundTrip | api/models.py:15-18 | decoding an animal's code gives back that animal |
| Models.ColorFromCode | api/models.py:27-39 | only 0 to 11 are colors, each decoding to the member with that code |
| Models.ColorCodeRoundTrip | api/models.py:27-39 | decoding a color's code gives back that color |
| Models.StatusFromCode | api/models.py:41-45 | only 0 to 3 are statuses, each decoding to the member with that code |
| Models.StatusCodeRoundTrip | api/models.py:41-45 | decoding a status's code gives back that status |
| Models.PetErrors | api/models.py:47-60 | the reported fields are exactly those that break their rule |
| Models.PetFieldRules | api/models.py:47-60 | each field's rule: a name of 1 to 50 characters, known animal, sex, color and status codes, non-negative age and weight when given, information of at most 5000 characters |
| Models.CleanPet | api/models.py:47-60 | fails exactly when some field breaks its rule, reporting those fields; otherwise the given values are kept, and omitted sex and colors become unknown, omitted information empty, omitted age and weight absent |
| Models.OmittedCodesAreZero | api/models.py:51-57 | omitted sex, eye color and exterior color are stored as code 0 |
| Models.CleanBreed | api/models.py:21-23 | a breed is accepted exactly with a name of 1 to 50 characters and an animal code 0 to 2, and keeps both |

## Left out

- Locking and thread safety of the log handler: emits are modelled one at a time.
- What the target handler does with a record (file writes, formatting): the
  target is modelled as the sequence of records it has received.
- The handler's own level filter and the record attributes other than
  level and message: they are part of the standard logging machinery.
- EventLogging.EventMemoryHandler.Emit: a capacity of 0 is not excluded by a
  precondition. It is modelled as the IndexError that `pop(0)` of an empty
  buffer raises.
- The boto3 session, request signing and the signed URL's text: a URL is
  modelled by what it is signed for.
- Content-type guessing with `mimetypes` and the `close` of the uploaded
  file: they do not affect the bucket's contents.
- Storage.ExistsFromResponse: takes the response of a metadata load as
  carrying a status code, as the storage tests (which mock `load`) treat it.
  boto3's resource `Object.load()` returns None, so when the key exists
  the real call would raise TypeError at api/storage.py:53 instead of
  answering True. That rests on boto3's code, which is not part of this
  model, so the model follows the tests' response shape.
- Storage.S3Storage.GetAvailableName: randomness is replaced by a finite
  sequence of attempts. The source recurses for as long as names are
  taken, so running out of attempts (`Exhausted`) is a limit of the model,
  not of the source. The unused `max_length` argument is not modelled.
- `_open` and `size`: they have no body in the source.
- Multipart stream parsing and `json.loads`: the parsed fields arrive as a
  map, and decoding is a given function.
- Django ORM internals: field validation chains, cascade deletes, the
  representation of saved rows (`serializer.data` is a given rendering
  function) and the `update` used by PUT and PATCH, whose outcome is a
  parameter.
- `UserSerializer` saves the password it receives as is, with no hashing.
  The model stores the validated data unchanged, and password hashing is
  not part of it.
- The `UserProfile` and `PetLastKnownLocation` models are not in
  api/models.py. Their rows are modelled from what the writers pass to
  them.
- Views.PetListPost: the `KeyError` for a request without photos is raised
  outside the view's catch-all. The model returns it as an error instead
  of as a framework-generated response.
- `delete_obj` (api/views.py:153-157): no view calls it.
- `PetDetail`: it has no body.
- `print` of the caught exception in the views: it is output only.
- Models.CleanPet: it models the field rules stated in the model
  declarations, not Django's full validation pipeline. The upper bound that
  some databases place on positive integer fields is not modelled. The
  `user` foreign key and the `likes` relation are not modelled.
- Serializers.PetCreateEffect: the photo rows are built from what
  api/serializers.py:47 passes, the pet plus each photo's `order` and
  `file`. The `Photo` of api/models.py:64-66 declares only `url` and `pet`,
  so with that model every create with photos would raise at the first
  photo insert. The model shows this only as a failing write at position
  2 + (number of breeds), in `Views.DeclaredPhotoRejectsFirstPhoto`; see
  Findings.
- `Like` and `Comment` fields: no writer of the core creates them.

## Findings

| source | as written | input that shows it | evidently intended | confidence | as-written member | corrected member |
|---|---|---|---|---|---|---|
| api/serializers.py:47 with api/models.py:64-66 | `Photo.objects.create(pet=pet, **photo_data)` passes `order` and `file`, which the declared `Photo` (only `url` and `pet`) does not accept | a pet create with one photo `{"order": 0, "file": f}`: the write after the location raises, the view answers 500, and the pet, its links and its location stay | a `Photo` with `order` and `file` fields, as the serializer and api/tests/test_serializers.py:171 assume | medium, not executed | Views.DeclaredPhotoRejectsFirstPhoto | Serializers.PetCreateEffect |
