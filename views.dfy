/**
 * The API views: the validate / save / respond flow of the user and pet
 * endpoints, the response helpers, the primary-key lookup and the numbering
 * of uploaded photos before validation.
 */
module Views {
  import opened Wrappers
  import opened Values
  import Serializers

  const HTTP_200_OK: int := 200
  const HTTP_201_CREATED: int := 201
  const HTTP_204_NO_CONTENT: int := 204
  const HTTP_400_BAD_REQUEST: int := 400
  const HTTP_404_NOT_FOUND: int := 404
  const HTTP_500_INTERNAL_SERVER_ERROR: int := 500

  const NOT_FOUND_DETAIL: string := "Object not found."
  const SERVER_ERROR_DETAIL: string := "Server error. Please try again later."

  /** A response: its status code and its body (None for 204). */
  datatype Response = Response(status: int, data: Option<Datum>)

  function Detail(message: string): Datum {
    DDict(map["detail" := DText(message)])
  }

  function Response200(data: Datum): Response { Response(HTTP_200_OK, Some(data)) }
  function Response201(data: Datum): Response { Response(HTTP_201_CREATED, Some(data)) }
  function Response204(): Response { Response(HTTP_204_NO_CONTENT, None) }
  function Response400(errors: Datum): Response { Response(HTTP_400_BAD_REQUEST, Some(errors)) }
  function Response404(): Response { Response(HTTP_404_NOT_FOUND, Some(Detail(NOT_FOUND_DETAIL))) }
  function Response500(): Response { Response(HTTP_500_INTERNAL_SERVER_ERROR, Some(Detail(SERVER_ERROR_DETAIL))) }

  /** What `is_valid` decides: the validated data, or the serializer's errors. */
  datatype Validation<V> = Valid(validated: V) | Invalid(errors: Datum)

  /** What `save` does when it is called: yields the serialized data, or raises. */
  datatype SaveOutcome = Saved(data: Datum) | SaveRaised

  /** The response, and whether `save` was called on the way to it. */
  datatype Handled = Handled(response: Response, saveCalled: bool)

  /**
   * Validate, then save inside a catch-all, then respond: 400 with the errors
   * without saving, 500 with the generic detail when saving raises, and the
   * success status with the serialized data otherwise.
   */
  function ValidateSaveRespond<V>(v: Validation<V>, save: SaveOutcome, successStatus: int): (h: Handled)
    ensures h.saveCalled <==> v.Valid?
    ensures v.Invalid? ==> h.response == Response(HTTP_400_BAD_REQUEST, Some(v.errors))
    ensures v.Valid? && save.SaveRaised? ==> h.response == Response(HTTP_500_INTERNAL_SERVER_ERROR, Some(Detail(SERVER_ERROR_DETAIL)))
    ensures v.Valid? && save.Saved? ==> h.response == Response(successStatus, Some(save.data))
  {
    match v
    case Invalid(errors) => Handled(Response400(errors), false)
    case Valid(_) =>
      match save
      case SaveRaised => Handled(Response500(), true)
      case Saved(data) => Handled(Response(successStatus, Some(data)), true)
  }

  /**
   * With a success status of 200, 201 or 204, the status alone tells which way
   * the flow went: 400 exactly for invalid data, 500 exactly when the save
   * raised, the success status exactly when the save succeeded.
   */
  lemma StatusTellsOutcome<V>(v: Validation<V>, save: SaveOutcome, successStatus: int)
    requires successStatus in {HTTP_200_OK, HTTP_201_CREATED, HTTP_204_NO_CONTENT}
    ensures var status := ValidateSaveRespond(v, save, successStatus).response.status;
      && (status == HTTP_400_BAD_REQUEST <==> v.Invalid?)
      && (status == HTTP_500_INTERNAL_SERVER_ERROR <==> v.Valid? && save.SaveRaised?)
      && (status == successStatus <==> v.Valid? && save.Saved?)
  {
  }

  /** `get_obj`: the row with primary key `pk`, or None when there is none (a None key finds nothing). */
  function GetObj<T>(table: map<nat, T>, pk: Option<nat>): (r: Option<T>)
    ensures r.Some? <==> pk.Some? && pk.value in table
    ensures r.Some? ==> r.value == table[pk.value]
  {
    if pk.Some? && pk.value in table then Some(table[pk.value]) else None
  }

  /** `UserDetail.get`: 404 for a missing user, else 200 with its representation. */
  function UserDetailGet(users: map<nat, Serializers.Row>, pk: Option<nat>, render: Serializers.Row -> Datum): (resp: Response)
    ensures GetObj(users, pk).None? ==> resp == Response(HTTP_404_NOT_FOUND, Some(Detail(NOT_FOUND_DETAIL)))
    ensures GetObj(users, pk).Some? ==> resp == Response(HTTP_200_OK, Some(render(users[pk.value])))
  {
    match GetObj(users, pk)
    case None => Response404()
    case Some(user) => Response200(render(user))
  }

  /**
   * `UserDetail.patch` and `UserDetail.put` (they differ only in whether
   * validation is partial): 404 for a missing user without validating or
   * saving, else the validate / save / respond flow with success status 200.
   */
  function UserDetailUpdate(users: map<nat, Serializers.Row>, pk: Option<nat>, v: Validation<Serializers.Row>, save: SaveOutcome): (h: Handled)
    ensures GetObj(users, pk).None? ==> h == Handled(Response(HTTP_404_NOT_FOUND, Some(Detail(NOT_FOUND_DETAIL))), false)
    ensures GetObj(users, pk).Some? ==> h == ValidateSaveRespond(v, save, HTTP_200_OK)
  {
    if GetObj(users, pk).None? then Handled(Response404(), false)
    else ValidateSaveRespond(v, save, HTTP_200_OK)
  }

  /**
   * `PetList.get`: 200 with the list serialization of `Pet.objects.all()`,
   * one rendering per pet. `order` is the sequence of pet ids in the order
   * the query yields them.
   */
  function PetListGet(pets: map<nat, Serializers.Row>, order: seq<nat>, render: Serializers.Row -> Datum): (resp: Response)
    requires forall k :: 0 <= k < |order| ==> order[k] in pets
    ensures resp.status == HTTP_200_OK && resp.data.Some? && resp.data.value.DList?
    ensures |resp.data.value.items| == |order|
    ensures forall k :: 0 <= k < |order| ==> resp.data.value.items[k] == render(pets[order[k]])
  {
    Response200(DList(seq(|order|, k requires 0 <= k < |order| => render(pets[order[k]]))))
  }

  /** When the query yields every pet, each pet's rendering is in the response, and nothing else is. */
  lemma PetListRendersEveryPet(pets: map<nat, Serializers.Row>, order: seq<nat>, render: Serializers.Row -> Datum)
    requires forall k :: 0 <= k < |order| ==> order[k] in pets
    requires forall id :: id in pets ==> id in order
    ensures var items := PetListGet(pets, order, render).data.value.items;
      && (forall id :: id in pets ==> render(pets[id]) in items)
      && (forall d :: d in items ==> exists id :: id in pets && d == render(pets[id]))
  {
    var items := PetListGet(pets, order, render).data.value.items;
    forall id | id in pets ensures render(pets[id]) in items {
      var k :| 0 <= k < |order| && order[k] == id;
      assert items[k] == render(pets[id]);
    }
    forall d | d in items ensures exists id :: id in pets && d == render(pets[id]) {
      var k :| 0 <= k < |items| && items[k] == d;
      assert order[k] in pets && d == render(pets[order[k]]);
    }
  }

  /**
   * `UserDetail.delete`: 404 for a missing user, leaving the tables alone;
   * else delete it, answering 204, or 500 when the delete raises.
   */
  method UserDetailDelete(db: Serializers.Database, pk: Option<nat>, fails: bool) returns (resp: Response)
    modifies db
    ensures GetObj(old(db.users), pk).None? ==> resp == Response404() && db.Snapshot() == old(db.Snapshot())
    ensures GetObj(old(db.users), pk).Some? && fails ==> resp == Response500() && db.Snapshot() == old(db.Snapshot())
    ensures GetObj(old(db.users), pk).Some? && !fails ==>
      resp == Response(HTTP_204_NO_CONTENT, None) && db.Snapshot() == old(db.Snapshot()).(users := old(db.users) - {pk.value})
  {
    var user := GetObj(db.users, pk);
    if user.None? {
      return Response404();
    }
    var raised := db.DeleteUser(pk.value, fails);
    if raised {
      return Response500();
    }
    return Response204();
  }

  /** What `UserSerializer.save` does on tables `t`: the serialized profile, or an exception. */
  function UserSaveOutcome(t: Serializers.Tables, validated: Serializers.Row, failAt: Option<nat>, render: nat -> Datum): SaveOutcome {
    var plan := Serializers.UserPlan(validated, t.nextUser);
    if Serializers.Completed(failAt, |plan|) == |plan| then Saved(render(t.nextProfile)) else SaveRaised
  }

  /**
   * `UserList.post`: the validate / save / respond flow over the user writer, with
   * success status 201. Invalid data writes nothing; otherwise the tables end as
   * the writer leaves them, whether or not it raised.
   */
  method UserListPost(db: Serializers.Database, v: Validation<Serializers.Row>, failAt: Option<nat>, render: nat -> Datum)
      returns (h: Handled)
    modifies db
    ensures v.Invalid? ==> db.Snapshot() == old(db.Snapshot())
    ensures v.Valid? ==>
      var plan := Serializers.UserPlan(v.validated, old(db.nextUser));
      db.Snapshot() == Serializers.Run(old(db.Snapshot()), plan[..Serializers.Completed(failAt, |plan|)])
    ensures h == ValidateSaveRespond(v, if v.Valid? then UserSaveOutcome(old(db.Snapshot()), v.validated, failAt, render) else SaveRaised, HTTP_201_CREATED)
  {
    if v.Invalid? {
      return Handled(Response400(v.errors), false);
    }
    var r := Serializers.CreateUser(db, v.validated, failAt);
    if r.Failure? {
      return Handled(Response500(), true);
    }
    return Handled(Response201(render(r.value)), true);
  }

  // ---------------------------------------------------------------- photos of a new pet

  /** The entry the view substitutes for the `i`-th uploaded file. */
  function PhotoEntry(order: int, file: Datum): Datum {
    DDict(map["order" := DInt(order), "file" := file])
  }

  /** The uploaded files, each wrapped with its position as its order. */
  function PhotoEntries(files: seq<Datum>): (entries: seq<Datum>)
    ensures |entries| == |files|
    ensures forall i :: 0 <= i < |files| ==> entries[i] == PhotoEntry(i, files[i])
  {
    seq(|files|, i requires 0 <= i < |files| => PhotoEntry(i, files[i]))
  }

  /** The file of each entry, in order. */
  function FilesOf(entries: seq<Datum>): (files: seq<Datum>)
    requires forall i :: 0 <= i < |entries| ==> entries[i].DDict? && "file" in entries[i].entries
    ensures |files| == |entries|
  {
    seq(|entries|, i requires 0 <= i < |entries| => entries[i].entries["file"])
  }

  /**
   * Renumbering keeps the length, the files and their order, gives entry `i`
   * order `i`, and yields entries of exactly the shape the photo serializer takes.
   */
  lemma PhotoEntriesRoundTrip(files: seq<Datum>)
    ensures var entries := PhotoEntries(files);
      && (forall i :: 0 <= i < |entries| ==> entries[i].DDict? && entries[i].entries.Keys == {"order", "file"})
      && (forall i :: 0 <= i < |entries| ==> entries[i].entries["order"] == DInt(i))
      && FilesOf(entries) == files
  {
    var entries := PhotoEntries(files);
    forall i | 0 <= i < |entries| ensures entries[i].DDict? && entries[i].entries.Keys == {"order", "file"} {
      assert entries[i] == PhotoEntry(i, files[i]);
    }
    assert FilesOf(entries) == files;
  }

  /** The loop of `PetList.post` that overwrites each uploaded file, in place, with its numbered entry. */
  method RenumberPhotos(photos: array<Datum>)
    modifies photos
    ensures photos[..] == PhotoEntries(old(photos[..]))
  {
    for i := 0 to photos.Length
      invariant forall j :: 0 <= j < i ==> photos[j] == PhotoEntry(j, old(photos[j]))
      invariant forall j :: i <= j < photos.Length ==> photos[j] == old(photos[j])
    {
      photos[i] := PhotoEntry(i, photos[i]);
    }
  }

  /** Raised by the view itself, outside its catch-all, and so not turned into a response by it. */
  datatype ViewError = ViewKeyError(key: string)

  /** What `PetSerializer.save` does on tables `t`: the serialized pet, or an exception. */
  function PetSaveOutcome(t: Serializers.Tables, validated: Serializers.Row, failAt: Option<nat>, render: nat -> Datum): SaveOutcome
    requires Serializers.ValidPetShape(validated)
  {
    if Serializers.PHOTOS !in validated then SaveRaised
    else
      var plan := Serializers.PetPlan(validated, t.nextPet);
      if Serializers.Completed(failAt, |plan|) == |plan| then Saved(render(t.nextPet)) else SaveRaised
  }

  /** Where `PetSerializer.save` leaves tables `t`. */
  function PetSaveTables(t: Serializers.Tables, validated: Serializers.Row, failAt: Option<nat>): Serializers.Tables
    requires Serializers.ValidPetShape(validated)
  {
    if Serializers.PHOTOS !in validated then t
    else
      var plan := Serializers.PetPlan(validated, t.nextPet);
      Serializers.Run(t, plan[..Serializers.Completed(failAt, |plan|)])
  }

  /** The fields the `Photo` model declares (api/models.py:64-66), with its implicit primary key. */
  const DECLARED_PHOTO_FIELDS: set<string> := {"id", "url", "pet"}

  /**
   * The pet writer passes each photo's `order` and `file` to `Photo.objects.create`,
   * which the declared `Photo` does not have: the first photo insert is a write
   * that raises, so the save fails after the pet, its links and its location
   * are written, and the pet row stays.
   */
  lemma DeclaredPhotoRejectsFirstPhoto(t: Serializers.Tables, validated: Serializers.Row, render: nat -> Datum)
    requires Serializers.ValidPetShape(validated) && Serializers.PHOTOS in validated
    requires |validated[Serializers.PHOTOS].items| > 0
    requires "order" in validated[Serializers.PHOTOS].items[0].entries
    ensures var pos := 2 + |Serializers.BreedIds(validated)|;
      var plan := Serializers.PetPlan(validated, t.nextPet);
      && pos < |plan| && plan[pos].InsertPhoto?
      && !(plan[pos].row.Keys <= DECLARED_PHOTO_FIELDS)
      && PetSaveOutcome(t, validated, Some(pos), render) == SaveRaised
      && PetSaveTables(t, validated, Some(pos)).pets == t.pets[t.nextPet := Serializers.PetRow(validated)]
  {
    var pos := 2 + |Serializers.BreedIds(validated)|;
    Serializers.PetPlanShape(validated, t.nextPet);
    var plan := Serializers.PetPlan(validated, t.nextPet);
    assert plan[pos].row == Serializers.PhotoRows(validated, t.nextPet)[0];
    assert "order" in plan[pos].row.Keys;
    Serializers.PetSurvivesLaterFailure(t, validated, pos);
  }

  /**
   * `PetList.post`: number the uploaded photos in place (a request without a
   * `photos` entry, `null` here, raises KeyError before anything else), then the
   * validate / save / respond flow over the pet writer, with success status 201.
   * `validate` is the serializer's validation of the request with the numbered
   * photos in it.
   */
  method PetListPost(db: Serializers.Database, photos: array?<Datum>, validate: seq<Datum> -> Validation<Serializers.Row>,
                     failAt: Option<nat>, render: nat -> Datum)
      returns (r: Result<Handled, ViewError>)
    requires forall ps :: validate(ps).Valid? ==> Serializers.ValidPetShape(validate(ps).validated)
    modifies db, photos
    ensures photos == null ==> r == Failure(ViewKeyError(Serializers.PHOTOS)) && db.Snapshot() == old(db.Snapshot())
    ensures photos != null ==> photos[..] == PhotoEntries(old(photos[..]))
    ensures photos != null ==>
      var v := validate(PhotoEntries(old(photos[..])));
      && db.Snapshot() == (if v.Valid? then PetSaveTables(old(db.Snapshot()), v.validated, failAt) else old(db.Snapshot()))
      && r == Success(ValidateSaveRespond(v, if v.Valid? then PetSaveOutcome(old(db.Snapshot()), v.validated, failAt, render) else SaveRaised, HTTP_201_CREATED))
  {
    if photos == null {
      return Failure(ViewKeyError(Serializers.PHOTOS));
    }
    RenumberPhotos(photos);
    var v := validate(photos[..]);
    if v.Invalid? {
      return Success(Handled(Response400(v.errors), false));
    }
    var created := Serializers.CreatePet(db, v.validated, failAt);
    if created.Failure? {
      return Success(Handled(Response500(), true));
    }
    return Success(Handled(Response201(render(created.value)), true));
  }
}
