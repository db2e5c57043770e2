/**
 * The composite writers of the serializers: one validated payload becomes a
 * pet row, its breed links, one location row and one row per photo (or a
 * user row and its profile row), issued one after another with no
 * transaction around them.
 *
 * The database is a set of in-memory tables with counters for id allocation.
 * Every write a writer issues is listed, in issue order, by a plan; the
 * writer is proved to leave the tables as the plan's writes would, up to the
 * first write that raises.
 */
module Serializers {
  import opened Wrappers
  import opened Values

  type Row = map<string, Datum>

  const BREED: string := "breed"
  const LAST_KNOWN_LOCATION: string := "last_known_location"
  const PHOTOS: string := "photos"

  /** The tables the writers touch, with the next id each one allocates. */
  datatype Tables = Tables(
    pets: map<nat, Row>, nextPet: nat,
    petBreeds: set<(nat, int)>,
    locations: map<nat, Row>, nextLocation: nat,
    photos: map<nat, Row>, nextPhoto: nat,
    users: map<nat, Row>, nextUser: nat,
    profiles: map<nat, Row>, nextProfile: nat)

  /** Every id in use is below the table's counter. */
  ghost predicate TablesValid(t: Tables) {
    && (forall id :: id in t.pets ==> id < t.nextPet)
    && (forall id :: id in t.locations ==> id < t.nextLocation)
    && (forall id :: id in t.photos ==> id < t.nextPhoto)
    && (forall id :: id in t.users ==> id < t.nextUser)
    && (forall id :: id in t.profiles ==> id < t.nextProfile)
  }

  /** One database write. */
  datatype Write =
    | InsertPet(row: Row)
    | LinkBreed(pet: nat, breed: int)
    | InsertLocation(row: Row)
    | InsertPhoto(row: Row)
    | InsertUser(row: Row)
    | InsertProfile(row: Row)

  /** The effect of one write that succeeds. */
  function Apply(t: Tables, w: Write): Tables {
    match w
    case InsertPet(row) => t.(pets := t.pets[t.nextPet := row], nextPet := t.nextPet + 1)
    case LinkBreed(pet, breed) => t.(petBreeds := t.petBreeds + {(pet, breed)})
    case InsertLocation(row) => t.(locations := t.locations[t.nextLocation := row], nextLocation := t.nextLocation + 1)
    case InsertPhoto(row) => t.(photos := t.photos[t.nextPhoto := row], nextPhoto := t.nextPhoto + 1)
    case InsertUser(row) => t.(users := t.users[t.nextUser := row], nextUser := t.nextUser + 1)
    case InsertProfile(row) => t.(profiles := t.profiles[t.nextProfile := row], nextProfile := t.nextProfile + 1)
  }

  /** The effect of a sequence of writes that all succeed, in order. */
  function Run(t: Tables, ws: seq<Write>): Tables
    decreases |ws|
  {
    if ws == [] then t else Apply(Run(t, ws[..|ws| - 1]), ws[|ws| - 1])
  }

  /** How many writes of a plan of `n` take effect when write `failAt` (if any) raises. */
  function Completed(failAt: Option<nat>, n: nat): (k: nat)
    ensures k <= n
    ensures k < n <==> failAt.Some? && failAt.value < n
    ensures k < n ==> k == failAt.value
  {
    if failAt.Some? && failAt.value < n then failAt.value else n
  }

  datatype SerializerError =
    | KeyError(key: string)          // `pop` of a key the validated data lacks
    | DatabaseError(write: nat)      // the write at this position of the plan raised

  // ---------------------------------------------------------------- the pet writer

  /** What validation guarantees about PetSerializer's validated data. */
  predicate ValidPetShape(validated: Row) {
    && BREED in validated
    && (validated[BREED].DNone? || (validated[BREED].DList? && forall k :: 0 <= k < |validated[BREED].items| ==> validated[BREED].items[k].DInt?))
    && LAST_KNOWN_LOCATION in validated && validated[LAST_KNOWN_LOCATION].DDict?
    && validated[LAST_KNOWN_LOCATION].entries.Keys <= {"latitude", "longitude"}
    && (PHOTOS in validated ==>
          && validated[PHOTOS].DList?
          && forall k :: 0 <= k < |validated[PHOTOS].items| ==>
               validated[PHOTOS].items[k].DDict? && validated[PHOTOS].items[k].entries.Keys <= {"order", "file"})
  }

  /** The pet row: the validated data without the three nested entries. */
  function PetRow(validated: Row): Row {
    validated - {BREED, LAST_KNOWN_LOCATION, PHOTOS}
  }

  /** The breed ids to link; a None breed list links nothing. */
  function BreedIds(validated: Row): (ids: seq<int>)
    requires ValidPetShape(validated)
    ensures validated[BREED].DNone? ==> ids == []
    ensures validated[BREED].DList? ==> |ids| == |validated[BREED].items|
    ensures validated[BREED].DList? ==> forall k :: 0 <= k < |ids| ==> validated[BREED].items[k] == DInt(ids[k])
  {
    if validated[BREED].DNone? then []
    else seq(|validated[BREED].items|, k requires 0 <= k < |validated[BREED].items| => validated[BREED].items[k].i)
  }

  /** The location row: the submitted latitude and longitude, referencing the pet. */
  function LocationRow(validated: Row, pet: nat): Row
    requires ValidPetShape(validated)
  {
    validated[LAST_KNOWN_LOCATION].entries["pet" := DInt(pet)]
  }

  /** One photo row per photo entry: its order and file, referencing the pet. */
  function PhotoRows(validated: Row, pet: nat): (rows: seq<Row>)
    requires ValidPetShape(validated) && PHOTOS in validated
    ensures |rows| == |validated[PHOTOS].items|
    ensures forall k :: 0 <= k < |rows| ==> rows[k] == validated[PHOTOS].items[k].entries["pet" := DInt(pet)]
  {
    var items := validated[PHOTOS].items;
    seq(|items|, k requires 0 <= k < |items| => items[k].entries["pet" := DInt(pet)])
  }

  function LinkWrites(pet: nat, ids: seq<int>): (ws: seq<Write>)
    ensures |ws| == |ids|
    ensures forall k :: 0 <= k < |ids| ==> ws[k] == LinkBreed(pet, ids[k])
  {
    seq(|ids|, k requires 0 <= k < |ids| => LinkBreed(pet, ids[k]))
  }

  function PhotoWrites(rows: seq<Row>): (ws: seq<Write>)
    ensures |ws| == |rows|
    ensures forall k :: 0 <= k < |rows| ==> ws[k] == InsertPhoto(rows[k])
  {
    seq(|rows|, k requires 0 <= k < |rows| => InsertPhoto(rows[k]))
  }

  /** The writes of `PetSerializer.create`, in issue order, for a pet that gets id `pet`. */
  function PetPlan(validated: Row, pet: nat): seq<Write>
    requires ValidPetShape(validated) && PHOTOS in validated
  {
    [InsertPet(PetRow(validated))]
      + LinkWrites(pet, BreedIds(validated))
      + [InsertLocation(LocationRow(validated, pet))]
      + PhotoWrites(PhotoRows(validated, pet))
  }

  /** Positions in a plan made of one write, a block, one write and a block. */
  lemma PlanIndexing(first: Write, links: seq<Write>, middle: Write, photos: seq<Write>)
    ensures var plan := [first] + links + [middle] + photos;
      && |plan| == |links| + |photos| + 2
      && plan[0] == first
      && (forall i :: 1 <= i <= |links| ==> plan[i] == links[i - 1])
      && plan[1 + |links|] == middle
      && (forall i :: 2 + |links| <= i < |plan| ==> plan[i] == photos[i - 2 - |links|])
  {
    var ab := [first] + links;
    var abc := ab + [middle];
    var plan := abc + photos;
    forall i | 1 <= i <= |links| ensures plan[i] == links[i - 1] {
      assert plan[i] == abc[i] == ab[i];
    }
    assert plan[1 + |links|] == abc[1 + |links|];
  }

  /**
   * The plan inserts the pet first, then links each breed, then inserts the
   * location, then one photo row per entry, in that order.
   */
  lemma PetPlanShape(validated: Row, pet: nat)
    requires ValidPetShape(validated) && PHOTOS in validated
    ensures var plan := PetPlan(validated, pet);
      var ids := BreedIds(validated);
      var rows := PhotoRows(validated, pet);
      && |plan| == |ids| + |rows| + 2
      && plan[0] == InsertPet(PetRow(validated))
      && (forall i :: 1 <= i <= |ids| ==> plan[i] == LinkBreed(pet, ids[i - 1]))
      && plan[1 + |ids|] == InsertLocation(LocationRow(validated, pet))
      && (forall i :: 2 + |ids| <= i < |plan| ==> plan[i] == InsertPhoto(rows[i - 2 - |ids|]))
  {
    PlanIndexing(InsertPet(PetRow(validated)), LinkWrites(pet, BreedIds(validated)),
                 InsertLocation(LocationRow(validated, pet)), PhotoWrites(PhotoRows(validated, pet)));
  }

  /** Running one more write of a sequence applies that write. */
  lemma RunStep(t: Tables, ws: seq<Write>, k: nat)
    requires k < |ws|
    ensures Run(t, ws[..k + 1]) == Apply(Run(t, ws[..k]), ws[k])
  {
    assert ws[..k + 1][..k] == ws[..k];
  }

  lemma {:induction false} RunConcat(t: Tables, a: seq<Write>, b: seq<Write>)
    ensures Run(t, a + b) == Run(Run(t, a), b)
    decreases |b|
  {
    if b == [] {
      assert a + b == a;
    } else {
      assert (a + b)[..|a + b| - 1] == a + b[..|b| - 1];
      RunConcat(t, a, b[..|b| - 1]);
    }
  }

  lemma {:induction false} RunLinks(t: Tables, pet: nat, ids: seq<int>)
    ensures Run(t, LinkWrites(pet, ids)) == t.(petBreeds := t.petBreeds + (set b | b in ids :: (pet, b)))
    decreases |ids|
  {
    if ids != [] {
      var init := ids[..|ids| - 1];
      var last := ids[|ids| - 1];
      assert LinkWrites(pet, ids)[..|ids| - 1] == LinkWrites(pet, init);
      RunLinks(t, pet, init);
      ApplyLink(Run(t, LinkWrites(pet, init)), pet, last);
      assert (set b | b in ids :: (pet, b)) == (set b | b in init :: (pet, b)) + {(pet, last)} by {
        assert ids == init + [last];
      }
    }
  }

  lemma ApplyLink(t: Tables, pet: nat, breed: int)
    ensures Apply(t, LinkBreed(pet, breed)) == t.(petBreeds := t.petBreeds + {(pet, breed)})
  {
  }

  /** The rows inserted by consecutive photo writes, keyed by the ids they receive. */
  function PhotoTable(base: nat, rows: seq<Row>): map<nat, Row> {
    map id: nat | base <= id < base + |rows| :: PhotoAt(base, rows, id)
  }

  function PhotoAt(base: nat, rows: seq<Row>, id: nat): Row
    requires base <= id < base + |rows|
  {
    rows[id - base]
  }

  /** The last row of a block sits under the id after those of the other rows. */
  lemma PhotoTableSnoc(base: nat, rows: seq<Row>)
    requires rows != []
    ensures PhotoTable(base, rows) == PhotoTable(base, rows[..|rows| - 1])[base + |rows[..|rows| - 1]| := rows[|rows| - 1]]
  {
    var init := rows[..|rows| - 1];
    var whole := PhotoTable(base, rows);
    var grown := PhotoTable(base, init)[base + |init| := rows[|rows| - 1]];
    forall id | id in whole ensures id in grown && grown[id] == whole[id] {
      if id < base + |init| {
        assert PhotoAt(base, init, id) == PhotoAt(base, rows, id);
      }
    }
    assert whole.Keys == grown.Keys;
  }

  /** Inserting the last row of a block on top of the table holding the others. */
  lemma PhotoTableGrow(photos: map<nat, Row>, base: nat, rows: seq<Row>)
    requires rows != []
    ensures (photos + PhotoTable(base, rows[..|rows| - 1]))[base + |rows[..|rows| - 1]| := rows[|rows| - 1]]
            == photos + PhotoTable(base, rows)
  {
    var init := rows[..|rows| - 1];
    var key := base + |init|;
    var last := rows[|rows| - 1];
    PhotoTableSnoc(base, rows);
    MapUnionUpdate(photos, PhotoTable(base, init), key, last);
  }

  lemma MapUnionUpdate<K, V>(m: map<K, V>, n: map<K, V>, k: K, v: V)
    ensures (m + n)[k := v] == m + n[k := v]
  {
  }

  lemma {:induction false} RunPhotos(t: Tables, rows: seq<Row>)
    ensures Run(t, PhotoWrites(rows)).photos == t.photos + PhotoTable(t.nextPhoto, rows)
    ensures Run(t, PhotoWrites(rows)) == t.(photos := Run(t, PhotoWrites(rows)).photos, nextPhoto := t.nextPhoto + |rows|)
    decreases |rows|
  {
    if rows == [] {
      PhotoTableEmpty(t.nextPhoto, rows);
      MapUnionEmpty(t.photos);
    } else {
      var init := rows[..|rows| - 1];
      var last := rows[|rows| - 1];
      assert PhotoWrites(rows)[..|rows| - 1] == PhotoWrites(init);
      RunPhotos(t, init);
      var mid := Run(t, PhotoWrites(init));
      assert Run(t, PhotoWrites(rows)) == Apply(mid, InsertPhoto(last));
      PhotoStep(t, mid, rows);
    }
  }

  lemma PhotoTableEmpty(base: nat, rows: seq<Row>)
    requires rows == []
    ensures PhotoTable(base, rows) == map[]
  {
  }

  lemma MapUnionEmpty<K, V>(m: map<K, V>)
    ensures m + map[] == m
  {
  }

  /** The last photo write of a block, on top of the tables the others left. */
  lemma PhotoStep(t: Tables, mid: Tables, rows: seq<Row>)
    requires rows != []
    requires mid.photos == t.photos + PhotoTable(t.nextPhoto, rows[..|rows| - 1])
    requires mid.nextPhoto == t.nextPhoto + |rows[..|rows| - 1]|
    ensures Apply(mid, InsertPhoto(rows[|rows| - 1])).photos == t.photos + PhotoTable(t.nextPhoto, rows)
    ensures Apply(mid, InsertPhoto(rows[|rows| - 1])) == mid.(photos := Apply(mid, InsertPhoto(rows[|rows| - 1])).photos, nextPhoto := mid.nextPhoto + 1)
  {
    PhotoTableGrow(t.photos, t.nextPhoto, rows);
  }

  /**
   * A completed pet write adds exactly the pet row, a link from the pet to each
   * listed breed, one location row and one photo row per entry, each photo row
   * carrying its entry's fields; every other table and counter is untouched.
   */
  lemma PetCreateEffect(t: Tables, validated: Row)
    requires ValidPetShape(validated) && PHOTOS in validated
    ensures var pet := t.nextPet;
      Run(t, PetPlan(validated, pet)) == t.(
        pets := t.pets[pet := PetRow(validated)], nextPet := pet + 1,
        petBreeds := t.petBreeds + (set b | b in BreedIds(validated) :: (pet, b)),
        locations := t.locations[t.nextLocation := LocationRow(validated, pet)],
        nextLocation := t.nextLocation + 1,
        photos := t.photos + PhotoTable(t.nextPhoto, PhotoRows(validated, pet)),
        nextPhoto := t.nextPhoto + |validated[PHOTOS].items|)
  {
    var pet := t.nextPet;
    var ids := BreedIds(validated);
    RunFourStages(t, InsertPet(PetRow(validated)), LinkWrites(pet, ids),
      InsertLocation(LocationRow(validated, pet)), PhotoWrites(PhotoRows(validated, pet)));
    var t1 := Apply(t, InsertPet(PetRow(validated)));
    RunLinks(t1, pet, ids);
    var t2 := Run(t1, LinkWrites(pet, ids));
    var t3 := Apply(t2, InsertLocation(LocationRow(validated, pet)));
    RunPhotos(t3, PhotoRows(validated, pet));
    ComposePetEffect(t, t1, t2, t3, Run(t3, PhotoWrites(PhotoRows(validated, pet))), PetRow(validated), ids,
      LocationRow(validated, pet), PhotoTable(t.nextPhoto, PhotoRows(validated, pet)), |validated[PHOTOS].items|);
  }

  /** Running one write, a block, one write and a block is running each in turn. */
  lemma RunFourStages(t: Tables, first: Write, links: seq<Write>, middle: Write, photos: seq<Write>)
    ensures Run(t, [first] + links + [middle] + photos) == Run(Apply(Run(Apply(t, first), links), middle), photos)
  {
    var a := [first];
    var c := [middle];
    RunConcat(t, a + links + c, photos);
    RunConcat(t, a + links, c);
    RunConcat(t, a, links);
    assert Run(t, a) == Apply(t, first) by { assert a[..0] == []; }
    var t2 := Run(Run(t, a), links);
    assert Run(t2, c) == Apply(t2, middle) by { assert c[..0] == []; }
  }

  /** A completed pet write keeps every id below its table's counter. */
  lemma PetCreateKeepsValid(t: Tables, validated: Row)
    requires ValidPetShape(validated) && PHOTOS in validated
    requires TablesValid(t)
    ensures TablesValid(Run(t, PetPlan(validated, t.nextPet)))
  {
    PetCreateEffect(t, validated);
  }

  /** The four stages of a pet write, each touching its own tables, compose into one update. */
  lemma ComposePetEffect(t: Tables, t1: Tables, t2: Tables, t3: Tables, t4: Tables,
                         pet: Row, ids: seq<int>, location: Row, photos: map<nat, Row>, n: nat)
    requires t1 == t.(pets := t.pets[t.nextPet := pet], nextPet := t.nextPet + 1)
    requires t2 == t1.(petBreeds := t1.petBreeds + (set b | b in ids :: (t.nextPet, b)))
    requires t3 == t2.(locations := t2.locations[t2.nextLocation := location], nextLocation := t2.nextLocation + 1)
    requires t4 == t3.(photos := t3.photos + photos, nextPhoto := t3.nextPhoto + n)
    ensures t4 == t.(
      pets := t.pets[t.nextPet := pet], nextPet := t.nextPet + 1,
      petBreeds := t.petBreeds + (set b | b in ids :: (t.nextPet, b)),
      locations := t.locations[t.nextLocation := location], nextLocation := t.nextLocation + 1,
      photos := t.photos + photos, nextPhoto := t.nextPhoto + n)
  {
  }

  /** The location row references the pet and carries exactly the submitted coordinates. */
  lemma LocationRowContents(validated: Row, pet: nat)
    requires ValidPetShape(validated)
    ensures var row := LocationRow(validated, pet);
      && row["pet"] == DInt(pet)
      && row.Keys == validated[LAST_KNOWN_LOCATION].entries.Keys + {"pet"}
      && forall f :: f in validated[LAST_KNOWN_LOCATION].entries ==> row[f] == validated[LAST_KNOWN_LOCATION].entries[f]
  {
  }

  lemma {:induction false} RunKeepsPets(t: Tables, ws: seq<Write>)
    requires forall k :: 0 <= k < |ws| ==> !ws[k].InsertPet?
    ensures Run(t, ws).pets == t.pets
    decreases |ws|
  {
    if ws != [] {
      var init := ws[..|ws| - 1];
      forall k | 0 <= k < |init| ensures !init[k].InsertPet? {
        assert init[k] == ws[k];
      }
      RunKeepsPets(t, init);
      ApplyKeepsPets(Run(t, init), ws[|ws| - 1]);
    }
  }

  lemma ApplyKeepsPets(t: Tables, w: Write)
    requires !w.InsertPet?
    ensures Apply(t, w).pets == t.pets
  {
  }

  /** Only the first write of the pet plan inserts a pet. */
  lemma PetPlanInsertsPetOnce(validated: Row, pet: nat)
    requires ValidPetShape(validated) && PHOTOS in validated
    ensures PetPlan(validated, pet)[0] == InsertPet(PetRow(validated))
    ensures forall k :: 1 <= k < |PetPlan(validated, pet)| ==> !PetPlan(validated, pet)[k].InsertPet?
  {
    PetPlanShape(validated, pet);
  }

  /**
   * No transaction: when a write after the pet insert raises, the pet row
   * (and whatever else was written before the failure) stays in the table.
   */
  lemma PetSurvivesLaterFailure(t: Tables, validated: Row, k: nat)
    requires ValidPetShape(validated) && PHOTOS in validated
    requires 0 < k <= |PetPlan(validated, t.nextPet)|
    ensures Run(t, PetPlan(validated, t.nextPet)[..k]).pets == t.pets[t.nextPet := PetRow(validated)]
  {
    var plan := PetPlan(validated, t.nextPet);
    PetPlanInsertsPetOnce(validated, t.nextPet);
    var first := [plan[0]];
    var later := plan[1..k];
    assert plan[..k] == first + later;
    forall j | 0 <= j < |later| ensures !later[j].InsertPet? {
      assert later[j] == plan[1 + j];
    }
    RunConcat(t, first, later);
    assert Run(t, first) == Apply(t, plan[0]) by { assert first[..0] == []; }
    RunKeepsPets(Run(t, first), later);
  }

  /** The database: the tables the ORM writes to, one row at a time. */
  class Database {
    var pets: map<nat, Row>
    var nextPet: nat
    var petBreeds: set<(nat, int)>
    var locations: map<nat, Row>
    var nextLocation: nat
    var photos: map<nat, Row>
    var nextPhoto: nat
    var users: map<nat, Row>
    var nextUser: nat
    var profiles: map<nat, Row>
    var nextProfile: nat

    function Snapshot(): Tables
      reads this
    {
      Tables(pets, nextPet, petBreeds, locations, nextLocation, photos, nextPhoto, users, nextUser, profiles, nextProfile)
    }

    constructor ()
      ensures Snapshot() == Tables(map[], 0, {}, map[], 0, map[], 0, map[], 0, map[], 0)
    {
      pets, nextPet, petBreeds := map[], 0, {};
      locations, nextLocation, photos, nextPhoto := map[], 0, map[], 0;
      users, nextUser, profiles, nextProfile := map[], 0, map[], 0;
    }

    /** Issue one write; when `fails`, the database raises and nothing changes. */
    method Execute(w: Write, fails: bool) returns (raised: bool)
      modifies this
      ensures raised == fails
      ensures Snapshot() == if fails then old(Snapshot()) else Apply(old(Snapshot()), w)
    {
      if fails {
        return true;
      }
      match w {
        case InsertPet(row) => pets, nextPet := pets[nextPet := row], nextPet + 1;
        case LinkBreed(pet, breed) => petBreeds := petBreeds + {(pet, breed)};
        case InsertLocation(row) => locations, nextLocation := locations[nextLocation := row], nextLocation + 1;
        case InsertPhoto(row) => photos, nextPhoto := photos[nextPhoto := row], nextPhoto + 1;
        case InsertUser(row) => users, nextUser := users[nextUser := row], nextUser + 1;
        case InsertProfile(row) => profiles, nextProfile := profiles[nextProfile := row], nextProfile + 1;
      }
      return false;
    }

    /** Delete user `id`; when `fails`, the database raises and nothing changes. */
    method DeleteUser(id: nat, fails: bool) returns (raised: bool)
      modifies this
      ensures raised == fails
      ensures Snapshot() == if fails then old(Snapshot()) else old(Snapshot()).(users := old(users) - {id})
    {
      if fails {
        return true;
      }
      users := users - {id};
      return false;
    }
  }

  /** Issue write `k` of `plan`, which raises when it is write `failAt`. */
  method IssueWrite(db: Database, w: Write, ghost plan: seq<Write>, k: nat, failAt: Option<nat>, ghost t0: Tables) returns (raised: bool)
    requires k < |plan| && plan[k] == w
    requires db.Snapshot() == Run(t0, plan[..k])
    modifies db
    ensures raised <==> failAt == Some(k)
    ensures raised ==> db.Snapshot() == Run(t0, plan[..k])
    ensures !raised ==> db.Snapshot() == Run(t0, plan[..k + 1])
  {
    RunStep(t0, plan, k);
    raised := db.Execute(w, failAt == Some(k));
  }

  /**
   * Where a block of writes of `plan`, from position `start` to `stop`, leaves the
   * database: at the write that raised, or past the block when none did.
   */
  ghost predicate BlockIssued(db: Database, plan: seq<Write>, start: nat, stop: nat, failAt: Option<nat>, t0: Tables, step: nat, raised: bool)
    reads db
  {
    && step <= |plan|
    && db.Snapshot() == Run(t0, plan[..step])
    && (raised ==> start <= step < stop && failAt == Some(step))
    && (!raised ==> step == stop && (failAt.Some? ==> failAt.value >= step))
  }

  /** The breed loop: link the pet to each breed id, in order. */
  method LinkBreeds(db: Database, pet: nat, breeds: seq<Datum>, ghost plan: seq<Write>, start: nat, failAt: Option<nat>, ghost t0: Tables)
      returns (step: nat, raised: bool)
    requires forall k :: 0 <= k < |breeds| ==> breeds[k].DInt?
    requires start + |breeds| <= |plan|
    requires forall i :: start <= i < start + |breeds| ==> plan[i] == LinkBreed(pet, breeds[i - start].i)
    requires db.Snapshot() == Run(t0, plan[..start])
    requires failAt.Some? ==> failAt.value >= start
    modifies db
    ensures BlockIssued(db, plan, start, start + |breeds|, failAt, t0, step, raised)
  {
    step, raised := start, false;
    for i := 0 to |breeds|
      invariant step == start + i
      invariant db.Snapshot() == Run(t0, plan[..step])
      invariant failAt.Some? ==> failAt.value >= step
    {
      raised := IssueWrite(db, LinkBreed(pet, breeds[i].i), plan, step, failAt, t0);
      if raised {
        return;
      }
      step := step + 1;
    }
  }

  /** The photo loop: insert one row per photo entry, each referencing the pet, in order. */
  method InsertPhotos(db: Database, pet: nat, photos: seq<Datum>, ghost plan: seq<Write>, start: nat, failAt: Option<nat>, ghost t0: Tables)
      returns (step: nat, raised: bool)
    requires forall k :: 0 <= k < |photos| ==> photos[k].DDict?
    requires start + |photos| <= |plan|
    requires forall i :: start <= i < start + |photos| ==> plan[i] == InsertPhoto(photos[i - start].entries["pet" := DInt(pet)])
    requires db.Snapshot() == Run(t0, plan[..start])
    requires failAt.Some? ==> failAt.value >= start
    modifies db
    ensures BlockIssued(db, plan, start, start + |photos|, failAt, t0, step, raised)
  {
    step, raised := start, false;
    for i := 0 to |photos|
      invariant step == start + i
      invariant db.Snapshot() == Run(t0, plan[..step])
      invariant failAt.Some? ==> failAt.value >= step
    {
      raised := IssueWrite(db, InsertPhoto(photos[i].entries["pet" := DInt(pet)]), plan, step, failAt, t0);
      if raised {
        return;
      }
      step := step + 1;
    }
  }

  /** Where a run of a plan of `n` writes stopped tells how many of them took effect. */
  lemma CompletedAt(n: nat, failAt: Option<nat>, step: nat, raised: bool)
    requires raised ==> step < n && failAt == Some(step)
    requires !raised ==> step == n && (failAt.Some? ==> failAt.value >= n)
    ensures Completed(failAt, n) == step
  {
  }

  /** The first writes of `PetSerializer.create`: the pet row, then a link per listed breed. */
  method IssuePetAndBreeds(db: Database, pet: nat, fields: Row, breedList: Datum,
                           ghost plan: seq<Write>, ghost links: nat, failAt: Option<nat>, ghost t0: Tables)
      returns (step: nat, raised: bool)
    requires breedList.DNone? || (breedList.DList? && forall k :: 0 <= k < |breedList.items| ==> breedList.items[k].DInt?)
    requires links == if breedList.DList? then |breedList.items| else 0
    requires 1 + links <= |plan|
    requires plan[0] == InsertPet(fields)
    requires breedList.DList? ==> forall i :: 1 <= i <= links ==> plan[i] == LinkBreed(pet, breedList.items[i - 1].i)
    requires db.Snapshot() == t0
    modifies db
    ensures BlockIssued(db, plan, 0, 1 + links, failAt, t0, step, raised)
  {
    assert plan[..0] == [];
    step := 0;
    raised := IssueWrite(db, InsertPet(fields), plan, 0, failAt, t0);
    if raised {
      return;
    }
    step := 1;
    if breedList.DList? && |breedList.items| > 0 {
      step, raised := LinkBreeds(db, pet, breedList.items, plan, 1, failAt, t0);
    }
  }

  /**
   * The writes of `PetSerializer.create`, in the order it issues them: the pet
   * row, the breed links (none for an empty or None list), the location row,
   * then one row per photo entry. `plan` lists them; `links` is the number of
   * breed links.
   */
  method IssuePetWrites(db: Database, pet: nat, fields: Row, breedList: Datum, locationData: Row, photoList: seq<Datum>,
                        ghost plan: seq<Write>, ghost links: nat, failAt: Option<nat>, ghost t0: Tables)
      returns (step: nat, raised: bool)
    requires breedList.DNone? || (breedList.DList? && forall k :: 0 <= k < |breedList.items| ==> breedList.items[k].DInt?)
    requires links == if breedList.DList? then |breedList.items| else 0
    requires forall k :: 0 <= k < |photoList| ==> photoList[k].DDict?
    requires |plan| == links + |photoList| + 2
    requires plan[0] == InsertPet(fields)
    requires breedList.DList? ==> forall i :: 1 <= i <= links ==> plan[i] == LinkBreed(pet, breedList.items[i - 1].i)
    requires plan[1 + links] == InsertLocation(locationData["pet" := DInt(pet)])
    requires forall i :: 2 + links <= i < |plan| ==> plan[i] == InsertPhoto(photoList[i - 2 - links].entries["pet" := DInt(pet)])
    requires db.Snapshot() == t0
    modifies db
    ensures BlockIssued(db, plan, 0, |plan|, failAt, t0, step, raised)
  {
    step, raised := IssuePetAndBreeds(db, pet, fields, breedList, plan, links, failAt, t0);
    if raised {
      return;
    }
    step, raised := IssueLocationAndPhotos(db, pet, locationData, photoList, plan, step, failAt, t0);
  }

  /** The last writes of `PetSerializer.create`: the location row, then a row per photo entry. */
  method IssueLocationAndPhotos(db: Database, pet: nat, locationData: Row, photoList: seq<Datum>,
                                ghost plan: seq<Write>, start: nat, failAt: Option<nat>, ghost t0: Tables)
      returns (step: nat, raised: bool)
    requires forall k :: 0 <= k < |photoList| ==> photoList[k].DDict?
    requires start + 1 + |photoList| <= |plan|
    requires plan[start] == InsertLocation(locationData["pet" := DInt(pet)])
    requires forall i :: start + 1 <= i < start + 1 + |photoList| ==> plan[i] == InsertPhoto(photoList[i - start - 1].entries["pet" := DInt(pet)])
    requires db.Snapshot() == Run(t0, plan[..start])
    requires failAt.Some? ==> failAt.value >= start
    modifies db
    ensures BlockIssued(db, plan, start, start + 1 + |photoList|, failAt, t0, step, raised)
  {
    step := start;
    raised := IssueWrite(db, InsertLocation(locationData["pet" := DInt(pet)]), plan, start, failAt, t0);
    if raised {
      return;
    }
    step, raised := InsertPhotos(db, pet, photoList, plan, start + 1, failAt, t0);
  }

  /**
   * `PetSerializer.create`: pop the nested entries, issue the writes, return the
   * new pet's id. The tables end as the plan's writes leave them, up to the
   * write that raises; a payload without photos raises KeyError before any write.
   */
  method CreatePet(db: Database, validated: Row, failAt: Option<nat>) returns (r: Result<nat, SerializerError>)
    requires ValidPetShape(validated)
    modifies db
    ensures PHOTOS !in validated ==> r == Failure(KeyError(PHOTOS)) && db.Snapshot() == old(db.Snapshot())
    ensures PHOTOS in validated ==>
      var plan := PetPlan(validated, old(db.nextPet));
      var done := Completed(failAt, |plan|);
      && db.Snapshot() == Run(old(db.Snapshot()), plan[..done])
      && r == if done == |plan| then Success(old(db.nextPet)) else Failure(DatabaseError(done))
  {
    var breedList := validated[BREED];
    var locationData := validated[LAST_KNOWN_LOCATION].entries;
    if PHOTOS !in validated {
      return Failure(KeyError(PHOTOS));
    }
    var photoList := validated[PHOTOS].items;
    var fields := validated - {BREED, LAST_KNOWN_LOCATION, PHOTOS};
    var pet := db.nextPet;
    ghost var plan := PetPlan(validated, pet);
    ghost var links := |BreedIds(validated)|;
    PetPlanShape(validated, pet);
    var step, raised := IssuePetWrites(db, pet, fields, breedList, locationData, photoList, plan, links, failAt, db.Snapshot());
    CompletedAt(|plan|, failAt, step, raised);
    if raised {
      return Failure(DatabaseError(step));
    }
    return Success(pet);
  }

  // ---------------------------------------------------------------- the user writer

  /** The writes of `UserSerializer.create`: the user, then a profile referencing user `user`. */
  function UserPlan(validated: Row, user: nat): seq<Write> {
    [InsertUser(validated), InsertProfile(map["user" := DInt(user)])]
  }

  /**
   * A completed user write adds the user row as validated and one profile row
   * referencing it; every other table and counter is untouched.
   */
  lemma UserCreateEffect(t: Tables, validated: Row)
    ensures Run(t, UserPlan(validated, t.nextUser)) == t.(
      users := t.users[t.nextUser := validated], nextUser := t.nextUser + 1,
      profiles := t.profiles[t.nextProfile := map["user" := DInt(t.nextUser)]],
      nextProfile := t.nextProfile + 1)
  {
    var plan := UserPlan(validated, t.nextUser);
    RunStep(t, plan, 0);
    RunStep(t, plan, 1);
    assert plan[..0] == [] && plan[..2] == plan;
  }

  /** No transaction: a failing profile insert leaves the user row behind. */
  lemma UserSurvivesProfileFailure(t: Tables, validated: Row)
    ensures Run(t, UserPlan(validated, t.nextUser)[..1]).users == t.users[t.nextUser := validated]
    ensures Run(t, UserPlan(validated, t.nextUser)[..1]).profiles == t.profiles
  {
    RunStep(t, UserPlan(validated, t.nextUser), 0);
    assert UserPlan(validated, t.nextUser)[..0] == [];
  }

  /**
   * `UserSerializer.create`: insert the user, then its profile; return the
   * profile's id. The tables end as the plan leaves them, up to the write that raises.
   */
  method CreateUser(db: Database, validated: Row, failAt: Option<nat>) returns (r: Result<nat, SerializerError>)
    modifies db
    ensures var plan := UserPlan(validated, old(db.nextUser));
      var done := Completed(failAt, |plan|);
      && db.Snapshot() == Run(old(db.Snapshot()), plan[..done])
      && r == if done == |plan| then Success(old(db.nextProfile)) else Failure(DatabaseError(done))
  {
    var user := db.nextUser;
    ghost var t0 := db.Snapshot();
    ghost var plan := UserPlan(validated, user);
    assert plan[..0] == [];
    var raised := IssueWrite(db, InsertUser(validated), plan, 0, failAt, t0);
    if raised {
      return Failure(DatabaseError(0));
    }
    var profile := db.nextProfile;
    raised := IssueWrite(db, InsertProfile(map["user" := DInt(user)]), plan, 1, failAt, t0);
    if raised {
      return Failure(DatabaseError(1));
    }
    assert plan[..2] == plan;
    return Success(profile);
  }
}
