/**
 * The integer code tables of the pet and breed models, and the field rules
 * a pet or breed must satisfy: lengths, non-negative numbers, valid choices,
 * and the defaults of omitted fields.
 */
module Models {
  import opened Wrappers

  /** Sex, coded as in ISO/IEC 5218. */
  datatype Sex = NotKnown | Male | Female | NotApplicable {
    function Code(): int {
      match this
      case NotKnown => 0
      case Male => 1
      case Female => 2
      case NotApplicable => 9
    }
  }

  function SexFromCode(c: int): (r: Option<Sex>)
    ensures r.Some? <==> c in {0, 1, 2, 9}
    ensures r.Some? ==> r.value.Code() == c
  {
    if c == 0 then Some(NotKnown)
    else if c == 1 then Some(Male)
    else if c == 2 then Some(Female)
    else if c == 9 then Some(NotApplicable)
    else None
  }

  lemma SexCodeRoundTrip(s: Sex)
    ensures SexFromCode(s.Code()) == Some(s)
  {
  }

  /** The ISO/IEC 5218 codes: 0 not known, 1 male, 2 female, 9 not applicable. */
  lemma SexCodesFollowIso5218()
    ensures NotKnown.Code() == 0 && Male.Code() == 1 && Female.Code() == 2 && NotApplicable.Code() == 9
  {
  }

  datatype Animal = UnknownAnimal | Dog | Cat {
    function Code(): int {
      match this
      case UnknownAnimal => 0
      case Dog => 1
      case Cat => 2
    }
  }

  function AnimalFromCode(c: int): (r: Option<Animal>)
    ensures r.Some? <==> 0 <= c <= 2
    ensures r.Some? ==> r.value.Code() == c
  {
    if c == 0 then Some(UnknownAnimal)
    else if c == 1 then Some(Dog)
    else if c == 2 then Some(Cat)
    else None
  }

  lemma AnimalCodeRoundTrip(a: Animal)
    ensures AnimalFromCode(a.Code()) == Some(a)
  {
  }

  /** `Pet.Color`: codes 0 (unknown) to 11 (gray), in declaration order. */
  datatype Color = UnknownColor | White | Black | Brown | Orange | Red | Pink | Purple | Blue | Green | Yellow | Gray {
    function Code(): int {
      match this
      case UnknownColor => 0
      case White => 1
      case Black => 2
      case Brown => 3
      case Orange => 4
      case Red => 5
      case Pink => 6
      case Purple => 7
      case Blue => 8
      case Green => 9
      case Yellow => 10
      case Gray => 11
    }
  }

  /** The colors in code order. */
  const COLORS: seq<Color> := [UnknownColor, White, Black, Brown, Orange, Red, Pink, Purple, Blue, Green, Yellow, Gray]

  function ColorFromCode(c: int): (r: Option<Color>)
    ensures r.Some? <==> 0 <= c < 12
    ensures r.Some? ==> r.value.Code() == c
  {
    if 0 <= c < |COLORS| then Some(COLORS[c]) else None
  }

  lemma ColorCodeRoundTrip(k: Color)
    ensures ColorFromCode(k.Code()) == Some(k)
  {
  }

  /** `Pet.Status`: unknown, lost, found, reunited as 0 to 3. */
  datatype Status = UnknownStatus | Lost | Found | Reunited {
    function Code(): int {
      match this
      case UnknownStatus => 0
      case Lost => 1
      case Found => 2
      case Reunited => 3
    }
  }

  function StatusFromCode(c: int): (r: Option<Status>)
    ensures r.Some? <==> 0 <= c <= 3
    ensures r.Some? ==> r.value.Code() == c
  {
    if c == 0 then Some(UnknownStatus)
    else if c == 1 then Some(Lost)
    else if c == 2 then Some(Found)
    else if c == 3 then Some(Reunited)
    else None
  }

  lemma StatusCodeRoundTrip(s: Status)
    ensures StatusFromCode(s.Code()) == Some(s)
  {
  }

  const NAME_MAX_LENGTH: nat := 50
  const INFORMATION_MAX_LENGTH: nat := 5000

  /** A pet as submitted: omitted optional fields are None. */
  datatype PetInput = PetInput(
    name: string, animal: int, age: Option<int>, sex: Option<int>,
    eyeColor: Option<int>, exteriorColor: Option<int>, weight: Option<int>,
    information: Option<string>, status: int)

  /** A pet whose fields all satisfy the model's rules. */
  datatype PetFields = PetFields(
    name: string, animal: Animal, age: Option<nat>, sex: Sex,
    eyeColor: Color, exteriorColor: Color, weight: Option<nat>,
    information: string, status: Status)

  /** An omitted or valid color code; an omitted one is the unknown color. */
  predicate ValidColor(c: Option<int>) {
    c.None? || ColorFromCode(c.value).Some?
  }

  predicate NonNegative(n: Option<int>) {
    n.None? || n.value >= 0
  }

  /** The fields of a pet, as errors name them. */
  datatype PetField = NameField | AnimalField | AgeField | SexField | EyeColorField | ExteriorColorField
                    | WeightField | InformationField | StatusField

  const PET_FIELDS: set<PetField> := {NameField, AnimalField, AgeField, SexField, EyeColorField, ExteriorColorField,
                                      WeightField, InformationField, StatusField}

  /** Whether field `f` of `p` breaks its rule. */
  predicate Breaks(p: PetInput, f: PetField) {
    match f
    case NameField => !(0 < |p.name| <= NAME_MAX_LENGTH)
    case AnimalField => AnimalFromCode(p.animal).None?
    case AgeField => !NonNegative(p.age)
    case SexField => p.sex.Some? && SexFromCode(p.sex.value).None?
    case EyeColorField => !ValidColor(p.eyeColor)
    case ExteriorColorField => !ValidColor(p.exteriorColor)
    case WeightField => !NonNegative(p.weight)
    case InformationField => p.information.Some? && |p.information.value| > INFORMATION_MAX_LENGTH
    case StatusField => StatusFromCode(p.status).None?
  }

  /** The fields of `p` that break a rule. */
  function PetErrors(p: PetInput): (errors: set<PetField>)
    ensures forall f :: f in errors <==> Breaks(p, f)
  {
    set f | f in PET_FIELDS && Breaks(p, f)
  }

  /** Each field's rule: a bounded non-empty name, known codes, non-negative numbers, bounded information. */
  lemma PetFieldRules(p: PetInput)
    ensures !Breaks(p, NameField) <==> 0 < |p.name| <= NAME_MAX_LENGTH
    ensures !Breaks(p, AnimalField) <==> 0 <= p.animal <= 2
    ensures !Breaks(p, AgeField) <==> p.age.None? || p.age.value >= 0
    ensures !Breaks(p, SexField) <==> p.sex.None? || p.sex.value in {0, 1, 2, 9}
    ensures !Breaks(p, EyeColorField) <==> p.eyeColor.None? || 0 <= p.eyeColor.value < 12
    ensures !Breaks(p, ExteriorColorField) <==> p.exteriorColor.None? || 0 <= p.exteriorColor.value < 12
    ensures !Breaks(p, WeightField) <==> p.weight.None? || p.weight.value >= 0
    ensures !Breaks(p, InformationField) <==> p.information.None? || |p.information.value| <= INFORMATION_MAX_LENGTH
    ensures !Breaks(p, StatusField) <==> 0 <= p.status <= 3
  {
  }

  function ColorOrUnknown(c: Option<int>): Color
    requires ValidColor(c)
  {
    if c.None? then UnknownColor else ColorFromCode(c.value).value
  }

  function NatOption(n: Option<int>): Option<nat>
    requires NonNegative(n)
  {
    if n.None? then None else Some(n.value)
  }

  /**
   * Clean a submitted pet: the fields that break a rule, or the pet with
   * omitted fields defaulted (sex and both colors unknown, information empty,
   * age and weight absent).
   */
  function CleanPet(p: PetInput): (r: Result<PetFields, set<PetField>>)
    ensures r.Failure? <==> PetErrors(p) != {}
    ensures r.Failure? ==> r.error == PetErrors(p)
    ensures r.Success? ==>
      && 0 < |r.value.name| <= NAME_MAX_LENGTH && |r.value.information| <= INFORMATION_MAX_LENGTH
      && r.value.animal.Code() == p.animal && r.value.status.Code() == p.status
      && (p.sex.None? ==> r.value.sex == NotKnown) && (p.sex.Some? ==> r.value.sex.Code() == p.sex.value)
      && (p.eyeColor.None? ==> r.value.eyeColor == UnknownColor) && (p.eyeColor.Some? ==> r.value.eyeColor.Code() == p.eyeColor.value)
      && (p.exteriorColor.None? ==> r.value.exteriorColor == UnknownColor) && (p.exteriorColor.Some? ==> r.value.exteriorColor.Code() == p.exteriorColor.value)
      && (p.information.None? ==> r.value.information == "") && (p.information.Some? ==> r.value.information == p.information.value)
      && (p.age.None? ==> r.value.age.None?) && (p.age.Some? ==> r.value.age.Some? && r.value.age.value == p.age.value)
      && (p.weight.None? ==> r.value.weight.None?) && (p.weight.Some? ==> r.value.weight.Some? && r.value.weight.value == p.weight.value)
  {
    if PetErrors(p) != {} then Failure(PetErrors(p))
    else
      assert forall f :: f !in PetErrors(p);
      assert !Breaks(p, NameField) && !Breaks(p, InformationField);
      assert !Breaks(p, AnimalField) && !Breaks(p, AgeField) && !Breaks(p, SexField) && !Breaks(p, EyeColorField);
      assert !Breaks(p, ExteriorColorField) && !Breaks(p, WeightField) && !Breaks(p, StatusField);
      Success(PetFields(
        p.name, AnimalFromCode(p.animal).value, NatOption(p.age),
        if p.sex.None? then NotKnown else SexFromCode(p.sex.value).value,
        ColorOrUnknown(p.eyeColor), ColorOrUnknown(p.exteriorColor), NatOption(p.weight),
        if p.information.None? then "" else p.information.value,
        StatusFromCode(p.status).value))
  }

  /** A clean pet stores the default codes for the fields omitted: 0 for sex and colors. */
  lemma OmittedCodesAreZero(p: PetInput)
    requires p.sex.None? && p.eyeColor.None? && p.exteriorColor.None?
    requires CleanPet(p).Success?
    ensures CleanPet(p).value.sex.Code() == 0
    ensures CleanPet(p).value.eyeColor.Code() == 0 && CleanPet(p).value.exteriorColor.Code() == 0
  {
  }

  datatype BreedFields = BreedFields(name: string, animal: Animal)

  /** Clean a submitted breed: a non-empty name of at most 50 characters and a valid animal code. */
  function CleanBreed(name: string, animal: int): (r: Option<BreedFields>)
    ensures r.Some? <==> 0 < |name| <= NAME_MAX_LENGTH && 0 <= animal <= 2
    ensures r.Some? ==> r.value.name == name && r.value.animal.Code() == animal
  {
    if 0 < |name| <= NAME_MAX_LENGTH && AnimalFromCode(animal).Some? then Some(BreedFields(name, AnimalFromCode(animal).value)) else None
  }
}
