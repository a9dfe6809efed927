/** The decoded content of a DX-R `study.xml` descriptor, and the accessors
    that take the DX-R compound patient name `"<owner>^<animal> <race…>"`
    apart. */
module Models {

  import opened GoStrings

  /** Path of the DICOM file that holds one image. */
  datatype InstanceData = InstanceData(dicomPath: string)

  /** One image of a series. */
  datatype Instance = Instance(uid: string, number: int, data: InstanceData)

  /** A series of images taken during a study. */
  datatype Series = Series(uid: string, number: int, description: string, protocol: string,
                           modality: string, instances: seq<Instance>)

  /** A study performed during a visit. */
  datatype Study = Study(uid: string, date: string, description: string, series: seq<Series>)

  datatype Visit = Visit(study: Study)

  /** The patient (the animal), whose `name` field also holds the owner's name. */
  datatype Patient = Patient(name: string, id: string, birth: string, sex: string, visit: Visit)
  {
    /** The owner's name: the text before the caret when the name holds
        exactly one; the whole name otherwise. */
    function OwnerName(): string
    {
      var parts := Split(name, '^');
      if |parts| != 2 then name else parts[0]
    }

    /** The animal's name: the first space-separated token of the trimmed
        text after the caret, or "unknown" without exactly one caret. */
    function AnimalName(): string
    {
      var nameParts := Split(name, '^');
      if |nameParts| != 2 then "unknown"
      else
        var parts := Split(TrimSpace(nameParts[1]), ' ');
        parts[0]
    }

    /** The animal's race: everything after the first space of the trimmed
        text after the caret, or "unknown" without exactly one caret or
        without a space. */
    function AnimalRace(): string
    {
      var nameParts := Split(name, '^');
      if |nameParts| != 2 then "unknown"
      else
        var parts := Split(TrimSpace(nameParts[1]), ' ');
        if |parts| == 1 then "unknown" else Join(parts[1..], ' ')
    }
  }

  /** The root element of `study.xml`. */
  datatype ImageList = ImageList(patient: Patient)

  /** Go's zero `ImageList`: every string empty, no series. */
  const EmptyImageList: ImageList :=
    ImageList(Patient("", "", "", "", Visit(Study("", "", "", []))))

  /** Whether the compound name holds exactly one caret. */
  predicate OneCaret(name: string)
  {
    Count(name, '^') == 1
  }

  /** The text after the (single) caret. */
  function AfterCaret(name: string): string
    requires OneCaret(name)
  {
    SplitOne(name, '^');
    name[IndexOf(name, '^') + 1..]
  }

  /** What is left of the text after the caret once the spaces at its ends are
      removed; it holds the animal name and the race. */
  function Remainder(name: string): string
    requires OneCaret(name)
  {
    TrimSpace(AfterCaret(name))
  }

  /** Splitting on the caret gives two parts exactly when there is one caret. */
  lemma TwoParts(name: string)
    ensures |Split(name, '^')| == 2 <==> OneCaret(name)
    ensures OneCaret(name) ==>
              Split(name, '^') == [name[..IndexOf(name, '^')], AfterCaret(name)]
  {
    SplitCount(name, '^');
    if OneCaret(name) {
      SplitOne(name, '^');
    }
  }

  /** `OwnerName` is the text before the caret when there is exactly one,
      and the whole name otherwise (no caret, or two or more). */
  lemma OwnerNameSpec(p: Patient)
    ensures OneCaret(p.name) ==> '^' in p.name && p.OwnerName() == p.name[..IndexOf(p.name, '^')]
    ensures !OneCaret(p.name) ==> p.OwnerName() == p.name
  {
    TwoParts(p.name);
  }

  /** `AnimalName` is "unknown" without exactly one caret; otherwise it is the
      trimmed remainder up to its first space, or all of it when it has no
      space (possibly the empty string). */
  lemma AnimalNameSpec(p: Patient)
    ensures !OneCaret(p.name) ==> p.AnimalName() == "unknown"
    ensures OneCaret(p.name) && ' ' in Remainder(p.name) ==>
              p.AnimalName() == Remainder(p.name)[..IndexOf(Remainder(p.name), ' ')]
    ensures OneCaret(p.name) && ' ' !in Remainder(p.name) ==>
              p.AnimalName() == Remainder(p.name)
  {
    TwoParts(p.name);
    if OneCaret(p.name) {
      var t := Remainder(p.name);
      if ' ' in t {
        SplitHead(t, ' ');
      } else {
        SplitNone(t, ' ');
      }
    }
  }

  /** `AnimalRace` is "unknown" without exactly one caret or when the trimmed
      remainder has no space; otherwise it is everything after the first
      space, inner runs of spaces kept as they are. */
  lemma AnimalRaceSpec(p: Patient)
    ensures !OneCaret(p.name) ==> p.AnimalRace() == "unknown"
    ensures OneCaret(p.name) && ' ' !in Remainder(p.name) ==> p.AnimalRace() == "unknown"
    ensures OneCaret(p.name) && ' ' in Remainder(p.name) ==>
              p.AnimalRace() == Remainder(p.name)[IndexOf(Remainder(p.name), ' ') + 1..]
  {
    TwoParts(p.name);
    if OneCaret(p.name) {
      var t := Remainder(p.name);
      if ' ' in t {
        SplitHead(t, ' ');
        JoinSplit(t[IndexOf(t, ' ') + 1..], ' ');
      } else {
        SplitNone(t, ' ');
      }
    }
  }

  /** With one caret and a space in the remainder, the animal name, a space
      and the race put the trimmed remainder back together. */
  lemma Reconstruction(p: Patient)
    requires OneCaret(p.name) && ' ' in Remainder(p.name)
    ensures p.AnimalName() + " " + p.AnimalRace() == Remainder(p.name)
  {
    AnimalNameSpec(p);
    AnimalRaceSpec(p);
    var t := Remainder(p.name);
    var i := IndexOf(t, ' ');
    AroundSpace(t, i);
  }

  lemma AroundSpace(t: string, i: nat)
    requires i < |t| && t[i] == ' '
    ensures t[..i] + " " + t[i + 1..] == t
  {
    assert t == t[..i] + [t[i]] + t[i + 1..];
  }

  /** The animal name never holds a space. */
  lemma AnimalNameHasNoSpace(p: Patient)
    ensures ' ' !in p.AnimalName()
  {
    if OneCaret(p.name) {
      TwoParts(p.name);
    } else {
      TwoParts(p.name);
      assert p.AnimalName() == "unknown";
    }
  }

  /** The three accessors read nothing but the name field. */
  lemma NameOnly(p: Patient, q: Patient)
    requires p.name == q.name
    ensures p.OwnerName() == q.OwnerName()
    ensures p.AnimalName() == q.AnimalName()
    ensures p.AnimalRace() == q.AnimalRace()
  {
  }

  /** A name built from an owner and a caret-free rest has exactly one
      caret, right after the owner. */
  lemma CaretAt(owner: string, rest: string)
    requires '^' !in owner && '^' !in rest
    ensures OneCaret(owner + "^" + rest)
    ensures IndexOf(owner + "^" + rest, '^') == |owner|
    ensures (owner + "^" + rest)[..|owner|] == owner
    ensures AfterCaret(owner + "^" + rest) == rest
  {
    var name := owner + "^" + rest;
    assert multiset(name) == multiset(owner) + multiset("^") + multiset(rest);
    assert name == owner + ("^" + rest);
    IndexOfConcat(owner, "^" + rest, '^');
    assert name[|owner| + 1..] == rest;
  }

  /** `animal + " " + race` splits at its first space when the animal name has
      none. */
  lemma SpaceAt(animal: string, race: string)
    requires ' ' !in animal
    ensures ' ' in animal + " " + race
    ensures IndexOf(animal + " " + race, ' ') == |animal|
    ensures (animal + " " + race)[..|animal|] == animal
    ensures (animal + " " + race)[|animal| + 1..] == race
  {
    assert animal + " " + race == animal + (" " + race);
    IndexOfConcat(animal, " " + race, ' ');
  }

  /** The remainder of a composed name is the animal and the race. */
  lemma ComposedRemainder(owner: string, animal: string, race: string)
    requires '^' !in owner && '^' !in animal && '^' !in race
    requires animal != [] && !IsSpace(animal[0])
    requires race != [] && !IsSpace(race[|race| - 1])
    ensures OneCaret(owner + "^" + (animal + " " + race))
    ensures IndexOf(owner + "^" + (animal + " " + race), '^') == |owner|
    ensures (owner + "^" + (animal + " " + race))[..|owner|] == owner
    ensures Remainder(owner + "^" + (animal + " " + race)) == animal + " " + race
  {
    var rest := animal + " " + race;
    assert '^' !in rest;
    CaretAt(owner, rest);
    assert rest[0] == animal[0] && rest[|rest| - 1] == race[|race| - 1];
    TrimSpaceNoEnds(rest);
  }

  /** The accessors invert the way DX-R composes the name field: an owner, a
      caret, an animal name without spaces, a space and a race come back as
      the three parts, as long as no part holds a caret and the animal name
      and race do not begin or end the remainder with space. */
  lemma Decompose(p: Patient, owner: string, animal: string, race: string)
    requires p.name == owner + "^" + (animal + " " + race)
    requires '^' !in owner && '^' !in animal && '^' !in race && ' ' !in animal
    requires animal != [] && !IsSpace(animal[0])
    requires race != [] && !IsSpace(race[|race| - 1])
    ensures p.OwnerName() == owner && p.AnimalName() == animal && p.AnimalRace() == race
  {
    ComposedRemainder(owner, animal, race);
    SpaceAt(animal, race);
    OwnerNameSpec(p);
    AnimalNameSpec(p);
    AnimalRaceSpec(p);
  }

  /** An owner, an animal and a race. */
  lemma ExampleSmithRex(p: Patient)
    requires p.name == "Smith^Rex Labrador"
    ensures p.OwnerName() == "Smith" && p.AnimalName() == "Rex" && p.AnimalRace() == "Labrador"
  {
    assert p.name == "Smith" + "^" + ("Rex" + " " + "Labrador");
    Decompose(p, "Smith", "Rex", "Labrador");
  }

  /** A name without a caret is all owner; the animal is unknown. */
  lemma ExampleNoCaret(p: Patient)
    requires p.name == "NoCaretHere"
    ensures p.OwnerName() == "NoCaretHere" && p.AnimalName() == "unknown"
    ensures p.AnimalRace() == "unknown"
  {
    assert '^' !in p.name;
    SplitNone(p.name, '^');
  }
}
