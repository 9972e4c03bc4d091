/**
 * Class identifiers and names shared by the detectors: the three classes of the
 * multi-task transformer, the YOLO class ids that the application looks at, and
 * the sentinel ids the secondary detector's boxes are remapped to.
 */
module Constants {
  import opened Wrappers
  import opened Text

  /** Sentinel ids under which secondary-detector boxes are stored. */
  const PersonClassId: int := 999
  const TrafficLightClassId: int := 998
  const OtherClassId: int := 997

  /** Class ids of the secondary (COCO-trained YOLO) detector that the application reacts to. */
  const PersonOriginalId: int := 0
  const TrafficLightOriginalId: int := 9

  /** Names of the transformer's classes. */
  const DetrClassNames: map<int, string> := map[0 := "Vehicle", 1 := "Drivable", 2 := "Lane"]

  /** Names of the sentinel ids. */
  const SpecialClassNames: map<int, string> :=
    map[PersonClassId := "Person", TrafficLightClassId := "TrafficLight", OtherClassId := "Other"]

  const UnknownPrefix: string := "Unknown-"

  /** A colour as OpenCV takes it: blue, green, red. */
  datatype Bgr = Bgr(b: int, g: int, r: int)

  predicate IsKnownClass(classId: int) {
    classId in SpecialClassNames || classId in DetrClassNames
  }

  /**
   * The display name of a class id: the sentinel table is looked up first, then the
   * transformer table, and any other id is shown as "Unknown-" followed by its decimal text.
   */
  function ClassName(classId: int): (name: string)
    ensures classId in SpecialClassNames ==> name == SpecialClassNames[classId]
    ensures classId in DetrClassNames ==> name == DetrClassNames[classId]
    ensures !IsKnownClass(classId) <==> StartsWith(name, UnknownPrefix)
    ensures !IsKnownClass(classId) ==> name[|UnknownPrefix|..] == IntToString(classId)
  {
    if IsKnownClass(classId) then
      var name := if classId in SpecialClassNames then SpecialClassNames[classId] else DetrClassNames[classId];
      assert |name| >= |UnknownPrefix| ==> name[0] != UnknownPrefix[0];
      name
    else
      var name := UnknownPrefix + IntToString(classId);
      assert name[|UnknownPrefix|..] == IntToString(classId);
      name
  }

  /** The text after "Unknown-" in the name of an unknown id reads back, with `int()`, as that id. */
  lemma ClassNameReadsBack(classId: int)
    requires !IsKnownClass(classId)
    ensures PyInt(ClassName(classId)[|UnknownPrefix|..]) == Some(classId)
  {
    PyIntOfIntToString(classId);
  }

  /** The two tables share no id, so looking one up before the other cannot change a name. */
  lemma TablesDisjoint()
    ensures SpecialClassNames.Keys !! DetrClassNames.Keys
    ensures |SpecialClassNames.Keys| == 3
  {
  }

  /** Distinct ids get distinct names: a name identifies its class id. */
  lemma ClassNameInjective(a: int, b: int)
    requires ClassName(a) == ClassName(b)
    ensures a == b
  {
    if !IsKnownClass(a) {
      ClassNameReadsBack(a);
      ClassNameReadsBack(b);
    }
  }
}
