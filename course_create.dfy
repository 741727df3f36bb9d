/**
 * The create-course screen: the table of hole drafts it edits, its growth
 * when the hole count rises, the form check, and the course sent on submit.
 */
module CourseCreate {
  import opened Wrappers
  import opened JsStrings
  import opened JsNumbers

  /** A par or length input: the empty string, or `Number` of the typed text (possibly NaN). */
  datatype FieldValue = Empty | Num(n: JsNumber)

  datatype HoleDraft = HoleDraft(holeNumber: int, par: FieldValue, lengthFeet: FieldValue)

  /** The two hole fields the screen's inputs edit. */
  datatype HoleField = Par | LengthFeet

  const DefaultPar: FieldValue := Num(Finite(3.0))
  const InitialHoleCount: nat := 18
  const MaxHoles: nat := 36

  /** `count` fresh holes numbered `start + 1 ..`, each par 3 with no length. */
  function NewHoles(start: nat, count: nat): (r: seq<HoleDraft>)
    ensures |r| == count
    ensures forall i :: 0 <= i < count ==> r[i] == HoleDraft(start + i + 1, DefaultPar, Empty)
  {
    if count == 0 then [] else NewHoles(start, count - 1) + [HoleDraft(start + count, DefaultPar, Empty)]
  }

  predicate NumberedFromOne(holes: seq<HoleDraft>) {
    forall i :: 0 <= i < |holes| ==> holes[i].holeNumber == i + 1
  }

  /** The table the screen keeps: 18 to 36 holes, numbered 1, 2, ... in order. */
  predicate ValidTable(holes: seq<HoleDraft>) {
    InitialHoleCount <= |holes| <= MaxHoles && NumberedFromOne(holes)
  }

  /** The table the screen starts with. */
  function InitialHoles(): (r: seq<HoleDraft>)
    ensures ValidTable(r) && |r| == InitialHoleCount
    ensures forall i :: 0 <= i < |r| ==> r[i].par == DefaultPar && r[i].lengthFeet == Empty
  {
    NewHoles(0, InitialHoleCount)
  }

  /** `value === '' ? '' : Number(value)` */
  function InputValue(text: string): (r: FieldValue)
    ensures r == Empty <==> text == ""
    ensures text != "" ==> r == Num(Number(text))
  {
    if text == "" then Empty else Num(Number(text))
  }

  /** `{ ...hole, [field]: parsedValue }` */
  function WithField(h: HoleDraft, field: HoleField, text: string): (r: HoleDraft)
    ensures r.holeNumber == h.holeNumber
    ensures field == Par ==> r.par == InputValue(text) && r.lengthFeet == h.lengthFeet
    ensures field == LengthFeet ==> r.lengthFeet == InputValue(text) && r.par == h.par
  {
    match field
    case Par => h.(par := InputValue(text))
    case LengthFeet => h.(lengthFeet := InputValue(text))
  }

  /** `parseInt(value) || 0`: NaN becomes 0. */
  function RequestedCount(value: string): int {
    match ParseInt(value)
    case None => 0
    case Some(n) => n
  }

  /**
   * The holes after the count input changes to `value`: an empty input, a
   * count outside 1..36 or one not above the table's length leaves the
   * table as it is; otherwise fresh holes are appended up to the count.
   */
  function GrowHoles(holes: seq<HoleDraft>, value: string): (r: seq<HoleDraft>)
    ensures holes <= r
    ensures |r| == if value != "" && 0 < RequestedCount(value) <= MaxHoles && RequestedCount(value) > |holes|
                   then RequestedCount(value) else |holes|
    ensures forall i :: |holes| <= i < |r| ==> r[i] == HoleDraft(i + 1, DefaultPar, Empty)
  {
    if value == "" then holes
    else
      var num := RequestedCount(value);
      if 0 < num <= MaxHoles && num > |holes| then holes + NewHoles(|holes|, num - |holes|)
      else holes
  }

  /** Growing keeps the table within 18..36 holes and numbered in order. */
  lemma GrowKeepsTable(holes: seq<HoleDraft>, value: string)
    requires ValidTable(holes)
    ensures ValidTable(GrowHoles(holes, value))
  {
    var r := GrowHoles(holes, value);
    forall i | 0 <= i < |r| ensures r[i].holeNumber == i + 1 {
      if i < |holes| { assert r[i] == holes[i]; }
    }
  }

  /** After a count of 1..36 is typed, the table has at least that many holes. */
  lemma GrowCoversCount(holes: seq<HoleDraft>, n: nat)
    requires 0 < n <= MaxHoles
    ensures |GrowHoles(holes, DecimalString(n))| >= n
  {
    ParseIntDecimal(n);
  }

  /** Typing a smaller count, or clearing the input, never removes a hole or an edit. */
  lemma GrowNeverShrinks(holes: seq<HoleDraft>, value: string)
    requires value == "" || RequestedCount(value) <= |holes|
    ensures GrowHoles(holes, value) == holes
  {
  }

  /** The end index of `slice(0, end)`: a negative end counts back from the length. */
  function SliceEnd(len: nat, end: int): (r: nat)
    ensures r <= len
    ensures end >= 0 ==> r == Min(end, len)
    ensures end < 0 ==> r == if len + end > 0 then len + end else 0
  {
    if end >= 0 then Min(end, len) else if len + end > 0 then len + end else 0
  }

  /** The number of hole rows shown: `holes.slice(0, parseInt(numberOfHoles) || holes.length)`. */
  function VisibleCount(numberOfHoles: string, holes: seq<HoleDraft>): (r: nat)
    ensures r <= |holes|
  {
    var n := RequestedCount(numberOfHoles);
    SliceEnd(|holes|, if n == 0 then |holes| else n)
  }

  /**
   * Every shown row is a hole of the table, so the row indices the inputs
   * pass to `updateHole` are in range; an unreadable or zero count shows the
   * whole table.
   */
  lemma VisibleRows(numberOfHoles: string, holes: seq<HoleDraft>)
    requires ValidTable(holes)
    ensures forall i :: 0 <= i < VisibleCount(numberOfHoles, holes) ==> i < |holes| && holes[i].holeNumber == i + 1
    ensures RequestedCount(numberOfHoles) == 0 ==> VisibleCount(numberOfHoles, holes) == |holes|
  {
    var k := VisibleCount(numberOfHoles, holes);
    assert k <= |holes|;
    if RequestedCount(numberOfHoles) == 0 {
      assert k == SliceEnd(|holes|, |holes|);
    }
  }

  /** A count `parseInt` reads as 1..36 shows exactly that many rows once the table has grown. */
  lemma GrownRowsShown(holes: seq<HoleDraft>, s: string, n: int)
    requires ParseInt(s) == Some(n) && 0 < n <= MaxHoles
    ensures VisibleCount(s, GrowHoles(holes, s)) == n
  {
    ParseIntBlank("");
    assert s != "" && RequestedCount(s) == n;
    var g := GrowHoles(holes, s);
    assert |g| >= n;
    assert VisibleCount(s, g) == SliceEnd(|g|, n) == Min(n, |g|);
  }

  /** Once a count of 1..36 is typed, exactly that many rows are shown. */
  lemma {:induction false} TypedCountIsShown(holes: seq<HoleDraft>, n: nat)
    requires 0 < n <= MaxHoles
    ensures VisibleCount(DecimalString(n), GrowHoles(holes, DecimalString(n))) == n
  {
    ParseIntDecimal(n);
    GrownRowsShown(holes, DecimalString(n), n);
  }

  /** The form state of the screen. */
  class CourseForm {
    var courseName: string
    var location: string
    var description: string
    var numberOfHoles: string
    var holes: seq<HoleDraft>

    predicate Valid()
      reads this
    {
      ValidTable(holes)
    }

    constructor ()
      ensures Valid()
      ensures courseName == "" && location == "" && description == "" && numberOfHoles == "18"
      ensures holes == InitialHoles()
    {
      courseName, location, description := "", "", "";
      numberOfHoles := "18";
      holes := InitialHoles();
    }

    /** `updateHole(index, field, value)`: only that hole's field changes. */
    method UpdateHole(index: nat, field: HoleField, value: string)
      requires Valid() && index < |holes|
      modifies this
      ensures Valid()
      ensures |holes| == |old(holes)|
      ensures forall i :: 0 <= i < |holes| && i != index ==> holes[i] == old(holes)[i]
      ensures holes[index] == WithField(old(holes)[index], field, value)
      ensures courseName == old(courseName) && location == old(location)
      ensures description == old(description) && numberOfHoles == old(numberOfHoles)
    {
      holes := holes[index := WithField(holes[index], field, value)];
    }

    /** `updateNumberOfHoles(value)`: the input always takes `value`; the table only grows, up to 36. */
    method UpdateNumberOfHoles(value: string)
      requires Valid()
      modifies this
      ensures Valid()
      ensures numberOfHoles == value && holes == GrowHoles(old(holes), value)
      ensures old(holes) <= holes
      ensures courseName == old(courseName) && location == old(location) && description == old(description)
    {
      numberOfHoles := value;
      if value != "" {
        var num := RequestedCount(value);
        if 0 < num <= MaxHoles && num > |holes| {
          holes := holes + NewHoles(|holes|, num - |holes|);
        }
      }
      GrowKeepsTable(old(holes), value);
    }
  }

  /** The three alerts of `validateCourse`, in the order it checks them. */
  datatype CourseError = MissingName | MissingLocation | InvalidHoleCount

  /** `validateCourse`: a non-blank name, a non-blank location, and a count `parseInt` reads as positive. */
  function ValidateCourse(name: string, location: string, numberOfHoles: string): (r: Check<CourseError>)
    ensures r == Pass <==> !Blank(name) && !Blank(location) && ParseInt(numberOfHoles).Some? && ParseInt(numberOfHoles).value > 0
    ensures r == Fail(MissingName) <==> Blank(name)
    ensures r == Fail(MissingLocation) <==> !Blank(name) && Blank(location)
    ensures r == Fail(InvalidHoleCount) <==>
      !Blank(name) && !Blank(location) && !(ParseInt(numberOfHoles).Some? && ParseInt(numberOfHoles).value > 0)
  {
    if Trim(name) == "" then Fail(MissingName)
    else if Trim(location) == "" then Fail(MissingLocation)
    else match ParseInt(numberOfHoles)
      case None => Fail(InvalidHoleCount)
      case Some(n) => if n <= 0 then Fail(InvalidHoleCount) else Pass
  }

  /** One hole as sent: par is the typed number or 3, a missing length is `null` (`None`). */
  datatype HolePayload = HolePayload(holeNumber: int, par: JsNumber, lengthFeet: Option<JsNumber>)

  datatype CourseData = CourseData(name: string, location: string, description: string, holes: seq<HolePayload>)

  /** The `holes.map(...)` step of `handleSubmit`: the par falls back to 3 only when it is not a number. */
  function PayloadHole(h: HoleDraft): (r: HolePayload)
    ensures r.holeNumber == h.holeNumber
    ensures h.par == Empty ==> r.par == Finite(3.0)
    ensures h.par.Num? ==> r.par == h.par.n
    ensures r.lengthFeet == None <==> h.lengthFeet == Empty
    ensures h.lengthFeet.Num? ==> r.lengthFeet == Some(h.lengthFeet.n)
  {
    HolePayload(
      h.holeNumber,
      if h.par.Num? then h.par.n else Finite(3.0),
      if h.lengthFeet == Empty then None else Some(h.lengthFeet.n))
  }

  function MapPayload(holes: seq<HoleDraft>): (r: seq<HolePayload>)
    ensures |r| == |holes|
    ensures forall i :: 0 <= i < |holes| ==> r[i] == PayloadHole(holes[i])
  {
    if holes == [] then [] else [PayloadHole(holes[0])] + MapPayload(holes[1..])
  }

  /** `numberOfHoles ? parseInt(numberOfHoles) : 18`, once the form has passed. */
  function SubmittedCount(numberOfHoles: string): (r: int)
    requires ParseInt(numberOfHoles).Some?
    ensures r == ParseInt(numberOfHoles).value
  {
    ParseIntBlank("");
    if numberOfHoles == "" then 18 else ParseInt(numberOfHoles).value
  }

  /**
   * `handleSubmit` up to the request: nothing is sent unless the form
   * passes; then the first `parseInt(numberOfHoles)` holes are sent (all of
   * them when the count exceeds the table), each shaped by `PayloadHole`.
   */
  function CourseRequest(name: string, location: string, description: string, numberOfHoles: string,
                         holes: seq<HoleDraft>): (r: Option<CourseData>)
    ensures r.Some? <==> ValidateCourse(name, location, numberOfHoles) == Pass
    ensures r.Some? ==>
      && r.value.name == name && r.value.location == location && r.value.description == description
      && |r.value.holes| == Min(ParseInt(numberOfHoles).value, |holes|)
      && forall i :: 0 <= i < |r.value.holes| ==> r.value.holes[i] == PayloadHole(holes[i])
  {
    if ValidateCourse(name, location, numberOfHoles) != Pass then None
    else
      var count := Min(SubmittedCount(numberOfHoles), |holes|);
      Some(CourseData(name, location, description, MapPayload(holes[..count])))
  }

  /** From a valid table, the course sent has 1 to 36 holes numbered 1, 2, ... in order. */
  lemma RequestNumbering(name: string, location: string, description: string, numberOfHoles: string,
                         holes: seq<HoleDraft>)
    requires ValidTable(holes)
    requires ValidateCourse(name, location, numberOfHoles) == Pass
    ensures var sent := CourseRequest(name, location, description, numberOfHoles, holes).value.holes;
      && 1 <= |sent| <= MaxHoles
      && forall i :: 0 <= i < |sent| ==> sent[i].holeNumber == i + 1
  {
  }

  /**
   * Typing a count of 1..36 and submitting sends exactly that many holes,
   * the ones past the old table being fresh par-3 holes without a length.
   */
  lemma {:induction false} TypedCountIsSent(name: string, location: string, description: string,
                                            holes: seq<HoleDraft>, n: nat)
    requires ValidTable(holes) && !Blank(name) && !Blank(location)
    requires 0 < n <= MaxHoles
    ensures var grown := GrowHoles(holes, DecimalString(n));
      var sent := CourseRequest(name, location, description, DecimalString(n), grown);
      && sent.Some? && |sent.value.holes| == n
      && forall i :: |holes| <= i < n ==> sent.value.holes[i] == HolePayload(i + 1, Finite(3.0), None)
  {
    ParseIntDecimal(n);
    GrowCoversCount(holes, n);
  }

  /** A count above 36 passes the check but is not honoured: only the table's holes are sent. */
  lemma {:induction false} CountAbove36Truncated(name: string, location: string, description: string,
                                                 holes: seq<HoleDraft>, n: nat)
    requires ValidTable(holes) && !Blank(name) && !Blank(location)
    requires n > MaxHoles
    ensures var sent := CourseRequest(name, location, description, DecimalString(n), GrowHoles(holes, DecimalString(n)));
      && sent.Some? && |sent.value.holes| == |holes| < n
  {
    ParseIntDecimal(n);
  }

  /** A par typed as digits is sent as that number; a par of spaces only is sent as 0, not as the default 3. */
  lemma {:induction false} TypedParIsSent(h: HoleDraft, n: nat, spaces: string)
    requires spaces != "" && Blank(spaces)
    ensures PayloadHole(WithField(h, Par, DecimalString(n))).par == Finite(n as real)
    ensures PayloadHole(WithField(h, Par, spaces)).par == Finite(0.0)
    ensures PayloadHole(WithField(h, Par, "")).par == Finite(3.0)
  {
    NumberDecimal(n);
    NumberBlank(spaces);
  }

  /**
   * The number check on par is JavaScript's `typeof`, and NaN is of type
   * number: a par whose text `Number` reads as NaN (a lone `-`, say) is
   * placed in the request body as NaN, not replaced by 3.
   */
  lemma NaNParIsSent(h: HoleDraft, text: string)
    requires Number(text) == NaN
    ensures PayloadHole(WithField(h, Par, text)).par == NaN
    ensures PayloadHole(WithField(h, Par, "-")).par == NaN
  {
    LoneSignIsNaN();
    NumberBlank("");
  }
}
