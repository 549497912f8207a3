/**
 * The catalog logic of the routes: validating a submitted course, storing it,
 * and looking a course up by its code.
 */
module Catalog {
  import opened Wrappers
  import opened CourseStore
  import opened Telemetry

  // ---------------------------------------------------------------------------
  // Submission
  // ---------------------------------------------------------------------------

  /** A form field as the form lookup returns it: `None` when the field was not sent. */
  type Field = Option<string>

  /** A field counts as missing when it is absent or empty (Python's `not value`). */
  predicate Missing(f: Field) {
    f.None? || f.value == ""
  }

  const CodeLabel: string := "Course Code"
  const NameLabel: string := "Course Name"
  const InstructorLabel: string := "Instructor"

  /** The position of a label in the fixed reporting order code, name, instructor. */
  function Rank(l: string): nat {
    if l == CodeLabel then 0 else if l == NameLabel then 1 else 2
  }

  /** The labels of the missing fields, in the fixed order, each at most once. */
  function MissingFields(code: Field, name: Field, instructor: Field): (r: seq<string>)
    ensures CodeLabel in r <==> Missing(code)
    ensures NameLabel in r <==> Missing(name)
    ensures InstructorLabel in r <==> Missing(instructor)
    ensures forall i :: 0 <= i < |r| ==> r[i] in {CodeLabel, NameLabel, InstructorLabel}
    ensures forall i, j :: 0 <= i < j < |r| ==> Rank(r[i]) < Rank(r[j])
    ensures |r| == 0 <==> !Missing(code) && !Missing(name) && !Missing(instructor)
  {
    (if Missing(code) then [CodeLabel] else [])
      + (if Missing(name) then [NameLabel] else [])
      + (if Missing(instructor) then [InstructorLabel] else [])
  }

  /** The list of missing labels never names a field twice. */
  lemma MissingFieldsDistinct(code: Field, name: Field, instructor: Field)
    ensures var r := MissingFields(code, name, instructor);
      forall i, j :: 0 <= i < j < |r| ==> r[i] != r[j]
  {
  }

  /**
   * Validation and record construction: a submission fails with the labels of
   * its missing fields iff some field is missing; otherwise the record holds
   * exactly the submitted values, all non-empty.
   */
  function Validate(code: Field, name: Field, instructor: Field): (r: Result<Course, seq<string>>)
    ensures r.Failure? <==> Missing(code) || Missing(name) || Missing(instructor)
    ensures r.Failure? ==> r.error == MissingFields(code, name, instructor) && |r.error| > 0
    ensures r.Success? ==>
      && code == Some(r.value.code) && name == Some(r.value.name)
      && instructor == Some(r.value.instructor)
      && r.value.code != "" && r.value.name != "" && r.value.instructor != ""
  {
    if Missing(code) || Missing(name) || Missing(instructor) then
      Failure(MissingFields(code, name, instructor))
    else
      Success(Course(code.value, name.value, instructor.value))
  }

  /** The attribute set a rejected submission is counted under. */
  const MissingFieldsKey: Attrs := RouteErrorType("/add_courses", "missing_fields")

  /** The store and error counter after a submission, with its verdict. */
  datatype Submitted = Submitted(file: CourseFile, errors: Counter,
                                 verdict: Result<Course, seq<string>>)

  /**
   * A POST to `/add_courses`. A rejected submission returns before the store
   * is written and counts one error under `MissingFieldsKey`; an accepted one
   * appends its record to the store and counts nothing.
   */
  function Submit(file: CourseFile, errors: Counter,
                  code: Field, name: Field, instructor: Field): (r: Submitted)
    ensures r.verdict == Validate(code, name, instructor)
    ensures r.verdict.Failure? ==>
      && r.file == file
      && Total(r.errors, MissingFieldsKey) == Total(errors, MissingFieldsKey) + 1
      && forall k :: k != MissingFieldsKey ==> Total(r.errors, k) == Total(errors, k)
    ensures r.verdict.Success? ==>
      && Load(r.file) == Load(file) + [r.verdict.value]
      && r.errors == errors
  {
    match Validate(code, name, instructor)
    case Failure(missing) => Submitted(file, Add(errors, 1, MissingFieldsKey), Failure(missing))
    case Success(course) => Submitted(Save(file, course), errors, Success(course))
  }

  /** A submission is rejected iff a field is missing, and only then does the store stay put. */
  lemma SubmitRejectedIff(file: CourseFile, errors: Counter,
                          code: Field, name: Field, instructor: Field)
    ensures var r := Submit(file, errors, code, name, instructor);
      && (r.verdict.Failure? <==> Missing(code) || Missing(name) || Missing(instructor))
      && (r.verdict.Failure? <==> r.file == file)
  {
    var r := Submit(file, errors, code, name, instructor);
    if r.verdict.Success? {
      assert |Load(r.file)| == |Load(file)| + 1;
    }
  }

  /** Example: an empty code alone is reported as exactly "Course Code". */
  lemma RejectsEmptyCode()
    ensures Validate(Some(""), Some("Algo"), Some("Dr. X")) == Failure([CodeLabel])
  {
    assert !Missing(Some("Algo")) by { assert |"Algo"| == 4; }
    assert !Missing(Some("Dr. X")) by { assert |"Dr. X"| == 5; }
    assert MissingFields(Some(""), Some("Algo"), Some("Dr. X")) == [CodeLabel];
  }

  // ---------------------------------------------------------------------------
  // Lookup
  // ---------------------------------------------------------------------------

  /** The least index whose record has code `code`, if any. */
  function FirstIndex(courses: seq<Course>, code: string): (r: Option<nat>)
    ensures r.Some? ==>
      && r.value < |courses|
      && courses[r.value].code == code
      && forall j :: 0 <= j < r.value ==> courses[j].code != code
    ensures r.None? ==> forall j :: 0 <= j < |courses| ==> courses[j].code != code
    decreases |courses|
  {
    if courses == [] then None
    else if courses[0].code == code then Some(0)
    else
      match FirstIndex(courses[1..], code)
      case None => None
      case Some(i) => Some(i + 1)
  }

  /**
   * The lookup of `/course/<code>`: the first record whose code matches, or
   * `None` (the redirect branch) when there is none.
   */
  function FindByCode(courses: seq<Course>, code: string): (r: Option<Course>)
    ensures r.Some? <==> exists i :: 0 <= i < |courses| && courses[i].code == code
    ensures r.Some? ==> r.value.code == code && r.value in courses
  {
    match FirstIndex(courses, code)
    case None => None
    case Some(i) => Some(courses[i])
  }

  /**
   * First match wins: whenever index `i` holds the first record with the
   * queried code, the lookup returns that record, whatever follows it.
   */
  lemma FindByCodeFirstMatch(courses: seq<Course>, code: string, i: nat)
    requires i < |courses| && courses[i].code == code
    requires forall j :: 0 <= j < i ==> courses[j].code != code
    ensures FindByCode(courses, code) == Some(courses[i])
  {
    assert FirstIndex(courses, code).Some?;
  }

  /**
   * Appending a record never changes a lookup that already succeeds; a lookup
   * that failed now finds the new record iff its code matches.
   */
  lemma {:induction false} FindByCodeAfterAppend(courses: seq<Course>, c: Course, code: string)
    ensures FindByCode(courses + [c], code)
         == if FindByCode(courses, code).Some? then FindByCode(courses, code)
            else if c.code == code then Some(c) else None
  {
    var s := courses + [c];
    match FirstIndex(courses, code)
    case Some(i) =>
      assert s[i] == courses[i];
      FindByCodeFirstMatch(s, code, i);
    case None =>
      if c.code == code {
        FindByCodeFirstMatch(s, code, |courses|);
      } else {
        assert forall j :: 0 <= j < |s| ==> s[j].code != code by {
          forall j | 0 <= j < |s| ensures s[j].code != code {
            if j < |courses| { assert s[j] == courses[j]; }
          }
        }
      }
  }

  /**
   * The route's linear scan, written as a loop over the collection: it
   * returns the same record as `FindByCode`.
   */
  method ScanForCode(courses: seq<Course>, code: string) returns (r: Option<Course>)
    ensures r == FindByCode(courses, code)
  {
    var i := 0;
    while i < |courses|
      invariant 0 <= i <= |courses|
      invariant forall j :: 0 <= j < i ==> courses[j].code != code
    {
      if courses[i].code == code {
        FindByCodeFirstMatch(courses, code, i);
        return Some(courses[i]);
      }
      i := i + 1;
    }
    r := None;
  }

  /** Example: after storing CS203 it is found, and an unknown code is not. */
  lemma FindsStoredCourse()
    ensures var c := Course("CS203", "Systems", "Dr. Y");
      && FindByCode(Load(Save(None, c)), "CS203") == Some(c)
      && FindByCode(Load(Save(None, c)), "NOPE") == None
  {
    var c := Course("CS203", "Systems", "Dr. Y");
    AbsentFile(c);
    FindByCodeFirstMatch([c], "CS203", 0);
  }
}
