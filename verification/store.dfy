/**
 * The course store: a flat, append-only collection of course records kept in
 * a single file that is read and rewritten in full on every save.
 */
module CourseStore {
  import opened Wrappers

  /** One catalog entry, as persisted: `{code, name, instructor}`. */
  datatype Course = Course(code: string, name: string, instructor: string)

  /**
   * The backing file. `None` means the file does not exist; `Some(cs)` is the
   * array it holds. Parsing and serialisation are abstracted away.
   */
  type CourseFile = Option<seq<Course>>

  /** `load_courses`: an absent file reads as the empty collection. */
  function Load(f: CourseFile): seq<Course> {
    match f
    case None => []
    case Some(cs) => cs
  }

  /**
   * `save_courses`: read the whole collection, append one record and write the
   * whole collection back. The file exists afterwards, holds one more record,
   * keeps every earlier record at its index and has the new record last.
   */
  function Save(f: CourseFile, c: Course): (r: CourseFile)
    ensures r.Some?
    ensures |Load(r)| == |Load(f)| + 1
    ensures forall i :: 0 <= i < |Load(f)| ==> Load(r)[i] == Load(f)[i]
    ensures Load(r)[|Load(f)|] == c
  {
    Some(Load(f) + [c])
  }

  /**
   * An absent file reads as empty, and saving into it creates it holding
   * exactly the new record.
   */
  lemma AbsentFile(c: Course)
    ensures Load(None) == []
    ensures Save(None, c) == Some([c])
  {
    assert Load(None) + [c] == [c];
  }

  /** Loading after a save gives the old collection with the record appended. */
  lemma LoadAfterSave(f: CourseFile, c: Course)
    ensures Load(Save(f, c)) == Load(f) + [c]
  {
  }

  /** Saving each record of `cs` in turn, as successive submissions do. */
  function SaveAll(f: CourseFile, cs: seq<Course>): CourseFile
    decreases |cs|
  {
    if cs == [] then f else SaveAll(Save(f, cs[0]), cs[1..])
  }

  /**
   * Successive saves only ever append: the collection afterwards is the old
   * collection followed by the saved records, in submission order.
   */
  lemma {:induction false} SaveAllAppends(f: CourseFile, cs: seq<Course>)
    ensures Load(SaveAll(f, cs)) == Load(f) + cs
    decreases |cs|
  {
    if cs != [] {
      SaveAllAppends(Save(f, cs[0]), cs[1..]);
      LoadAfterSave(f, cs[0]);
      assert [cs[0]] + cs[1..] == cs;
      assert (Load(f) + [cs[0]]) + cs[1..] == Load(f) + cs;
    }
  }

  /** Consequence of `SaveAllAppends`: no save removes or reorders a record. */
  lemma SaveAllMonotone(f: CourseFile, cs: seq<Course>)
    ensures |Load(SaveAll(f, cs))| == |Load(f)| + |cs|
    ensures Load(SaveAll(f, cs))[..|Load(f)|] == Load(f)
  {
    SaveAllAppends(f, cs);
  }
}
