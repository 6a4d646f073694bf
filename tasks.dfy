/**
 * The task entity: a record with an identifier, a display name and a
 * workflow status. It has no behaviour of its own.
 */
module Tasks {

  /**
   * A task identifier. The program uses random 128-bit UUIDs; the store
   * only ever compares them for equality and uses them as map keys, so the
   * model leaves the type abstract.
   */
  type Id(==)

  /** The three workflow states of a task; equality is structural. */
  datatype TaskStatus = Todo | Doing | Done

  /**
   * A task. The record is copied whenever the store hands it out, so a
   * value type models it exactly: no caller can alias stored state.
   */
  datatype Task = Task(id: Id, name: string, status: TaskStatus)

  /** A status is always one of the three declared values. */
  lemma StatusCases(s: TaskStatus)
    ensures s == Todo || s == Doing || s == Done
  {
  }
}
