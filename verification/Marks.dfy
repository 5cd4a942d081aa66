/**
  Directory entries on a machine that may lose power: an entry that was made is only
  durable once its directory was synced.
*/
module Marks {

  /** A record: not there; published, which a power loss may still undo because
      its directory was not synced; or durable. */
  datatype Mark<+T> = Absent | Published(value: T) | Durable(value: T)

  function Synced<T>(m: Mark<T>): Mark<T> {
    if m.Published? then Durable(m.value) else m
  }

  /** A record stays, and what it says. */
  predicate Held<T(==)>(m: Mark<T>, m': Mark<T>) {
    && (m.Published? ==> !m'.Absent? && m'.value == m.value)
    && (m.Durable? ==> m' == m)
  }

  /** What a loss of power may make of a record. */
  predicate Lost<T(==)>(m: Mark<T>, m': Mark<T>) {
    if m.Published? then m' == Durable(m.value) || m'.Absent? else m' == m
  }

  function WorstMark<T>(m: Mark<T>): Mark<T> {
    if m.Published? then Absent else m
  }

  method LoseMark<T(==)>(m: Mark<T>) returns (m': Mark<T>)
    ensures Lost(m, m')
  {
    var lost: bool := *;
    m' := if m.Published? && lost then Absent else Synced(m);
  }
}
