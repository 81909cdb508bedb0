// Datatypes shared by the modelled components.

module Base {

  /** A value that may be missing: Python's None, a dict miss, a Go zero result. */
  datatype Option<+T> = None | Some(value: T)

  /** How one effectful step ends: normally, with an exception the caller sees,
      or with the death of the process, after which no handler runs. */
  datatype Signal = Continue | Raise | Crash

  /** Lower-case hexadecimal text of a fixed length, as the digests and ids are. */
  predicate Hex(text: string, length: nat) {
    |text| == length && forall i :: 0 <= i < |text| ==> '0' <= text[i] <= '9' || 'a' <= text[i] <= 'f'
  }
}
