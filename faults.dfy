/**
 * The ways the importer stops without producing tables: an exception the
 * source does not catch, or a loop that never ends.  Each names the line of
 * `import_cdb.py` where it happens.
 */
module Faults {
  datatype Fault =
    | BlankLineInNodeBlock   // `node_line.strip()[0]` on a blank line raises IndexError (230)
    | FieldUnbound           // the first SOLID field of a block fails to parse: `field` is unbound (326)
    | NodeCountMissing       // exactly eight SOLID fields: `fields[8]` raises IndexError (332)
    | ContinuationLoops      // more nodes than the first line holds: `++field_count` is a no-op and the loop never ends (332-342)
    | EndOfInputLoops        // end of input inside a SOLID EBLOCK is re-read for ever (292-294)
    | TypeUnbound            // `ET,,family` leaves `et_type` unbound (385-397)
    | MidsideUnbound         // degenerate 8-node shell reads `v13`, unbound unless an earlier tetrahedron set it (647)
    | WedgeNamesUndefined    // `faces_on_15wedge` reads the undefined names `v32`, `v21`, `v54`, `v41` (571-572)
    | ElementUndefined       // `EN` reads the module-level `current_element` before any `EN, ATTR` with a number set it: NameError (146, 154)
    | NodeMissing(id: int)   // a face refers to a node that is not in the node table: KeyError (730)
  {
    /** The faults that are endless loops rather than exceptions. */
    predicate Hangs() {
      ContinuationLoops? || EndOfInputLoops?
    }
  }

  /** A computation that either produces a value or stops with a fault. */
  datatype Outcome<+T> = Ok(value: T) | Failed(fault: Fault)
}
