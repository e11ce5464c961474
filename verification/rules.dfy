/**
 * Rules whose code differs from their evident intent. In the legacy digest run
 * they are the tip title of a header-less tip, the signup-time comparator, and
 * the weekly subject rotation; in the streaming consumer, the admission check.
 * A run follows one reading of all of them.
 */
module DigestRules {

  /** `AsWritten` follows the code line by line; `Intended` the corrected rules. */
  datatype Rules = AsWritten | Intended
}
