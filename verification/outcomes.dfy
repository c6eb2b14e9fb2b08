/**
  The values a compliance rule can produce, and the failure causes behind an
  inconclusive result.

  A rule either passes, fails with the assertion message the rule carries, or
  cannot reach a verdict because the metadata had the wrong shape (in the
  program: a KeyError, an IndexError or a ValueError raised while reading it).
  The test runner reports the last kind as an error, separately from failures.
 */
module Outcomes {

  /** A value that may be missing: a dictionary key that is absent, a parse that did not succeed. */
  datatype Option<+T> = None | Some(value: T)

  /** Why a rule could not reach a verdict. */
  datatype Fault =
    | MissingKey(key: string)        // dict[key] on an absent key
    | IndexOutOfRange(index: nat)    // streams[index] past the end of the list
    | NotAnInteger(text: string)     // int(text) raised ValueError
    | NotAFloat(text: string)        // float(text) raised ValueError
    | InvalidVersion(text: string)   // version.parse(text) raised InvalidVersion
    | NotAMember(text: string)       // Enum(text) raised ValueError: no member has that value
    | MissingAttribute(name: string) // obj.name raised AttributeError

  /** The result of a read that can raise. */
  datatype Result<+T> = Ok(value: T) | Err(fault: Fault)

  /** The verdict of one rule on one file. */
  datatype Verdict = Pass | Fail(message: string) | Error(fault: Fault)

  /** assertTrue(condition, message). */
  function Expect(condition: bool, message: string): (r: Verdict)
    ensures r.Pass? <==> condition
    ensures !r.Error?
    ensures r.Fail? ==> r.message == message
  {
    if condition then Pass else Fail(message)
  }
}
