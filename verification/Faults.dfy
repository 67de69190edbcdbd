/** How a call to a repository or a provider can end. */
module Faults {
  /** Lost takes effect, but the caller is told it failed. */
  datatype Fate = Works | Fails | Lost

  /** A list of fates runs out into success. */
  function First(fates: seq<Fate>): Fate {
    if fates == [] then Works else fates[0]
  }

  function Rest(fates: seq<Fate>): seq<Fate> {
    if fates == [] then [] else fates[1..]
  }
}
