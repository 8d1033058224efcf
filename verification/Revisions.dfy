/** Revision stamps: the time of the change, but always later than the stamp before. */
module Revisions {
  function NextRevision(current: int, now: int): int { if now > current + 1 then now else current + 1 }
}
