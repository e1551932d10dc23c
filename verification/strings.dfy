/** Small facts about strings shared by the catalogs. */
module Strings {

  /** A cheap fingerprint of a non-empty id: its first and last characters. */
  function Fingerprint(id: string): int {
    if |id| == 0 then -1 else (id[0] as int) * 0x11_0000 + (id[|id| - 1] as int)
  }

}
