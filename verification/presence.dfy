/**
 * The presence check `is_office_occupied` of oniondoor/door.py: the office
 * counts as occupied when more devices are associated with the WLAN than a
 * configured baseline, and never when the feature is switched off.
 * The device count, read from the gateway in the source, is an input here.
 */
module Presence {

  /** `is_office_occupied()`, with the live device count passed in. */
  function IsOfficeOccupied(enableFritz: bool, baseline: int, devices: int): (r: bool)
    ensures !enableFritz ==> !r
    ensures enableFritz ==> (r <==> baseline < devices)
  {
    enableFritz && devices > baseline
  }

  /** More associated devices never make an occupied office look empty. */
  lemma OccupancyMonotone(enableFritz: bool, baseline: int, devices: int, more: int)
    requires devices <= more
    requires IsOfficeOccupied(enableFritz, baseline, devices)
    ensures IsOfficeOccupied(enableFritz, baseline, more)
  {
  }

  /** A count equal to the baseline is not occupancy: the comparison is strict. */
  lemma BaselineIsNotOccupied(baseline: int)
    ensures !IsOfficeOccupied(true, baseline, baseline)
    ensures IsOfficeOccupied(true, baseline, baseline + 1)
  {
  }
}
