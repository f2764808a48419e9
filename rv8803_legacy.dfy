/**
 * What the earlier Micro Crystal revision (`rv8803.c`) does differently
 * from the current one beyond the shared calendar and alarm transactions:
 * it keeps no driver data, so its alarm callback registration stores
 * nothing.
 */
module Rv8803Legacy {
  import opened Common

  /** `rv8803_alarm_set_callback`: the callback and its data are dropped and
   *  success is reported. */
  function AlarmSetCallback(cb: Ptr, user: Ptr): (err: int)
    ensures err == 0
  {
    0
  }
}
