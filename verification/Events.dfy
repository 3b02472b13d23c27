/** What a handler of either state machine reports to the transition table. */
module Events {
  import opened Device

  datatype Event = Pass | Busy | Wait | Deny | Fail

  /** What a write comes to. */
  function Written(r: Reply): Event {
    if r.Success? then Pass else Fail
  }
}
