/**
 * The configuration mappings inlined in `new_decoder` and `new_encoder`:
 * caller integers become the engine's enumerations, and an unrecognised
 * value falls back to a default instead of failing.
 */
module Config {
  import opened Engine

  /** Channel count: 2 is stereo, 1 and every other value is mono. */
  function ChannelsOf(channels: uint32): (c: Channels)
    ensures c == Stereo <==> channels == 2
    ensures c == Mono <==> channels != 2
  {
    if channels == 1 then Mono
    else if channels == 2 then Stereo
    else Mono
  }

  /** Application mode: 1 Voip, 2 Audio, 3 LowDelay, every other value Voip. */
  function ApplicationOf(application: uint32): (a: Application)
    ensures a == Audio <==> application == 2
    ensures a == LowDelay <==> application == 3
    ensures a == Voip <==> application != 2 && application != 3
  {
    if application == 1 then Voip
    else if application == 2 then Audio
    else if application == 3 then LowDelay
    else Voip
  }

  /** Both mappings are total and only two inputs pick a non-default mode: unrecognised values never fail. */
  lemma DefaultsOnUnrecognised(channels: uint32, application: uint32)
    requires channels != 2 && application != 2 && application != 3
    ensures ChannelsOf(channels) == Mono && ApplicationOf(application) == Voip
  {
  }
}
