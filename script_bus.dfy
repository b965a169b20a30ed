// Script/SoundBusInfo.cs: the bus categories of the newer copy and the
// per-bus record that the manager keeps for each registered bus.

module ScriptBus {

  /** The bus categories; this copy has no `Master` bus. */
  datatype SoundBus = Ambient | Environment | SFX | UI | Voice

  /** One bus record. `activeVoices` lists the sources playing through the
      bus, oldest first; `mixerLevel` is the linear level whose decibel form
      was last written to the bus's mixer. */
  datatype SoundBusInfo = SoundBusInfo(soundBus: SoundBus, mixerLevel: real, individualVolume: real,
                                       voiceLimit: int, activeVoices: seq<nat>)
}
