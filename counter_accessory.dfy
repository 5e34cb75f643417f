/** The constants of the counter accessory that both roles agree on. */
module CounterAccessory {
  import opened Platform

  /** UUID of the single counter characteristic. */
  const CounterCharacteristicUuid: Uuid := "24F31983-2703-434D-AD32-CC85CC66EBEC"

  /** Local name put in the advertisement. */
  const Name: string := "Itsuki's Counter"

  /** UUID of the primary counter service. */
  const ServiceUuid: Uuid := "E0D678AE-DE7B-40CE-9CB4-A83AFF0D7C4B"
}
