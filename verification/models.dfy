/** The records of `flexclient/models.py`. */
module Models {

  /** A radio found by discovery; `port` is always the command port. */
  datatype FlexRadio = FlexRadio(
    ip: string,
    port: nat,
    model: string,
    serial: string,
    version: string,
    guiClientHandles: seq<string>,
    guiClientIds: seq<string>)

  /**
   * One complex sample: the in-phase and quadrature 32-bit words as they
   * arrive (IEEE-754 singles on the wire, opaque here).
   */
  datatype Sample = Sample(i: bv32, q: bv32)

  /** A decoded IF-data packet. */
  datatype VitaPacket = VitaPacket(
    streamId: bv32,
    timestampInt: bv32,
    timestampFrac: bv64,
    sequence: bv4,
    samples: seq<Sample>)
}
