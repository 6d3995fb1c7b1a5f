/** The configuration record handed to the capture engine and the MTU analyzer.
    It is read-only to both; the command-line and file parsing that produce it
    are not part of this model. */
module Config {

  datatype Config = Config(
    pcapSnapLen: int,          // snapshot length requested by the user (int32 in Go)
    pcapFile: string,          // replay file; empty means live capture
    debug: bool,               // verbose logging
    sourceIP: string,
    destinationIP: string,
    port: int,                 // destination port of the probes
    incrementationStep: int    // increment of the first search pass
  )
}
