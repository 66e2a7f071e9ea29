/** A configured log source. */
module Sources {
  datatype LogSource = LogSource(
    sourceId: string, storageSourceId: string, serialNumber: string,
    logDir: string, logTag: string, enabled: bool, sourceType: string,
    listenProtocol: string, listenHost: string, listenPort: int,
    spoolDir: string, clientIp: string, archiveDir: string, archiveRetentionDays: int)
}
