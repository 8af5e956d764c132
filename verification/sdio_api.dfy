/** The driver interface every target implements: status and transfer-state constants
    and the card geometry record the driver reports after initialisation. */
module SdioApi {
  import opened Uint

  /** Status of a driver call. */
  const MSD_OK: int := 0
  const MSD_ERROR: int := 1

  /** Transfer state reported by the card-state and DMA-pending polls. */
  const SD_TRANSFER_OK: int := 0
  const SD_TRANSFER_BUSY: int := 1

  /** What `sdio_get_card_info` fills in; every field is a `uint32_t`. */
  datatype CardInfo = CardInfo(
    cardType: u32,
    cardVersion: u32,
    cardClass: u32,
    relCardAddr: u32,
    blockCount: u32,
    blockSize: u32,
    logBlockCount: u32,
    logBlockSize: u32)

  /** Placeholder geometry held before the first successful initialisation; nothing reads it then. */
  const NoCardInfo: CardInfo := CardInfo(0, 0, 0, 0, 0, 0, 0, 0)
}
