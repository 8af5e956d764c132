/** The STM target's card driver: forwards initialisation to the board support layer,
    caches the card geometry, and runs transfers and erases as timed wait sequences. */
module StmDevice {
  import opened Uint
  import opened SdioApi
  import opened Polling

  /** The card information the board support layer reports (its fields are `uint32_t`). */
  datatype StmCardInfo = StmCardInfo(
    cardType: u32,
    cardVersion: u32,
    cardClass: u32,
    blockNbr: u32,
    blockSize: u32,
    logBlockNbr: u32)

  /** The driver's one piece of state: the static card-information cache. */
  datatype Driver = Driver(cardInfo: StmCardInfo)

  /** Calls into the board support layer that start work on the card. */
  datatype StmCall =
    | ReadBlocksDma(addr: u32, numOfBlocks: u32)
    | WriteBlocksDma(addr: u32, numOfBlocks: u32)
    | HalErase(startAddr: u32, endAddr: u32)

  /** A driver function either returns a status, or its wait trace ran out with a loop still
      spinning; either way, `calls` are the calls it made so far. */
  datatype Run = Returned(status: u8, calls: seq<StmCall>) | Waiting(calls: seq<StmCall>)

  function DmaCall(dir: Direction, addr: u32, numOfBlocks: u32): StmCall {
    match dir
    case Reading => ReadBlocksDma(addr, numOfBlocks)
    case Writing => WriteBlocksDma(addr, numOfBlocks)
  }

  /** Initialise the card: the board layer's state `sdInitState` is returned unchanged and the
      cache is refreshed with what the card reports, whether or not initialisation succeeded. */
  function Init(drv: Driver, sdInitState: u8, reported: StmCardInfo): (u8, Driver) {
    (sdInitState, drv.(cardInfo := reported))
  }

  /** Served from the cache, without touching the card. */
  function GetBlockSize(drv: Driver): u32 {
    drv.cardInfo.blockSize
  }

  /** Served from the cache, without touching the card. */
  function GetBlockCount(drv: Driver): u32 {
    drv.cardInfo.blockNbr
  }

  /** Init always returns the board layer's state, and afterwards the geometry queries answer
      from the card information it just reported. */
  lemma InitRefreshesGeometry(drv: Driver, sdInitState: u8, reported: StmCardInfo)
    ensures Init(drv, sdInitState, reported).0 == sdInitState
    ensures GetBlockSize(Init(drv, sdInitState, reported).1) == reported.blockSize
    ensures GetBlockCount(Init(drv, sdInitState, reported).1) == reported.blockNbr
  {
  }

  /** `SDIO_Device_ReadBlocks` and `SDIO_Device_WriteBlocks`: wait for the card, start the
      DMA transfer (whose status is `dmaStatus`), wait for it to finish, wait for the card.
      - if the first wait expires, the result is MSD_ERROR and no DMA is started;
      - once the card is ready, exactly one DMA transfer is started, with the caller's arguments;
      - a DMA start failure is returned as it is, without further waiting;
      - the result is MSD_OK exactly when the DMA starts and all three waits see ready;
      - after a successful start, the first later wait that does not see ready decides: MSD_ERROR
        if it expires, still waiting if its trace runs out. */
  function TransferBlocks(dir: Direction, w: TransferWaits, dmaStatus: u8,
                          addr: u32, numOfBlocks: u32, timeout: u32): (r: Run)
    ensures Wait(w.readyBefore, timeout).Expired? ==> r == Returned(MSD_ERROR, [])
    ensures Wait(w.readyBefore, timeout).Undecided? ==> r == Waiting([])
    ensures Wait(w.readyBefore, timeout).Ready? ==> r.calls == [DmaCall(dir, addr, numOfBlocks)]
    ensures Wait(w.readyBefore, timeout).Ready? && dmaStatus != MSD_OK ==>
      r == Returned(dmaStatus, [DmaCall(dir, addr, numOfBlocks)])
    ensures r.Returned? && r.status == MSD_OK <==>
      && Wait(w.readyBefore, timeout).Ready? && dmaStatus == MSD_OK
      && Wait(w.pending, timeout).Ready? && Wait(w.readyAfter, timeout).Ready?
    ensures (Wait(w.readyBefore, timeout).Ready? && dmaStatus == MSD_OK
             && (Wait(w.pending, timeout).Expired?
                 || (Wait(w.pending, timeout).Ready? && Wait(w.readyAfter, timeout).Expired?)))
            ==> r == Returned(MSD_ERROR, [DmaCall(dir, addr, numOfBlocks)])
    ensures (Wait(w.readyBefore, timeout).Ready? && dmaStatus == MSD_OK
             && (Wait(w.pending, timeout).Undecided?
                 || (Wait(w.pending, timeout).Ready? && Wait(w.readyAfter, timeout).Undecided?)))
            ==> r == Waiting([DmaCall(dir, addr, numOfBlocks)])
  {
    var s := Sequence(w, dmaStatus == MSD_OK, timeout);
    var calls := if s.Issued() then [DmaCall(dir, addr, numOfBlocks)] else [];
    match s
    case TimedOut(_) => Returned(MSD_ERROR, calls)
    case StillWaiting(_) => Waiting(calls)
    case _ => Returned(dmaStatus, calls)
  }

  function ReadBlocks(w: TransferWaits, dmaStatus: u8, readAddr: u32, numOfBlocks: u32, timeout: u32): Run {
    TransferBlocks(Reading, w, dmaStatus, readAddr, numOfBlocks, timeout)
  }

  function WriteBlocks(w: TransferWaits, dmaStatus: u8, writeAddr: u32, numOfBlocks: u32, timeout: u32): Run {
    TransferBlocks(Writing, w, dmaStatus, writeAddr, numOfBlocks, timeout)
  }

  /** A card that answers ready on the first poll of every wait lets a transfer succeed even
      with a zero timeout. */
  lemma ReadyCardNeedsNoTime(dir: Direction, w: TransferWaits, addr: u32, numOfBlocks: u32)
    requires |w.readyBefore.polls| > 0 && w.readyBefore.polls[0].state == SD_TRANSFER_OK
    requires |w.pending.polls| > 0 && w.pending.polls[0].state == SD_TRANSFER_OK
    requires |w.readyAfter.polls| > 0 && w.readyAfter.polls[0].state == SD_TRANSFER_OK
    ensures TransferBlocks(dir, w, MSD_OK, addr, numOfBlocks, 0)
         == Returned(MSD_OK, [DmaCall(dir, addr, numOfBlocks)])
  {
  }

  /** `SDIO_Device_Erase`: ask the HAL to erase (`halOk` is whether it returned HAL_OK); on
      failure return MSD_ERROR at once, otherwise wait for the card: MSD_ERROR if that wait
      expires, MSD_OK if the card becomes ready. */
  function Erase(halOk: bool, readyAfter: WaitTrace, startAddr: u32, endAddr: u32, timeout: u32): (r: Run)
    ensures r.calls == [HalErase(startAddr, endAddr)]
    ensures !halOk ==> r.Returned? && r.status == MSD_ERROR
    ensures r.Returned? && r.status == MSD_OK <==> halOk && Wait(readyAfter, timeout).Ready?
    ensures halOk && Wait(readyAfter, timeout).Expired? ==> r.Returned? && r.status == MSD_ERROR
    ensures r.Waiting? <==> halOk && Wait(readyAfter, timeout).Undecided?
  {
    var calls := [HalErase(startAddr, endAddr)];
    var sdState := if halOk then MSD_OK else MSD_ERROR;
    if sdState == MSD_OK then
      match Wait(readyAfter, timeout)
      case Expired(_) => Returned(MSD_ERROR, calls)
      case Undecided => Waiting(calls)
      case Ready(_) => Returned(sdState, calls)
    else
      Returned(sdState, calls)
  }
}
