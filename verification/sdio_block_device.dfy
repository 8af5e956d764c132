/** The SDIO block device adapter: reference-counted init/deinit, the checks at the head of
    read/program/trim, byte-to-block translation, and the transfer sequencer in its
    synchronous and DMA build variants. Every public call takes the adapter's lock first and
    releases it on every return. Driver answers come in as oracle records. */
module SdioBlockDevice {
  import opened Uint
  import opened SdioApi
  import opened Polling

  /** The only block size the adapter supports; it is also the read, program and erase unit. */
  const BLOCK_SIZE_HC: nat := 512

  const ERROR_PARAMETER: int := -5003
  const ERROR_NO_INIT: int := -5004
  const ERROR_NO_DEVICE: int := -5005
  const ERROR_UNSUPPORTED_BLOCKSIZE: int := -5012
  const ERROR_READ_BLOCKS: int := -5013
  const ERROR_WRITE_BLOCKS: int := -5014
  const ERROR_ERASE_BLOCKS: int := -5015

  /** What the build fixes: whether the DMA variant is compiled in, the command timeout in
      ticker units, and the generic block-device codes for success and device error (left
      symbolic: their values are defined outside this component). */
  datatype Config = Config(async: bool, cmdTimeout: u32, bdOk: int, bdDeviceError: int)

  /** The adapter's state. `cardDetectConnected` is whether a card-detect pin is wired. */
  datatype Device = Device(
    cardDetectConnected: bool,
    initialized: bool,
    initRefCount: nat,
    sectors: nat,
    cardInfo: CardInfo,
    lockHeld: bool)

  /** What holds between public calls: the lock is free, an initialised device has a positive
      reference count and the sector count the card reported, and an uninitialised one has
      no sectors. */
  predicate Valid(d: Device) {
    && !d.lockHeld
    && (d.initialized ==> d.initRefCount >= 1 && d.sectors == d.cardInfo.logBlockCount)
    && (!d.initialized ==> d.sectors == 0)
  }

  /** Lock operations and the driver calls that act on the card, with their arguments.
      Polls of the card and DMA state and reads of the ticker are oracle reads, not logged. */
  datatype Call =
    | Lock
    | Unlock
    | SdioInit
    | SdioGetCardInfo
    | SdioDeinit
    | SdioReadBlocks(address: int, blockCount: int)
    | SdioWriteBlocks(address: int, blockCount: int)
    | SdioReadBlocksAsync(address: int, blockCount: int)
    | SdioWriteBlocksAsync(address: int, blockCount: int)
    | SdioErase(startAddress: int, endAddress: int)

  predicate IsDriverCall(c: Call) {
    c != Lock && c != Unlock
  }

  /** The lock is taken first, released last, and neither happens in between. */
  predicate Bracketed(calls: seq<Call>) {
    && 2 <= |calls|
    && calls[0] == Lock
    && calls[|calls| - 1] == Unlock
    && forall i | 0 < i < |calls| - 1 :: IsDriverCall(calls[i])
  }

  /** A public call either returns a status, or its wait trace ran out inside a wait loop. */
  datatype Outcome =
    | Returned(dev: Device, status: int, calls: seq<Call>)
    | Waiting(dev: Device, calls: seq<Call>)

  /** Every return releases the lock it took exactly once; a call still inside a wait loop
      holds it and has not released it. */
  predicate LockReleasedOnReturn(r: Outcome) {
    match r
    case Returned(dev, _, calls) => !dev.lockHeld && Bracketed(calls)
    case Waiting(dev, calls) =>
      && dev.lockHeld && 1 <= |calls| && calls[0] == Lock
      && forall i | 0 < i < |calls| :: IsDriverCall(calls[i])
  }

  function TakeLock(d: Device): Device {
    d.(lockHeld := true)
  }

  /** `unlock(); return status;` after `calls`, which began by taking the lock. */
  function Release(d: Device, status: int, calls: seq<Call>): (r: Outcome)
    requires d.lockHeld && 1 <= |calls| && calls[0] == Lock
    requires forall i | 0 < i < |calls| :: IsDriverCall(calls[i])
    ensures LockReleasedOnReturn(r)
    ensures r.dev == d.(lockHeld := false) && r.status == status && r.calls == calls + [Unlock]
  {
    Returned(d.(lockHeld := false), status, calls + [Unlock])
  }

  /** `unlock(); return status;` straight after `lock()`, with no driver call in between. */
  function Reject(d: Device, status: int): (r: Outcome)
    requires d.lockHeld
    ensures LockReleasedOnReturn(r)
    ensures r == Returned(d.(lockHeld := false), status, [Lock, Unlock])
  {
    Release(d, status, [Lock])
  }

  /** A new adapter: nothing initialised, no reference, no sectors, no hardware contact. */
  function New(cardDetectConnected: bool): (d: Device)
    ensures Valid(d) && !d.initialized && d.initRefCount == 0 && Size(d) == 0
    ensures d.cardDetectConnected == cardDetectConnected
  {
    Device(cardDetectConnected, false, 0, 0, NoCardInfo, false)
  }

  /** Card presence: with a card-detect pin, a card is present when the pin reads 0;
      without one, a card is always taken to be present. */
  function IsPresent(d: Device, pinLevel: int): (r: bool)
    ensures r <==> !d.cardDetectConnected || pinLevel == 0
  {
    if d.cardDetectConnected then pinLevel == 0 else true
  }

  // ----- geometry -----

  function GetReadSize(): u64 {
    BLOCK_SIZE_HC
  }

  function GetProgramSize(): u64 {
    BLOCK_SIZE_HC
  }

  /** Device size in bytes: a whole number of blocks, zero while uninitialised, and
      representable as a 64-bit size because the sector count came from a 32-bit field. */
  function Size(d: Device): (r: nat)
    ensures r % BLOCK_SIZE_HC == 0 && r / BLOCK_SIZE_HC == d.sectors
    ensures Valid(d) ==> r < U64_LIMIT
    ensures Valid(d) && !d.initialized ==> r == 0
  {
    BLOCK_SIZE_HC * d.sectors
  }

  // ----- request validation -----

  /** A request is aligned to `unit` at both ends and lies inside a device of `total` bytes. */
  predicate AlignedInBounds(unit: nat, addr: u64, size: u64, total: nat)
    requires unit > 0
  {
    addr % unit == 0 && size % unit == 0 && addr + size <= total
  }

  /** `_is_valid_trim` as written: its end `addr + size` is computed on `uint64_t` operands,
      which wraps. It accepts every request the exact check accepts, and besides those
      exactly the aligned requests whose end reaches 2^64 and wraps to at most `total`. */
  function AlignedInBoundsAsWritten(unit: nat, addr: u64, size: u64, total: nat): (r: bool)
    requires unit > 0
    ensures r <==>
      || AlignedInBounds(unit, addr, size, total)
      || (&& addr % unit == 0 && size % unit == 0
          && U64_LIMIT <= addr + size && addr + size - U64_LIMIT <= total)
  {
    addr % unit == 0 && size % unit == 0 && AddU64(addr, size) <= total
  }

  predicate IsValidRead(d: Device, addr: u64, size: u64) {
    AlignedInBounds(GetReadSize(), addr, size, Size(d))
  }

  predicate IsValidProgram(d: Device, addr: u64, size: u64) {
    AlignedInBounds(GetProgramSize(), addr, size, Size(d))
  }

  /** The erase unit equals the block size. */
  predicate IsValidTrim(d: Device, addr: u64, size: u64) {
    AlignedInBounds(BLOCK_SIZE_HC, addr, size, Size(d))
  }

  /** An aligned in-bounds request covers blocks `addr/512 .. addr/512 + size/512` of the
      card, all below the sector count, so both the block index and the block count fit the
      driver's `uint32_t` parameters unchanged. */
  lemma ValidRangeWithinSectors(d: Device, addr: u64, size: u64)
    requires Valid(d)
    requires AlignedInBounds(BLOCK_SIZE_HC, addr, size, Size(d))
    ensures addr / BLOCK_SIZE_HC + size / BLOCK_SIZE_HC <= d.sectors < U32_LIMIT
    ensures ToU32(addr / BLOCK_SIZE_HC) == addr / BLOCK_SIZE_HC
    ensures ToU32(size / BLOCK_SIZE_HC) == size / BLOCK_SIZE_HC
  {
  }

  // ----- init / deinit -----

  /** The driver's answers during `init`: the card-detect pin level, the status of
      `sdio_init`, and what `sdio_get_card_info` reports. */
  datatype InitOracle = InitOracle(pinLevel: int, initStatus: int, info: CardInfo)

  /** `init`. An uninitialised device first resets its count; the count is then incremented,
      and only the call that makes it 1 goes further:
      - on an already initialised device, the count grows by one and OK is returned, with no
        driver call;
      - with no card present, NO_DEVICE, no driver call, and the device stays uninitialised;
      - if `sdio_init` fails, DEVICE_ERROR, and the device stays uninitialised;
      - otherwise the device is initialised with the card's logical block count as its sector
        count, and the result is OK, or UNSUPPORTED_BLOCKSIZE when the card's block size is
        not 512, in which case the device nevertheless stays initialised. */
  function Init(cfg: Config, d: Device, o: InitOracle): (r: Outcome)
    requires Valid(d)
    ensures r.Returned? && Valid(r.dev) && LockReleasedOnReturn(r)
    ensures d.initialized ==>
      r == Returned(d.(initRefCount := d.initRefCount + 1), cfg.bdOk, [Lock, Unlock])
    ensures !d.initialized && !IsPresent(d, o.pinLevel) ==>
      r == Returned(d.(initRefCount := 1), ERROR_NO_DEVICE, [Lock, Unlock])
    ensures !d.initialized && IsPresent(d, o.pinLevel) && o.initStatus != cfg.bdOk ==>
      r == Returned(d.(initRefCount := 1), cfg.bdDeviceError, [Lock, SdioInit, Unlock])
    ensures !d.initialized && IsPresent(d, o.pinLevel) && o.initStatus == cfg.bdOk ==>
      && r.dev == d.(initialized := true, initRefCount := 1,
                     sectors := o.info.logBlockCount, cardInfo := o.info)
      && r.calls == [Lock, SdioInit, SdioGetCardInfo, Unlock]
      && r.status == (if o.info.blockSize == BLOCK_SIZE_HC then cfg.bdOk else ERROR_UNSUPPORTED_BLOCKSIZE)
  {
    var d1 := TakeLock(d);
    var d2 := if !d1.initialized then d1.(initRefCount := 0) else d1;
    var d3 := d2.(initRefCount := d2.initRefCount + 1);
    if d3.initRefCount != 1 then Reject(d3, cfg.bdOk)
    else if !IsPresent(d3, o.pinLevel) then Reject(d3, ERROR_NO_DEVICE)
    else
      var status := o.initStatus;
      if cfg.bdOk != status then Release(d3, cfg.bdDeviceError, [Lock, SdioInit])
      else
        var d4 := d3.(cardInfo := o.info, initialized := true, sectors := o.info.logBlockCount);
        if BLOCK_SIZE_HC != o.info.blockSize then
          Release(d4, ERROR_UNSUPPORTED_BLOCKSIZE, [Lock, SdioInit, SdioGetCardInfo])
        else
          Release(d4, status, [Lock, SdioInit, SdioGetCardInfo])
  }

  /** `deinit`, given the status `sdio_deinit` would return.
      - on an uninitialised device, the count is reset to 0 and OK returned, with no driver call;
      - otherwise the count drops by one; while it stays positive, OK with no driver call;
      - the call that brings it to 0 calls `sdio_deinit`, leaves the device uninitialised with
        no sectors whatever that call answered, and returns its status. */
  function Deinit(cfg: Config, d: Device, deinitStatus: int): (r: Outcome)
    requires Valid(d)
    ensures r.Returned? && Valid(r.dev) && LockReleasedOnReturn(r)
    ensures !d.initialized ==> r == Returned(d.(initRefCount := 0), cfg.bdOk, [Lock, Unlock])
    ensures d.initialized && d.initRefCount > 1 ==>
      r == Returned(d.(initRefCount := d.initRefCount - 1), cfg.bdOk, [Lock, Unlock])
    ensures d.initialized && d.initRefCount == 1 ==>
      r == Returned(d.(initialized := false, initRefCount := 0, sectors := 0),
                    deinitStatus, [Lock, SdioDeinit, Unlock])
  {
    var d1 := TakeLock(d);
    if !d1.initialized then Reject(d1.(initRefCount := 0), cfg.bdOk)
    else
      var d2 := d1.(initRefCount := d1.initRefCount - 1);
      if d2.initRefCount != 0 then Reject(d2, cfg.bdOk)
      else
        var status := deinitStatus;
        Release(d2.(initialized := false, sectors := 0), status, [Lock, SdioDeinit])
  }

  /** The destructor deinitialises once if the device is initialised. That releases the
      hardware only when this was the last reference. */
  function Destroy(cfg: Config, d: Device, deinitStatus: int): (calls: seq<Call>)
    requires Valid(d)
    ensures !d.initialized ==> calls == []
    ensures d.initialized ==> Bracketed(calls)
    ensures d.initialized ==>
      calls == (if d.initRefCount == 1 then [Lock, SdioDeinit, Unlock] else [Lock, Unlock])
  {
    if d.initialized then Deinit(cfg, d, deinitStatus).calls else []
  }

  // ----- read / program -----

  /** The driver's answers during a transfer: the card-detect pin level, the status of the
      blocking driver call (synchronous build), the status of the DMA start and what the
      three wait loops observe (DMA build). */
  datatype TransferOracle = TransferOracle(pinLevel: int, syncStatus: int, asyncStatus: int, waits: TransferWaits)

  function TransferError(dir: Direction): int {
    if dir == Reading then ERROR_READ_BLOCKS else ERROR_WRITE_BLOCKS
  }

  predicate IsValidTransfer(dir: Direction, d: Device, addr: u64, size: u64) {
    if dir == Reading then IsValidRead(d, addr, size) else IsValidProgram(d, addr, size)
  }

  function SyncCall(dir: Direction, address: int, blockCount: int): Call {
    if dir == Reading then SdioReadBlocks(address, blockCount) else SdioWriteBlocks(address, blockCount)
  }

  function AsyncCall(dir: Direction, address: int, blockCount: int): Call {
    if dir == Reading then SdioReadBlocksAsync(address, blockCount) else SdioWriteBlocksAsync(address, blockCount)
  }

  /** All checks at the head of a transfer pass. */
  predicate AcceptsTransfer(dir: Direction, d: Device, pinLevel: int, addr: u64, size: u64) {
    IsPresent(d, pinLevel) && d.initialized && IsValidTransfer(dir, d, addr, size)
  }

  /** The synchronous build's transfer of `blockCount` blocks from block `block`, with the
      lock held: one blocking driver call; MSD_OK if it succeeds, READ_BLOCKS / WRITE_BLOCKS
      otherwise. */
  function SyncTransfer(d: Device, dir: Direction, syncStatus: int, block: u32, blockCount: u32): (r: Outcome)
    requires d.lockHeld
    ensures LockReleasedOnReturn(r)
    ensures r == Returned(d.(lockHeld := false), if syncStatus == MSD_OK then MSD_OK else TransferError(dir),
                          [Lock, SyncCall(dir, block, blockCount), Unlock])
  {
    var status := syncStatus;
    var calls := [Lock, SyncCall(dir, block, blockCount)];
    assert calls + [Unlock] == [Lock, SyncCall(dir, block, blockCount), Unlock];
    if status != MSD_OK then Release(d, TransferError(dir), calls)
    else Release(d, status, calls)
  }

  /** The DMA build's transfer, with the lock held: the DMA start is made exactly when the
      first wait sees the card ready; the result is MSD_OK exactly when the start succeeds and
      all three waits see ready, and READ_BLOCKS / WRITE_BLOCKS on every other return. */
  function AsyncTransfer(cfg: Config, d: Device, dir: Direction, asyncStatus: int, waits: TransferWaits,
                         block: u32, blockCount: u32): (r: Outcome)
    requires d.lockHeld
    ensures LockReleasedOnReturn(r)
    ensures r.dev == d.(lockHeld := r.Waiting?)
    ensures r.calls == [Lock] + (if Wait(waits.readyBefore, cfg.cmdTimeout).Ready?
                                 then [AsyncCall(dir, block, blockCount)] else [])
                             + (if r.Returned? then [Unlock] else [])
    ensures r.Returned? ==> r.status == MSD_OK || r.status == TransferError(dir)
    ensures r.Returned? && r.status == MSD_OK <==>
      Sequence(waits, asyncStatus == MSD_OK, cfg.cmdTimeout) == Completed
    ensures r.Waiting? <==> Sequence(waits, asyncStatus == MSD_OK, cfg.cmdTimeout).StillWaiting?
  {
    var status := asyncStatus;
    var s := Sequence(waits, status == MSD_OK, cfg.cmdTimeout);
    var calls := if s.Issued() then [Lock, AsyncCall(dir, block, blockCount)] else [Lock];
    match s
    case Completed => Release(d, status, calls)
    case StillWaiting(_) => Waiting(d, calls)
    case _ => Release(d, TransferError(dir), calls)
  }

  /** The part of `read` and `program` after the checks, with the lock held: translate bytes
      to blocks and run the build's variant. The driver sees block `addr/512` and count
      `size/512`, both inside the card and unchanged by the conversion to `uint32_t`. */
  function AcceptedTransfer(cfg: Config, d: Device, dir: Direction, o: TransferOracle, addr: u64, size: u64): (r: Outcome)
    requires Valid(d.(lockHeld := false)) && d.lockHeld
    requires AcceptsTransfer(dir, d, o.pinLevel, addr, size)
    ensures addr / BLOCK_SIZE_HC + size / BLOCK_SIZE_HC <= d.sectors
    ensures !cfg.async ==> r == SyncTransfer(d, dir, o.syncStatus, addr / BLOCK_SIZE_HC, size / BLOCK_SIZE_HC)
    ensures cfg.async ==>
      r == AsyncTransfer(cfg, d, dir, o.asyncStatus, o.waits, addr / BLOCK_SIZE_HC, size / BLOCK_SIZE_HC)
  {
    var blockCount := size / BLOCK_SIZE_HC;
    var block := addr / BLOCK_SIZE_HC;
    ValidRangeWithinSectors(d.(lockHeld := false), addr, size);
    if cfg.async then AsyncTransfer(cfg, d, dir, o.asyncStatus, o.waits, ToU32(block), ToU32(blockCount))
    else SyncTransfer(d, dir, o.syncStatus, ToU32(block), ToU32(blockCount))
  }

  /** `read` and `program`. The checks run in order: presence (NO_DEVICE), initialisation
      (NO_INIT), alignment and bounds (PARAMETER), and a failed check returns with no driver
      call. An accepted request is passed to the driver as block `addr/512`, count `size/512`,
      within the card and not truncated. The synchronous build returns MSD_OK when the driver
      call succeeds and READ_BLOCKS / WRITE_BLOCKS otherwise; the DMA build returns MSD_OK
      exactly when the DMA start succeeds and all three waits see ready, and READ_BLOCKS /
      WRITE_BLOCKS on every other return. The device state is never changed. */
  function Transfer(cfg: Config, d: Device, dir: Direction, o: TransferOracle, addr: u64, size: u64): (r: Outcome)
    requires Valid(d)
    ensures LockReleasedOnReturn(r)
    ensures r.dev == d.(lockHeld := r.Waiting?)
    ensures !IsPresent(d, o.pinLevel) ==> r == Returned(d, ERROR_NO_DEVICE, [Lock, Unlock])
    ensures IsPresent(d, o.pinLevel) && !d.initialized ==> r == Returned(d, ERROR_NO_INIT, [Lock, Unlock])
    ensures IsPresent(d, o.pinLevel) && d.initialized && !IsValidTransfer(dir, d, addr, size) ==>
      r == Returned(d, ERROR_PARAMETER, [Lock, Unlock])
    ensures AcceptsTransfer(dir, d, o.pinLevel, addr, size) ==>
      addr / BLOCK_SIZE_HC + size / BLOCK_SIZE_HC <= d.sectors
    ensures AcceptsTransfer(dir, d, o.pinLevel, addr, size) && !cfg.async ==>
      r == Returned(d, if o.syncStatus == MSD_OK then MSD_OK else TransferError(dir),
                    [Lock, SyncCall(dir, addr / BLOCK_SIZE_HC, size / BLOCK_SIZE_HC), Unlock])
    ensures AcceptsTransfer(dir, d, o.pinLevel, addr, size) && cfg.async ==>
      && r.calls == [Lock] + (if Wait(o.waits.readyBefore, cfg.cmdTimeout).Ready?
                              then [AsyncCall(dir, addr / BLOCK_SIZE_HC, size / BLOCK_SIZE_HC)] else [])
                           + (if r.Returned? then [Unlock] else [])
      && (r.Returned? ==> r.status == MSD_OK || r.status == TransferError(dir))
      && (r.Returned? && r.status == MSD_OK <==>
            Sequence(o.waits, o.asyncStatus == MSD_OK, cfg.cmdTimeout) == Completed)
      && (r.Waiting? <==> Sequence(o.waits, o.asyncStatus == MSD_OK, cfg.cmdTimeout).StillWaiting?)
  {
    var d1 := TakeLock(d);
    if !IsPresent(d1, o.pinLevel) then Reject(d1, ERROR_NO_DEVICE)
    else if !d1.initialized then Reject(d1, ERROR_NO_INIT)
    else if !IsValidTransfer(dir, d1, addr, size) then Reject(d1, ERROR_PARAMETER)
    else AcceptedTransfer(cfg, d1, dir, o, addr, size)
  }

  function Read(cfg: Config, d: Device, o: TransferOracle, addr: u64, size: u64): Outcome
    requires Valid(d)
  {
    Transfer(cfg, d, Reading, o, addr, size)
  }

  function Program(cfg: Config, d: Device, o: TransferOracle, addr: u64, size: u64): Outcome
    requires Valid(d)
  {
    Transfer(cfg, d, Writing, o, addr, size)
  }

  // ----- trim -----

  /** The driver's answers during `trim`: the card-detect pin level, the status of
      `sdio_erase`, and what the post-erase wait observes (DMA build). */
  datatype EraseOracle = EraseOracle(pinLevel: int, eraseStatus: int, readyAfter: WaitTrace)

  predicate AcceptsTrim(d: Device, pinLevel: int, addr: u64, size: u64) {
    IsPresent(d, pinLevel) && d.initialized && IsValidTrim(d, addr, size)
  }

  /** `trim`. The same three checks in the same order, with no driver call on failure. An
      accepted request calls `sdio_erase` once, passing the block index `addr/512` and the
      block count `size/512` in the parameters the driver interface names start and end
      address. A non-zero erase status gives ERASE_BLOCKS at once; otherwise the synchronous
      build returns 0, and the DMA build waits for the card: 0 if it becomes ready,
      ERASE_BLOCKS if the wait expires. The device state is never changed. */
  function Trim(cfg: Config, d: Device, o: EraseOracle, addr: u64, size: u64): (r: Outcome)
    requires Valid(d)
    ensures LockReleasedOnReturn(r)
    ensures r.dev == d.(lockHeld := r.Waiting?)
    ensures !IsPresent(d, o.pinLevel) ==> r == Returned(d, ERROR_NO_DEVICE, [Lock, Unlock])
    ensures IsPresent(d, o.pinLevel) && !d.initialized ==> r == Returned(d, ERROR_NO_INIT, [Lock, Unlock])
    ensures IsPresent(d, o.pinLevel) && d.initialized && !IsValidTrim(d, addr, size) ==>
      r == Returned(d, ERROR_PARAMETER, [Lock, Unlock])
    ensures AcceptsTrim(d, o.pinLevel, addr, size) ==>
      && addr / BLOCK_SIZE_HC + size / BLOCK_SIZE_HC <= d.sectors
      && r.calls == [Lock, SdioErase(addr / BLOCK_SIZE_HC, size / BLOCK_SIZE_HC)]
                    + (if r.Returned? then [Unlock] else [])
    ensures AcceptsTrim(d, o.pinLevel, addr, size) && o.eraseStatus != 0 ==>
      r == Returned(d, ERROR_ERASE_BLOCKS, [Lock, SdioErase(addr / BLOCK_SIZE_HC, size / BLOCK_SIZE_HC), Unlock])
    ensures AcceptsTrim(d, o.pinLevel, addr, size) && o.eraseStatus == 0 ==>
      && (r.Returned? ==> r.status == 0 || r.status == ERROR_ERASE_BLOCKS)
      && (r.Returned? && r.status == 0 <==> !cfg.async || Wait(o.readyAfter, cfg.cmdTimeout).Ready?)
      && (r.Waiting? <==> cfg.async && Wait(o.readyAfter, cfg.cmdTimeout).Undecided?)
  {
    var d1 := TakeLock(d);
    if !IsPresent(d1, o.pinLevel) then Reject(d1, ERROR_NO_DEVICE)
    else if !d1.initialized then Reject(d1, ERROR_NO_INIT)
    else if !IsValidTrim(d1, addr, size) then Reject(d1, ERROR_PARAMETER)
    else
      var blockCount := size / BLOCK_SIZE_HC;
      var block := addr / BLOCK_SIZE_HC;
      ValidRangeWithinSectors(d, addr, size);
      var calls := [Lock, SdioErase(ToU32(block), ToU32(blockCount))];
      var status := o.eraseStatus;
      if status != 0 then Release(d1, ERROR_ERASE_BLOCKS, calls)
      else if cfg.async then
        match Wait(o.readyAfter, cfg.cmdTimeout)
        case Expired(_) => Release(d1, ERROR_ERASE_BLOCKS, calls)
        case Undecided => Waiting(d1, calls)
        case Ready(_) => Release(d1, status, calls)
      else
        Release(d1, status, calls)
  }
}
