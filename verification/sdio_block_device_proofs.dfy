/** Properties of the adapter that span several public calls: reference counting across
    repeated init/deinit, retrying a failed init, geometry after init, and the 64-bit
    wrap-around of `addr + size` on `uint64_t` in `_is_valid_trim`. */
module SdioBlockDeviceProofs {
  import opened Uint
  import opened SdioApi
  import opened Polling
  import opened SdioBlockDevice

  /** The state after a series of calls, and every call they made, in order. */
  datatype Session = Session(dev: Device, calls: seq<Call>)

  /** `init` called once per oracle record, in order. */
  function InitTimes(cfg: Config, d: Device, os: seq<InitOracle>): (s: Session)
    requires Valid(d)
    ensures Valid(s.dev)
    decreases |os|
  {
    if |os| == 0 then Session(d, [])
    else
      var r := Init(cfg, d, os[0]);
      var rest := InitTimes(cfg, r.dev, os[1..]);
      Session(rest.dev, r.calls + rest.calls)
  }

  /** `deinit` called once per driver status, in order. */
  function DeinitTimes(cfg: Config, d: Device, statuses: seq<int>): (s: Session)
    requires Valid(d)
    ensures Valid(s.dev)
    decreases |statuses|
  {
    if |statuses| == 0 then Session(d, [])
    else
      var r := Deinit(cfg, d, statuses[0]);
      var rest := DeinitTimes(cfg, r.dev, statuses[1..]);
      Session(rest.dev, r.calls + rest.calls)
  }

  /** On an initialised device, further inits only count references: no hardware call. */
  lemma {:induction false} InitTimesWhileInitialized(cfg: Config, d: Device, os: seq<InitOracle>)
    requires Valid(d) && d.initialized
    ensures InitTimes(cfg, d, os).dev == d.(initRefCount := d.initRefCount + |os|)
    ensures SdioInit !in InitTimes(cfg, d, os).calls
    ensures SdioDeinit !in InitTimes(cfg, d, os).calls
    decreases |os|
  {
    if |os| > 0 {
      var r := Init(cfg, d, os[0]);
      InitTimesWhileInitialized(cfg, r.dev, os[1..]);
    }
  }

  /** As many deinits as there are references tear the hardware down exactly once, on the last. */
  lemma {:induction false} DeinitTimesToZero(cfg: Config, d: Device, statuses: seq<int>)
    requires Valid(d) && d.initialized && d.initRefCount == |statuses|
    ensures var s := DeinitTimes(cfg, d, statuses);
      && !s.dev.initialized && s.dev.initRefCount == 0 && s.dev.sectors == 0
      && multiset(s.calls)[SdioDeinit] == 1 && SdioInit !in s.calls
    decreases |statuses|
  {
    var r := Deinit(cfg, d, statuses[0]);
    var rest := DeinitTimes(cfg, r.dev, statuses[1..]);
    assert DeinitTimes(cfg, d, statuses) == Session(rest.dev, r.calls + rest.calls);
    if |statuses| > 1 {
      assert r.calls == [Lock, Unlock];
      DeinitTimesToZero(cfg, r.dev, statuses[1..]);
    } else {
      assert r.calls == [Lock, SdioDeinit, Unlock];
      assert rest == Session(r.dev, []);
    }
  }

  /** N inits followed by N deinits, the first init succeeding, make exactly one hardware
      init and one hardware deinit, and leave the device uninitialised with no references
      and no sectors, whatever the later calls' oracles would have answered. */
  lemma {:induction false} BalancedInitDeinit(cfg: Config, d: Device, os: seq<InitOracle>, statuses: seq<int>)
    requires Valid(d) && !d.initialized
    requires 1 <= |os| == |statuses|
    requires IsPresent(d, os[0].pinLevel) && os[0].initStatus == cfg.bdOk
    ensures var i := InitTimes(cfg, d, os);
      var e := DeinitTimes(cfg, i.dev, statuses);
      && multiset(i.calls + e.calls)[SdioInit] == 1
      && multiset(i.calls + e.calls)[SdioDeinit] == 1
      && !e.dev.initialized && e.dev.initRefCount == 0 && e.dev.sectors == 0
  {
    var first := Init(cfg, d, os[0]);
    InitTimesWhileInitialized(cfg, first.dev, os[1..]);
    var i := InitTimes(cfg, d, os);
    assert i.calls == first.calls + InitTimes(cfg, first.dev, os[1..]).calls;
    assert multiset(first.calls)[SdioInit] == 1;
    assert multiset(first.calls)[SdioDeinit] == 0;
    DeinitTimesToZero(cfg, i.dev, statuses);
  }

  /** The init attempt fails: no card, or `sdio_init` fails. */
  predicate InitFails(cfg: Config, d: Device, o: InitOracle) {
    !IsPresent(d, o.pinLevel) || o.initStatus != cfg.bdOk
  }

  /** Failed inits leave the device uninitialised with one stale reference, so any
      number of them in a row still lets the next init reach the hardware. */
  lemma {:induction false} FailedInitsStayRetryable(cfg: Config, d: Device, fails: seq<InitOracle>)
    requires Valid(d) && !d.initialized
    requires forall k | 0 <= k < |fails| :: InitFails(cfg, d, fails[k])
    ensures var s := InitTimes(cfg, d, fails);
      && !s.dev.initialized && (|fails| > 0 ==> s.dev.initRefCount == 1)
      && s.dev.cardDetectConnected == d.cardDetectConnected
    decreases |fails|
  {
    if |fails| > 0 {
      var r := Init(cfg, d, fails[0]);
      assert r.dev.cardDetectConnected == d.cardDetectConnected;
      assert forall k | 0 <= k < |fails[1..]| :: InitFails(cfg, r.dev, fails[1..][k]) by {
        forall k | 0 <= k < |fails[1..]|
          ensures InitFails(cfg, r.dev, fails[1..][k])
        {
          assert fails[1..][k] == fails[k + 1];
        }
      }
      FailedInitsStayRetryable(cfg, r.dev, fails[1..]);
    }
  }

  /** After any run of failed inits, an init with a card present calls `sdio_init` again, and
      if that succeeds the device holds exactly one reference. */
  lemma FailedInitIsRetried(cfg: Config, d: Device, fails: seq<InitOracle>, next: InitOracle)
    requires Valid(d) && !d.initialized
    requires forall k | 0 <= k < |fails| :: InitFails(cfg, d, fails[k])
    requires IsPresent(d, next.pinLevel)
    ensures var r := Init(cfg, InitTimes(cfg, d, fails).dev, next);
      && SdioInit in r.calls
      && (next.initStatus == cfg.bdOk ==> r.dev.initialized && r.dev.initRefCount == 1)
  {
  }

  /** `size()` is 0 before init, and 512 times the card's logical block count after a
      successful one, including when the card reports an unsupported block size. */
  lemma SizeFollowsInit(cfg: Config, d: Device, o: InitOracle)
    requires Valid(d) && !d.initialized
    requires IsPresent(d, o.pinLevel) && o.initStatus == cfg.bdOk
    ensures Size(d) == 0
    ensures Size(Init(cfg, d, o).dev) == BLOCK_SIZE_HC * o.info.logBlockCount
    ensures GetReadSize() == GetProgramSize() == BLOCK_SIZE_HC
  {
  }

  /** A card of one million 512-byte blocks gives a 512 000 000-byte device. */
  lemma MillionBlockCard(cfg: Config, d: Device, o: InitOracle)
    requires Valid(d) && !d.initialized
    requires IsPresent(d, o.pinLevel) && o.initStatus == cfg.bdOk
    requires o.info.logBlockCount == 1000000 && o.info.blockSize == 512
    ensures Init(cfg, d, o).status == cfg.bdOk
    ensures Size(Init(cfg, d, o).dev) == 512000000
  {
  }

  /** Before any successful init, every transfer and trim fails without a driver call. */
  lemma NothingBeforeInit(cfg: Config, d: Device, dir: Direction, t: TransferOracle, e: EraseOracle,
                          addr: u64, size: u64)
    requires Valid(d) && !d.initialized
    ensures var r := Transfer(cfg, d, dir, t, addr, size);
      r.Returned? && r.calls == [Lock, Unlock]
      && (r.status == ERROR_NO_DEVICE || r.status == ERROR_NO_INIT)
    ensures var r := Trim(cfg, d, e, addr, size);
      r.Returned? && r.calls == [Lock, Unlock]
      && (r.status == ERROR_NO_DEVICE || r.status == ERROR_NO_INIT)
  {
  }

  // ----- the bounds check as written -----

  /** The check as written accepts a request whose end wraps past 2^64: on an initialised
      8-sector card, a one-block request at the last 512-byte-aligned 64-bit address has a
      wrapped end of 0, passes, and sends the driver block index 2^32 - 1 (after truncation
      to `uint32_t`), far beyond the card; the exact check rejects it. */
  lemma WrappedRequestPassesAsWrittenCheck()
    ensures var d := Device(false, true, 1, 8, NoCardInfo.(logBlockCount := 8), false);
      var addr: u64 := U64_LIMIT - BLOCK_SIZE_HC;
      var size: u64 := BLOCK_SIZE_HC;
      && Valid(d)
      && AlignedInBoundsAsWritten(BLOCK_SIZE_HC, addr, size, Size(d))
      && !AlignedInBounds(BLOCK_SIZE_HC, addr, size, Size(d))
      && addr / BLOCK_SIZE_HC > d.sectors
      && ToU32(addr / BLOCK_SIZE_HC) == U32_LIMIT - 1
  {
  }

  /** The same request at the level of `trim`: the check as written accepts it and would
      hand `sdio_erase` block 2^32 - 1 and count 1 on an 8-sector card, while the model's
      `trim`, which uses the exact check, rejects it with PARAMETER and no driver call. */
  lemma WrappedTrimIsRejected(cfg: Config, o: EraseOracle)
    ensures var d := Device(false, true, 1, 8, NoCardInfo.(logBlockCount := 8), false);
      var addr: u64 := U64_LIMIT - BLOCK_SIZE_HC;
      var size: u64 := BLOCK_SIZE_HC;
      && AlignedInBoundsAsWritten(BLOCK_SIZE_HC, addr, size, Size(d))
      && SdioErase(ToU32(addr / BLOCK_SIZE_HC), ToU32(size / BLOCK_SIZE_HC)) == SdioErase(U32_LIMIT - 1, 1)
      && Trim(cfg, d, o, addr, size) == Returned(d, ERROR_PARAMETER, [Lock, Unlock])
  {
  }

  /** Wherever `addr + size` does not overflow, the check as written and the exact check agree. */
  lemma ChecksAgreeWithoutOverflow(unit: nat, addr: u64, size: u64, total: nat)
    requires unit > 0 && addr + size < U64_LIMIT
    ensures AlignedInBoundsAsWritten(unit, addr, size, total) <==> AlignedInBounds(unit, addr, size, total)
  {
  }
}
