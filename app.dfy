/**
  The state the frontend's handlers update (frontend/src/App.tsx), each handler
  taken as one sequential step. Calls into the wallet, the relayer SDK and the
  contracts are parameters: whether the SDK script is loaded, how its
  initialisation ends, the contract's answers, how each `allow` transaction
  ends and what `userDecrypt` returns.
*/
module App {
  import opened Wrappers
  import opened JsError
  import opened Acl
  import opened DecryptCache
  import opened Gallery
  import opened Gateway

  /** How `initSDK` and `createInstance` end. */
  datatype SdkInitOutcome = InstanceCreated | InitThrew(thrown: Thrown)

  /** Where `initializeRelayerSdk` stops before its first `await`. */
  datatype InitStep = AlreadyReady | Busy | NotLoaded | Started

  /** What the steps after the ACL loop (key pair, EIP-712 signature, `userDecrypt`) end with. */
  datatype RelayerAnswer = Answered(result: UserDecryptResult) | RelayerThrew(thrown: Thrown)

  /** How a call of `handleUserDecrypt` ends: an early return, a stored result, or the catch block. */
  datatype DecryptAttempt = NotAttempted | Decrypted(stats: DecryptedStats) | DecryptFailed(message: string)

  const BusyStatus := "Background service is starting, please wait..."
  const NotLoadedStatus := "Encryption service not loaded yet. Please try again later or refresh the page."
  const PreparingSdkStatus := "Preparing background service..."
  const SdkReadyStatus := "Background service is ready."
  const SdkFailedFallback := "Service initialization failed, please try again later."
  const ConnectWalletStatus := "Please connect wallet first."
  const AclMissingStatus := "ACL contract address not configured, cannot decrypt."
  const PreparingDecryptStatus := "Preparing decryption..."
  const RequestingStatus := "Requesting decryption from Relayer..."
  const DecryptedStatus := "Decryption completed."
  const DecryptFailedFallback := "Decryption failed, please check console for details."
  const NotReadyStatus := "Background service is not ready yet, cannot decrypt temporarily."

  /** Whether `initializeRelayerSdk` returns true, from the flags it starts with and what its external calls do. */
  predicate SdkInitSucceeds(sdkReady: bool, isInitializingSdk: bool, sdkLoaded: bool, outcome: SdkInitOutcome)
  {
    sdkReady || (!isInitializingSdk && sdkLoaded && outcome.InstanceCreated?)
  }

  /** The status `initializeRelayerSdk` leaves, from the flags it starts with and what its external calls do. */
  function SdkInitStatus(status: string, sdkReady: bool, isInitializingSdk: bool, sdkLoaded: bool,
                         outcome: SdkInitOutcome): string
  {
    if sdkReady then status
    else if isInitializingSdk then BusyStatus
    else if !sdkLoaded then NotLoadedStatus
    else match outcome
      case InstanceCreated => SdkReadyStatus
      case InitThrew(thrown) => StatusText(thrown, SdkFailedFallback)
  }

  /**
    Whether the `try` block of `handleUserDecrypt` stores a result: the address
    lookup returns, every `persistAllowed` query returns and every `allow` it
    calls for is confirmed, the relayer answers, and both values read as numbers.
  */
  predicate DecryptSucceeds(spender: Address, sumHandle: Handle, countHandle: Handle, grants: set<Grant>,
                            addressLookup: Completion,
                            queryTx: Handle -> Completion, allowTx: Handle -> AllowOutcome, answer: RelayerAnswer)
  {
    && addressLookup.Returned?
    && AuthorizeCompletes([sumHandle, countHandle], grants, spender, queryTx, allowTx)
    && answer.Answered? && ReadStats(answer.result, sumHandle, countHandle).Ok?
  }

  /**
    The status the `catch` block shows after the ACL loop, or None when the
    values are read: the relayer's error, or the invalid-result error.
  */
  function RelayerFailure(sumHandle: Handle, countHandle: Handle, answer: RelayerAnswer): (message: Option<string>)
    ensures message.None? <==> answer.Answered? && ReadStats(answer.result, sumHandle, countHandle).Ok?
    ensures answer.Answered? && message.Some? ==> message.value == InvalidResultMessage
    ensures answer.RelayerThrew? ==> message == Some(StatusText(answer.thrown, DecryptFailedFallback))
  {
    match answer
    case RelayerThrew(thrown) => Some(StatusText(thrown, DecryptFailedFallback))
    case Answered(result) =>
      match ReadStats(result, sumHandle, countHandle)
      case Ok(_) => None
      case Err(message) => Some(message)
  }

  /**
    The status the `catch` block of `handleUserDecrypt` shows, or None when
    nothing throws: the error of the first call in the `try` block that throws,
    in the order `getAddress`, the ACL loop, the relayer steps.
  */
  function DecryptFailure(spender: Address, sumHandle: Handle, countHandle: Handle, grants: set<Grant>,
                          addressLookup: Completion, queryTx: Handle -> Completion,
                          allowTx: Handle -> AllowOutcome, answer: RelayerAnswer): Option<string>
  {
    match addressLookup
    case Threw(thrown) => Some(StatusText(thrown, DecryptFailedFallback))
    case Returned =>
      match LoopThrow([sumHandle, countHandle], 0, grants, spender, queryTx, allowTx)
      case Some(thrown) => Some(StatusText(thrown, DecryptFailedFallback))
      case None => RelayerFailure(sumHandle, countHandle, answer)
  }

  /** Whether `handleUserDecrypt` gets past its guards when each guard reads the state as it is then. */
  predicate DecryptProceeds(walletConnected: bool, sdkReady: bool, isInitializingSdk: bool, sdkLoaded: bool,
                            outcome: SdkInitOutcome, aclAddress: Address)
  {
    walletConnected && aclAddress != "" && SdkInitSucceeds(sdkReady, isInitializingSdk, sdkLoaded, outcome)
  }

  /**
    Whether `handleUserDecrypt` as written gets past its guards: its `fheInstance`
    is the one of the render it was created in, so the SDK must already be ready
    when the handler is called.
  */
  predicate DecryptProceedsAsWritten(walletConnected: bool, sdkReady: bool, aclAddress: Address)
  {
    walletConnected && sdkReady && aclAddress != ""
  }

  /**
    The two differ exactly on a call made while the SDK is not ready yet and whose
    initialisation then succeeds: the handler as written stops there.
  */
  lemma StaleInstanceBlocksDecrypt(walletConnected: bool, sdkReady: bool, isInitializingSdk: bool, sdkLoaded: bool,
                                   outcome: SdkInitOutcome, aclAddress: Address)
    ensures DecryptProceedsAsWritten(walletConnected, sdkReady, aclAddress)
      ==> DecryptProceeds(walletConnected, sdkReady, isInitializingSdk, sdkLoaded, outcome, aclAddress)
    ensures DecryptProceeds(walletConnected, sdkReady, isInitializingSdk, sdkLoaded, outcome, aclAddress)
            && !DecryptProceedsAsWritten(walletConnected, sdkReady, aclAddress)
      <==> walletConnected && aclAddress != "" && !sdkReady && !isInitializingSdk && sdkLoaded && outcome.InstanceCreated?
  {
  }

  /** A first click on "decrypt" for an image, before the SDK was started, with the SDK script loaded. */
  lemma FirstClickNeverDecrypts()
    ensures DecryptProceeds(true, false, false, true, InstanceCreated, "acl")
    ensures !DecryptProceedsAsWritten(true, false, "acl")
  {
  }

  class App {
    /** `IMAGE_RATING_ADDRESS`, the spender the ACL grants are for. */
    const ratingContract: Address
    /** `PINATA_GATEWAY`. */
    const gateway: string

    var status: string
    var sdkReady: bool
    var isInitializingSdk: bool
    /** Whether `fheInstance` holds an instance. */
    var hasFheInstance: bool
    var imageCards: seq<GalleryItem>
    var isLoadingImages: bool
    var decryptedStatsById: StatsCache
    var isDecrypting: bool

    /**
      Between steps, the SDK is ready exactly when there is an instance, and the
      busy flag is down while it is ready. The second initialisation of a stale
      handler (`InitializeRelayerSdkAgain`) raises the flag on a ready SDK, but
      lowers it again within the same step.
    */
    ghost predicate Valid()
      reads this
    {
      (sdkReady <==> hasFheInstance) && !(sdkReady && isInitializingSdk)
    }

    /** The initial `useState` values. */
    constructor (ratingContract: Address, configuredGateway: Option<string>)
      ensures Valid()
      ensures this.ratingContract == ratingContract && gateway == ResolveGateway(configuredGateway)
      ensures status == "" && !sdkReady && !isInitializingSdk && !hasFheInstance
      ensures imageCards == [] && !isLoadingImages && decryptedStatsById == map[] && !isDecrypting
    {
      this.ratingContract := ratingContract;
      gateway := ResolveGateway(configuredGateway);
      status := "";
      sdkReady, isInitializingSdk, hasFheInstance := false, false, false;
      imageCards, isLoadingImages := [], false;
      decryptedStatsById, isDecrypting := map[], false;
    }

    /** `initializeRelayerSdk` up to `await sdk.initSDK()`: the two guards, the script check, and raising the busy flag. */
    method BeginSdkInit(sdkLoaded: bool) returns (step: InitStep)
      requires Valid()
      modifies this`status, this`isInitializingSdk
      ensures Valid()
      ensures step == if old(sdkReady) then AlreadyReady
                      else if old(isInitializingSdk) then Busy
                      else if !sdkLoaded then NotLoaded
                      else Started
      ensures isInitializingSdk == (old(isInitializingSdk) || step == Started)
      ensures status == match step
        case AlreadyReady => old(status)
        case Busy => BusyStatus
        case NotLoaded => NotLoadedStatus
        case Started => PreparingSdkStatus
    {
      if sdkReady {
        return AlreadyReady;
      }
      if isInitializingSdk {
        status := BusyStatus;
        return Busy;
      }
      if !sdkLoaded {
        status := NotLoadedStatus;
        return NotLoaded;
      }
      isInitializingSdk := true;
      status := PreparingSdkStatus;
      step := Started;
    }

    /** `initializeRelayerSdk` from `await sdk.initSDK()` on: store the instance or show the error, then lower the busy flag. */
    method FinishSdkInit(outcome: SdkInitOutcome) returns (ready: bool)
      requires Valid() && isInitializingSdk
      modifies this`status, this`isInitializingSdk, this`sdkReady, this`hasFheInstance
      ensures Valid() && !isInitializingSdk
      ensures ready <==> outcome.InstanceCreated?
      ensures sdkReady == ready
      ensures hasFheInstance == (old(hasFheInstance) || ready)
      ensures status == if ready then SdkReadyStatus else StatusText(outcome.thrown, SdkFailedFallback)
    {
      match outcome {
        case InstanceCreated =>
          hasFheInstance := true;
          sdkReady := true;
          status := SdkReadyStatus;
          ready := true;
        case InitThrew(thrown) =>
          status := StatusText(thrown, SdkFailedFallback);
          ready := false;
      }
      isInitializingSdk := false;
    }

    /** `initializeRelayerSdk()` run to completion. */
    method InitializeRelayerSdk(sdkLoaded: bool, outcome: SdkInitOutcome) returns (ready: bool)
      requires Valid()
      modifies this`status, this`isInitializingSdk, this`sdkReady, this`hasFheInstance
      ensures Valid()
      ensures ready == SdkInitSucceeds(old(sdkReady), old(isInitializingSdk), sdkLoaded, outcome)
      ensures sdkReady == ready && (ready ==> hasFheInstance)
      ensures isInitializingSdk == old(isInitializingSdk)
      ensures status == SdkInitStatus(old(status), old(sdkReady), old(isInitializingSdk), sdkLoaded, outcome)
    {
      var step := BeginSdkInit(sdkLoaded);
      if step == Started {
        ready := FinishSdkInit(outcome);
      } else {
        ready := step == AlreadyReady;
      }
    }

    /**
      `loadImages`: with a contract, read the image count and every image (all or
      nothing, as `Promise.all`), build the cards in id order and store them
      reversed; a failed read leaves the cards as they were.
    */
    method LoadImages(contractPresent: bool, total: Option<nat>, fetch: nat -> Option<ImageRecord>)
      modifies this`imageCards, this`isLoadingImages
      ensures !contractPresent ==> imageCards == old(imageCards) && isLoadingImages == old(isLoadingImages)
      ensures contractPresent ==> !isLoadingImages
      ensures contractPresent && total.Some? && FetchAll(ImageIds(total.value), fetch).Some?
        ==> imageCards == Reversed(Cards(FetchAll(ImageIds(total.value), fetch).value, gateway))
      ensures !(contractPresent && total.Some? && FetchAll(ImageIds(total.value), fetch).Some?)
        ==> imageCards == old(imageCards)
    {
      if !contractPresent {
        return;
      }
      isLoadingImages := true;
      if total.Some? {
        var fetched := FetchAll(ImageIds(total.value), fetch);
        if fetched.Some? {
          var cards := Cards(fetched.value, gateway);
          var shown := new GalleryItem[|cards|](i requires 0 <= i < |cards| => cards[i]);
          assert shown[..] == cards;
          ReverseInPlace(shown);
          imageCards := shown[..];
        }
      }
      isLoadingImages := false;
    }

    /**
      `handleUserDecrypt(imageId, sumHandle, countHandle)`. `grants` is the ACL
      contract's state before the call and `grants'` after it; `aclAddress` is
      `ACL_ADDRESS`, which falls back on `IMAGE_RATING_ADDRESS` and so is
      empty only when neither is set.
    */
    method HandleUserDecrypt(
      imageId: string, sumHandle: Handle, countHandle: Handle,
      walletConnected: bool, sdkLoaded: bool, sdkOutcome: SdkInitOutcome, aclAddress: Address,
      grants: set<Grant>, addressLookup: Completion, queryTx: Handle -> Completion,
      allowTx: Handle -> AllowOutcome, answer: RelayerAnswer)
      returns (attempt: DecryptAttempt, grants': set<Grant>)
      requires Valid()
      modifies this`status, this`isInitializingSdk, this`sdkReady, this`hasFheInstance
      modifies this`decryptedStatsById, this`isDecrypting
      ensures Valid()
      ensures sdkReady == (old(sdkReady)
        || (walletConnected && SdkInitSucceeds(old(sdkReady), old(isInitializingSdk), sdkLoaded, sdkOutcome)))
      ensures isInitializingSdk == old(isInitializingSdk)
      ensures attempt != NotAttempted <==>
        DecryptProceeds(walletConnected, old(sdkReady), old(isInitializingSdk), sdkLoaded, sdkOutcome, aclAddress)
      ensures !walletConnected ==> status == ConnectWalletStatus
      ensures walletConnected && !SdkInitSucceeds(old(sdkReady), old(isInitializingSdk), sdkLoaded, sdkOutcome) ==>
        status == SdkInitStatus(old(status), old(sdkReady), old(isInitializingSdk), sdkLoaded, sdkOutcome)
      ensures walletConnected && SdkInitSucceeds(old(sdkReady), old(isInitializingSdk), sdkLoaded, sdkOutcome)
              && aclAddress == ""
        ==> status == AclMissingStatus
      ensures attempt == NotAttempted ==>
        decryptedStatsById == old(decryptedStatsById) && isDecrypting == old(isDecrypting) && grants' == grants
      ensures attempt != NotAttempted ==> !isDecrypting && grants <= grants'
      ensures forall g :: g in grants' - grants ==>
        g.spender == ratingContract && (g.handle == sumHandle || g.handle == countHandle)
      ensures attempt.Decrypted? <==>
        attempt != NotAttempted && DecryptSucceeds(ratingContract, sumHandle, countHandle, grants, addressLookup, queryTx, allowTx, answer)
      ensures attempt.Decrypted? ==>
        && ReadStats(answer.result, sumHandle, countHandle) == Ok(attempt.stats)
        && decryptedStatsById == RecordDecrypted(old(decryptedStatsById), imageId, attempt.stats.sum, attempt.stats.count)
        && Grant(sumHandle, ratingContract) in grants' && Grant(countHandle, ratingContract) in grants'
        && status == DecryptedStatus
      ensures attempt.DecryptFailed? ==>
        && decryptedStatsById == ForgetDecrypted(old(decryptedStatsById), imageId) && status == attempt.message
        && Some(attempt.message)
             == DecryptFailure(ratingContract, sumHandle, countHandle, grants, addressLookup, queryTx, allowTx, answer)
      ensures attempt != NotAttempted && addressLookup.Returned?
              && AuthorizeCompletes([sumHandle, countHandle], grants, ratingContract, queryTx, allowTx)
        ==> Grant(sumHandle, ratingContract) in grants' && Grant(countHandle, ratingContract) in grants'
    {
      attempt, grants' := NotAttempted, grants;
      if !walletConnected {
        status := ConnectWalletStatus;
        return;
      }
      if !sdkReady {
        var ready := InitializeRelayerSdk(sdkLoaded, sdkOutcome);
        if !ready {
          return;
        }
      }
      if aclAddress == "" {
        status := AclMissingStatus;
        return;
      }
      attempt, grants' := DecryptStats(imageId, sumHandle, countHandle, grants, addressLookup, queryTx, allowTx, answer);
    }

    /**
      `handleUserDecrypt` as written, where its guards read `sdkReady` and
      `fheInstance` as they were when the handler was created (`old` here), and
      `initializeRelayerSdk` is the one of that same render. When the SDK was not
      ready, the first initialisation cannot change the `fheInstance` the second
      guard reads: that guard initialises the SDK once more (ending as
      `secondOutcome` says) and then always stops.
    */
    method HandleUserDecryptAsWritten(
      imageId: string, sumHandle: Handle, countHandle: Handle,
      walletConnected: bool, sdkLoaded: bool, sdkOutcome: SdkInitOutcome, secondOutcome: SdkInitOutcome,
      aclAddress: Address, grants: set<Grant>, addressLookup: Completion, queryTx: Handle -> Completion,
      allowTx: Handle -> AllowOutcome, answer: RelayerAnswer)
      returns (attempt: DecryptAttempt, grants': set<Grant>)
      requires Valid()
      modifies this`status, this`isInitializingSdk, this`sdkReady, this`hasFheInstance
      modifies this`decryptedStatsById, this`isDecrypting
      ensures Valid()
      ensures sdkReady == (old(sdkReady)
        || (walletConnected && SdkInitSucceeds(old(sdkReady), old(isInitializingSdk), sdkLoaded, sdkOutcome)))
      ensures isInitializingSdk == old(isInitializingSdk)
      ensures attempt != NotAttempted <==> DecryptProceedsAsWritten(walletConnected, old(sdkReady), aclAddress)
      ensures attempt == NotAttempted ==>
        decryptedStatsById == old(decryptedStatsById) && isDecrypting == old(isDecrypting) && grants' == grants
      ensures attempt != NotAttempted ==> !isDecrypting && grants <= grants'
      ensures forall g :: g in grants' - grants ==>
        g.spender == ratingContract && (g.handle == sumHandle || g.handle == countHandle)
      ensures !walletConnected ==> status == ConnectWalletStatus
      ensures walletConnected && !SdkInitSucceeds(old(sdkReady), old(isInitializingSdk), sdkLoaded, sdkOutcome) ==>
        status == SdkInitStatus(old(status), old(sdkReady), old(isInitializingSdk), sdkLoaded, sdkOutcome)
      ensures walletConnected && !old(sdkReady)
              && SdkInitSucceeds(old(sdkReady), old(isInitializingSdk), sdkLoaded, sdkOutcome)
        ==> status == NotReadyStatus
      ensures walletConnected && old(sdkReady) && aclAddress == "" ==> status == AclMissingStatus
      ensures attempt.Decrypted? <==>
        attempt != NotAttempted && DecryptSucceeds(ratingContract, sumHandle, countHandle, grants, addressLookup, queryTx, allowTx, answer)
      ensures attempt.Decrypted? ==>
        && ReadStats(answer.result, sumHandle, countHandle) == Ok(attempt.stats)
        && decryptedStatsById == RecordDecrypted(old(decryptedStatsById), imageId, attempt.stats.sum, attempt.stats.count)
        && Grant(sumHandle, ratingContract) in grants' && Grant(countHandle, ratingContract) in grants'
        && status == DecryptedStatus
      ensures attempt.DecryptFailed? ==>
        && decryptedStatsById == ForgetDecrypted(old(decryptedStatsById), imageId) && status == attempt.message
        && Some(attempt.message)
             == DecryptFailure(ratingContract, sumHandle, countHandle, grants, addressLookup, queryTx, allowTx, answer)
      ensures attempt != NotAttempted && addressLookup.Returned?
              && AuthorizeCompletes([sumHandle, countHandle], grants, ratingContract, queryTx, allowTx)
        ==> Grant(sumHandle, ratingContract) in grants' && Grant(countHandle, ratingContract) in grants'
    {
      attempt, grants' := NotAttempted, grants;
      if !walletConnected {
        status := ConnectWalletStatus;
        return;
      }
      var seenReady, seenInstance := sdkReady, hasFheInstance;
      if !seenReady {
        var ready := InitializeRelayerSdk(sdkLoaded, sdkOutcome);
        if !ready {
          return;
        }
      }
      if !seenInstance {
        var ready := InitializeRelayerSdkAgain(sdkLoaded, secondOutcome);
        status := NotReadyStatus;
        return;
      }
      if aclAddress == "" {
        status := AclMissingStatus;
        return;
      }
      attempt, grants' := DecryptStats(imageId, sumHandle, countHandle, grants, addressLookup, queryTx, allowTx, answer);
    }

    /**
      `initializeRelayerSdk` called a second time through a handler created before
      the first call succeeded: it still sees the SDK as neither ready nor being
      initialised, so it runs the whole initialisation again. The instance it
      creates replaces the first one; which instance is held is not modelled.
    */
    method InitializeRelayerSdkAgain(sdkLoaded: bool, outcome: SdkInitOutcome) returns (ready: bool)
      requires Valid() && sdkReady
      modifies this`status, this`isInitializingSdk
      ensures Valid() && sdkReady == old(sdkReady) && !isInitializingSdk
      ensures ready <==> sdkLoaded && outcome.InstanceCreated?
      ensures status == if !sdkLoaded then NotLoadedStatus
                        else if ready then SdkReadyStatus
                        else StatusText(outcome.thrown, SdkFailedFallback)
    {
      if !sdkLoaded {
        status := NotLoadedStatus;
        return false;
      }
      isInitializingSdk := true;
      status := PreparingSdkStatus;
      match outcome {
        case InstanceCreated =>
          status := SdkReadyStatus;
          ready := true;
        case InitThrew(thrown) =>
          status := StatusText(thrown, SdkFailedFallback);
          ready := false;
      }
      isInitializingSdk := false;
    }

    /**
      The `try` block of `handleUserDecrypt` with its `catch` and `finally`:
      look up the user's address, authorize both handles, ask the relayer, then
      store the result or forget the image's entry. The first call that throws
      ends the block and its error becomes the status.
    */
    method DecryptStats(
      imageId: string, sumHandle: Handle, countHandle: Handle, grants: set<Grant>,
      addressLookup: Completion, queryTx: Handle -> Completion, allowTx: Handle -> AllowOutcome, answer: RelayerAnswer)
      returns (attempt: DecryptAttempt, grants': set<Grant>)
      modifies this`status, this`decryptedStatsById, this`isDecrypting
      ensures attempt != NotAttempted && !isDecrypting && grants <= grants'
      ensures forall g :: g in grants' - grants ==>
        g.spender == ratingContract && (g.handle == sumHandle || g.handle == countHandle)
      ensures addressLookup.Threw? ==>
        grants' == grants && attempt == DecryptFailed(StatusText(addressLookup.thrown, DecryptFailedFallback))
      ensures attempt.Decrypted? <==>
        DecryptSucceeds(ratingContract, sumHandle, countHandle, grants, addressLookup, queryTx, allowTx, answer)
      ensures attempt.Decrypted? ==>
        && ReadStats(answer.result, sumHandle, countHandle) == Ok(attempt.stats)
        && decryptedStatsById == RecordDecrypted(old(decryptedStatsById), imageId, attempt.stats.sum, attempt.stats.count)
        && Grant(sumHandle, ratingContract) in grants' && Grant(countHandle, ratingContract) in grants'
        && status == DecryptedStatus
      ensures attempt.DecryptFailed? ==>
        && decryptedStatsById == ForgetDecrypted(old(decryptedStatsById), imageId) && status == attempt.message
        && Some(attempt.message)
             == DecryptFailure(ratingContract, sumHandle, countHandle, grants, addressLookup, queryTx, allowTx, answer)
      ensures attempt != NotAttempted && addressLookup.Returned?
              && AuthorizeCompletes([sumHandle, countHandle], grants, ratingContract, queryTx, allowTx)
        ==> Grant(sumHandle, ratingContract) in grants' && Grant(countHandle, ratingContract) in grants'
    {
      isDecrypting := true;
      status := PreparingDecryptStatus;
      match addressLookup {
        case Threw(thrown) =>
          grants' := grants;
          status := StatusText(thrown, DecryptFailedFallback);
          attempt := DecryptFailed(status);
        case Returned =>
          var calls, end;
          grants', calls, end := AuthorizeHandles(grants, [sumHandle, countHandle], ratingContract, queryTx, allowTx);
          if !end.Completed? {
            status := StatusText(end.thrown, DecryptFailedFallback);
            attempt := DecryptFailed(status);
          } else {
            attempt := RequestStats(imageId, sumHandle, countHandle, answer);
          }
      }
      if attempt.DecryptFailed? {
        decryptedStatsById := ForgetDecrypted(decryptedStatsById, imageId);
      }
      isDecrypting := false;
    }

    /**
      The `try` block after the ACL loop: key pair, EIP-712 signature and
      `userDecrypt` (ending as `answer` says), then reading both values and
      storing them. A throw leaves its message as the status and the cache as it was.
    */
    method RequestStats(imageId: string, sumHandle: Handle, countHandle: Handle, answer: RelayerAnswer)
      returns (attempt: DecryptAttempt)
      modifies this`status, this`decryptedStatsById
      ensures attempt != NotAttempted
      ensures attempt.Decrypted? <==> answer.Answered? && ReadStats(answer.result, sumHandle, countHandle).Ok?
      ensures attempt.Decrypted? ==>
        && ReadStats(answer.result, sumHandle, countHandle) == Ok(attempt.stats)
        && decryptedStatsById == RecordDecrypted(old(decryptedStatsById), imageId, attempt.stats.sum, attempt.stats.count)
        && status == DecryptedStatus
      ensures attempt.DecryptFailed? ==> decryptedStatsById == old(decryptedStatsById) && status == attempt.message
      ensures attempt.DecryptFailed? ==> Some(attempt.message) == RelayerFailure(sumHandle, countHandle, answer)
      ensures answer.RelayerThrew? ==> status == StatusText(answer.thrown, DecryptFailedFallback)
    {
      status := RequestingStatus;
      match answer {
        case RelayerThrew(thrown) =>
          status := StatusText(thrown, DecryptFailedFallback);
          attempt := DecryptFailed(status);
        case Answered(result) =>
          match ReadStats(result, sumHandle, countHandle) {
            case Ok(stats) =>
              decryptedStatsById := RecordDecrypted(decryptedStatsById, imageId, stats.sum, stats.count);
              status := DecryptedStatus;
              attempt := Decrypted(stats);
            case Err(message) =>
              status := message;
              attempt := DecryptFailed(status);
          }
      }
    }
  }
}
