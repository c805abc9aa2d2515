/**
  Mock-mode detection of the FHE instance set-up (frontend/src/utils/fhevmMock.ts):
  local Hardhat chains get a mock instance, every other chain the relayer SDK's
  instance with the Sepolia configuration pointed at the wallet provider.
  Creating the instance is external; the model says which instance is asked for
  and with which configuration, or which error is thrown first.
*/
module FhevmMock {
  import opened Wrappers

  const LocalRpcUrl := "http://127.0.0.1:8545"

  /** `MOCK_CHAINS`: chain id to RPC URL. */
  const MockChains: map<int, string> := map[1337 := LocalRpcUrl, 31337 := LocalRpcUrl]

  /** `isMockChain(chainId)`: is the chain id a key of MOCK_CHAINS. */
  function IsMockChain(chainId: int): (r: bool)
    ensures r <==> chainId == 1337 || chainId == 31337
  {
    chainId in MockChains
  }

  /** The fixed configuration `createMockFhevmInstance` passes to the mock instance. */
  datatype MockConfig = MockConfig(
    aclContractAddress: string,
    chainId: int,
    gatewayChainId: int,
    inputVerifierContractAddress: string,
    kmsContractAddress: string,
    verifyingContractAddressDecryption: string,
    verifyingContractAddressInputVerification: string)

  /** The shape of a 20-byte address as text: `0x` and 40 more characters. */
  predicate IsAddressText(s: string)
  {
    |s| == 42 && s[0] == '0' && s[1] == 'x'
  }

  /** The mock configuration for `chainId`: that chain, gateway chain 55815, and fixed contract addresses. */
  function MockConfigFor(chainId: int): (config: MockConfig)
    ensures config.chainId == chainId && config.gatewayChainId == 55815
    ensures IsAddressText(config.aclContractAddress) && IsAddressText(config.inputVerifierContractAddress)
    ensures IsAddressText(config.kmsContractAddress)
    ensures IsAddressText(config.verifyingContractAddressDecryption)
    ensures IsAddressText(config.verifyingContractAddressInputVerification)
  {
    MockConfig(
      "0x50157CFfD6bBFA2DECe204a89ec419c23ef5755D",
      chainId,
      55815,
      "0x901F8942346f7AB3a01F6D7613119Bca447Bb030",
      "0x1364cBBf2cDF5032C47d8226a6f6FBD2AFCDacAC",
      "0x5ffdaAB0373E62E2ea2944776209aEf29E631A64",
      "0x812b06e1CDCE800494b79fFE4f925A504a9A9810")
  }

  /** A relayer SDK object on `window`; only its `SepoliaConfig` matters here (`V` is the type of config values). */
  datatype RelayerSdk<V> = RelayerSdk(sepoliaConfig: Option<map<string, V>>)

  /** Which of the two globals was used: `window.relayerSDK` or `window.RelayerSDK`. */
  datatype SdkGlobal = LowerCaseRelayerSdk | UpperCaseRelayerSdk

  /** The instance `initializeFhevmWithMockSupport` asks for, or the error it throws before any SDK call. */
  datatype FhevmRequest<V> =
    | MockInstance(mock: MockConfig)
    | RelayerInstance(source: SdkGlobal, config: map<string, V>)
    | SdkNotLoaded(message: string)

  const SdkNotLoadedMessage := "RelayerSDK not loaded. Please include the CDN script."

  /** `{ ...SepoliaConfig, network: provider }`; spreading an undefined config adds nothing. */
  function WithNetwork<V>(sepoliaConfig: Option<map<string, V>>, provider: V): (config: map<string, V>)
    ensures "network" in config && config["network"] == provider
    ensures sepoliaConfig.None? ==> config.Keys == {"network"}
    ensures sepoliaConfig.Some? ==> config.Keys == sepoliaConfig.value.Keys + {"network"}
    ensures sepoliaConfig.Some? ==> forall k :: k in sepoliaConfig.value && k != "network" ==> config[k] == sepoliaConfig.value[k]
  {
    match sepoliaConfig
    case None => map["network" := provider]
    case Some(c) => c["network" := provider]
  }

  /**
    `initializeFhevmWithMockSupport(provider, chainId)`, with `lower` and `upper`
    standing for `window.relayerSDK` and `window.RelayerSDK`.
  */
  function InitializeFhevmWithMockSupport<V>(
    provider: V, chainId: int, lower: Option<RelayerSdk<V>>, upper: Option<RelayerSdk<V>>): (r: FhevmRequest<V>)
    ensures r.MockInstance? <==> IsMockChain(chainId)
    ensures r.MockInstance? ==> r.mock.chainId == chainId && r.mock.gatewayChainId == 55815
    ensures r.SdkNotLoaded? <==> !IsMockChain(chainId) && lower.None? && upper.None?
    ensures r.SdkNotLoaded? ==> r.message == SdkNotLoadedMessage
    ensures r.RelayerInstance? ==> r.source == (if lower.Some? then LowerCaseRelayerSdk else UpperCaseRelayerSdk)
  {
    if IsMockChain(chainId) then MockInstance(MockConfigFor(chainId))
    else match (lower, upper)
      case (Some(sdk), _) => RelayerInstance(LowerCaseRelayerSdk, WithNetwork(sdk.sepoliaConfig, provider))
      case (None, Some(sdk)) => RelayerInstance(UpperCaseRelayerSdk, WithNetwork(sdk.sepoliaConfig, provider))
      case (None, None) => SdkNotLoaded(SdkNotLoadedMessage)
  }

  /**
    On the real path the instance configuration is the chosen SDK's Sepolia
    configuration with `network` set to the provider and every other field kept.
  */
  lemma RelayerConfigKeepsSepoliaFields<V>(
    provider: V, chainId: int, lower: Option<RelayerSdk<V>>, upper: Option<RelayerSdk<V>>)
    requires !IsMockChain(chainId) && (lower.Some? || upper.Some?)
    ensures var r := InitializeFhevmWithMockSupport(provider, chainId, lower, upper);
      var sdk := if lower.Some? then lower.value else upper.value;
      && r.RelayerInstance?
      && r.config["network"] == provider
      && (sdk.sepoliaConfig.Some? ==>
            && r.config.Keys == sdk.sepoliaConfig.value.Keys + {"network"}
            && forall k :: k in sdk.sepoliaConfig.value && k != "network" ==> r.config[k] == sdk.sepoliaConfig.value[k])
  {
  }
}
