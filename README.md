# Image rating dApp: helpers and handler state, in Dafny

This project models the part of the image-rating dApp that can be stated
precisely once the wallet, the relayer SDK, IPFS and the contracts are
abstracted away:

- the hex helpers of the React frontend (`appendHexPrefix`, `bytesToHex`,
  `ensureHexPrefixed`), with the `Number.prototype.toString(16)` and
  `padStart` steps they rely on;
- the IPFS gateway base (`PINATA_GATEWAY`, one trailing `/` dropped) and
  `buildGatewayUrl`;
- the Hardhat configuration's `normalizePrivateKey` (trim, add `0x`, check
  against `/^0x[0-9a-fA-F]{64}$/`) and the sepolia `accounts` list;
- `isMockChain` and the mock/relayer dispatch of
  `initializeFhevmWithMockSupport`;
- the state the `App` component's handlers update, as a class `App.App`:
  - the relayer SDK initialisation flags (`initializeRelayerSdk`, split at its
    first `await` into `BeginSdkInit` and `FinishSdkInit`);
  - the gallery load (ids `0..total-1`, all-or-nothing fetch, cards reversed
    in place so the newest comes first);
  - `handleUserDecrypt`: its guards, the ACL authorize loop
    (`Acl.AuthorizeHandles`), the relayer answer, and the decrypted-stats
    cache (`DecryptCache`).

External effects are parameters:
- whether the SDK script is loaded;
- how `initSDK`/`createInstance` end;
- the image count and records the contract returns;
- whether `signer.getAddress()` returns or throws;
- for each handle, whether the `persistAllowed` query returns or throws (its
  answer is read from the ACL grants), and how its `allow` transaction ends;
- what `userDecrypt` returns.

The ACL contract is a set of (handle, spender) grants. Each handler is one
sequential step. Its guards read the component state as it is when the step
starts.

Modules: `Wrappers` (Option/Result), `JsString`, `NumberText`, `Hex`,
`Gateway`, `HardhatConfig`, `FhevmMock`, `JsError`, `Acl`, `DecryptCache`,
`Gallery`, `App`.

## Model

| member | source | states |
|---|---|---|
| `Hex.AppendHexPrefix` | frontend/src/App.tsx:20 | the result starts with `0x`; an input already starting with `0x` is returned unchanged, any other input follows `0x` unchanged |
| `Hex.AppendHexPrefixIdempotent` | frontend/src/App.tsx:20 | prefixing twice is prefixing once |
| `Hex.ByteToHex` | frontend/src/App.tsx:24 | a byte becomes exactly two lower-case hex digits |
| `Hex.PaddedToStringIsByteToHex` | frontend/src/App.tsx:24 | `b.toString(16).padStart(2, "0")` is the byte's high nibble digit followed by its low nibble digit |
| `Hex.ByteToHexRoundTrip` | frontend/src/App.tsx:24 | reading the two digits in base 16 gives the byte back |
| `Hex.HexDigits` | frontend/src/App.tsx:23-25 | n bytes give 2n characters, all lower-case hex digits |
| `Hex.BytesToHex` | frontend/src/App.tsx:22-25 | the result is `0x` followed by 2n lower-case hex digits, length 2 + 2n |
| `Hex.HexDigitsAt` | frontend/src/App.tsx:23-25 | characters 2i and 2i+1 of the joined digits are the two digits of byte i |
| `Hex.BytesToHexAt` | frontend/src/App.tsx:22-25 | after `0x`, byte i sits at positions 2+2i and 3+2i as its high and low nibble digits |
| `Hex.HexDigitsRoundTrip` | frontend/src/App.tsx:23-25 | decoding the joined digits pair by pair gives the bytes back |
| `Hex.BytesToHexRoundTrip` | frontend/src/App.tsx:22-25 | decoding `bytesToHex(bytes)` after its `0x` gives the bytes back |
| `Hex.BytesToHexInjective` | frontend/src/App.tsx:22-25 | different byte sequences never give the same hex string |
| `Hex.EnsureHexPrefixed` | frontend/src/App.tsx:27-47 | it throws "Missing required encrypted data." exactly for undefined and null. Strings go through `appendHexPrefix`; byte arrays and array buffers go through `bytesToHex`. Objects use their string `handle` when they have one, else their string form; any other value uses its string form. Every result starts with `0x` |
| `Hex.EnsureHexPrefixedStable` | frontend/src/App.tsx:27-47 | feeding a result back in returns it unchanged |
| `Hex.EnsureHexPrefixedBytes` | frontend/src/App.tsx:31-36 | for a `Uint8Array` or an `ArrayBuffer` the result decodes to the original bytes |
| `NumberText.ToRadixString` | frontend/src/App.tsx:24 | `n.toString(radix)` is non-empty, every character is a digit below the radix, and it has no leading zero unless n is 0 |
| `NumberText.DigitChar` | frontend/src/App.tsx:24 | each digit value has a character that reads back as that value |
| `NumberText.DigitCharInjective` | frontend/src/App.tsx:24 | different digit values have different characters |
| `NumberText.ToRadixStringRoundTrip` | frontend/src/App.tsx:24 | reading `n.toString(radix)` back in the same radix gives n |
| `NumberText.ToRadixStringInjective` | frontend/src/App.tsx:337 | different numbers have different strings, so the decimal card ids are distinct |
| `NumberText.PadStart` | frontend/src/App.tsx:24 | `padStart(target, fill)` ends with the input, is `target` long when the input is shorter, and is filled in front with `fill` |
| `JsString.LeadingWhiteSpace` | hardhat.config.ts:15 | the count is the length of the longest all-whitespace prefix: every character before it is whitespace, and the character at it (if any) is not |
| `JsString.TrimStart` | hardhat.config.ts:15 | the result is a suffix of the input, what was removed is all whitespace, and the result does not start with whitespace |
| `JsString.TrimEnd` | hardhat.config.ts:15 | the result is a prefix of the input, what was removed is all whitespace, and the result does not end with whitespace |
| `JsString.Trim` | hardhat.config.ts:15 | the result neither starts nor ends with whitespace |
| `JsString.TrimUnchanged` | hardhat.config.ts:15 | a string with no surrounding whitespace is left as it is |
| `JsString.TrimIdempotent` | hardhat.config.ts:15 | trimming twice is trimming once |
| `JsString.TrimStartAfterWhiteSpace` | hardhat.config.ts:15 | leading whitespace added in front is removed by `trimStart` |
| `JsString.TrimEndBeforeWhiteSpace` | hardhat.config.ts:15 | trailing whitespace added behind is removed by `trimEnd` |
| `JsString.TrimStartBeforeWhiteSpace` | hardhat.config.ts:15 | `trimStart` of a string followed by whitespace keeps that whitespace unless the string is all whitespace |
| `JsString.TrimIgnoresSurroundingWhiteSpace` | hardhat.config.ts:15 | `trim` of a string wrapped in whitespace equals `trim` of the string |
| `Gateway.ResolveGateway` | frontend/src/App.tsx:50-51 | an unset or empty `VITE_PINATA_GATEWAY` gives the Pinata default. Otherwise the base is the configured value, with one trailing `/` removed when it ends in `/`, and unchanged when it does not |
| `Gateway.DropTrailingSlash` | frontend/src/App.tsx:51 | `replace(/\/$/, "")` removes exactly one final `/` when there is one, and otherwise changes nothing |
| `Gateway.BuildGatewayUrl` | frontend/src/App.tsx:52 | the URL is the gateway base, then `/`, then the cid |
| `Gateway.DefaultGatewayUsed` | frontend/src/App.tsx:50-51 | an unset or empty `VITE_PINATA_GATEWAY` falls back to the Pinata default gateway |
| `Gateway.TrailingSlashIgnored` | frontend/src/App.tsx:51-52 | a configured gateway with one trailing `/` builds the same URLs as without it |
| `Gateway.OnlyOneSlashDropped` | frontend/src/App.tsx:51-52 | a gateway ending in `//` keeps one `/`, so its URLs contain `//` before the cid |
| `HardhatConfig.IsPrefixedKey` | hardhat.config.ts:17 | `/^0x[0-9a-fA-F]{64}$/` accepts exactly `0x` followed by a key of 64 hex digits |
| `HardhatConfig.NormalizePrivateKey` | hardhat.config.ts:11-18 | a missing or empty key gives undefined; a defined result is `0x` followed by exactly 64 hex digits (length 66) |
| `HardhatConfig.CheckTrimmedKey` | hardhat.config.ts:16-17 | after the prefix step, only a string matching `/^0x[0-9a-fA-F]{64}$/` is accepted |
| `HardhatConfig.NormalizeAccepts` | hardhat.config.ts:15-17 | a non-empty key is accepted iff, once trimmed, it is 64 hex digits with or without `0x`. The result is then the trimmed key with `0x` added only when missing |
| `HardhatConfig.NormalizeNoDoublePrefix` | hardhat.config.ts:16 | an accepted key is never `0x0x…` |
| `HardhatConfig.NormalizeIgnoresSurroundingWhiteSpace` | hardhat.config.ts:15 | whitespace around a key does not change the outcome |
| `HardhatConfig.NormalizeIdempotent` | hardhat.config.ts:11-18 | normalising an accepted key again returns it unchanged |
| `HardhatConfig.SepoliaAccounts` | hardhat.config.ts:37-41 | the sepolia accounts (from `sepoliaPrivateKey`, line 20) are exactly the normalised key when the key normalises, and empty otherwise; every account is a well-formed prefixed key |
| `FhevmMock.IsMockChain` | frontend/src/utils/fhevmMock.ts:10-20 | a chain is a mock chain exactly when its id is 1337 or 31337 |
| `FhevmMock.MockConfigFor` | frontend/src/utils/fhevmMock.ts:37-45 | the mock configuration carries the requested chain id and gateway chain 55815. Each of its five contract addresses has the shape of an address: `0x` and 40 more characters |
| `FhevmMock.WithNetwork` | frontend/src/utils/fhevmMock.ts:84-85 | `{ ...SepoliaConfig, network }` has `network` set to the provider, keeps every other Sepolia field and adds no other key; an undefined config gives only `network` |
| `FhevmMock.InitializeFhevmWithMockSupport` | frontend/src/utils/fhevmMock.ts:64-91 | the mock path is taken iff the chain is a mock chain, with that chain id and gateway chain 55815. On the real path, it throws "RelayerSDK not loaded…" iff neither SDK global exists; otherwise `window.relayerSDK` is preferred over `window.RelayerSDK` |
| `FhevmMock.RelayerConfigKeepsSepoliaFields` | frontend/src/utils/fhevmMock.ts:84-87 | on the real path the instance config is the chosen SDK's Sepolia config with `network` replaced by the provider and all other fields kept |
| `JsError.StatusText` | frontend/src/App.tsx:309-311 | a thrown `Error` shows its message, anything else the handler's fallback text |
| `Acl.GrantsFor` | frontend/src/App.tsx:417 | the grants made by `allow(handle, spender)` over a list of handles are exactly the (handle, spender) pairs for those handles |
| `Acl.AllowCallsExactly` | frontend/src/App.tsx:412-421 | `allow` is called for a handle iff the handle is listed and was not granted to the rating contract before the loop |
| `Acl.AllowCallsDistinct` | frontend/src/App.tsx:412-421 | `allow` is never called twice for a handle, even if the handle is listed twice |
| `Acl.AllowCallsPrefix` | frontend/src/App.tsx:412-421 | the calls made for the first k handles are the first calls made for all of them |
| `Acl.AllowCallsStep` | frontend/src/App.tsx:412-421 | one turn of the loop: `allow` is called for the next handle iff `persistAllowed` says it is not granted, counting the grants before the loop and those made so far. The calls so far stay a prefix of all the calls |
| `Acl.AuthorizeNext` | frontend/src/App.tsx:412-419 | one turn for `handles[i]`, matching one step of the forward reference `LoopThrow`. A throwing `persistAllowed` query ends the loop with nothing changed. An `allow` is sent only after its query returned; a failed one ends the loop after that call, with no new grant. Otherwise the calls and grants are those of the first i+1 handles, and the only new call is `handles[i]`, confirmed |
| `Acl.AuthorizeHandles` | frontend/src/App.tsx:409-421 | the loop completes iff every `persistAllowed` query returns and every needed `allow` is confirmed, and iff the forward reference `LoopThrow` finds no throw. When it stops, the error is the first one `LoopThrow` finds. On completion it called `allow` exactly for the ungranted handles, in order, and every handle is granted to the rating contract. Every call is for a handle whose query returned and which was not granted before. A throwing query at handle i stops it after every earlier query returned; the calls made are those for the handles before i, all confirmed and granted. A failed `allow` at handle i stops it after every query up to i returned; that was the last call, the calls before it were confirmed, and only they added grants. No grant is made for another spender or handle |
| `DecryptCache.RecordDecrypted` | frontend/src/App.tsx:470-477 | a success sets the image's entry to the clear sum and count and leaves every other entry as it was |
| `DecryptCache.ForgetDecrypted` | frontend/src/App.tsx:485-489 | a failure removes only the image's entry |
| `DecryptCache.FailureErasesSuccess` | frontend/src/App.tsx:470-489 | a failure after a success for the same image leaves no entry for it |
| `DecryptCache.LatestSuccessWins` | frontend/src/App.tsx:470-477 | of two successes for one image the later one is kept |
| `DecryptCache.DifferentImagesCommute` | frontend/src/App.tsx:470-477 | successes for different images can be recorded in either order |
| `DecryptCache.ResolveValue` | frontend/src/App.tsx:455-463 | a clear value is found iff `clearValues` or the result itself has the handle, and `clearValues` wins |
| `DecryptCache.ReadStats` | frontend/src/App.tsx:464-468 | the stats are read iff both handles resolve, and are their values. Otherwise the error is "Decryption result is invalid, please try again." |
| `Gallery.ImageIds` | frontend/src/App.tsx:331 | the ids are `0, 1, …, total-1` in order |
| `Gallery.ImageIdsExactly` | frontend/src/App.tsx:331 | an id is requested iff `0 <= id < total` |
| `Gallery.FetchAll` | frontend/src/App.tsx:332-346 | when `Promise.all` succeeds it yields one record per id |
| `Gallery.FetchAllExactly` | frontend/src/App.tsx:332-346 | `Promise.all` succeeds iff every id's reads succeed, and then yields the records in id order |
| `Gallery.CardFor` | frontend/src/App.tsx:334-344 | the card's id reads back in base 10 as the image id. Its CID, creator, timestamp and handles are the record's, and its URL is the gateway, `/` and the CID |
| `Gallery.Cards` | frontend/src/App.tsx:333-345 | card i is built from record i with id i and the gateway URL of its CID |
| `Gallery.Reversed` | frontend/src/App.tsx:347 | the reversed list is as long as the list |
| `Gallery.ReversedSameElements` | frontend/src/App.tsx:347 | reversing keeps every element as often as it occurs |
| `Gallery.ReversedAt` | frontend/src/App.tsx:347 | element k of the reversed list is element n-1-k of the list |
| `Gallery.ReverseInPlace` | frontend/src/App.tsx:347 | `cards.reverse()` leaves the array holding its old contents reversed |
| `Gallery.NewestFirst` | frontend/src/App.tsx:330-347 | the k-th stored card is image n-1-k with id `(n-1-k).toString()`, so the newest image comes first |
| `Gallery.CardIdsDistinct` | frontend/src/App.tsx:337 | no two stored cards have the same id |
| `App.App.constructor` | frontend/src/App.tsx:72-93 | the initial state: empty status, no cards, empty cache, every flag false, no FHE instance |
| `App.App.BeginSdkInit` | frontend/src/App.tsx:270-287 | a ready SDK returns true untouched. A start already in progress reports "starting, please wait". A missing script reports "not loaded". Otherwise the busy flag is raised |
| `App.App.FinishSdkInit` | frontend/src/App.tsx:287-315 | on success the instance is stored, the SDK is ready and the status says so. On a throw the error message or the fallback is shown. The busy flag is lowered either way |
| `App.App.InitializeRelayerSdk` | frontend/src/App.tsx:270-316 | it returns true iff the SDK was ready, or no start was in progress and the script is loaded and creating the instance succeeds. The busy flag ends as it began, and the SDK is ready exactly when true is returned. The status is untouched for a ready SDK. Otherwise it is "starting, please wait" during a start, "not loaded" without the script, "ready" on success, or the thrown message or fallback |
| `App.App.LoadImages` | frontend/src/App.tsx:324-353 | without a contract nothing changes. When the count and every record are read, the cards are the id-ordered cards reversed; a failed read leaves the cards as they were. The loading flag ends lowered |
| `App.App.HandleUserDecrypt` | frontend/src/App.tsx:378-494 | decryption is attempted iff a wallet is connected, the SDK is or becomes ready, and the ACL address is set. Without a wallet the status asks to connect one. A failed initialisation leaves its status, and a missing ACL address says so. The SDK ends ready iff it was, or a wallet is connected and initialisation succeeds. An attempt succeeds iff the user's address is read, every `persistAllowed` query returns, every needed `allow` is confirmed, and the relayer answers with both values. On success the cache records the stats and "Decryption completed." is shown. On failure the image's entry is removed, and the status is `DecryptFailure`: the error of the first call that throws, in the order `getAddress`, the ACL loop, the relayer, then the invalid-result error. Once the ACL loop completes, both handles are granted to the rating contract, whatever the relayer does. New grants are only of the two handles to the rating contract |
| `App.App.DecryptStats` | frontend/src/App.tsx:404-494 | the `try`/`catch`/`finally` of the handler: the same outcomes, failure status and grants as above, with `isDecrypting` lowered at the end. When `getAddress` throws, no grant is made |
| `App.App.RequestStats` | frontend/src/App.tsx:422-479 | after the ACL loop: it succeeds iff the relayer answers and both values resolve. The stats are then recorded and "Decryption completed." is shown. Otherwise the cache is untouched, and the status is `RelayerFailure`: the relayer's error, or "Decryption result is invalid, please try again." |
| `App.RelayerFailure` | frontend/src/App.tsx:422-489 | after the ACL loop the `catch` block shows nothing exactly when the relayer answers and both values resolve. A relayer throw shows its message or the fallback, and an answer without both values shows "Decryption result is invalid, please try again." |
| `App.App.HandleUserDecryptAsWritten` | frontend/src/App.tsx:378-494 | as written, the handler goes past its guards iff the wallet is connected, the SDK was ready when the handler was created, and the ACL address is set. A call made before the SDK was ready ends with "Background service is not ready yet, cannot decrypt temporarily.", even after a successful initialisation. The other guard statuses, the SDK flag, the outcome of an attempt, its failure status and its grants are as in the intended handler |
| `App.App.InitializeRelayerSdkAgain` | frontend/src/App.tsx:391-393 | the second `initializeRelayerSdk()` of a stale handler reruns the whole initialisation and leaves the SDK ready |
| `App.StaleInstanceBlocksDecrypt` | frontend/src/App.tsx:385-398 | whenever the handler as written proceeds, the intended one does too. They differ exactly on a call made before the SDK was ready whose initialisation then succeeds |
| `App.FirstClickNeverDecrypts` | frontend/src/App.tsx:385-398 | a first click with the script loaded proceeds in the intended handler and not in the handler as written |

## Left out

- React rendering, tab switching, the `useEffect` wiring, `main.tsx` and the
  configuration files: UI plumbing with no state the model needs.
- The Pinata upload (`handleUploadImage`), `handleQuickRating` and
  `encryptRatingViaSDK`: network I/O and FHE encryption by external code.
- Wallet detection (`window.okxwallet`, `window.ethereum`), `BrowserProvider`
  and `Signer`, and `networkHelper.ts`: foreign globals and wallet RPC.
- The key pair, EIP-712 signature and `userDecrypt` call: they are reduced to
  one `RelayerAnswer` (a result or a throw).
- `Acl.AuthorizeHandles`: whether a `persistAllowed` query throws, and how an
  `allow` transaction ends, are functions of the handle. A handle listed twice
  therefore gets the same outcome both times. The user's address is only
  checked for whether `getAddress` throws, since its value goes to the relayer
  call, which is a parameter.
- The relayer configuration `initializeRelayerSdk` passes to `createInstance`
  (`network`, `relayerUrl`): which instance is held is not modelled, only
  whether one is.
- `createMockFhevmInstance` and the real SDK calls in `fhevmMock.ts`: the
  model states which instance is asked for and with which configuration.
- `Number(...)`, the NaN check, the `average` field and `toLocaleString`.
  These are floating point and locale. Clear values are naturals, an unresolved
  value takes the "invalid result" error path, and `createdAt` is kept as
  the raw number.
- `Hex.EnsureHexPrefixed`: `String(value)` of numbers, booleans and objects
  without a string `handle` is a given text, not computed.
- `NumberText.ToRadixString`: models `toString(radix)` of non-negative
  integers only, which is all the source applies it to (bytes and image ids).
- Asynchronous interleaving of handlers: each handler is one step. The
  exception is `initializeRelayerSdk`, split at its first `await` so the busy
  flag's guard can be stated.
- Console logging.

## Findings

| source | as written | input that shows it | evidently intended | confidence | as-written member | corrected member |
|---|---|---|---|---|---|---|
| frontend/src/App.tsx:391-398 | the second guard reads `fheInstance` from the render the handler was created in, so a successful `initializeRelayerSdk()` at line 386 cannot make it truthy | a click on "decrypt" while `sdkReady` is false, with the SDK script loaded and `createInstance` succeeding: the SDK is initialised a second time, the status becomes "Background service is not ready yet, cannot decrypt temporarily." and nothing is decrypted | once initialisation succeeds, go on to decrypt | medium, not executed (it follows from how React closures capture state; the `useEffect` at lines 318-322 usually makes the SDK ready before a click, which hides it) | `App.App.HandleUserDecryptAsWritten`, `App.FirstClickNeverDecrypts` | `App.App.HandleUserDecrypt` (its guards read the current state, where a ready SDK always has an instance, so the second guard never fires and is omitted) |
