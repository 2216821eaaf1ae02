# VeChain client driver — Dafny model

This project models the core of a Node.js driver for the VeChain Thor
blockchain. It covers two parts.

- **The `Driver` class.** It builds a transaction body from the caller's
  clauses and the known chain state: the genesis id, the current head id, and
  the default `txParams`. It estimates gas from a node's simulation (`explain`)
  of the clauses. It returns a `sign` closure. That closure takes one of two
  signing paths:
  - a VIP-191 fee-delegated (sponsored) path, where the origin's signature is
    followed by the sponsor's;
  - a single-signer fallback path.

  `sign` notifies an optional `onTxCommit` observer, then submits the raw
  transaction. The class also resolves keys from the wallet, answers
  `isAddressOwned`, and signs off-chain identity certificates (`signCert`).
- **`SimpleWallet`.** An in-memory list of private keys. `import` validates
  and appends a key, `remove` splices out a key by address, and the `list`
  getter exposes each key's address and signing capability.

The thor-devkit primitives are opaque total functions, held in
`Devkit.Primitives`: transaction encoding, signing hash, id, intrinsic gas,
certificate encoding, blake2b-256, secp256k1 signing and key-to-address
derivation. The network's answers are parameters of the methods that would
await them. Those answers are the simulation's outputs, the submission's
outcome, and how the observer's call ends. `Driver.trace` records the driver's
effects in order: each simulation request, observer notification and
submission.

Modules, one per concern:
- `Wrappers`: `Option`, `Result` and `Outcome`.
- `Text`: the Node/JavaScript string semantics the source relies on:
  - `Buffer.toString('hex')`;
  - `Buffer.from(s, 'hex')`, which stops at the first pair that is not hex;
  - `String.slice`, `startsWith` and ASCII `toLowerCase`.
- `Arrays`: `findIndex`, `find` and `splice(i, 1)`.
- `Devkit`: the library's data shapes, its `Transaction` object and its
  primitives.
- `Gas`: the `reduce` fold and the estimate rule.
- `Wallet`: `SimpleWallet`.
- `TxDriver`: `Driver`, and `PendingTx`, which is the `sign` closure together
  with its captured state.
- `DriverScenario`: two clients that use only the contracts of the driver and
  the wallet.

Three behaviours of the code differ from what is intended of the system; the
model follows the code:
- Gas is meant never to fall below the intrinsic cost, but a truthy
  `options.gas` is used verbatim, even below the intrinsic gas.
- The commit observer is meant to be a notification that never blocks
  submission, but if it throws, the exception escapes `sign` before `sendTx`
  and nothing is submitted. `PendingTx.Sign` models the code.
- A sponsor answer with neither an error nor a signature takes the sponsored
  path. The origin signature is computed and discarded, then
  `delegation.signature!.slice(2)` throws. The model returns `Err`: no
  signature is assigned and nothing is sent.

## Model

| member | source | states |
|---|---|---|
| Text.ToHex | src/driver.ts:74 | `toString('hex')` writes two lower-case hex digits per byte. |
| Text.FromHex | src/driver.ts:83 | `Buffer.from(s, 'hex')` yields at most one byte per digit pair. |
| Text.ToLower | src/simple-wallet.ts:43 | ASCII `toLowerCase`: keeps the length, lower-cases `A`–`Z` and keeps every other character. |
| Text.ToLowerPair | src/simple-wallet.ts:43 | Lower-casing a string is lower-casing its first two characters followed by lower-casing the rest. |
| Text.DigitChar | src/driver.ts:74 | The digit `toString('hex')` writes for a value below 16 is a lower-case hex digit whose value is that number. |
| Text.DigitValue | src/driver.ts:83 | `Buffer.from(…, 'hex')` reads each hex digit, in either case, as a value below 16. |
| Text.HexPairRoundTrip | src/simple-wallet.ts:31 | Writing the byte that a digit pair decodes to gives back the pair in lower case. |
| Text.SliceFrom | src/simple-wallet.ts:26 | `s.slice(start)` is the characters of `s` from `start` on, or empty when `start` is past the end. |
| Text.SliceTo | src/driver.ts:64 | `s.slice(0, end)` is a prefix of `s` of length `end`, or all of `s` when it is shorter. |
| Text.SliceLast | src/driver.ts:63 | `s.slice(-n)` is the last `n` characters of `s`, or all of `s` when it is shorter. |
| Text.FromHexToHex | src/driver.ts:83 | Decoding a hex text written by `toString('hex')` returns the original bytes. This is how the sponsor signature and the raw transaction are recovered. |
| Text.ToHexFromHex | src/simple-wallet.ts:31 | Re-encoding a decoded even-length hex string gives the string in lower case. |
| Text.FromHexPairs | src/simple-wallet.ts:31 | `Buffer.from(s, 'hex')` on an even-length hex string yields one byte per digit pair, each byte being the value of its pair. |
| Text.FromHexPrefix | src/driver.ts:64 | Decoding the first 2n digits of a hex string gives the first n bytes of the whole decoding. |
| Arrays.FindIndex | src/simple-wallet.ts:43 | `findIndex` returns the first index whose element satisfies the predicate, and none exactly when no element does. |
| Arrays.Find | src/driver.ts:141 | `find` returns an element exactly when one satisfies the predicate, and that element is the first one that does. |
| Arrays.RemoveAt | src/simple-wallet.ts:45 | `splice(i, 1)` removes one element. The others keep their relative order, and the multiset loses exactly that element. |
| Gas.SumGasUsed | src/driver.ts:164 | The `reduce` fold never returns less than its start value. |
| Gas.ExecGas | src/driver.ts:164 | The execution gas is the total `gasUsed` of all outputs, and zero exactly when every clause used none. |
| Gas.GasLimit | src/driver.ts:167 | The estimate is never below the intrinsic or the execution gas, and equals the intrinsic gas exactly when the execution gas is zero. |
| Gas.SumGasUsedIsTotal | src/driver.ts:164 | The `reduce` fold adds exactly the total `gasUsed` of all outputs to its start value. |
| Gas.TotalGasUsedZero | src/driver.ts:164-167 | The execution gas is zero exactly when every clause's `gasUsed` is zero. |
| Gas.EstimateCases | src/driver.ts:164-167 | If no clause used gas, the estimate is exactly the intrinsic gas. Otherwise it is the intrinsic gas plus the total gas used plus 15000. It is never below either of these. |
| Wallet.StripHexPrefix | src/simple-wallet.ts:25-27 | Exactly one leading lower-case `0x` is removed. Any other text is kept as it is. |
| Wallet.AddressString | src/simple-wallet.ts:32 | A derived address is written in lower case as `0x` followed by hex that decodes to exactly the address bytes. |
| Wallet.ImportedEntry | src/simple-wallet.ts:22-35 | Anything other than 64 hex digits (either case) after an optional `0x` is refused with `'invalid private key'`. Every such key is accepted unless the derivation throws, and the entry is the decoded key with the address derived from exactly that key. |
| Wallet.ImportedKeyBytes | src/simple-wallet.ts:28-33 | An accepted key is stored as 32 bytes, which re-encode to the accepted text in lower case. The stored address is lower case. |
| Wallet.ImportPrefixOptional | src/simple-wallet.ts:25-30 | A key gives the same result with or without a `0x` prefix. A doubled `0x0x` prefix is refused. |
| Wallet.RemovalIndex | src/simple-wallet.ts:43 | The entry `remove` picks is the first whose address equals the lower-cased argument. There is none exactly when no address matches. |
| Wallet.RemoveFindsImported | src/simple-wallet.ts:32-46 | After a successful `import`, `remove` finds an entry with the new address under that address written in any letter case, and exactly the new entry when no earlier entry has its address. |
| Wallet.SimpleWallet.constructor | src/simple-wallet.ts:6 | A new wallet holds no keys. |
| Wallet.SimpleWallet.List | src/simple-wallet.ts:8-17 | `list` has one element per stored key, in order, with the same address and a signer bound to the same private key. |
| Wallet.SimpleWallet.Import | src/simple-wallet.ts:24-35 | On success exactly one entry is appended, even for a key already held, and its address is returned. On failure the error is thrown and `keys` is unchanged. |
| Wallet.SimpleWallet.Remove | src/simple-wallet.ts:42-49 | With a match, exactly the first matching entry is spliced out and the result is true. Otherwise the result is false and `keys` is unchanged. |
| TxDriver.ChainTag | src/driver.ts:63 | The chain tag is the byte whose hex is the genesis id's last two characters, lower-cased. |
| TxDriver.BlockRef | src/driver.ts:64 | The block reference is the prefix of the head id of length 18, or the whole id if shorter. |
| TxDriver.ChainTagIsLastByte | src/driver.ts:63 | The chain tag parsed from the last two hex digits is the last byte of the 32-byte genesis id. |
| TxDriver.BlockRefIsHeadPrefix | src/driver.ts:64 | The block reference is `0x` followed by the first 8 bytes of the head id (18 characters). |
| TxDriver.Clauses | src/driver.ts:58 | Each clause keeps `to`, `value` and `data`, in order. Other members are dropped. |
| TxDriver.FindKey | src/driver.ts:138-147 | With no signer (or an empty one), the first key is returned. With a signer, the first key with that exact address is returned. It fails with `'empty wallet'` exactly when there is no wallet, the list is empty, or no address matches. |
| TxDriver.IsAddressOwned | src/driver.ts:134-136 | True exactly when a wallet exists and some listed key has this exact address. |
| TxDriver.OwnedIffResolvable | src/driver.ts:134-147 | For a non-empty address, `isAddressOwned` holds exactly when `findKey` resolves it. |
| TxDriver.TxBodyFor | src/driver.ts:62-71 | The built body never requests delegation, and its nonce is `0x` followed by hex that decodes to the given random bytes. |
| TxDriver.TxBodyFields | src/driver.ts:62-71 | The assembled body's fields are as follows. The chain tag is the last genesis byte, and the block reference the first 8 bytes of the head id. `expiration`, `gasPriceCoef`, clauses and gas are copied. `dependsOn` is kept only when truthy. The nonce is the given 8 bytes, and no delegation is requested. |
| TxDriver.Delegated | src/driver.ts:72 | The delegated body sets `reserved.features = 1` and differs from the built body in nothing else. |
| TxDriver.Raw | src/driver.ts:94 | `raw` is `0x` followed by hex that decodes to exactly the transaction's encoding. |
| TxDriver.SignTx | src/driver.ts:78-93 | Signing fails exactly when the sponsor answered without an error and without a signature. |
| TxDriver.SponsoredSignature | src/driver.ts:78-84 | On the sponsored path with a sponsor text whose part after the first two characters is even-length hex in either case, the delegated body is submitted. Its signature is the origin's signature over the delegated body's signing hash, followed by one byte per sponsor digit pair, re-encoding to those digits in lower case. |
| TxDriver.SponsoredSignatureBytes | src/driver.ts:81-83 | A sponsor signature sent as `0x` and hex contributes exactly its bytes after the origin's signature; with equal-length signatures the result is twice the origin's length. |
| TxDriver.UnsponsoredSignature | src/driver.ts:85-93 | With no delegation, or one carrying an error, the built body without the delegation bit is submitted, signed once by the origin over its own signing hash. |
| TxDriver.ExactlyOnePath | src/driver.ts:78-93 | The submitted body requests delegation exactly when the sponsor answered without an error. |
| TxDriver.SignCert | src/driver.ts:113-133 | It fails with `'empty wallet'` exactly when key resolution fails. The annex is always `localhost`, the head's timestamp and the resolved address. |
| TxDriver.SignCertVerifiable | src/driver.ts:119-132 | The returned hex signature decodes to the key's signature over blake2b-256 of the encoding of the message merged with the returned annex. |
| TxDriver.Driver.constructor | src/driver.ts:35-50 | A new driver has `txParams` at `{expiration: 18, gasPriceCoef: 0}`, no observer, and no effects yet. |
| TxDriver.Driver.EstimateGas | src/driver.ts:153-168 | One simulation request is recorded against the current head. A simulation error propagates unchanged. Otherwise the result is the gas limit from the intrinsic gas and the folded execution gas. |
| TxDriver.Driver.SendTx | src/driver.ts:149-151 | One submission of `raw` is recorded, and the node's answer is returned. |
| TxDriver.Driver.Resend | src/driver.ts:99-101 | `resend` submits the same raw bytes again, with no re-signing. |
| TxDriver.Driver.BuildTx | src/driver.ts:52-75 | Without a key it fails with `'empty wallet'` before any network call. A truthy gas is used verbatim, with no simulation. Otherwise one simulation runs, and its error propagates. `raw` is the unsigned delegated encoding of the assembled body, and `origin` is the key's address. The returned closure captures that body and a fresh, unsigned delegated transaction. |
| TxDriver.PendingTx.constructor | src/driver.ts:76 | The closure's captured delegated transaction is the delegated form of its body. |
| TxDriver.PendingTx.Sign | src/driver.ts:76-109 | The transaction given by `SignTx` is encoded. If an observer is set, it is notified once, first, with that `raw`. Unless the observer throws, the same `raw` is then submitted. The result is `{txid, signer}`, or the observer's, the node's or the missing-signature error. Only the sponsored path writes the shared delegated transaction's signature. |
| DriverScenario.SinglePlainTransfer | src/driver.ts:52-109 | With one key, a genesis id ending in `4a`, one plain transfer and no explicit gas against zero execution gas: the chain tag is 0x4A and the gas is the intrinsic gas. Signing without delegation submits the plain body, signed once by the key, with the raw the observer received. `resend` submits those bytes again. |
| DriverScenario.ImportSameKeyTwice | src/simple-wallet.ts:31-34 | Importing one valid key twice returns the same address twice and appends two equal entries. |
| Devkit.Transaction.constructor | src/driver.ts:72 | A new transaction holds the given body and no signature. |

## Left out

- The network: `Driver.connect`, the `DriverNoVendor` base class (`explain`,
  `httpPost`, the head ticker) and `simple-net.ts`. The answers of `explain`
  and of the submission are method parameters. Genesis and head are given
  values. The head and `txParams` do not change while a build is in flight,
  although the source reads both after awaiting the gas estimate
  (src/driver.ts:59-67), so a change made during the simulation would reach
  that build.
- Cryptography and encoding: thor-devkit's `Transaction` encoding, signing
  hash, id and intrinsic gas, `Certificate.encode`, blake2b-256, secp256k1 and
  `randomBytes` are opaque. The nonce is passed in. `tx.id!` is taken to be
  defined.
- Promises and `console.warn` of the delegation error: the model is
  sequential, and the warning has no effect on the outcome.
- The commit observer's own code: only its identity and how its call ends
  (returns or throws) are modelled. What it later does with `resend` is a
  separate `Driver.Resend` call.
- TxDriver.Driver.BuildTx: block ids are required to be `0x` and 64 hex
  digits, as a node reports them. For other text, `parseInt` would give the
  value of a leading hex prefix of the last two characters, or `NaN`, as the
  chain tag; that is not modelled.
- Text.ToLower: `toLowerCase` is modelled on the ASCII letters only. Other
  capitals, such as `Σ`, are kept as they are, and no character changes the
  length. Stored addresses are `0x` and lower-case hex, so a non-ASCII
  character in the argument of `remove` cannot match either way.
- Wallet.SimpleWallet.Remove: it inherits the ASCII-only lower-casing of
  `Text.ToLower`.
- The `Wallet` interface in general: the driver is modelled with
  `SimpleWallet` as its wallet. A listed key's `sign` closure is represented
  by the private key it closes over.
- Typing: gas values and `gasUsed` are non-negative integers, so the `NaN`
  and negative-number cases of JavaScript's truthiness are not modelled.
