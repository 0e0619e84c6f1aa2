# amp-ts core, modelled in Dafny

amp-ts is a wallet for Blockstream's AMP (managed-asset) accounts on the Liquid
network. A single BIP 32 seed or extended private key drives three things:

- it logs in to the Green backend by signing a challenge;
- it registers an AMP subaccount by sending the extended public key at `84/1'/s'`;
- it spends one unconfidential L-BTC output of that subaccount. The spend is a
  PSET (partially signed Elements transaction) with one input and explicit
  outputs. The wallet signs and finalises it alone as a P2SH-wrapped P2WSH
  spend.

This project models that core and proves what it promises. The modules are:

| module | models |
|---|---|
| `Wrappers` | `Option` and `Result`, for the operations that throw |
| `Utils` | `utils.ts`: `concatUint8Arrays`, `uint8ArrayToHex`, `formatBitcoinMessageHash`, `getGaitPathBytes`; and the runtime behaviour they rely on (TextEncoder's UTF-8, `Buffer.from(hex)`, `String.split`, `Buffer.reverse`) |
| `Bip32` | the part of the BIP 32 library that the signer uses: key nodes, `derive`, `derivePath` with its path notation, `neutered` |
| `Signer` | `amp-signer.ts`: `class AmpSigner`, `fromBase58XPriv`, `fromSeed`, the accessors and the delegators |
| `Liquid` | the part of liquidjs-lib that the spend drives: `class Pset` (grown in place), the P2WSH output, `script.fromASM` and `script.compile` |
| `Wallet` | `amp-wallet.ts`: `class AmpWallet`, with `login`, `createAMPSubaccount` and `spendUnconfidentialLbtcOutput` |

Libraries enter the model as datatypes of function-valued fields, passed as
parameters:

- `Crypto` holds SHA-256 and HMAC-SHA512.
- `Bip32Library` holds public and private keys, chain codes, signing and Base58.
- `LiquidLibrary` holds addresses, output scripts, ECPair public keys, the PSET
  signature, the opcode table, the asset id and the transaction hex.

The opcode table (`OPS`) is assumed to map only names that start with "OP_"
(`Liquid.OpcodeTable`). The proof that the scriptSig is a single push relies on
this: a lower-case hex token is then never an opcode name. In JavaScript the
lookup also finds inherited keys such as "toString". None of those is hex text,
so the conclusion is unaffected.

Key nodes are symbolic. A node is identified by the root it was built from,
the child indices taken from that root, and its neutered flag. So `derive`
appends an index. The model does not decide when two different roots hold the
same key. For example, a `tprv` read under testnet and its forced re-tag to
testnet are the same key but different roots.

Where the code does something one might not expect, the model follows the
code:

- **No "message too long" error.** `formatBitcoinMessageHash` defines a
  `varint` helper that would reject messages of 253 bytes or more. The helper is
  never called. The length byte is written into a `Uint8Array`, which keeps it
  modulo 256, so no length error is ever raised (`Utils.MessagePreimage`,
  `Utils.LengthByteWraps`).
- **The login key is non-hardened.** `derive` is called with `0x4741b11e`,
  which is below 2^31. The login key is therefore an ordinary child of the
  signer's node (`Wallet.LoginIndexIsNonHardened`).
- **The spending key is a non-hardened child.** The leading `84` of the
  subaccount path and the last two spending steps are non-hardened.
- **`fromSeed` does not rewrite "mainnet".** It keeps the name as given. Only
  `fromBase58XPriv` rewrites it to "bitcoin".
- **The scriptSig goes through `script.fromASM`.** The finalisation turns the
  P2WSH output into hex text and reads that text back as assembly. `Liquid.FromAsmOfHexIsSinglePush`
  proves that this gives exactly one direct push of the 34 bytes. A lower-case
  hex token is never an opcode name and never holds a space.

The source's default arguments are Dafny default parameter values:
`subaccountId := DEFAULT_SUBACCOUNT_ID` on `CreateAmpSubaccount` and
`SpendUnconfidentialLbtcOutput`, `forceNetworkConversion := false` on
`FromBase58XPriv`, and `lowR := false` on `Sign`. An omitted `lowR` reaches the
library as `undefined`, which it treats as false.

## Model

| member | source | states |
|---|---|---|
| Utils.CharToUtf8 | utils.ts:49 | TextEncoder's bytes for one character are 1 to 4 bytes. There is exactly one byte iff the code point is below 0x80, and that byte is the code point. |
| Utils.Utf8Encode | utils.ts:49 | A message of n characters encodes to between n and 4n bytes. |
| Utils.AsciiUtf8 | utils.ts:50-51 | ASCII text encodes one byte per character, equal to its code. So `prefix.length` is the prefix's byte length (see `Utils.MessageMagicIsEncodedPrefix`). |
| Utils.AsciiBytes | utils.ts:51 | A byte list equal, code for code, to an ASCII text is that text's encoding. |
| Utils.Utf8EncodeAppend | utils.ts:49 | Encoding a concatenation gives the concatenation of the encodings. |
| Utils.Split | amp-wallet.ts:245-246 | `String.split` on one character gives at least one piece. |
| Utils.SplitNoSeparator | amp-wallet.ts:245-246 | Text without the separator splits into itself alone. |
| Utils.SplitAtFirstSeparator | amp-wallet.ts:224 | `a + sep + b`, with no separator in `a`, splits into `a` followed by the pieces of `b`. |
| Utils.Reverse | amp-wallet.ts:33 | `Buffer.reverse` keeps the length, and element i becomes element n-1-i. |
| Utils.FlattenLength | utils.ts:7 | The concatenation's length is the sum of the input lengths, as the `reduce` computes it. |
| Utils.TotalLengthPrefix | utils.ts:9-13 | The offset reached after any prefix of the arrays never exceeds the total length. |
| Utils.FlattenAt | utils.ts:9-14 | Byte j of array k is at offset (sum of the lengths of arrays 0..k-1) + j. |
| Utils.SetBytes | utils.ts:11 | `Uint8Array.set` writes src at the offset and leaves the bytes before and after unchanged. |
| Utils.ConcatUint8Arrays | utils.ts:6-15 | The loop returns a newly allocated array whose length is the total length and whose contents are the arrays in order. |
| Utils.ByteToHexDigits | utils.ts:31 | `toString(16).padStart(2, "0")` is always two lower-case digits, high nibble first. |
| Utils.Uint8ArrayToHex | utils.ts:29-33 | The result has 2n characters. Characters 2i and 2i+1 are the digits of byte i. |
| Utils.HexDecode | amp-wallet.ts:176 | `Buffer.from(s, "hex")` yields at most half as many bytes as characters. |
| Utils.HexDecodePairs | amp-wallet.ts:176 | Byte i of the result is 16 times the value of the hex digit at 2i, plus the value of the digit at 2i+1. Both are hex digits of either case. |
| Utils.HexDecodeStops | amp-wallet.ts:176 | Decoding stops short of half the text length only at a pair that holds a character that is not a hex digit. |
| Utils.HexDigitValue | utils.ts:31 | Decoding a digit that `toString(16)` writes gives its value back. |
| Utils.HexRoundTrip | utils.ts:29-33 | Decoding the hex text of any bytes gives the bytes back. |
| Utils.Uint8ArrayToHexInjective | utils.ts:29-33 | Distinct byte arrays have distinct hex texts. |
| Utils.MessagePreimage | utils.ts:44-53 | The preimage is 26+n bytes: the 25-byte magic, one length byte equal to n mod 256, then the n message bytes. |
| Utils.MessageMagicIsEncodedPrefix | utils.ts:44-51 | The 25 magic bytes are TextEncoder's encoding of `"\x18Bitcoin Signed Message:\n"`. That text has 25 characters, and its first byte, 0x18, counts the 24 bytes after it. |
| Utils.GaitNonceIsEncodedText | constants.ts:1-3 | GAIT_GENERATION_NONCE is the 30-byte encoding of "GreenAddress.it HD wallet path". |
| Utils.LengthByteWraps | utils.ts:45-52 | Messages whose byte lengths differ by 256 get the same length byte. No length error is raised. |
| Utils.AsciiPrefixedPreimage | utils.ts:49-53 | For an ASCII prefix plus text, the preimage has the magic, the length byte of the whole message, one byte per prefix character, then the text's UTF-8 bytes. |
| Utils.FormatBitcoinMessagePreimage | utils.ts:49-53 | The buffer filled in place equals the preimage. |
| Utils.FormatBitcoinMessageHash | utils.ts:43-55 | The hash is SHA-256 applied twice to the preimage (32 bytes). |
| Utils.GetGaitPathBytes | utils.ts:35-41 | The result is HMAC-SHA512 keyed by GAIT_GENERATION_NONCE over the chain code followed by the public key. |
| Bip32.NatToDecimal | amp-wallet.ts:224 | A template literal writes a number as a non-empty string of decimal digits. |
| Bip32.ParseDecimal | amp-wallet.ts:224 | A component is read as a number iff it is one or more decimal digits. On text without a leading zero, the value's decimal text is the text itself. |
| Bip32.DigitsCanonical | amp-wallet.ts:224 | Digits without a leading zero are the decimal text of their value. |
| Bip32.DecimalRoundTrip | amp-wallet.ts:224 | Parsing the decimal text of n gives n. |
| Bip32.ParseIndex | amp-wallet.ts:224 | An accepted path component is a 32-bit index. A component with a `'` suffix gives a hardened index. |
| Bip32.ParseIndexOfDecimal | amp-wallet.ts:224 | The decimal text of d reads as d when d < 2^32 and is rejected otherwise. With a `'` suffix it reads as 2^31 + d when d < 2^31 and is rejected otherwise. |
| Bip32.ParseIndices | amp-wallet.ts:224 | A path is accepted iff every component is. It then yields one index per component, in order, each the component's own index. |
| Bip32.ParsePath | amp-wallet.ts:224 | A path text is accepted iff each of its `/`-separated components is. It then yields one 32-bit index per component. |
| Bip32.Derive | amp-wallet.ts:229-230 | `derive(i)` gives the node one step below, in the same tree: the parent's path followed by i. |
| Bip32.Neutered | amp-wallet.ts:269 | `neutered()` gives the same node (same root, same path), marked public. |
| Bip32.DerivePath | amp-signer.ts:79-81 | `derivePath` succeeds iff the path parses. The result keeps the root and appends the parsed indices. |
| Signer.NormalizeNetwork | amp-signer.ts:21-23 | The result is never "mainnet". It is "bitcoin" iff the name was "mainnet" or "bitcoin". Any other name is kept. |
| Signer.SupportedNetworksAreKnown | amp-signer.ts:25-29 | The accepted names are exactly those `bitcoin.networks` knows, so an accepted name never yields an undefined network object. "mainnet" is accepted only through its rewrite. |
| Signer.KeyPrefixNetwork | amp-signer.ts:32-43 | A key's network is recognised iff its first character is `t` or `x`. `t` names `networks.testnet` and `x` names `networks.bitcoin`. Regtest is never chosen. |
| Signer.Reinterpreted | amp-signer.ts:45-53 | The re-tagged key keeps the source's private key and chain code, carries the target network, and is a root. |
| Signer.AmpSigner.constructor | amp-signer.ts:11-14 | Stores the node and the network name. |
| Signer.AmpSigner.FromBase58XPriv | amp-signer.ts:16-59 | "mainnet" becomes "bitcoin". A name outside regtest/testnet/bitcoin fails with UnrecognizedNetwork before the key is read. A forced conversion with a first character other than t/x fails with UnrecognizedPrivateKeyNetwork. It succeeds iff neither applies. On success it stores the normalised name, and the node is either the t→testnet/x→bitcoin key re-tagged with the target network or the key read under the target network. |
| Signer.AmpSigner.FromSeed | amp-signer.ts:61-65 | The node is the seed's root under `networks[network]`. The name is stored unchanged. |
| Signer.AmpSigner.GetPubkey | amp-signer.ts:67-69 | Returns the stored node's public key. |
| Signer.AmpSigner.GetChainCode | amp-signer.ts:71-73 | Returns the stored node's chain code. |
| Signer.AmpSigner.GetNetwork | amp-signer.ts:75-77 | Returns the stored name. |
| Signer.AmpSigner.DerivePath | amp-signer.ts:79-81 | Succeeds iff the path parses. The result is the stored node extended by the parsed indices. The signer is unchanged. |
| Signer.AmpSigner.Derive | amp-signer.ts:83-85 | The result is the stored node's child at the index, in the same tree. |
| Signer.AmpSigner.Sign | amp-signer.ts:87-89 | The result is the stored node's signature over the hash, with the given lowR. |
| Liquid.Pset.constructor | amp-wallet.ts:194 | A new PSET has no inputs and no outputs. |
| Liquid.Pset.AddInput | amp-wallet.ts:196-199 | Appends one input with the given hash and index and no metadata. Outputs are unchanged. |
| Liquid.Pset.AddOutput | amp-wallet.ts:200-211 | Appends the output after the existing ones. Inputs are unchanged. |
| Liquid.Pset.SignInput | amp-wallet.ts:241 | Appends (public key, signature over the PSET as it stood) to that input's partialSig. Nothing else changes. |
| Liquid.P2wshOutput | amp-wallet.ts:178-185 | The P2WSH output is 34 bytes: `0x00 0x20` followed by the redeem script's SHA-256. |
| Liquid.PushDataPrefix | amp-wallet.ts:246 | A push shorter than 76 bytes is prefixed by its length alone. Longer pushes use OP_PUSHDATA1/2/4. |
| Liquid.CompileChunk | amp-wallet.ts:246 | An opcode compiles to its own byte. A data push takes at least one byte and at least as many bytes as its data. Apart from the one-byte small numbers, which become a single opcode, the push ends with the data itself. |
| Liquid.Compile | amp-wallet.ts:246 | A compiled script has at least one byte per chunk. It is empty iff there are no chunks. |
| Liquid.HexTokenDecodes | amp-wallet.ts:246 | A hex token decodes completely, to half as many bytes as it has characters, byte i from the digit pair at 2i and 2i+1. |
| Liquid.AsmToken | amp-wallet.ts:246 | A data token's push fits the 32-bit push length. |
| Liquid.AsmTokens | amp-wallet.ts:246 | The tokens are accepted iff every token is. Chunk k is token k's chunk, and all chunks are compilable. |
| Liquid.FromAsm | amp-wallet.ts:246 | `fromASM` succeeds iff every space-separated token is an opcode name or a hex token. The script then has at least one byte per token. |
| Liquid.HexDigitIsHexChar | amp-wallet.ts:245 | A digit `toString(16)` writes is a hex digit, not a space and not `O`. |
| Liquid.HexTextDigits | amp-wallet.ts:245 | Every character of lower-case hex text is a hex digit, and none is a space. |
| Liquid.HexTextIsOneDataToken | amp-wallet.ts:245-246 | The hex text of non-empty bytes has no space, is a valid hex token and is no opcode name. |
| Liquid.FromAsmOfHexIsSinglePush | amp-wallet.ts:245-246 | `fromASM` of the hex of 2..75 bytes is exactly one push of those bytes: `[len] ++ bytes`. |
| Wallet.LbtcAssetLayout | amp-wallet.ts:31-34 | The asset field is the byte 0x01 followed by the asset id's bytes, last to first. An id of 2n hex digits gives 1 + n bytes. |
| Wallet.LoginIndexIsNonHardened | amp-wallet.ts:127 | `0x4741b11e` is a 32-bit, non-hardened index. The login key is one `derive` step below the signer's node. |
| Wallet.LoginPreimage | amp-wallet.ts:124-125 | Login hashes the magic, the length byte (27 + challenge bytes) mod 256, the 27 prefix characters, then the challenge's bytes. |
| Wallet.SubaccountPathComponents | amp-wallet.ts:224 | The text `84/1'/${s}'` splits at `/` into "84", "1'" and the decimal text of s followed by `'`. |
| Wallet.SubaccountPathIndices | amp-wallet.ts:224 | `84/1'/${s}'` parses to `[84, 2^31+1, 2^31+s]` iff s < 2^31. Otherwise it is rejected. |
| Wallet.DefaultSubaccountPaths | amp-wallet.ts:36 | With the default subaccount 1, the path is "84/1'/1'". It names [84, 2^31+1, 2^31+1], and the spending key is at [84, 2^31+1, 2^31+1, 1, 1]. |
| Wallet.SpendingKeyBelowSubaccountKey | amp-wallet.ts:224-230 | `derivePath` on the subaccount path reaches the key createAMPSubaccount registers. The spending key is that key's child s and then 1, both non-hardened. |
| Wallet.SpendOutputs | amp-wallet.ts:200-222 | In order: recipient (amount, recipient script), fee (fee, empty script), then change to the wallet's script only when change > 0. All outputs carry the L-BTC asset and an empty nonce. |
| Wallet.SpendOutputsConserveValue | amp-wallet.ts:213-222 | The explicit output values, fee included, sum to exactly the UTXO amount. |
| Wallet.SpendOutputsExample | amp-wallet.ts:213-222 | 100000/10000/500 gives 3 outputs with 89500 of change. |
| Wallet.EmptyPlaceholders | amp-wallet.ts:255-257 | `Array(n).fill("")` has n elements, each the empty string. |
| Wallet.NewDraft | amp-wallet.ts:192-222 | The draft has one input (txid byte-reversed, prevoutIndex, no metadata), and its outputs are SpendOutputs. |
| Wallet.AmpWallet.constructor | amp-wallet.ts:44-52 | Stores the signer and the network name. |
| Wallet.AmpWallet.FromSigner | amp-wallet.ts:54-58 | The wallet takes the signer and the signer's network. |
| Wallet.AmpWallet.Login | amp-wallet.ts:121-131 | Signs, with lowR, the double SHA-256 of the preimage of CHALLENGE_PREFIX + challenge, using the signer's child at 0x4741b11e. |
| Wallet.AmpWallet.CreateAmpSubaccount | amp-wallet.ts:262-273 | Succeeds iff s < 2^31. Sends s and the Base58 text of the neutered key at `[84, 2^31+1, 2^31+s]` below the signer's node. |
| Wallet.AmpWallet.SpendUnconfidentialLbtcOutput | amp-wallet.ts:146-260 | Fails with FeeNotBelowUtxo if fee >= utxo. Then fails with AmountExceedsUtxo(amount, fee, utxo) if amount + fee > utxo. Both failures happen before any draft exists. A subaccount id of 2^31 or more is rejected by the path. It succeeds iff none applies. On success: one input (reversed txid, prevoutIndex); outputs = SpendOutputs; the previous output record holds asset `0x01 ++ reverse(assetHash)`, value utxo, the P2WSH script and nonce `0x00`; the witness script is the redeem script; exactly one partial signature, by the key at `[84, 2^31+1, 2^31+s, s, 1]`, over the unsigned draft; the scriptSig is `[34] ++ P2WSH output`; the witness is `[signature, redeem script]`; one empty blinding nonce per output; the hex is that of the final PSET. |

## Left out

- The remote session (green-client.ts) is not part of this model. This covers `register`, `getChallenge`, `login`'s submission, `createAMPSubaccount`'s and `sendRawTx`'s calls, and the DER re-encoding of the login signature. The model returns what would be sent. The challenge is a parameter of `Login`.
- `fromSignerAndClient`'s `Proxy`, which connects, logs in and disconnects around async calls, is left out. It is lifecycle plumbing. `FromSigner` keeps only the network choice.
- Wallet creation from a seed file, the file and console helpers, and main.ts are left out. They are file I/O and interactive input.
- Cryptography and encodings are parameters, not computed:
  - SHA-256, HMAC-SHA512 and ECDSA signing;
  - BIP 32 derivation, key material and Base58;
  - addresses and `address.toOutputScript`;
  - ECPair public keys;
  - the PSET signature and its sighash;
  - `witnessStackToScriptWitness` serialisation (the witness is kept as its stack of elements);
  - `extractTransaction().toHex()`.
- Explicit values are kept symbolic. `satoshiToConfidentialValue` is modelled as the injective constructor `Explicit(satoshis)`, not as its bytes.
- Errors the libraries raise are not modelled. These are:
  - a malformed Base58 key, or a key whose version does not match the network;
  - a seed of the wrong length;
  - a hardened derivation from a neutered node;
  - an invalid recipient address;
  - an invalid or too-short redeem script in `payments.p2wsh`;
  - a txid that is not 32 bytes;
  - an invalid private key in `ECPair.fromPrivateKey`;
  - a key that `signInput` cannot match to the script;
  - a Base58 extended public key (`xpub…`/`tpub…`). The model treats every key
    given to `FromBase58XPriv` as private and marks its node not neutered.
    With a forced conversion, `fromPrivateKey` throws on the missing private
    key, where the model returns `Success`. Without one, the signer can neither
    sign nor derive hardened children, so `Login` and
    `SpendUnconfidentialLbtcOutput` throw in the source where the model
    succeeds.

  The library errors modelled are these:
  - the rejection of a path component, which makes subaccount ids of 2^31 and above fail;
  - fromASM's rejection of a token that is neither an opcode name nor hex text. The spend never reaches it (`Liquid.FromAsmOfHexIsSinglePush`).
- Bip32.DerivePath: does not model a leading `m/` in the path, which the library accepts on a master node. The paths this code builds never have one.
- Signer.AmpSigner.DerivePath: passes its path to `Bip32.DerivePath`, so a leading `m/` is rejected here too.
- Bip32.Derive: does not model the library's rejection of indices of 2^32 and above. It returns a child for every natural number. The code only derives below 2^31 and at `0x4741b11e`.
- Signer.AmpSigner.Derive: delegates to `Bip32.Derive`, so it also accepts indices of 2^32 and above.
- Amounts and indices are unbounded naturals. JavaScript numbers above 2^53, negative amounts and the exponent notation a template literal uses for very large numbers are not modelled.
- Strings are sequences of Unicode scalar values. Lone UTF-16 surrogates, which TextEncoder replaces by U+FFFD, are not modelled.
- `NetworkByName` returning `None` stands for the `undefined` network object that `bitcoin.networks[name]` gives for an unknown name. The library then uses its default. Which default applies is the library's, and it is not modelled.
