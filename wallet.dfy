/**
 * AmpWallet (amp-wallet.ts): the login challenge signature, the key the AMP
 * subaccount is registered with, and the builder that spends one unconfidential
 * L-BTC output of that subaccount. What the wallet would send to the remote
 * session (the login signature, the subaccount request, the raw transaction
 * and its blinding nonces) is what the model returns; the session itself is
 * not modelled.
 */
module Wallet {
  import opened Wrappers
  import opened Utils
  import opened Bip32
  import opened Signer
  import opened Liquid

  /** The text the remote session's challenge is appended to (constants.ts), six spaces included. */
  const CHALLENGE_PREFIX: string := "greenaddress.it      login "

  /** The child index login signs with. It is below 2^31, so the child is non-hardened. */
  const LOGIN_INDEX: nat := 0x4741_b11e

  /** The subaccount createAMPSubaccount and the spend builder use when the caller names none. */
  const DEFAULT_SUBACCOUNT_ID: nat := 1

  /** The nonce of the previous-output record attached to the input: the single byte 0x00. */
  const PREVOUT_NONCE: Bytes := [0x00]

  /** The asset field of every output: the byte 0x01, then the network's asset id byte-reversed. */
  function LbtcAsset(liquid: LiquidLibrary): Bytes {
    [0x01] + Reverse(HexDecode(liquid.assetHash))
  }

  /**
   * The asset field: the byte 0x01, then the asset id's bytes last to first;
   * a well-formed id of 2n hex digits gives 1 + n bytes.
   */
  lemma LbtcAssetLayout(liquid: LiquidLibrary)
    ensures |LbtcAsset(liquid)| == 1 + |HexDecode(liquid.assetHash)| && LbtcAsset(liquid)[0] == 0x01
    ensures forall i :: 1 <= i < |LbtcAsset(liquid)| ==>
              LbtcAsset(liquid)[i] == HexDecode(liquid.assetHash)[|LbtcAsset(liquid)| - 1 - i]
    ensures IsHexToken(liquid.assetHash) ==> |LbtcAsset(liquid)| == 1 + |liquid.assetHash| / 2
  {
    if IsHexToken(liquid.assetHash) {
      HexTokenDecodes(liquid.assetHash);
    }
  }

  /** The login key is a single non-hardened step below the signer's node. */
  lemma LoginIndexIsNonHardened(node: KeyNode)
    ensures LOGIN_INDEX < INDEX_LIMIT && !IsHardened(LOGIN_INDEX)
    ensures Below(node, [LOGIN_INDEX]) == Derive(node, LOGIN_INDEX)
  {
  }

  /** What login hashes: CHALLENGE_PREFIX is ASCII, so its 27 characters are the message's first 27 bytes. */
  lemma LoginPreimage(challenge: string)
    ensures |CHALLENGE_PREFIX| == 27
    ensures MessagePreimage(CHALLENGE_PREFIX + challenge)[25] == (27 + |Utf8Encode(challenge)|) % 256
    ensures forall i :: 0 <= i < 27 ==>
              MessagePreimage(CHALLENGE_PREFIX + challenge)[26 + i] == CHALLENGE_PREFIX[i] as int
    ensures MessagePreimage(CHALLENGE_PREFIX + challenge)[53..] == Utf8Encode(challenge)
  {
    AsciiPrefixedPreimage(CHALLENGE_PREFIX, challenge);
  }

  // ---------------------------------------------------------------------------
  // Key paths
  // ---------------------------------------------------------------------------

  /** The path text `84/1'/${subaccountId}'` of createAMPSubaccount and the spend builder. */
  function SubaccountPath(subaccountId: nat): string {
    "84/1'/" + NatToDecimal(subaccountId) + "'"
  }

  /** The indices that path names: 84 is not hardened, the other two are. */
  function SubaccountIndices(subaccountId: nat): seq<nat> {
    [84, HARDENED_OFFSET + 1, HARDENED_OFFSET + subaccountId]
  }

  /**
   * The path text parses to the three indices exactly when the subaccount id
   * can be hardened, that is when it is below 2^31; otherwise the library
   * rejects the path.
   */
  lemma {:induction false} SubaccountPathIndices(subaccountId: nat)
    ensures ParsePath(SubaccountPath(subaccountId)) ==
              if subaccountId < HARDENED_OFFSET then Some(SubaccountIndices(subaccountId)) else None
  {
    var components := SubaccountPathComponents(subaccountId);
    assert NatToDecimal(84) == "84" && NatToDecimal(1) == "1";
    ParseIndexOfDecimal(84);
    ParseIndexOfDecimal(1);
    ParseIndexOfDecimal(subaccountId);
    assert ParseIndex(components[0]) == Some(84);
    assert ParseIndex(components[1]) == Some(HARDENED_OFFSET + 1);
    var r := ParsePath(SubaccountPath(subaccountId));
    if subaccountId < HARDENED_OFFSET {
      assert ParseIndex(components[2]) == Some(HARDENED_OFFSET + subaccountId);
      assert EveryIndexParses(components);
      assert |r.value| == 3;
      assert r.value[0] == 84 && r.value[1] == HARDENED_OFFSET + 1 && r.value[2] == HARDENED_OFFSET + subaccountId;
      assert r.value == SubaccountIndices(subaccountId);
    } else {
      assert ParseIndex(components[2]).None?;
    }
  }

  /** The subaccount path text splits into "84", "1'" and the id's digits followed by `'`. */
  lemma {:induction false} SubaccountPathComponents(subaccountId: nat) returns (components: seq<string>)
    ensures components == ["84", "1'", NatToDecimal(subaccountId) + "'"]
    ensures Split(SubaccountPath(subaccountId), '/') == components
  {
    var digits := NatToDecimal(subaccountId);
    var last := digits + "'";
    assert SubaccountPath(subaccountId) == "84" + ['/'] + ("1'" + ['/'] + last);
    SplitAtFirstSeparator("84", '/', "1'" + ['/'] + last);
    SplitAtFirstSeparator("1'", '/', last);
    assert '/' !in last by {
      forall i | 0 <= i < |last|
        ensures last[i] != '/'
      {
        if i < |digits| {
          assert IsDigit(digits[i]);
        }
      }
    }
    SplitNoSeparator(last, '/');
    components := ["84", "1'", last];
  }

  /**
   * With the default subaccount the path is "84/1'/1'", it names
   * [84, 2^31 + 1, 2^31 + 1], and the spending key is at [84, 2^31 + 1, 2^31 + 1, 1, 1].
   */
  lemma DefaultSubaccountPaths()
    ensures SubaccountPath(DEFAULT_SUBACCOUNT_ID) == "84/1'/1'"
    ensures ParsePath("84/1'/1'") == Some([84, HARDENED_OFFSET + 1, HARDENED_OFFSET + 1])
    ensures SpendingIndices(DEFAULT_SUBACCOUNT_ID) == [84, HARDENED_OFFSET + 1, HARDENED_OFFSET + 1, 1, 1]
  {
    assert NatToDecimal(1) == "1";
    SubaccountPathIndices(DEFAULT_SUBACCOUNT_ID);
  }

  /** The spending key's indices: the subaccount's, then the subaccount id again and the address pointer 1. */
  function SpendingIndices(subaccountId: nat): seq<nat> {
    SubaccountIndices(subaccountId) + [subaccountId, 1]
  }

  /** The node a key path leads to from a signer's node. */
  function Below(node: KeyNode, indices: seq<nat>): KeyNode {
    KeyNode(node.root, node.path + indices, node.neutered)
  }

  /**
   * The spending key lies below the key createAMPSubaccount registers: derivePath
   * on the subaccount path reaches that key, the spending key is its child
   * subaccountId and then 1, and those last two steps are non-hardened.
   */
  lemma SpendingKeyBelowSubaccountKey(node: KeyNode, subaccountId: nat)
    requires subaccountId < HARDENED_OFFSET
    ensures DerivePath(node, SubaccountPath(subaccountId)) == Some(Below(node, SubaccountIndices(subaccountId)))
    ensures Below(node, SpendingIndices(subaccountId)) ==
              Derive(Derive(Below(node, SubaccountIndices(subaccountId)), subaccountId), 1)
    ensures !IsHardened(subaccountId) && !IsHardened(1)
  {
    SubaccountPathIndices(subaccountId);
    assert node.path + SpendingIndices(subaccountId) == node.path + SubaccountIndices(subaccountId) + [subaccountId] + [1];
  }

  // ---------------------------------------------------------------------------
  // The outputs of a spend
  // ---------------------------------------------------------------------------

  /** The sum of the explicit amounts of a list of outputs. */
  function ExplicitTotal(outputs: seq<TxOutput>): nat {
    if outputs == [] then 0
    else ExplicitTotal(outputs[..|outputs| - 1]) + outputs[|outputs| - 1].value.satoshis
  }

  /**
   * The outputs of an accepted spend, in order: the recipient, the fee (empty
   * script), and the change back to the wallet's own script only when there is
   * change left. All carry the same asset and an empty nonce.
   */
  function SpendOutputs(asset: Bytes, recipientScript: Bytes, changeScript: Bytes,
                        amountToSend: nat, fee: nat, utxoAmount: nat): (outputs: seq<TxOutput>)
    requires amountToSend + fee <= utxoAmount
    ensures |outputs| == if utxoAmount - (amountToSend + fee) > 0 then 3 else 2
    ensures outputs[0] == TxOutput(asset, Explicit(amountToSend), recipientScript, [])
    ensures outputs[1] == TxOutput(asset, Explicit(fee), [], [])
    ensures |outputs| == 3 ==>
              outputs[2] == TxOutput(asset, Explicit(utxoAmount - (amountToSend + fee)), changeScript, [])
  {
    var recipient := TxOutput(asset, Explicit(amountToSend), recipientScript, []);
    var feeOutput := TxOutput(asset, Explicit(fee), [], []);
    var change := utxoAmount - (amountToSend + fee);
    if change > 0 then [recipient, feeOutput, TxOutput(asset, Explicit(change), changeScript, [])]
    else [recipient, feeOutput]
  }

  /** Value is conserved: the explicit outputs, fee included, add up to the spent output's amount. */
  lemma {:induction false} SpendOutputsConserveValue(asset: Bytes, recipientScript: Bytes, changeScript: Bytes,
                                                    amountToSend: nat, fee: nat, utxoAmount: nat)
    requires amountToSend + fee <= utxoAmount
    ensures ExplicitTotal(SpendOutputs(asset, recipientScript, changeScript, amountToSend, fee, utxoAmount)) == utxoAmount
  {
    var outputs := SpendOutputs(asset, recipientScript, changeScript, amountToSend, fee, utxoAmount);
    assert ExplicitTotal(outputs[..1]) == amountToSend by {
      assert outputs[..1][..0] == [];
    }
    assert ExplicitTotal(outputs[..2]) == amountToSend + fee by {
      assert outputs[..2][..1] == outputs[..1];
    }
    if |outputs| == 3 {
      assert outputs[..2] == outputs[..|outputs| - 1];
    } else {
      assert outputs[..2] == outputs;
    }
  }

  /** Spending 100000 to send 10000 with a 500 fee leaves 89500 of change in a third output. */
  lemma SpendOutputsExample(asset: Bytes, recipientScript: Bytes, changeScript: Bytes)
    ensures |SpendOutputs(asset, recipientScript, changeScript, 10000, 500, 100000)| == 3
    ensures SpendOutputs(asset, recipientScript, changeScript, 10000, 500, 100000)[2].value == Explicit(89500)
    ensures ExplicitTotal(SpendOutputs(asset, recipientScript, changeScript, 10000, 500, 100000)) == 100000
  {
    SpendOutputsConserveValue(asset, recipientScript, changeScript, 10000, 500, 100000);
  }

  // ---------------------------------------------------------------------------
  // The wallet
  // ---------------------------------------------------------------------------

  datatype SpendArgs = SpendArgs(
    hexP2wshScript: string,
    hexTxId: string,
    utxoAmountInSats: nat,
    amountToSendInSats: nat,
    recipientAddress: string,
    feeInSats: nat,
    prevoutIndex: nat)

  datatype WalletError =
    | FeeNotBelowUtxo                                                // the fee must be smaller than the utxo
    | AmountExceedsUtxo(amountToSend: nat, fee: nat, utxoAmount: nat) // amount + fee > utxo
    | InvalidDerivationPath(path: string)                            // the key library rejects the path

  /** What createAMPSubaccount sends: the subaccount id and the neutered key's Base58 text. */
  datatype SubaccountRequest = SubaccountRequest(subaccountId: nat, xpub: string)

  /** What the spend sends (the raw transaction and one blinding nonce per output), with the draft it came from. */
  datatype SpendRequest = SpendRequest(txHex: string, blindingNonces: seq<string>, pset: PsetData)

  /** Array(count).fill(""): one empty blinding-nonce placeholder per output. */
  function EmptyPlaceholders(count: nat): (placeholders: seq<string>)
    ensures |placeholders| == count
    ensures forall i :: 0 <= i < count ==> placeholders[i] == ""
  {
    if count == 0 then [] else EmptyPlaceholders(count - 1) + [""]
  }

  /** The redeem script the caller hands over as hex. */
  function RedeemScript(args: SpendArgs): Bytes {
    HexDecode(args.hexP2wshScript)
  }

  /** The P2WSH output script of the redeem script; the P2SH wrapper's redeem script. */
  function WshOutput(crypto: Crypto, args: SpendArgs): Bytes {
    P2wshOutput(crypto, RedeemScript(args))
  }

  /** The input with the fields signInput and finalisation fill in cleared again. */
  function Unsigned(input: PsetInput): PsetInput {
    input.(partialSig := [], finalScriptSig := None, finalScriptWitness := None)
  }

  /**
   * The draft before any metadata: one input spending the outpoint (txid
   * byte-reversed), then the recipient, fee and, if any is left, change outputs.
   */
  method NewDraft(liquid: LiquidLibrary, args: SpendArgs, changeScript: Bytes) returns (pset: Pset)
    requires args.amountToSendInSats + args.feeInSats <= args.utxoAmountInSats
    ensures fresh(pset)
    ensures pset.inputs == [PsetInput(Reverse(HexDecode(args.hexTxId)), args.prevoutIndex, None, None, [], None, None)]
    ensures pset.outputs == SpendOutputs(LbtcAsset(liquid), liquid.toOutputScript(args.recipientAddress), changeScript,
                                         args.amountToSendInSats, args.feeInSats, args.utxoAmountInSats)
  {
    var txid := HexDecode(args.hexTxId);
    var lbtc := LbtcAsset(liquid);
    pset := new Pset();
    pset.AddInput(Reverse(txid), args.prevoutIndex);
    pset.AddOutput(TxOutput(lbtc, Explicit(args.amountToSendInSats), liquid.toOutputScript(args.recipientAddress), []));
    pset.AddOutput(TxOutput(lbtc, Explicit(args.feeInSats), [], []));
    var change := args.utxoAmountInSats - (args.amountToSendInSats + args.feeInSats);
    if change > 0 {
      pset.AddOutput(TxOutput(lbtc, Explicit(change), changeScript, []));
    }
  }

  class AmpWallet {
    const signer: AmpSigner
    const network: string

    constructor (signer: AmpSigner, network: string)
      ensures this.signer == signer && this.network == network
    {
      this.signer := signer;
      this.network := network;
    }

    /** fromSignerAndClient without its session proxy: the wallet takes the signer's network. */
    static method FromSigner(signer: AmpSigner) returns (wallet: AmpWallet)
      ensures wallet.signer == signer && wallet.network == signer.network
    {
      wallet := new AmpWallet(signer, signer.GetNetwork());
    }

    /**
     * login: signs the Bitcoin signed-message hash of CHALLENGE_PREFIX followed
     * by the session's challenge, low-R, with the signer's non-hardened child
     * at LOGIN_INDEX.
     */
    method Login(crypto: Crypto, bip32: Bip32Library, challenge: string) returns (sig: CompactSignature)
      ensures sig == bip32.sign(Below(signer.node, [LOGIN_INDEX]),
                                crypto.sha256(crypto.sha256(MessagePreimage(CHALLENGE_PREFIX + challenge))), true)
    {
      var message := CHALLENGE_PREFIX + challenge;
      var hash := FormatBitcoinMessageHash(crypto, message);
      var loginBip32Keypair := signer.Derive(LOGIN_INDEX);
      sig := bip32.sign(loginBip32Keypair, hash, true);
    }

    /**
     * createAMPSubaccount: the Base58 text of the neutered key at
     * 84/1'/subaccountId', which exists exactly when subaccountId < 2^31.
     */
    method CreateAmpSubaccount(bip32: Bip32Library, subaccountId: nat := DEFAULT_SUBACCOUNT_ID) returns (r: Result<SubaccountRequest, WalletError>)
      ensures r.Success? <==> subaccountId < HARDENED_OFFSET
      ensures r.Failure? ==> r.error == InvalidDerivationPath(SubaccountPath(subaccountId))
      ensures r.Success? ==>
                r.value == SubaccountRequest(subaccountId,
                             bip32.toBase58(Neutered(Below(signer.node, SubaccountIndices(subaccountId)))))
    {
      var path := SubaccountPath(subaccountId);
      SubaccountPathIndices(subaccountId);
      var firstSubaccountKey := signer.DerivePath(path);
      if firstSubaccountKey.None? {
        return Failure(InvalidDerivationPath(path));
      }
      return Success(SubaccountRequest(subaccountId, bip32.toBase58(Neutered(firstSubaccountKey.value))));
    }

    /**
     * spendUnconfidentialLbtcOutput: rejects a fee that is not below the utxo
     * and an amount plus fee above it, in that order and before any draft
     * exists; otherwise builds a one-input draft spending the given outpoint,
     * attaches the previous output and redeem script, signs input 0 with the
     * key at the spending path, finalises it by hand as a P2SH-wrapped P2WSH
     * spend (BIP 141, "P2WSH nested in BIP16 P2SH") and returns the
     * transaction hex with one empty blinding nonce per output.
     */
    method SpendUnconfidentialLbtcOutput(crypto: Crypto, bip32: Bip32Library, liquid: LiquidLibrary,
                                         args: SpendArgs, subaccountId: nat := DEFAULT_SUBACCOUNT_ID)
      returns (r: Result<SpendRequest, WalletError>)
      ensures args.feeInSats >= args.utxoAmountInSats ==> r == Failure(FeeNotBelowUtxo)
      ensures args.feeInSats < args.utxoAmountInSats &&
              args.amountToSendInSats + args.feeInSats > args.utxoAmountInSats ==>
                r == Failure(AmountExceedsUtxo(args.amountToSendInSats, args.feeInSats, args.utxoAmountInSats))
      ensures args.feeInSats < args.utxoAmountInSats &&
              args.amountToSendInSats + args.feeInSats <= args.utxoAmountInSats &&
              subaccountId >= HARDENED_OFFSET ==>
                r == Failure(InvalidDerivationPath(SubaccountPath(subaccountId)))
      ensures r.Success? <==>
                args.feeInSats < args.utxoAmountInSats &&
                args.amountToSendInSats + args.feeInSats <= args.utxoAmountInSats &&
                subaccountId < HARDENED_OFFSET
      // one input: the outpoint, its txid byte-reversed
      ensures r.Success? ==>
                |r.value.pset.inputs| == 1 &&
                r.value.pset.inputs[0].hash == Reverse(HexDecode(args.hexTxId)) &&
                r.value.pset.inputs[0].index == args.prevoutIndex
      // recipient, fee, then change to the wallet's own P2SH script if any is left
      ensures r.Success? ==>
                r.value.pset.outputs ==
                  SpendOutputs(LbtcAsset(liquid),
                               liquid.toOutputScript(args.recipientAddress),
                               liquid.toOutputScript(liquid.p2shAddress(WshOutput(crypto, args))),
                               args.amountToSendInSats, args.feeInSats, args.utxoAmountInSats)
      // the previous output and the redeem script attached to input 0
      ensures r.Success? ==>
                r.value.pset.inputs[0].witnessUtxo ==
                  Some(TxOutput(LbtcAsset(liquid), Explicit(args.utxoAmountInSats),
                                liquid.toOutputScript(liquid.p2wshAddress(RedeemScript(args))), PREVOUT_NONCE)) &&
                r.value.pset.inputs[0].witnessScript == Some(RedeemScript(args))
      // one signature, by the key at the spending path, over the draft before finalisation
      ensures r.Success? ==>
                |r.value.pset.inputs[0].partialSig| == 1 &&
                r.value.pset.inputs[0].partialSig[0] ==
                  PartialSig(liquid.ecPairPublicKey(PrivateKey(bip32, Below(signer.node, SpendingIndices(subaccountId)))),
                             liquid.signatureFor(PsetData([Unsigned(r.value.pset.inputs[0])], r.value.pset.outputs), 0,
                                                 PrivateKey(bip32, Below(signer.node, SpendingIndices(subaccountId)))))
      // finalisation: a single push of the P2WSH output, and the witness [signature, redeem script]
      ensures r.Success? ==>
                r.value.pset.inputs[0].finalScriptSig == Some([34] + WshOutput(crypto, args)) &&
                r.value.pset.inputs[0].finalScriptWitness ==
                  Some([r.value.pset.inputs[0].partialSig[0].signature, RedeemScript(args)])
      ensures r.Success? ==>
                |r.value.blindingNonces| == |r.value.pset.outputs| &&
                forall i :: 0 <= i < |r.value.blindingNonces| ==> r.value.blindingNonces[i] == ""
      ensures r.Success? ==> r.value.txHex == liquid.toHex(r.value.pset)
    {
      if args.feeInSats >= args.utxoAmountInSats {
        return Failure(FeeNotBelowUtxo);
      }
      if args.amountToSendInSats + args.feeInSats > args.utxoAmountInSats {
        return Failure(AmountExceedsUtxo(args.amountToSendInSats, args.feeInSats, args.utxoAmountInSats));
      }

      var p2wshScript := HexDecode(args.hexP2wshScript);
      var wshOutput := P2wshOutput(crypto, p2wshScript);
      var p2wshAddress := liquid.p2wshAddress(p2wshScript);
      var p2wshRedeem := p2wshScript;
      var p2shAddress := liquid.p2shAddress(wshOutput);
      var p2shRedeem := wshOutput;

      var pset := NewDraft(liquid, args, liquid.toOutputScript(p2shAddress));
      var lbtc := LbtcAsset(liquid);

      var subaccountPath := SubaccountPath(subaccountId);
      SubaccountPathIndices(subaccountId);
      var account := signer.DerivePath(subaccountPath);
      if account.None? {
        return Failure(InvalidDerivationPath(subaccountPath));
      }
      var p := Derive(Derive(account.value, subaccountId), 1);
      assert p == Below(signer.node, SpendingIndices(subaccountId));

      var hash := Reverse(HexDecode(args.hexTxId));
      var prevout := TxOutput(lbtc, Explicit(args.utxoAmountInSats), liquid.toOutputScript(p2wshAddress), PREVOUT_NONCE);
      pset.inputs := pset.inputs[0 := pset.inputs[0].(witnessUtxo := Some(prevout))];
      pset.inputs := pset.inputs[0 := pset.inputs[0].(witnessScript := Some(p2wshRedeem))];
      ghost var unsigned := PsetInput(hash, args.prevoutIndex, Some(prevout), Some(p2wshRedeem), [], None, None);
      assert |pset.inputs| == 1 && pset.inputs[0] == unsigned;

      var privateKey := PrivateKey(bip32, p);
      ghost var draft := pset.Data();
      assert draft.inputs == [unsigned];
      pset.SignInput(liquid, 0, privateKey);
      ghost var entry := PartialSig(liquid.ecPairPublicKey(privateKey), liquid.signatureFor(draft, 0, privateKey));
      assert |pset.inputs| == 1 && pset.inputs[0] == unsigned.(partialSig := [entry]);

      // finalise input 0
      var signature := pset.inputs[0].partialSig[0].signature;
      // Buffer.toString("hex") writes the same two lower-case digits per byte as uint8ArrayToHex
      var serializedP2shScript := Uint8ArrayToHex(p2shRedeem);
      FromAsmOfHexIsSinglePush(liquid.opcodes, p2shRedeem);
      pset.inputs := pset.inputs[0 := pset.inputs[0].(finalScriptSig := FromAsm(liquid.opcodes, serializedP2shScript))];
      pset.inputs := pset.inputs[0 := pset.inputs[0].(finalScriptWitness := Some([signature, p2wshRedeem]))];
      assert |pset.inputs| == 1;
      assert pset.inputs[0] == unsigned.(partialSig := [entry], finalScriptSig := Some([34] + wshOutput),
                                         finalScriptWitness := Some([entry.signature, p2wshRedeem]));
      assert Unsigned(pset.inputs[0]) == unsigned;
      assert draft == PsetData([Unsigned(pset.inputs[0])], pset.outputs);

      var txHex := liquid.toHex(pset.Data());
      var blindingNonces := EmptyPlaceholders(|pset.outputs|);
      return Success(SpendRequest(txHex, blindingNonces, pset.Data()));
    }
  }
}
