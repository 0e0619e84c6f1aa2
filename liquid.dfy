/**
 * The slice of liquidjs-lib the spend builder drives: the partially signed
 * transaction (PSET) it grows in place, the witness-program output of
 * payments.p2wsh, and the ASM-to-script compiler it uses for the scriptSig.
 * Addresses, output scripts of addresses, signatures, the explicit-value
 * encoding and transaction serialisation stay the library's and are
 * parameters here.
 */
module Liquid {
  import opened Wrappers
  import opened Utils

  /** confidential.satoshiToConfidentialValue: an explicit (unblinded) amount. */
  datatype ConfidentialValue = Explicit(satoshis: nat)

  /** A transaction output as a PSET stores it (also the shape of a witnessUtxo). */
  datatype TxOutput = TxOutput(asset: Bytes, value: ConfidentialValue, script: Bytes, nonce: Bytes)

  datatype PartialSig = PartialSig(pubkey: Bytes, signature: Bytes)

  /** The per-input fields of a PSET that the spend builder reads or writes. */
  datatype PsetInput = PsetInput(
    hash: Bytes,
    index: nat,
    witnessUtxo: Option<TxOutput>,
    witnessScript: Option<Bytes>,
    partialSig: seq<PartialSig>,
    finalScriptSig: Option<Bytes>,
    finalScriptWitness: Option<seq<Bytes>>)   // the witness stack; its serialisation is the library's

  datatype PsetData = PsetData(inputs: seq<PsetInput>, outputs: seq<TxOutput>)

  /** An opcode table names only opcodes, and every opcode name starts with "OP_". */
  predicate IsOpcodeName(name: string) {
    |name| >= 3 && name[..3] == "OP_"
  }

  function NoOpcodes(name: string): Option<Byte> {
    None
  }

  type OpcodeTable = ops: string -> Option<Byte> | forall name :: ops(name).Some? ==> IsOpcodeName(name)
    witness NoOpcodes

  /** The library's computations that the model does not perform. */
  datatype LiquidLibrary = LiquidLibrary(
    assetHash: string,                        // NETWORK.assetHash, hex
    p2wshAddress: Bytes -> string,            // payments.p2wsh({redeem}).address, by redeem script
    p2shAddress: Bytes -> string,             // payments.p2sh({redeem}).address, by redeem output
    toOutputScript: string -> Bytes,          // address.toOutputScript
    ecPairPublicKey: Bytes -> Bytes,          // ECPair.fromPrivateKey(k).publicKey
    signatureFor: (PsetData, nat, Bytes) -> Bytes, // the signature signInput records for an input
    opcodes: OpcodeTable,                     // OPS
    toHex: PsetData -> string)                // extractTransaction().toHex()

  // ---------------------------------------------------------------------------
  // The PSET under construction
  // ---------------------------------------------------------------------------

  class Pset {
    var inputs: seq<PsetInput>
    var outputs: seq<TxOutput>

    constructor ()
      ensures inputs == [] && outputs == []
    {
      inputs := [];
      outputs := [];
    }

    function Data(): PsetData
      reads this
    {
      PsetData(inputs, outputs)
    }

    /** addInput({hash, index}): a new input with no metadata yet. */
    method AddInput(hash: Bytes, index: nat)
      modifies this
      ensures inputs == old(inputs) + [PsetInput(hash, index, None, None, [], None, None)]
      ensures outputs == old(outputs)
    {
      inputs := inputs + [PsetInput(hash, index, None, None, [], None, None)];
    }

    /** addOutput: appended after the existing outputs. */
    method AddOutput(output: TxOutput)
      modifies this
      ensures outputs == old(outputs) + [output]
      ensures inputs == old(inputs)
    {
      outputs := outputs + [output];
    }

    /**
     * signInput(index, keyPair): appends the key's public key and its signature
     * over the PSET as it stands to the input's partialSig list.
     */
    method SignInput(liquid: LiquidLibrary, inputIndex: nat, privateKey: Bytes)
      requires inputIndex < |inputs|
      modifies this
      ensures outputs == old(outputs)
      ensures inputs == old(inputs)[inputIndex := old(inputs[inputIndex]).(partialSig :=
                old(inputs[inputIndex]).partialSig +
                [PartialSig(liquid.ecPairPublicKey(privateKey), liquid.signatureFor(old(Data()), inputIndex, privateKey))])]
    {
      var entry := PartialSig(liquid.ecPairPublicKey(privateKey), liquid.signatureFor(Data(), inputIndex, privateKey));
      inputs := inputs[inputIndex := inputs[inputIndex].(partialSig := inputs[inputIndex].partialSig + [entry])];
    }
  }

  // ---------------------------------------------------------------------------
  // Scripts
  // ---------------------------------------------------------------------------

  /**
   * payments.p2wsh(...).output: OP_0 followed by a push of the 32-byte SHA-256
   * of the redeem script (BIP 141, "P2WSH").
   */
  function P2wshOutput(crypto: Crypto, redeem: Bytes): (output: Bytes)
    ensures |output| == 34
    ensures output[0] == 0x00 && output[1] == 0x20 && output[2..] == crypto.sha256(redeem)
  {
    [0x00, 0x20] + crypto.sha256(redeem)
  }

  /** One element of a script being compiled: an opcode or a data push. */
  datatype Chunk = Opcode(op: Byte) | Data(bytes: Bytes)

  /** The largest push a script can encode: the length must fit OP_PUSHDATA4's 32 bits. */
  const MAX_PUSH_LENGTH: nat := 0xffff_ffff

  /** The push opcode and little-endian length that precede n data bytes. */
  function PushDataPrefix(n: nat): (prefix: Bytes)
    requires n <= MAX_PUSH_LENGTH
    ensures n < 0x4c ==> prefix == [n]
    ensures 0x4c <= n ==> |prefix| >= 2 && prefix[0] in {0x4c, 0x4d, 0x4e}
  {
    var b0: Byte := n % 0x100;
    if n < 0x4c then [b0]
    else if n <= 0xff then [0x4c, b0]
    else
      var b1: Byte := (n / 0x100) % 0x100;
      if n <= 0xffff then [0x4d, b0, b1]
      else
        var b2: Byte := (n / 0x1_0000) % 0x100;
        var b3: Byte := n / 0x100_0000;
        [0x4e, b0, b1, b2, b3]
  }

  /** How compile writes one chunk; a one-byte push of 1..16 or 0x81 becomes its small-number opcode. */
  function CompileChunk(chunk: Chunk): (encoded: Bytes)
    requires chunk.Data? ==> |chunk.bytes| <= MAX_PUSH_LENGTH
    ensures chunk.Opcode? ==> encoded == [chunk.op]
    ensures chunk.Data? ==> 1 <= |encoded| && |chunk.bytes| <= |encoded|
    ensures chunk.Data? && !(|chunk.bytes| == 1 && (1 <= chunk.bytes[0] <= 16 || chunk.bytes[0] == 0x81)) ==>
              encoded[|encoded| - |chunk.bytes|..] == chunk.bytes
  {
    match chunk
    case Opcode(op) => [op]
    case Data(d) =>
      if |d| == 1 && 1 <= d[0] <= 16 then
        var op: Byte := 0x50 + d[0];
        [op]
      else if |d| == 1 && d[0] == 0x81 then [0x4f]
      else PushDataPrefix(|d|) + d
  }

  predicate Compilable(chunks: seq<Chunk>) {
    forall i :: 0 <= i < |chunks| ==> (chunks[i].Data? ==> |chunks[i].bytes| <= MAX_PUSH_LENGTH)
  }

  /** script.compile: the chunks' encodings in order. */
  function Compile(chunks: seq<Chunk>): (script: Bytes)
    requires Compilable(chunks)
    ensures |script| >= |chunks|
    ensures script == [] <==> chunks == []
  {
    if chunks == [] then [] else CompileChunk(chunks[0]) + Compile(chunks[1..])
  }

  /** A token typeforce accepts as hex: one or more pairs of hex digits, either case. */
  predicate IsHexToken(token: string) {
    |token| > 0 && |token| % 2 == 0 && forall i :: 0 <= i < |token| ==> HexValue(token[i]).Some?
  }

  /** A hex token decodes completely: |token|/2 bytes, byte i from the digit pair at 2i and 2i+1. */
  lemma HexTokenDecodes(token: string)
    requires IsHexToken(token)
    ensures |HexDecode(token)| == |token| / 2
    ensures forall i :: 0 <= i < |HexDecode(token)| ==> PairDecodesTo(token, i, HexDecode(token)[i])
  {
    HexDecodeStops(token);
    HexDecodePairs(token);
  }

  /**
   * One ASM token: an opcode name from the table, otherwise hex text pushed as
   * data; anything else makes fromASM throw. fromASM itself checks no push
   * length: the bound below only makes the chunk compilable, and no JavaScript
   * string is long enough to exceed it.
   */
  function AsmToken(ops: OpcodeTable, token: string): (chunk: Option<Chunk>)
    ensures chunk.Some? && chunk.value.Data? ==> |chunk.value.bytes| <= MAX_PUSH_LENGTH
  {
    match ops(token)
    case Some(op) => Some(Opcode(op))
    case None =>
      if IsHexToken(token) && |HexDecode(token)| <= MAX_PUSH_LENGTH then Some(Data(HexDecode(token)))
      else None
  }

  predicate EveryTokenReads(ops: OpcodeTable, tokens: seq<string>) {
    forall k :: 0 <= k < |tokens| ==> AsmToken(ops, tokens[k]).Some?
  }

  /** The tokens read one by one: accepted iff every token is, one chunk per token, in order. */
  function AsmTokens(ops: OpcodeTable, tokens: seq<string>): (chunks: Option<seq<Chunk>>)
    ensures chunks.Some? <==> EveryTokenReads(ops, tokens)
    ensures chunks.Some? ==> |chunks.value| == |tokens| && Compilable(chunks.value)
    ensures chunks.Some? ==> forall k :: 0 <= k < |tokens| ==> chunks.value[k] == AsmToken(ops, tokens[k]).value
  {
    if tokens == [] then Some([])
    else
      assert forall k :: 1 <= k < |tokens| ==> tokens[k] == tokens[1..][k - 1];
      match (AsmToken(ops, tokens[0]), AsmTokens(ops, tokens[1..]))
      case (Some(c), Some(rest)) => Some([c] + rest)
      case _ => None
  }

  /** script.fromASM: the space-separated tokens, read and compiled; None where it throws. */
  function FromAsm(ops: OpcodeTable, asm: string): (script: Option<Bytes>)
    ensures script.Some? <==> EveryTokenReads(ops, Split(asm, ' '))
    ensures script.Some? ==> |script.value| >= |Split(asm, ' ')|
  {
    match AsmTokens(ops, Split(asm, ' '))
    case Some(chunks) => Some(Compile(chunks))
    case None => None
  }

  /** A digit uint8ArrayToHex writes is a hex digit, not a space and not the 'O' of "OP_". */
  lemma HexDigitIsHexChar(v: int)
    requires 0 <= v < 16
    ensures HexValue(HexDigit(v)).Some? && HexDigit(v) != ' ' && HexDigit(v) != 'O'
  {
    HexDigitValue(v);
  }

  /** Every character of lower-case hex text is a hex digit, and none is a space. */
  lemma {:induction false} HexTextDigits(data: Bytes)
    ensures forall i :: 0 <= i < |Uint8ArrayToHex(data)| ==>
              HexValue(Uint8ArrayToHex(data)[i]).Some? && Uint8ArrayToHex(data)[i] != ' '
  {
    var hex := Uint8ArrayToHex(data);
    forall i | 0 <= i < |hex|
      ensures HexValue(hex[i]).Some? && hex[i] != ' '
    {
      var j := i / 2;
      if i % 2 == 0 {
        assert hex[2 * j] == HexDigit(data[j] / 16);
        HexDigitIsHexChar(data[j] / 16);
      } else {
        assert hex[2 * j + 1] == HexDigit(data[j] % 16);
        HexDigitIsHexChar(data[j] % 16);
      }
    }
  }

  /** Lower-case hex text holds neither a space nor an opcode name. */
  lemma {:induction false} HexTextIsOneDataToken(ops: OpcodeTable, data: Bytes)
    requires |data| > 0
    ensures ' ' !in Uint8ArrayToHex(data)
    ensures IsHexToken(Uint8ArrayToHex(data))
    ensures ops(Uint8ArrayToHex(data)).None?
  {
    var hex := Uint8ArrayToHex(data);
    HexTextDigits(data);
    assert |hex| == 2 * |data|;
    assert |hex| % 2 == 0;
    assert hex[0] != 'O' by {
      assert hex[2 * 0] == HexDigit(data[0] / 16);
      HexDigitIsHexChar(data[0] / 16);
    }
  }

  /**
   * Reading hex text back as assembly is harmless for what the builder feeds
   * it: the hex of 2 to 75 bytes becomes exactly one direct push of those bytes.
   */
  lemma {:induction false} FromAsmOfHexIsSinglePush(ops: OpcodeTable, data: Bytes)
    requires 2 <= |data| < 0x4c
    ensures FromAsm(ops, Uint8ArrayToHex(data)) == Some([|data|] + data)
  {
    var hex := Uint8ArrayToHex(data);
    HexTextIsOneDataToken(ops, data);
    SplitNoSeparator(hex, ' ');
    HexRoundTrip(data);
    assert AsmToken(ops, hex) == Some(Data(data));
    assert AsmTokens(ops, []) == Some([]);
    assert [hex][0] == hex && [hex][1..] == [];
    assert [Data(data)] + [] == [Data(data)];
    assert AsmTokens(ops, [hex]) == Some([Data(data)]);
    assert [Data(data)][0] == Data(data) && [Data(data)][1..] == [];
    assert CompileChunk(Data(data)) == [|data|] + data;
    assert Compile([Data(data)]) == [|data|] + data;
  }
}
