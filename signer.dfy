/**
 * AmpSigner (amp-signer.ts): one BIP 32 node and the name of the network it
 * was built for, both fixed at construction. Its factories choose the network
 * object and the node; everything else reads the node or delegates to it.
 */
module Signer {
  import opened Wrappers
  import opened Utils
  import opened Bip32

  datatype SignerError =
    | UnrecognizedNetwork(network: string)   // "Unrecognized network '<network>'"
    | UnrecognizedPrivateKeyNetwork          // "Unrecognized private key network"

  /** fromBase58XPriv's first step: "mainnet" is spelt "bitcoin" from then on. */
  function NormalizeNetwork(network: string): (name: string)
    ensures name != "mainnet"
    ensures name == "bitcoin" <==> network == "mainnet" || network == "bitcoin"
    ensures network != "mainnet" ==> name == network
  {
    if network == "mainnet" then "bitcoin" else network
  }

  /** The names fromBase58XPriv accepts, after normalisation. */
  predicate IsSupportedNetwork(name: string) {
    name in ["regtest", "testnet", "bitcoin"]
  }

  /**
   * The accepted names are exactly those bitcoin.networks knows, so the network
   * object of an accepted name is never undefined; "mainnet" is accepted only
   * through its rewrite.
   */
  lemma SupportedNetworksAreKnown(name: string)
    ensures IsSupportedNetwork(name) <==> NetworkByName(name).Some?
    ensures IsSupportedNetwork(NormalizeNetwork("mainnet")) && !IsSupportedNetwork("mainnet")
  {
  }

  /**
   * The network a serialised private key was written for, read from its first
   * character: 't' (tprv) is testnet, 'x' (xprv) is bitcoin, anything else,
   * the empty string included, is not recognised.
   */
  function KeyPrefixNetwork(encoded: string): (source: Option<Network>)
    ensures source.Some? <==> |encoded| > 0 && (encoded[0] == 't' || encoded[0] == 'x')
    ensures source.Some? ==> source == NetworkByName(if encoded[0] == 't' then "testnet" else "bitcoin")
    ensures source != Some(Regtest)
  {
    if |encoded| > 0 && encoded[0] == 't' then Some(Testnet)
    else if |encoded| > 0 && encoded[0] == 'x' then Some(Bitcoin)
    else None
  }

  /**
   * bip32.fromPrivateKey(source.privateKey, source.chainCode, target): a fresh
   * root holding the source's private key and chain code, tagged with target.
   */
  function Reinterpreted(lib: Bip32Library, source: KeyNode, target: Option<Network>): (node: KeyNode)
    ensures PrivateKey(lib, node) == PrivateKey(lib, source)
    ensures ChainCode(lib, node) == ChainCode(lib, source)
    ensures NetworkOf(node) == target && node.path == [] && !node.neutered
  {
    KeyNode(KeyMaterialRoot(PrivateKey(lib, source), ChainCode(lib, source), target), [], false)
  }

  class AmpSigner {
    const node: KeyNode
    const network: string

    constructor (bip32Key: KeyNode, network: string)
      ensures node == bip32Key && this.network == network
    {
      node := bip32Key;
      this.network := network;
    }

    /**
     * fromBase58XPriv: the network name is normalised and checked before the key
     * text is looked at; a forced conversion reads the key under the network its
     * prefix names and re-tags its key material with the requested network,
     * otherwise the key is read under the requested network directly.
     */
    static method FromBase58XPriv(lib: Bip32Library, base58PrivateKey: string, network: string,
                                  forceNetworkConversion: bool := false)
      returns (r: Result<AmpSigner, SignerError>)
      ensures !IsSupportedNetwork(NormalizeNetwork(network)) ==>
                r == Failure(UnrecognizedNetwork(NormalizeNetwork(network)))
      ensures (IsSupportedNetwork(NormalizeNetwork(network)) && forceNetworkConversion &&
               KeyPrefixNetwork(base58PrivateKey).None?) ==> r == Failure(UnrecognizedPrivateKeyNetwork)
      ensures r.Success? <==> IsSupportedNetwork(NormalizeNetwork(network)) &&
                              (forceNetworkConversion ==> KeyPrefixNetwork(base58PrivateKey).Some?)
      ensures r.Success? ==> r.value.network == NormalizeNetwork(network)
      ensures r.Success? && forceNetworkConversion ==>
                r.value.node == Reinterpreted(lib,
                  KeyNode(Base58Root(base58PrivateKey, KeyPrefixNetwork(base58PrivateKey)), [], false),
                  NetworkByName(NormalizeNetwork(network)))
      ensures r.Success? && !forceNetworkConversion ==>
                r.value.node == KeyNode(Base58Root(base58PrivateKey, NetworkByName(NormalizeNetwork(network))), [], false)
    {
      var name := NormalizeNetwork(network);
      if !IsSupportedNetwork(name) {
        return Failure(UnrecognizedNetwork(name));
      }
      var targetNetwork := NetworkByName(name);
      var bip32Keypair: KeyNode;
      if forceNetworkConversion {
        var firstChar := if |base58PrivateKey| > 0 then base58PrivateKey[..1] else "";
        var sourceNetwork: string;
        if firstChar == "t" {
          sourceNetwork := "testnet";
        } else if firstChar == "x" {
          sourceNetwork := "bitcoin";
        } else {
          return Failure(UnrecognizedPrivateKeyNetwork);
        }
        var original := KeyNode(Base58Root(base58PrivateKey, NetworkByName(sourceNetwork)), [], false);
        bip32Keypair := KeyNode(KeyMaterialRoot(PrivateKey(lib, original), ChainCode(lib, original), targetNetwork), [], false);
      } else {
        bip32Keypair := KeyNode(Base58Root(base58PrivateKey, targetNetwork), [], false);
      }
      var signer := new AmpSigner(bip32Keypair, name);
      return Success(signer);
    }

    /** fromSeed: the seed's root node; the network name is stored as given, with no rewrite. */
    static method FromSeed(seed: Bytes, network: string) returns (signer: AmpSigner)
      ensures signer.node == KeyNode(SeedRoot(seed, NetworkByName(network)), [], false)
      ensures signer.network == network
    {
      var bip32Keypair := KeyNode(SeedRoot(seed, NetworkByName(network)), [], false);
      signer := new AmpSigner(bip32Keypair, network);
    }

    function GetPubkey(lib: Bip32Library): (pubkey: Bytes)
      ensures pubkey == lib.publicKey(node)
    {
      lib.publicKey(node)
    }

    function GetChainCode(lib: Bip32Library): (chainCode: Bytes)
      ensures chainCode == ChainCode(lib, node)
    {
      ChainCode(lib, node)
    }

    function GetNetwork(): (name: string)
      ensures name == network
    {
      network
    }

    /** derivePath: the stored node's descendant along the parsed path, if the path parses. */
    method DerivePath(path: string) returns (r: Option<KeyNode>)
      ensures r.Some? <==> ParsePath(path).Some?
      ensures r.Some? ==> r.value == KeyNode(node.root, node.path + ParsePath(path).value, node.neutered)
    {
      r := Bip32.DerivePath(node, path);
    }

    /** derive: the stored node's child at index, in the same tree. */
    method Derive(index: nat) returns (child: KeyNode)
      ensures child.root == node.root && child.neutered == node.neutered
      ensures child.path == node.path + [index]
    {
      child := Bip32.Derive(node, index);
    }

    /** sign: the stored node's signature over a 32-byte hash; an omitted lowR reaches the library as false. */
    method Sign(lib: Bip32Library, hash: Digest32, lowR: bool := false) returns (signature: CompactSignature)
      ensures signature == lib.sign(node, hash, lowR)
    {
      signature := lib.sign(node, hash, lowR);
    }
  }
}
