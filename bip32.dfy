/**
 * The part of the BIP 32 key library that the signer and the wallet rely on,
 * kept symbolic: a key node is named by the root it was built from and the
 * child indices taken from that root, so a node derived along a path is a
 * function of (root, path) and deriving never changes the parent. Key
 * material, public keys, signatures and Base58 serialisation are the
 * library's and are parameters here. The path notation ("84/1'/1'") is
 * parsed as the library parses it.
 */
module Bip32 {
  import opened Wrappers
  import opened Utils

  /** Indices at or above 2^31 are hardened (BIP 32, "Child key derivation (CKD) functions"). */
  const HARDENED_OFFSET: nat := 0x8000_0000
  /** Indices are unsigned 32-bit integers. */
  const INDEX_LIMIT: nat := 0x1_0000_0000

  predicate IsHardened(index: nat) {
    index >= HARDENED_OFFSET
  }

  /** The parameter sets of bitcoinjs-lib, by their key in bitcoin.networks. */
  datatype Network = Bitcoin | Testnet | Regtest

  /** bitcoin.networks[name]: undefined (None) for any other name, "mainnet" included. */
  function NetworkByName(name: string): Option<Network> {
    if name == "bitcoin" then Some(Bitcoin)
    else if name == "testnet" then Some(Testnet)
    else if name == "regtest" then Some(Regtest)
    else None
  }

  /** How the library built a root node, with the network object it was given. */
  datatype Root =
    | SeedRoot(seed: Bytes, network: Option<Network>)                         // bip32.fromSeed
    | Base58Root(encoded: string, network: Option<Network>)                   // bip32.fromBase58
    | KeyMaterialRoot(privateKey: Bytes, chainCode: Bytes, network: Option<Network>) // bip32.fromPrivateKey

  /** A key node: its root and the child indices taken from it, in order. */
  datatype KeyNode = KeyNode(root: Root, path: seq<nat>, neutered: bool)

  type CompactSignature = s: Bytes | |s| == 64 witness seq(64, _ => 0)

  /** The library's computations on key nodes, which the model does not perform. */
  datatype Bip32Library = Bip32Library(
    publicKey: KeyNode -> Bytes,
    privateKey: KeyNode -> Bytes,
    chainCode: KeyNode -> Bytes,
    sign: (KeyNode, Digest32, bool) -> CompactSignature,
    toBase58: KeyNode -> string)

  /** node.derive(index): the child one step below, in the same tree. */
  function Derive(node: KeyNode, index: nat): (child: KeyNode)
    ensures child.root == node.root && child.neutered == node.neutered
    ensures |child.path| == |node.path| + 1 && child.path[..|node.path|] == node.path && child.path[|node.path|] == index
  {
    node.(path := node.path + [index])
  }

  /** node.neutered(): the same node with its private key stripped. */
  function Neutered(node: KeyNode): (public: KeyNode)
    ensures public.neutered && public.root == node.root && public.path == node.path
  {
    node.(neutered := true)
  }

  function NetworkOf(node: KeyNode): Option<Network> {
    node.root.network
  }

  /**
   * The private key of a node. A root built by fromPrivateKey holds exactly the
   * key it was given; for every other node the library computes it.
   */
  function PrivateKey(lib: Bip32Library, node: KeyNode): Bytes {
    if node.root.KeyMaterialRoot? && node.path == [] && !node.neutered then node.root.privateKey
    else lib.privateKey(node)
  }

  /** The chain code, which fromPrivateKey likewise stores as given. */
  function ChainCode(lib: Bip32Library, node: KeyNode): Bytes {
    if node.root.KeyMaterialRoot? && node.path == [] then node.root.chainCode
    else lib.chainCode(node)
  }

  // ---------------------------------------------------------------------------
  // Decimal indices and the path notation
  // ---------------------------------------------------------------------------

  predicate IsDigit(c: char) {
    '0' <= c <= '9'
  }

  function DigitChar(d: nat): char
    requires d < 10
  {
    ('0' as int + d) as char
  }

  /** The decimal text of a non-negative integer, as a template literal writes it. */
  function NatToDecimal(n: nat): (s: string)
    ensures |s| >= 1
    ensures forall i :: 0 <= i < |s| ==> IsDigit(s[i])
  {
    if n < 10 then [DigitChar(n)] else NatToDecimal(n / 10) + [DigitChar(n % 10)]
  }

  function DigitsValue(s: string): nat
    requires forall i :: 0 <= i < |s| ==> IsDigit(s[i])
  {
    if s == [] then 0
    else
      assert IsDigit(s[|s| - 1]);
      DigitsValue(s[..|s| - 1]) * 10 + (s[|s| - 1] as int - '0' as int)
  }

  /**
   * parseInt(s, 10) on a component the path pattern accepts: one or more digits.
   * On text without a leading zero it inverts NatToDecimal.
   */
  function ParseDecimal(s: string): (r: Option<nat>)
    ensures r.Some? <==> |s| > 0 && forall i :: 0 <= i < |s| ==> IsDigit(s[i])
    ensures r.Some? && (|s| == 1 || s[0] != '0') ==> NatToDecimal(r.value) == s
  {
    if |s| > 0 && forall i :: 0 <= i < |s| ==> IsDigit(s[i]) then
      if |s| == 1 || s[0] != '0' then
        DigitsCanonical(s);
        Some(DigitsValue(s))
      else Some(DigitsValue(s))
    else None
  }

  /** Digits without a leading zero are the decimal text of their value. */
  lemma {:induction false} DigitsCanonical(s: string)
    requires |s| > 0 && forall i :: 0 <= i < |s| ==> IsDigit(s[i])
    requires |s| == 1 || s[0] != '0'
    ensures NatToDecimal(DigitsValue(s)) == s
  {
    var n := |s|;
    var last := s[n - 1];
    assert IsDigit(last);
    var d := last as int - '0' as int;
    assert DigitChar(d) == last;
    var p := s[..n - 1];
    assert s == p + [last];
    if n == 1 {
      assert p == [];
    } else {
      DigitsCanonical(p);
      var v := DigitsValue(p);
      assert NatToDecimal(0)[0] == '0';
      assert v != 0;
      assert DigitsValue(s) == v * 10 + d;
      assert (v * 10 + d) / 10 == v && (v * 10 + d) % 10 == d;
    }
  }

  lemma {:induction false} DecimalRoundTrip(n: nat)
    ensures ParseDecimal(NatToDecimal(n)) == Some(n)
  {
    if n >= 10 {
      var s := NatToDecimal(n);
      assert s[..|s| - 1] == NatToDecimal(n / 10);
      DecimalRoundTrip(n / 10);
      assert DigitsValue(s) == (n / 10) * 10 + n % 10;
    }
  }

  /**
   * One path component: "d'" is the hardened index d + 2^31 (d must be below 2^31),
   * "d" the index d itself (below 2^32); anything else is rejected.
   */
  function ParseIndex(component: string): (r: Option<nat>)
    ensures r.Some? ==> r.value < INDEX_LIMIT
    ensures r.Some? && |component| > 0 && component[|component| - 1] == '\'' ==> IsHardened(r.value)
  {
    if |component| > 0 && component[|component| - 1] == '\'' then
      match ParseDecimal(component[..|component| - 1])
      case Some(d) => if d < HARDENED_OFFSET then Some(d + HARDENED_OFFSET) else None
      case None => None
    else
      match ParseDecimal(component)
      case Some(d) => if d < INDEX_LIMIT then Some(d) else None
      case None => None
  }

  /**
   * The decimal text of d reads as the index d, below 2^32, and with a `'`
   * suffix as the hardened index 2^31 + d, for d below 2^31; larger values are
   * rejected.
   */
  lemma ParseIndexOfDecimal(d: nat)
    ensures ParseIndex(NatToDecimal(d)) == if d < INDEX_LIMIT then Some(d) else None
    ensures ParseIndex(NatToDecimal(d) + "'") == if d < HARDENED_OFFSET then Some(HARDENED_OFFSET + d) else None
  {
    DecimalRoundTrip(d);
    var t := NatToDecimal(d);
    assert IsDigit(t[|t| - 1]);
    var h := t + "'";
    assert h[|h| - 1] == '\'' && h[..|h| - 1] == t;
  }

  predicate EveryIndexParses(components: seq<string>) {
    forall k :: 0 <= k < |components| ==> ParseIndex(components[k]).Some?
  }

  /** A path's components parse one by one: the path is accepted iff every component is. */
  function ParseIndices(components: seq<string>): (r: Option<seq<nat>>)
    ensures r.Some? <==> EveryIndexParses(components)
    ensures r.Some? ==> |r.value| == |components|
    ensures r.Some? ==> forall k :: 0 <= k < |r.value| ==> r.value[k] == ParseIndex(components[k]).value
  {
    if components == [] then Some([])
    else
      assert forall k :: 1 <= k < |components| ==> components[k] == components[1..][k - 1];
      match (ParseIndex(components[0]), ParseIndices(components[1..]))
      case (Some(i), Some(rest)) => Some([i] + rest)
      case _ => None
  }

  /** The indices a path string such as "84/1'/1'" names, or None when the library rejects it. */
  function ParsePath(path: string): (r: Option<seq<nat>>)
    ensures r.Some? <==> EveryIndexParses(Split(path, '/'))
    ensures r.Some? ==> |r.value| == |Split(path, '/')| && forall k :: 0 <= k < |r.value| ==> r.value[k] < INDEX_LIMIT
  {
    ParseIndices(Split(path, '/'))
  }

  /** node.derivePath(path): the node reached by taking the parsed indices in turn. */
  function DerivePath(node: KeyNode, path: string): (r: Option<KeyNode>)
    ensures r.Some? <==> ParsePath(path).Some?
    ensures r.Some? ==> r.value.root == node.root && r.value.neutered == node.neutered
    ensures r.Some? ==> r.value.path == node.path + ParsePath(path).value
  {
    match ParsePath(path)
    case Some(indices) => Some(node.(path := node.path + indices))
    case None => None
  }
}
