/** The parts of the thor-devkit library that the driver builds on. The data
    shapes are modelled; encoding, hashing, signing and key derivation are
    foreign code and appear only as the opaque functions of `Primitives`. */
module Devkit {
  import opened Wrappers
  import opened Text

  /** One transfer or contract call; `to` is `None` for a contract creation. */
  datatype Clause = Clause(to: Option<string>, value: string, data: string)

  /** `reserved.features`; bit 0 asks for VIP-191 fee delegation. */
  datatype Reserved = Reserved(features: nat)

  /** `Transaction.Body`. `reserved` is `None` when the body has no
      `reserved` member at all. */
  datatype TxBody = TxBody(
    chainTag: Byte,
    blockRef: string,
    expiration: int,
    clauses: seq<Clause>,
    gasPriceCoef: int,
    gas: nat,
    dependsOn: Option<string>,
    nonce: string,
    reserved: Option<Reserved>)

  /** The delegation bit of a body. */
  predicate RequestsDelegation(body: TxBody) {
    body.reserved.Some? && body.reserved.value.features % 2 == 1
  }

  datatype Payload = Payload(kind: string, content: string)

  /** A certificate as `Certificate.encode` takes it. */
  datatype Certificate = Certificate(
    purpose: string,
    payload: Payload,
    domain: string,
    timestamp: int,
    signer: string,
    signature: Option<string>)

  /** The foreign primitives, each an arbitrary total function:
      `encode` is `Transaction.encode` (body and signature, if any),
      `signingHash` is `Transaction.signingHash`, `txId` is `Transaction.id`,
      `intrinsicGas` is `Transaction.intrinsicGas`, `certificateEncode` is
      `Certificate.encode`, `blake2b256` hashes a string, `sign` is
      `secp256k1.sign(hash, privateKey)`, and `deriveAddress` is
      `publicKeyToAddress(secp256k1.derivePublicKey(privateKey))`, which
      throws for a key outside the curve's range. */
  datatype Primitives = Primitives(
    encode: (TxBody, Option<Bytes>) -> Bytes,
    signingHash: TxBody -> Bytes,
    txId: (TxBody, Option<Bytes>) -> string,
    intrinsicGas: seq<Clause> -> nat,
    certificateEncode: Certificate -> string,
    blake2b256: string -> Bytes,
    sign: (Bytes, Bytes) -> Bytes,
    deriveAddress: Bytes -> Result<Bytes>)

  /** A `Transaction` object: its body is fixed at construction, its
      `signature` is assigned in place. */
  class Transaction {
    const body: TxBody
    var signature: Option<Bytes>

    constructor (body: TxBody)
      ensures this.body == body && signature == None
    {
      this.body := body;
      signature := None;
    }
  }
}
