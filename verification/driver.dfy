/** The VeChain client driver: transaction assembly, gas estimation, the
    fee-delegation signing protocol, key resolution and certificate signing. */
module TxDriver {
  import opened Wrappers
  import opened Text
  import opened Arrays
  import opened Devkit
  import opened Gas
  import opened Wallet

  datatype Block = Block(id: string)
  datatype Head = Head(id: string, timestamp: int)

  /** `txParams`: the defaults every built transaction copies. */
  datatype TxParams = TxParams(expiration: int, gasPriceCoef: int)
  const DefaultTxParams := TxParams(18, 0)

  /** A clause as the caller passes it; `comment` stands for the members that
      `buildTx` does not carry into the body. */
  datatype ClauseArg = ClauseArg(to: Option<string>, value: string, data: string, comment: Option<string>)

  datatype BuildTxOption = BuildTxOption(signer: Option<string>, gas: Option<nat>, dependsOn: Option<string>)

  /** A sponsor's answer to a delegation request; `error` is `Some` when the
      answer carries an error object. */
  datatype Delegation = Delegation(signature: Option<string>, error: Option<string>)

  /** What the commit observer receives; its `resend` is `Driver.Resend`. */
  datatype TxObject = TxObject(id: string, raw: string)

  /** The identity of the callback assigned to `onTxCommit`. */
  datatype CommitObserver = CommitObserver(name: string)

  /** The effects the driver has on the world, in the order it has them:
      simulation requests, observer notifications and submissions. */
  datatype Event =
    | Explained(clauses: seq<Clause>, caller: string, revision: string)
    | Committed(observer: CommitObserver, txObject: TxObject)
    | Sent(raw: string)

  datatype SignResult = SignResult(txid: string, signer: string)
  datatype SignedTx = SignedTx(body: TxBody, signature: Bytes)

  datatype CertMessage = CertMessage(purpose: string, payload: Payload)
  datatype Annex = Annex(domain: string, timestamp: int, signer: string)
  datatype SignCertResult = SignCertResult(annex: Annex, signature: string)
  const CertDomain := "localhost"

  /** JavaScript truthiness of an optional string. */
  predicate Truthy(s: Option<string>) {
    s.Some? && s.value != ""
  }

  /** JavaScript truthiness of `options.gas`: present and not zero. */
  predicate GasGiven(gas: Option<nat>) {
    gas.Some? && gas.value != 0
  }

  /** A block id as a node reports it: `0x` and 32 bytes in hex. */
  predicate IsBlockId(id: string) {
    |id| == 66 && StartsWith(id, "0x") && IsHexString(id[2..])
  }

  /** The chain tag: the last two characters of the genesis id parsed as a
      base-16 number. */
  function ChainTag(genesisId: string): (r: Byte)
    requires IsBlockId(genesisId)
    ensures ToHex([r]) == ToLower(SliceLast(genesisId, 2))
  {
    var last := SliceLast(genesisId, 2);
    ToHexFromHex(last);
    assert FromHex(last) == [PairValue(last[0], last[1])];
    PairValue(last[0], last[1])
  }

  /** The block reference: the first 18 characters of the head id. */
  function BlockRef(headId: string): (r: string)
    ensures r <= headId && |r| == if |headId| < 18 then |headId| else 18
  {
    SliceTo(headId, 18)
  }

  /** The chain tag is the last byte of the genesis id. */
  lemma ChainTagIsLastByte(genesisId: string)
    requires IsBlockId(genesisId)
    ensures |FromHex(genesisId[2..])| == 32
    ensures ChainTag(genesisId) == FromHex(genesisId[2..])[31]
  {
    var hex := genesisId[2..];
    FromHexPairs(hex);
    assert hex[62] == genesisId[64] && hex[63] == genesisId[65];
  }

  /** The block reference is `0x` and the first 8 bytes of the head id. */
  lemma BlockRefIsHeadPrefix(headId: string)
    requires IsBlockId(headId)
    ensures |BlockRef(headId)| == 18 && StartsWith(BlockRef(headId), "0x")
    ensures |FromHex(headId[2..])| == 32
    ensures FromHex(BlockRef(headId)[2..]) == FromHex(headId[2..])[..8]
  {
    var hex := headId[2..];
    assert BlockRef(headId)[2..] == hex[..16];
    FromHexPrefix(hex, 8);
  }

  /** The clauses of the body: each caller clause reduced to its `to`,
      `value` and `data`. */
  function Clauses(msg: seq<ClauseArg>): (r: seq<Clause>)
    ensures |r| == |msg|
    ensures forall i :: 0 <= i < |msg| ==> r[i] == Clause(msg[i].to, msg[i].value, msg[i].data)
  {
    seq(|msg|, i requires 0 <= i < |msg| => Clause(msg[i].to, msg[i].value, msg[i].data))
  }

  /** `findKey(signer)` over the wallet's current `list` (`None` when the
      driver has no wallet): with no signer, the first key; with one, the
      first key whose address equals it; otherwise `'empty wallet'`. */
  function FindKey(wallet: Option<seq<ListedKey>>, signer: Option<string>): (r: Result<ListedKey>)
    ensures r.Err? ==> r == Err("empty wallet")
    ensures wallet.None? ==> r.Err?
    ensures wallet.Some? && !Truthy(signer) ==>
              r == if |wallet.value| > 0 then Ok(wallet.value[0]) else Err("empty wallet")
    ensures wallet.Some? && Truthy(signer) ==>
              (r.Ok? <==> exists i :: 0 <= i < |wallet.value| && wallet.value[i].address == signer.value)
    ensures wallet.Some? && Truthy(signer) && r.Ok? ==>
              exists i :: 0 <= i < |wallet.value| && wallet.value[i] == r.value &&
                          r.value.address == signer.value &&
                          forall j :: 0 <= j < i ==> wallet.value[j].address != signer.value
  {
    match wallet
    case None => Err("empty wallet")
    case Some(keys) =>
      var key :=
        if Truthy(signer) then
          var address := signer.value;
          Find(keys, (k: ListedKey) => k.address == address)
        else if |keys| > 0 then Some(keys[0])
        else None;
      if key.Some? then Ok(key.value) else Err("empty wallet")
  }

  /** `isAddressOwned(address)`: some listed key has exactly this address. */
  function IsAddressOwned(wallet: Option<seq<ListedKey>>, address: string): (r: bool)
    ensures r <==> wallet.Some? && exists i :: 0 <= i < |wallet.value| && wallet.value[i].address == address
  {
    wallet.Some? && FindIndex(wallet.value, (k: ListedKey) => k.address == address).Some?
  }

  /** Ownership and key resolution agree on every non-empty address. */
  lemma OwnedIffResolvable(wallet: Option<seq<ListedKey>>, address: string)
    requires address != ""
    ensures IsAddressOwned(wallet, address) <==> FindKey(wallet, Some(address)).Ok?
  {
  }

  /** The body `buildTx` assembles. */
  function TxBodyFor(genesisId: string, headId: string, params: TxParams, clauses: seq<Clause>,
                     gas: nat, dependsOn: Option<string>, nonce: Bytes): (r: TxBody)
    requires IsBlockId(genesisId)
    ensures !RequestsDelegation(r)
    ensures StartsWith(r.nonce, "0x") && FromHex(r.nonce[2..]) == nonce
  {
    FromHexToHex(nonce);
    assert ("0x" + ToHex(nonce))[2..] == ToHex(nonce);
    TxBody(
      ChainTag(genesisId),
      BlockRef(headId),
      params.expiration,
      clauses,
      params.gasPriceCoef,
      gas,
      if Truthy(dependsOn) then dependsOn else None,
      "0x" + ToHex(nonce),
      None)
  }

  /** Every field of an assembled body: the chain tag is the last byte of the
      genesis id, the block reference the first 8 bytes of the head id, the
      defaults and the clauses and gas are copied, `dependsOn` is kept only
      when truthy, the nonce is the given 8 bytes, and no delegation is
      requested. */
  lemma TxBodyFields(genesisId: string, headId: string, params: TxParams, clauses: seq<Clause>,
                     gas: nat, dependsOn: Option<string>, nonce: Bytes)
    requires IsBlockId(genesisId) && IsBlockId(headId) && |nonce| == 8
    ensures var b := TxBodyFor(genesisId, headId, params, clauses, gas, dependsOn, nonce);
      |FromHex(genesisId[2..])| == 32 && b.chainTag == FromHex(genesisId[2..])[31] &&
      |b.blockRef| == 18 && StartsWith(b.blockRef, "0x") &&
      |FromHex(headId[2..])| == 32 && FromHex(b.blockRef[2..]) == FromHex(headId[2..])[..8] &&
      b.expiration == params.expiration && b.gasPriceCoef == params.gasPriceCoef &&
      b.clauses == clauses && b.gas == gas &&
      (b.dependsOn.Some? <==> Truthy(dependsOn)) && (b.dependsOn.Some? ==> b.dependsOn == dependsOn) &&
      |b.nonce| == 18 && StartsWith(b.nonce, "0x") && FromHex(b.nonce[2..]) == nonce &&
      !RequestsDelegation(b)
  {
    ChainTagIsLastByte(genesisId);
    BlockRefIsHeadPrefix(headId);
  }

  /** The body with `reserved.features` set to 1, which requests VIP-191
      fee delegation, and nothing else changed. */
  function Delegated(body: TxBody): (d: TxBody)
    ensures RequestsDelegation(d) && d.reserved == Some(Reserved(1))
    ensures d.(reserved := body.reserved) == body
  {
    body.(reserved := Some(Reserved(1)))
  }

  /** The raw form of a transaction: `0x` and its encoding in hex, which
      decodes back to exactly that encoding. */
  function Raw(lib: Primitives, body: TxBody, signature: Option<Bytes>): (r: string)
    ensures StartsWith(r, "0x") && FromHex(r[2..]) == lib.encode(body, signature)
  {
    var encoded := lib.encode(body, signature);
    FromHexToHex(encoded);
    assert ("0x" + ToHex(encoded))[2..] == ToHex(encoded);
    "0x" + ToHex(encoded)
  }

  /** The sponsored path is taken: a sponsor answer is present and carries
      no error. */
  predicate IsSponsored(delegation: Option<Delegation>) {
    delegation.Some? && delegation.value.error.None?
  }

  /** The transaction `sign(delegation)` submits, with its final signature.
      On the sponsored path the origin signs the delegated body and the
      sponsor's signature (its text after the first two characters, decoded
      as hex) follows; a sponsored answer without a signature throws. On the
      other path the plain body is signed by the origin alone. */
  function SignTx(lib: Primitives, key: ListedKey, txBody: TxBody, delegation: Option<Delegation>): (r: Result<SignedTx>)
    ensures r.Err? <==> IsSponsored(delegation) && delegation.value.signature.None?
  {
    if IsSponsored(delegation) then
      var body := Delegated(txBody);
      var originSig := lib.sign(lib.signingHash(body), key.privateKey);
      match delegation.value.signature
      case None => Err("delegation signature is undefined")
      case Some(sponsorSig) => Ok(SignedTx(body, originSig + FromHex(SliceFrom(sponsorSig, 2))))
    else
      Ok(SignedTx(txBody, lib.sign(lib.signingHash(txBody), key.privateKey)))
  }

  /** On the sponsored path, with a sponsor signature whose text after its
      first two characters is an even number of hex digits in either case,
      the final signature is the origin's signature over the delegated body's
      signing hash followed by the sponsor's bytes: one byte per digit pair,
      re-encoding to those digits in lower case. The submitted body requests
      delegation and otherwise equals the built one. */
  lemma SponsoredSignature(lib: Primitives, key: ListedKey, txBody: TxBody, sponsorText: string)
    requires |sponsorText| >= 2 && |sponsorText| % 2 == 0
    requires IsHexString(sponsorText[2..])
    ensures var r := SignTx(lib, key, txBody, Some(Delegation(Some(sponsorText), None)));
      var originSig := lib.sign(lib.signingHash(Delegated(txBody)), key.privateKey);
      r.Ok? && r.value.body == Delegated(txBody) && RequestsDelegation(r.value.body) &&
      |r.value.signature| == |originSig| + (|sponsorText| - 2) / 2 &&
      r.value.signature[..|originSig|] == originSig &&
      ToHex(r.value.signature[|originSig|..]) == ToLower(sponsorText[2..])
  {
    var digits := sponsorText[2..];
    var originSig := lib.sign(lib.signingHash(Delegated(txBody)), key.privateKey);
    var r := SignTx(lib, key, txBody, Some(Delegation(Some(sponsorText), None)));
    FromHexPairs(digits);
    ToHexFromHex(digits);
    assert r.value.signature == originSig + FromHex(digits);
    assert r.value.signature[|originSig|..] == FromHex(digits);
  }

  /** A sponsor signature written as `0x` and hex contributes exactly its
      bytes after the origin's signature, so the final signature is twice as
      long as the origin's when both signatures have the same length. */
  lemma SponsoredSignatureBytes(lib: Primitives, key: ListedKey, txBody: TxBody, sponsorSig: Bytes)
    ensures var r := SignTx(lib, key, txBody, Some(Delegation(Some("0x" + ToHex(sponsorSig)), None)));
      var originSig := lib.sign(lib.signingHash(Delegated(txBody)), key.privateKey);
      r.Ok? && r.value.signature == originSig + sponsorSig &&
      (|sponsorSig| == |originSig| ==> |r.value.signature| == 2 * |originSig|)
  {
    assert SliceFrom("0x" + ToHex(sponsorSig), 2) == ToHex(sponsorSig);
    FromHexToHex(sponsorSig);
  }

  /** Without a delegation, or with one that carries an error, the submitted
      transaction is the built body, without the delegation bit, signed once
      by the origin over its own signing hash. */
  lemma UnsponsoredSignature(lib: Primitives, key: ListedKey, txBody: TxBody, delegation: Option<Delegation>)
    requires delegation.None? || delegation.value.error.Some?
    requires !RequestsDelegation(txBody)
    ensures SignTx(lib, key, txBody, delegation) ==
              Ok(SignedTx(txBody, lib.sign(lib.signingHash(txBody), key.privateKey)))
    ensures !RequestsDelegation(SignTx(lib, key, txBody, delegation).value.body)
  {
  }

  /** Exactly one path is taken: the submitted body requests delegation if
      and only if the sponsor answered without an error. */
  lemma ExactlyOnePath(lib: Primitives, key: ListedKey, txBody: TxBody, delegation: Option<Delegation>)
    requires !RequestsDelegation(txBody)
    requires SignTx(lib, key, txBody, delegation).Ok?
    ensures RequestsDelegation(SignTx(lib, key, txBody, delegation).value.body) <==> IsSponsored(delegation)
  {
  }

  /** The certificate `signCert` encodes: the message merged with the annex. */
  function CertificateFor(msg: CertMessage, annex: Annex): Certificate {
    Certificate(msg.purpose, msg.payload, annex.domain, annex.timestamp, annex.signer, None)
  }

  /** `signCert(msg, { signer })` against the wallet's current `list` and the
      head known to the driver: the annex is always the fixed domain, the
      head's timestamp and the resolved signer's address; the signature is
      over the hash of the merged certificate's encoding. */
  function SignCert(lib: Primitives, wallet: Option<seq<ListedKey>>, head: Head,
                    msg: CertMessage, signer: Option<string>): (r: Result<SignCertResult>)
    ensures r.Err? <==> FindKey(wallet, signer).Err?
    ensures r.Err? ==> r == Err("empty wallet")
    ensures r.Ok? ==> r.value.annex == Annex(CertDomain, head.timestamp, FindKey(wallet, signer).value.address)
    ensures r.Ok? ==> StartsWith(r.value.signature, "0x")
  {
    match FindKey(wallet, signer)
    case Err(e) => Err(e)
    case Ok(key) =>
      var annex := Annex(CertDomain, head.timestamp, key.address);
      var unsigned := lib.certificateEncode(CertificateFor(msg, annex));
      var signature := lib.sign(lib.blake2b256(unsigned), key.privateKey);
      Ok(SignCertResult(annex, "0x" + ToHex(signature)))
  }

  /** The returned annex is enough to check the signature: the hex after `0x`
      decodes to the resolved key's signature over the hash of the encoding of
      the message merged with that annex. */
  lemma SignCertVerifiable(lib: Primitives, wallet: Option<seq<ListedKey>>, head: Head,
                           msg: CertMessage, signer: Option<string>)
    requires SignCert(lib, wallet, head, msg, signer).Ok?
    ensures var r := SignCert(lib, wallet, head, msg, signer).value;
      var key := FindKey(wallet, signer).value;
      FromHex(SliceFrom(r.signature, 2)) ==
        lib.sign(lib.blake2b256(lib.certificateEncode(CertificateFor(msg, r.annex))), key.privateKey)
  {
    var key := FindKey(wallet, signer).value;
    var r := SignCert(lib, wallet, head, msg, signer).value;
    var signature := lib.sign(lib.blake2b256(lib.certificateEncode(CertificateFor(msg, r.annex))), key.privateKey);
    assert SliceFrom(r.signature, 2) == ToHex(signature);
    FromHexToHex(signature);
  }

  datatype BuildTxResult = BuildTxResult(raw: string, origin: string, sign: PendingTx)

  /** The driver. `trace` records its effects on the network and on the
      commit observer. */
  class Driver {
    const lib: Primitives
    const genesis: Block
    var head: Head
    const wallet: SimpleWallet?
    var txParams: TxParams
    var onTxCommit: Option<CommitObserver>
    var trace: seq<Event>

    ghost predicate Valid()
      reads this
    {
      IsBlockId(genesis.id) && IsBlockId(head.id)
    }

    constructor (lib: Primitives, genesis: Block, head: Head, wallet: SimpleWallet?)
      requires IsBlockId(genesis.id) && IsBlockId(head.id)
      ensures Valid()
      ensures this.lib == lib && this.genesis == genesis && this.head == head && this.wallet == wallet
      ensures txParams == DefaultTxParams && onTxCommit == None && trace == []
    {
      this.lib := lib;
      this.genesis := genesis;
      this.head := head;
      this.wallet := wallet;
      txParams := DefaultTxParams;
      onTxCommit := None;
      trace := [];
    }

    /** `this.wallet.list`, read afresh at every key resolution. */
    function WalletKeys(): Option<seq<ListedKey>>
      reads this, wallet
    {
      if wallet == null then None else Some(wallet.List())
    }

    /** `estimateGas(clauses, caller)` given the node's answer to the
        simulation request, which it records against the current head. */
    method EstimateGas(clauses: seq<Clause>, caller: string, explained: Result<seq<VMOutput>>)
      returns (r: Result<nat>)
      modifies this`trace
      ensures trace == old(trace) + [Explained(clauses, caller, head.id)]
      ensures r == match explained
                   case Err(e) => Err(e)
                   case Ok(outputs) => Ok(GasLimit(lib.intrinsicGas(clauses), ExecGas(outputs)))
    {
      trace := trace + [Explained(clauses, caller, head.id)];
      if explained.Err? {
        return Err(explained.error);
      }
      var execGas := ExecGas(explained.value);
      r := Ok(GasLimit(lib.intrinsicGas(clauses), execGas));
    }

    /** `sendTx(raw)`, given the node's answer to the submission. */
    method SendTx(raw: string, posted: Outcome) returns (r: Outcome)
      modifies this`trace
      ensures trace == old(trace) + [Sent(raw)] && r == posted
    {
      trace := trace + [Sent(raw)];
      r := posted;
    }

    /** The `resend` of a committed transaction: the same raw bytes again. */
    method Resend(txObject: TxObject, posted: Outcome) returns (r: Outcome)
      modifies this`trace
      ensures trace == old(trace) + [Sent(txObject.raw)] && r == posted
    {
      r := SendTx(txObject.raw, posted);
    }

    /** `buildTx(msg, options)`, with `nonce` the 8 random bytes and
        `explained` the node's answer should the gas need estimating. */
    method BuildTx(msg: seq<ClauseArg>, options: BuildTxOption, nonce: Bytes, explained: Result<seq<VMOutput>>)
      returns (r: Result<BuildTxResult>)
      requires Valid() && |nonce| == 8
      modifies this`trace
      ensures Valid()
      ensures FindKey(WalletKeys(), options.signer).Err? ==>
                r == Err("empty wallet") && trace == old(trace)
      ensures FindKey(WalletKeys(), options.signer).Ok? ==>
                trace == old(trace) +
                  if GasGiven(options.gas) then []
                  else [Explained(Clauses(msg), FindKey(WalletKeys(), options.signer).value.address, head.id)]
      ensures r.Ok? <==> FindKey(WalletKeys(), options.signer).Ok? && (GasGiven(options.gas) || explained.Ok?)
      ensures FindKey(WalletKeys(), options.signer).Ok? && !GasGiven(options.gas) && explained.Err? ==>
                r == Err(explained.error)
      ensures r.Ok? ==>
                var key := FindKey(WalletKeys(), options.signer).value;
                var gas := if GasGiven(options.gas) then options.gas.value
                           else GasLimit(lib.intrinsicGas(Clauses(msg)), ExecGas(explained.value));
                var body := TxBodyFor(genesis.id, head.id, txParams, Clauses(msg), gas, options.dependsOn, nonce);
                var pending := r.value.sign;
                r.value.raw == Raw(lib, Delegated(body), None) && r.value.origin == key.address &&
                fresh(pending) && fresh(pending.delegatedTx) && pending.Valid() &&
                pending.driver == this && pending.key == key && pending.txBody == body &&
                pending.delegatedTx.signature == None
    {
      var found := FindKey(WalletKeys(), options.signer);
      if found.Err? {
        return Err(found.error);
      }
      var key := found.value;
      var clauses := Clauses(msg);
      var gas: nat;
      if GasGiven(options.gas) {
        gas := options.gas.value;
      } else {
        var estimated := EstimateGas(clauses, key.address, explained);
        if estimated.Err? {
          return Err(estimated.error);
        }
        gas := estimated.value;
      }
      var txBody := TxBodyFor(genesis.id, head.id, txParams, clauses, gas, options.dependsOn, nonce);
      var delegatedTx := new Transaction(Delegated(txBody));
      var raw := Raw(lib, delegatedTx.body, delegatedTx.signature);
      var pending := new PendingTx(this, key, txBody, delegatedTx);
      r := Ok(BuildTxResult(raw, key.address, pending));
    }
  }

  /** The `sign` closure returned by `buildTx`, with what it captures: the
      driver, the resolved key, the built body and the delegated `Transaction`
      object it shares across calls. */
  class PendingTx {
    const driver: Driver
    const key: ListedKey
    const txBody: TxBody
    const delegatedTx: Transaction

    ghost predicate Valid() {
      delegatedTx.body == Delegated(txBody)
    }

    constructor (driver: Driver, key: ListedKey, txBody: TxBody, delegatedTx: Transaction)
      requires delegatedTx.body == Delegated(txBody)
      ensures Valid()
      ensures this.driver == driver && this.key == key && this.txBody == txBody && this.delegatedTx == delegatedTx
    {
      this.driver := driver;
      this.key := key;
      this.txBody := txBody;
      this.delegatedTx := delegatedTx;
    }

    /** `sign(delegation)`, given how the commit observer's call ends
        (`notified`) and the node's answer to the submission (`posted`). The
        transaction of `SignTx` is encoded; the observer, when one is set, is
        notified first with that raw, and the same raw is then submitted
        unless the observer threw. On the sponsored path the shared delegated
        transaction's signature is assigned in place. */
    method Sign(delegation: Option<Delegation>, notified: Outcome, posted: Outcome)
      returns (r: Result<SignResult>)
      requires Valid()
      modifies delegatedTx`signature, driver`trace
      ensures var s := SignTx(driver.lib, key, txBody, delegation);
        s.Err? ==> r == Err(s.error) && driver.trace == old(driver.trace) &&
                   delegatedTx.signature == old(delegatedTx.signature)
      ensures var s := SignTx(driver.lib, key, txBody, delegation);
        s.Ok? ==>
          delegatedTx.signature == (if IsSponsored(delegation) then Some(s.value.signature)
                                    else old(delegatedTx.signature))
      ensures var s := SignTx(driver.lib, key, txBody, delegation);
        s.Ok? ==>
          var raw := Raw(driver.lib, s.value.body, Some(s.value.signature));
          var txObject := TxObject(driver.lib.txId(s.value.body, Some(s.value.signature)), raw);
          var observed := driver.onTxCommit.Some?;
          var blocked := observed && notified.Fail?;
          driver.trace == old(driver.trace) +
                          (if observed then [Committed(driver.onTxCommit.value, txObject)] else []) +
                          (if blocked then [] else [Sent(raw)]) &&
          r == (if blocked then Err(notified.error)
                else if posted.Fail? then Err(posted.error)
                else Ok(SignResult(txObject.id, key.address)))
    {
      var lib := driver.lib;
      var tx: Transaction;
      if IsSponsored(delegation) {
        tx := delegatedTx;
        var originSig := lib.sign(lib.signingHash(tx.body), key.privateKey);
        if delegation.value.signature.None? {
          return Err("delegation signature is undefined");
        }
        tx.signature := Some(originSig + FromHex(SliceFrom(delegation.value.signature.value, 2)));
      } else {
        tx := new Transaction(txBody);
        tx.signature := Some(lib.sign(lib.signingHash(tx.body), key.privateKey));
      }
      var raw := Raw(lib, tx.body, tx.signature);
      var txObject := TxObject(lib.txId(tx.body, tx.signature), raw);
      if driver.onTxCommit.Some? {
        driver.trace := driver.trace + [Committed(driver.onTxCommit.value, txObject)];
        if notified.Fail? {
          return Err(notified.error);
        }
      }
      var sent := driver.SendTx(raw, posted);
      if sent.Fail? {
        return Err(sent.error);
      }
      r := Ok(SignResult(txObject.id, key.address));
    }
  }
}
