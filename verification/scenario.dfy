/** Clients of the driver and the wallet: what a caller can conclude from the
    contracts of `BuildTx`, `Sign`, `Resend` and `Import` alone. */
module DriverScenario {
  import opened Wrappers
  import opened Text
  import opened Devkit
  import opened Gas
  import opened Wallet
  import opened TxDriver

  /** A wallet holding one key, a genesis id ending in `4a`, one plain
      transfer built without explicit gas against a simulation that reports no
      execution gas, and an observer that lets the transaction through.
      Then the following hold. The chain tag is 0x4A and the gas is the
      intrinsic gas. Signing without a delegation submits the plain body,
      signed once by that key, with the bytes the observer saw. Resending
      submits the same bytes again. */
  method SinglePlainTransfer(lib: Primitives, wallet: SimpleWallet, genesisId: string, headId: string,
                             to: string, nonce: Bytes)
    returns (body: TxBody, signature: Bytes, committed: TxObject, sent: seq<string>)
    requires |wallet.keys| == 1 && IsBlockId(genesisId) && IsBlockId(headId) && |nonce| == 8
    requires genesisId[64] == '4' && genesisId[65] == 'a'
    ensures body.chainTag == 0x4A
    ensures body.gas == lib.intrinsicGas([Clause(Some(to), "1", "0x")])
    ensures !RequestsDelegation(body)
    ensures signature == lib.sign(lib.signingHash(body), wallet.keys[0].privateKey)
    ensures committed.raw == Raw(lib, body, Some(signature))
    ensures sent == [committed.raw, committed.raw]
  {
    var driver := new Driver(lib, Block(genesisId), Head(headId, 0), wallet);
    var msg := [ClauseArg(Some(to), "1", "0x", None)];
    assert Clauses(msg) == [Clause(Some(to), "1", "0x")];
    EstimateCases(lib.intrinsicGas(Clauses(msg)), [VMOutput(0)]);
    var built := driver.BuildTx(msg, BuildTxOption(None, None, None), nonce, Ok([VMOutput(0)]));
    var pending := built.value.sign;
    body := pending.txBody;

    driver.onTxCommit := Some(CommitObserver("app"));
    var signed := pending.Sign(None, Pass, Pass);
    UnsponsoredSignature(lib, pending.key, body, None);
    signature := lib.sign(lib.signingHash(body), wallet.keys[0].privateKey);
    assert driver.trace[1] == Committed(CommitObserver("app"), TxObject(lib.txId(body, Some(signature)), Raw(lib, body, Some(signature))));
    committed := driver.trace[1].txObject;

    var resent := driver.Resend(committed, Pass);
    sent := [driver.trace[2].raw, driver.trace[3].raw];
  }

  /** Importing the same valid key twice stores it twice: `import` never
      deduplicates. */
  method ImportSameKeyTwice(wallet: SimpleWallet, privateKey: string) returns (first: string, second: string)
    requires ImportedEntry(wallet.deriveAddress, privateKey).Ok?
    modifies wallet
    ensures first == second
    ensures |wallet.keys| == |old(wallet.keys)| + 2
    ensures wallet.keys[|wallet.keys| - 1] == wallet.keys[|wallet.keys| - 2]
  {
    var r1 := wallet.Import(privateKey);
    var r2 := wallet.Import(privateKey);
    first, second := r1.value, r2.value;
  }
}
