/** `SimpleWallet`: an in-memory list of private keys, each stored with the
    address derived from it. */
module Wallet {
  import opened Wrappers
  import opened Text
  import opened Arrays

  /** One stored key. */
  datatype KeyEntity = KeyEntity(privateKey: Bytes, address: string)

  /** One element of `list`: the address and the `sign` capability. The
      capability is a closure over the entry's private key (it signs with
      secp256k1 under that key), represented here by the key it closes over. */
  datatype ListedKey = ListedKey(address: string, privateKey: Bytes)

  /** Removes one leading `0x` (lower-case `x` only), if present. */
  function StripHexPrefix(s: string): (r: string)
    ensures StartsWith(s, "0x") ==> s == "0x" + r
    ensures !StartsWith(s, "0x") ==> r == s
  {
    if StartsWith(s, "0x") then SliceFrom(s, 2) else s
  }

  /** The key format `import` accepts: exactly 64 hex digits, in either
      letter case. */
  predicate IsPrivateKeyHex(s: string) {
    |s| == 64 && IsHexString(s)
  }

  /** An address as the wallet writes it: `0x` and the bytes in hex. */
  function AddressString(address: Bytes): (r: string)
    ensures StartsWith(r, "0x") && FromHex(r[2..]) == address
    ensures ToLower(r) == r && |r| == 2 + 2 * |address|
  {
    var r := "0x" + ToHex(address);
    assert r[2..] == ToHex(address);
    FromHexToHex(address);
    ToLowerFixed(r);
    r
  }

  /** The entry a successful `import(privateKey)` appends, or what it throws.
      It throws `'invalid private key'` unless the text after an optional `0x`
      is 64 hex digits. Otherwise it throws the derivation's own error for a
      key secp256k1 refuses, and for any other key it stores the decoded key
      with the address derived from exactly that key. */
  function ImportedEntry(deriveAddress: Bytes -> Result<Bytes>, privateKey: string): (r: Result<KeyEntity>)
    ensures !IsPrivateKeyHex(StripHexPrefix(privateKey)) ==> r == Err("invalid private key")
    ensures r.Ok? ==> IsPrivateKeyHex(StripHexPrefix(privateKey))
    ensures IsPrivateKeyHex(StripHexPrefix(privateKey)) ==>
              var buf := FromHex(StripHexPrefix(privateKey));
              match deriveAddress(buf)
              case Ok(address) => r == Ok(KeyEntity(buf, AddressString(address)))
              case Err(e) => r == Err(e)
  {
    var hex := StripHexPrefix(privateKey);
    if !IsPrivateKeyHex(hex) then Err("invalid private key")
    else
      var buf := FromHex(hex);
      match deriveAddress(buf)
      case Err(e) => Err(e)
      case Ok(address) => Ok(KeyEntity(buf, AddressString(address)))
  }

  /** A stored key is the 32 bytes the accepted text denotes: re-encoded it is
      that text in lower case, and the stored address is in lower case. */
  lemma ImportedKeyBytes(deriveAddress: Bytes -> Result<Bytes>, privateKey: string)
    requires ImportedEntry(deriveAddress, privateKey).Ok?
    ensures var e := ImportedEntry(deriveAddress, privateKey).value;
      |e.privateKey| == 32 &&
      ToHex(e.privateKey) == ToLower(StripHexPrefix(privateKey)) &&
      ToLower(e.address) == e.address
  {
    var hex := StripHexPrefix(privateKey);
    FromHexPairs(hex);
    ToHexFromHex(hex);
  }

  /** A key written with and without the `0x` prefix is the same key; a
      second `0x` is not stripped, so `0x0x…` is refused. */
  lemma ImportPrefixOptional(deriveAddress: Bytes -> Result<Bytes>, key: string)
    ensures ImportedEntry(deriveAddress, "0x" + key) == ImportedEntry(deriveAddress, key)
            || StartsWith(key, "0x")
    ensures StartsWith(key, "0x") ==> ImportedEntry(deriveAddress, "0x" + key) == Err("invalid private key")
  {
    if StartsWith(key, "0x") {
      assert StripHexPrefix("0x" + key) == key;
      assert !IsHexDigit(key[1]);
    } else {
      assert StripHexPrefix("0x" + key) == key;
    }
  }

  /** The index `remove(address)` splices out: the first entry whose address
      equals the argument lower-cased. */
  function RemovalIndex(keys: seq<KeyEntity>, address: string): (r: Option<nat>)
    ensures r.Some? ==> r.value < |keys| && keys[r.value].address == ToLower(address)
    ensures r.Some? ==> forall j :: 0 <= j < r.value ==> keys[j].address != ToLower(address)
    ensures r.None? <==> forall j :: 0 <= j < |keys| ==> keys[j].address != ToLower(address)
  {
    var target := ToLower(address);
    FindIndex(keys, (k: KeyEntity) => k.address == target)
  }

  /** After a successful `import`, `remove` finds the new entry under its
      address written in any letter case: it removes an entry with that
      address, and exactly the new one when no earlier entry has it. */
  lemma RemoveFindsImported(deriveAddress: Bytes -> Result<Bytes>, privateKey: string,
                            keys: seq<KeyEntity>, address: string)
    requires ImportedEntry(deriveAddress, privateKey).Ok?
    requires ToLower(address) == ImportedEntry(deriveAddress, privateKey).value.address
    ensures var entry := ImportedEntry(deriveAddress, privateKey).value;
      var i := RemovalIndex(keys + [entry], address);
      i.Some? && (keys + [entry])[i.value].address == entry.address &&
      ((forall j :: 0 <= j < |keys| ==> keys[j].address != entry.address) ==> i == Some(|keys|))
  {
    var entry := ImportedEntry(deriveAddress, privateKey).value;
    var all := keys + [entry];
    assert all[|keys|].address == ToLower(address);
    var i := RemovalIndex(all, address);
    if forall j :: 0 <= j < |keys| ==> keys[j].address != entry.address {
      assert forall j :: 0 <= j < |keys| ==> all[j].address != ToLower(address);
      assert i.value >= |keys|;
    }
  }

  class SimpleWallet {
    /** The key derivation of the crypto library the wallet is built with. */
    const deriveAddress: Bytes -> Result<Bytes>
    var keys: seq<KeyEntity>

    constructor (deriveAddress: Bytes -> Result<Bytes>)
      ensures this.deriveAddress == deriveAddress && keys == []
    {
      this.deriveAddress := deriveAddress;
      keys := [];
    }

    /** The `list` getter: one element per stored key, in order, with the
        same address and a signer bound to the same private key. */
    function List(): (r: seq<ListedKey>)
      reads this
      ensures |r| == |keys|
      ensures forall i :: 0 <= i < |r| ==>
                r[i].address == keys[i].address && r[i].privateKey == keys[i].privateKey
    {
      var entries := keys;
      seq(|entries|, i requires 0 <= i < |entries| => ListedKey(entries[i].address, entries[i].privateKey))
    }

    /** `import(privateKey)`: on success appends exactly one entry, even when
        the same key is already stored, and returns its address; on failure
        throws and leaves the keys as they were. */
    method Import(privateKey: string) returns (r: Result<string>)
      modifies this`keys
      ensures var e := ImportedEntry(deriveAddress, privateKey);
        match e
        case Ok(entry) => r == Ok(entry.address) && keys == old(keys) + [entry]
        case Err(msg) => r == Err(msg) && keys == old(keys)
    {
      var e := ImportedEntry(deriveAddress, privateKey);
      if e.Ok? {
        keys := keys + [e.value];
        r := Ok(e.value.address);
      } else {
        r := Err(e.error);
      }
    }

    /** `remove(address)`: splices out the first entry whose address equals
        `address` lower-cased and answers true; answers false and changes
        nothing when there is none. */
    method Remove(address: string) returns (removed: bool)
      modifies this`keys
      ensures var i := RemovalIndex(old(keys), address);
        removed == i.Some? &&
        keys == if i.Some? then RemoveAt(old(keys), i.value) else old(keys)
    {
      var i := RemovalIndex(keys, address);
      if i.Some? {
        keys := RemoveAt(keys, i.value);
        return true;
      }
      return false;
    }
  }
}
