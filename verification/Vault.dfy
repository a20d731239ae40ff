/** Recovery vaults: a client ciphertext sealed under a key that is split among five holders, three of whom
    unseal it again. */
module Vault {
  import opened Wrappers
  import opened Text
  import opened GF256
  import opened GfTables
  import Shamir

  /** Authenticated encryption: seal (plaintext, key, iv), and open (ciphertext, key). */
  datatype Cipher = Cipher(seal: (string, string, string) -> string, open: (string, string) -> Option<string>)

  /** Opening with the key that sealed gives the plaintext back. */
  ghost predicate Invertible(c: Cipher) {
    forall p, k, iv :: c.open(c.seal(p, k, iv), k) == Some(p)
  }

  datatype Holder = Holder(id: string, share: string)

  datatype Vault = Vault(userId: string, ciphertext: string, holders: seq<Holder>, threshold: nat)

  datatype Release = Release(ciphertext: string, clientCiphertext: string, shares: seq<string>)

  datatype Error = NoVault | TooFewRequested | TooFewValid | Reconstruction(reason: Shamir.Error) | DecryptFailed

  const HOLDER_IDS: seq<string> := ["peer-1", "peer-2", "hw-token", "cloud", "peer-3"]

  const THRESHOLD := 3

  function HoldersOf(shares: seq<string>): seq<Holder>
    requires |shares| == 5
  {
    seq(5, i requires 0 <= i < 5 => Holder(HOLDER_IDS[i], shares[i]))
  }

  /** The vaults of other users, in order. */
  function Without(vaults: seq<Vault>, userId: string): seq<Vault> {
    if |vaults| == 0 then []
    else if vaults[0].userId == userId then Without(vaults[1..], userId)
    else [vaults[0]] + Without(vaults[1..], userId)
  }

  function Find(vaults: seq<Vault>, userId: string): Option<Vault> {
    if |vaults| == 0 then None
    else if vaults[0].userId == userId then Some(vaults[0]) else Find(vaults[1..], userId)
  }

  /** The holders whose ids were requested, in the vault's order. */
  function Chosen(holders: seq<Holder>, ids: seq<string>): seq<Holder> {
    if |holders| == 0 then []
    else if holders[0].id in ids then [holders[0]] + Chosen(holders[1..], ids)
    else Chosen(holders[1..], ids)
  }

  function ShareTexts(holders: seq<Holder>): (s: seq<string>)
    ensures |s| == |holders|
  {
    seq(|holders|, i requires 0 <= i < |holders| => holders[i].share)
  }

  ghost function Released(cipher: Cipher, vaults: seq<Vault>, userId: string,
                          ids: seq<string>): Result<Release, Error> {
    match Find(vaults, userId)
    case None => Err(NoVault)
    case Some(vault) =>
      var chosen := Chosen(vault.holders, ids);
      if |ids| < vault.threshold then Err(TooFewRequested)
      else if |chosen| < vault.threshold then Err(TooFewValid)
      else
        var shares := ShareTexts(chosen[..vault.threshold]);
        match Shamir.Reconstruction(shares, vault.threshold)
        case Err(e) => Err(Reconstruction(e))
        case Ok(key) =>
          match cipher.open(vault.ciphertext, key)
          case None => Err(DecryptFailed)
          case Some(client) => Ok(Release(vault.ciphertext, client, shares))
  }

  class VaultStore {
    const cipher: Cipher
    const tables: Tables
    var vaults: seq<Vault>

    constructor (cipher: Cipher)
      ensures this.cipher == cipher && tables.Valid() && vaults == []
    {
      this.cipher := cipher;
      tables := new Tables();
      vaults := [];
    }

    /** Replaces the user's vault. The key, the iv and the coefficients are random draws. */
    method Provision(userId: string, clientCiphertext: string, key: string, iv: string, random: seq<seq<byte>>)
      returns (shares: seq<string>)
      requires tables.Valid() && Shamir.Coefficients(random, FromHex(key), 3)
      modifies this`vaults
      ensures shares == Shamir.Shares(FromHex(key), random, 5)
      ensures vaults == Without(old(vaults), userId)
        + [Vault(userId, cipher.seal(clientCiphertext, key, iv), HoldersOf(shares), THRESHOLD)]
    {
      var r := Shamir.SplitSecret(tables, key, 5, THRESHOLD, random);
      shares := r.value;
      var vault := Vault(userId, cipher.seal(clientCiphertext, key, iv), HoldersOf(shares), THRESHOLD);
      vaults := Without(vaults, userId) + [vault];
    }

    method ReleaseShares(userId: string, ids: seq<string>) returns (r: Result<Release, Error>)
      requires tables.Valid()
      ensures r == Released(cipher, vaults, userId, ids)
    {
      var found := Find(vaults, userId);
      if found == None { return Err(NoVault); }
      var vault := found.value;
      if |ids| < vault.threshold { return Err(TooFewRequested); }
      var chosen := Chosen(vault.holders, ids);
      if |chosen| < vault.threshold { return Err(TooFewValid); }
      var shares := ShareTexts(chosen[..vault.threshold]);
      var key := Shamir.ReconstructSecret(tables, shares, vault.threshold);
      if key.Err? { return Err(Reconstruction(key.error)); }
      var client := cipher.open(vault.ciphertext, key.value);
      if client == None { return Err(DecryptFailed); }
      r := Ok(Release(vault.ciphertext, client.value, shares));
    }
  }

  /** What a refused release says; a request is refused for its own number before its holders are looked up. */
  lemma RefusedMeans(cipher: Cipher, vaults: seq<Vault>, userId: string, ids: seq<string>)
    requires Released(cipher, vaults, userId, ids).Err?
    ensures var v := Find(vaults, userId);
      match Released(cipher, vaults, userId, ids).error
      case NoVault => forall w :: w in vaults ==> w.userId != userId
      case TooFewRequested => v.Some? && |ids| < v.value.threshold
      case TooFewValid => v.Some? && |Chosen(v.value.holders, ids)| < v.value.threshold <= |ids|
      case Reconstruction(_) => v.Some? && v.value.threshold <= |ids|
      case DecryptFailed => v.Some? && v.value.threshold <= |ids|
  {
    hide Shamir.Reconstruction;
    FindIs(vaults, userId);
  }

  lemma {:induction false} FindIs(vaults: seq<Vault>, userId: string)
    ensures Find(vaults, userId) == None <==> forall w :: w in vaults ==> w.userId != userId
  {
    if |vaults| > 0 && vaults[0].userId != userId {
      FindIs(vaults[1..], userId);
      assert forall w :: w in vaults <==> w == vaults[0] || w in vaults[1..];
    }
  }

  predicate DistinctIds(holders: seq<Holder>) {
    forall i, j :: 0 <= i < j < |holders| ==> holders[i].id != holders[j].id
  }

  /** Chosen holders stand at increasing positions. */
  lemma {:induction false} ChosenPositions(holders: seq<Holder>, ids: seq<string>) returns (pick: seq<nat>)
    ensures |pick| == |Chosen(holders, ids)|
    ensures forall k :: 0 <= k < |pick| ==> pick[k] < |holders| && Chosen(holders, ids)[k] == holders[pick[k]]
    ensures forall k, l :: 0 <= k < l < |pick| ==> pick[k] < pick[l]
  {
    if |holders| == 0 {
      pick := [];
    } else {
      var more := ChosenPositions(holders[1..], ids);
      var shifted := seq(|more|, k requires 0 <= k < |more| => more[k] + 1);
      var head := if holders[0].id in ids then [0] else [];
      pick := head + shifted;
      forall k | 0 <= k < |pick| ensures pick[k] < |holders| && Chosen(holders, ids)[k] == holders[pick[k]] {
        if k >= |head| { assert holders[1..][more[k - |head|]] == holders[pick[k]]; }
      }
    }
  }

  /** One holder is chosen for every requested id that is a holder's. */
  lemma {:induction false} ChosenCount(holders: seq<Holder>, ids: seq<string>, names: set<string>)
    requires DistinctIds(holders)
    requires forall id :: id in names <==> id in ids && exists i :: 0 <= i < |holders| && holders[i].id == id
    ensures |Chosen(holders, ids)| == |names|
  {
    if |holders| == 0 {
      assert names == {};
    } else {
      var id := holders[0].id;
      var tail := holders[1..];
      assert forall i :: 0 < i < |holders| ==> holders[i] == tail[i - 1];
      assert DistinctIds(tail);
      ChosenCount(tail, ids, names - {id});
    }
  }

  lemma {:induction false} FindAppended(vaults: seq<Vault>, v: Vault)
    ensures Find(Without(vaults, v.userId) + [v], v.userId) == Some(v)
  {
    var rest := Without(vaults, v.userId);
    if |vaults| > 0 {
      FindAppended(vaults[1..], v);
      if vaults[0].userId != v.userId { assert (rest + [v])[1..] == Without(vaults[1..], v.userId) + [v]; }
    }
  }

  /** Another user's vault is not affected by provisioning. */
  lemma {:induction false} FindOther(vaults: seq<Vault>, v: Vault, other: string)
    requires other != v.userId
    ensures Find(Without(vaults, v.userId) + [v], other) == Find(vaults, other)
  {
    if |vaults| > 0 {
      FindOther(vaults[1..], v, other);
      if vaults[0].userId != v.userId {
        assert (Without(vaults, v.userId) + [v])[1..] == Without(vaults[1..], v.userId) + [v];
      }
    } else {
      assert [v][1..] == [];
    }
  }

  /** A freshly provisioned vault gives the client ciphertext back exactly when three different holders are
      among the requested ids, whatever their order and whatever else is requested. */
  lemma RecoveryIff(cipher: Cipher, vaults: seq<Vault>, userId: string, client: string, key: string, iv: string,
                    random: seq<seq<byte>>, ids: seq<string>)
    requires Invertible(cipher) && LowerHex(key) && Shamir.Coefficients(random, FromHex(key), 3)
    ensures
      var shares := Shamir.Shares(FromHex(key), random, 5);
      var vault := Vault(userId, cipher.seal(client, key, iv), HoldersOf(shares), THRESHOLD);
      var r := Released(cipher, Without(vaults, userId) + [vault], userId, ids);
      && (r.Ok? <==> |set id | id in ["peer-1", "peer-2", "hw-token", "cloud", "peer-3"] && id in ids| >= 3)
      && (r.Ok? ==> r.value.clientCiphertext == client && r.value.ciphertext == vault.ciphertext)
  {
    hide Shamir.Reconstruction, Shamir.Shares, Shamir.Selected, FromHex, ToHex, Chosen, DistinctIds;
    var shares := Shamir.Shares(FromHex(key), random, 5);
    SharesSize(FromHex(key), random);
    var holders := HoldersOf(shares);
    var vault := Vault(userId, cipher.seal(client, key, iv), holders, THRESHOLD);
    FindAppended(vaults, vault);
    var pick := ChosenPositions(holders, ids);
    var names := set id | id in HOLDER_IDS && id in ids;
    HolderNames(shares, ids, names);
    ChosenCount(holders, ids, names);
    RequestedEnough(ids);
    if |pick| >= 3 {
      var used := pick[..3];
      SelectedIs(shares, used, ShareTexts(Chosen(holders, ids)[..3]));
      Shamir.RoundTripBytes(FromHex(key), random, 5, 3, used);
      ToFromHex(key);
    }
  }

  lemma SharesSize(secret: seq<byte>, random: seq<seq<byte>>)
    requires |random| == |secret|
    ensures |Shamir.Shares(secret, random, 5)| == 5
  {
  }

  lemma SelectedIs(shares: seq<string>, pick: seq<nat>, texts: seq<string>)
    requires |texts| == |pick| && Shamir.Selection(pick, |shares|)
    requires forall k :: 0 <= k < |pick| ==> texts[k] == shares[pick[k]]
    ensures Shamir.Selected(shares, pick) == texts
  {
  }

  lemma HolderNames(shares: seq<string>, ids: seq<string>, names: set<string>)
    requires |shares| == 5 && names == set id | id in HOLDER_IDS && id in ids
    ensures DistinctIds(HoldersOf(shares))
    ensures forall id :: id in names <==> id in ids && exists i :: 0 <= i < 5 && HoldersOf(shares)[i].id == id
  {
    var holders := HoldersOf(shares);
    assert forall i :: 0 <= i < 5 ==> holders[i].id == HOLDER_IDS[i];
    forall id | id in ids && id in HOLDER_IDS ensures exists i :: 0 <= i < 5 && holders[i].id == id {
      var i :| 0 <= i < 5 && HOLDER_IDS[i] == id;
      assert holders[i].id == id;
    }
  }

  lemma RequestedEnough(ids: seq<string>)
    ensures |set id | id in HOLDER_IDS && id in ids| <= |ids|
  {
    var names := set id | id in HOLDER_IDS && id in ids;
    SeqCovers(ids, names);
  }

  lemma {:induction false} SeqCovers(s: seq<string>, names: set<string>)
    requires forall x :: x in names ==> x in s
    ensures |names| <= |s|
  {
    if |s| > 0 {
      SeqCovers(s[1..], names - {s[0]});
    } else {
      assert names == {};
    }
  }
}
