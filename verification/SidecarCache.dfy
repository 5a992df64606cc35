/** The state a sidecar process keeps between requests (sidecar_server.py). */
module SidecarCache {
  import opened Prelude

  const MAX_CACHED_QUBES: nat := 20

  function Without(xs: seq<string>, x: string): (r: seq<string>)
    ensures x !in r && forall y :: y in r <==> y in xs && y != x
  {
    if xs == [] then [] else (if xs[0] == x then [] else [xs[0]]) + Without(xs[1..], x)
  }

  /** The other entries stay in order. */
  lemma {:induction false} WithoutKeepsOrder(xs: seq<string>, ys: seq<string>, x: string, y: string)
    ensures Without(xs + ys, x) == Without(xs, x) + Without(ys, x)
    ensures Without([y], x) == if y == x then [] else [y]
  {
    assert [y][1..] == [];
    if xs == [] {
      assert xs + ys == ys;
    } else {
      assert (xs + ys)[1..] == xs[1..] + ys;
      WithoutKeepsOrder(xs[1..], ys, x, y);
    }
  }

  predicate StartsWith(s: string, prefix: string) {
    prefix <= s
  }

  /** A derived key with the hash of the password it was derived from. */
  datatype CachedKey = CachedKey(key: string, passwordHash: string)

  /** The part of a bridge the cache works on; the qubes are in the order they were loaded. */
  class Bridge {
    var masterKey: Option<string>
    var qubes: seq<string>

    constructor ()
      ensures masterKey.None? && qubes == []
    {
      masterKey, qubes := None, [];
    }
  }

  /** Key derivation is slow and hashing is not; different passwords have different hashes. */
  datatype Crypto = Crypto(derive: (string, string) -> string, hash: string -> string) {
    ghost predicate IsCollisionFree() {
      forall p, q: string :: hash(p) == hash(q) ==> p == q
    }
  }

  class SidecarState {
    const crypto: Crypto
    var bridges: map<string, Bridge>
    var masterKeys: map<string, CachedKey>
    var eventSubs: set<string>

    /** Each user has a bridge of their own; a cached key comes from a password with the cached hash, and
        the bridge of that user holds no other key. */
    ghost predicate Valid()
      reads this, bridges.Values
    {
      && crypto.IsCollisionFree()
      && (forall u, v :: u in bridges && v in bridges && u != v ==> bridges[u] != bridges[v])
      && masterKeys.Keys <= bridges.Keys
      && (forall u :: u in bridges && bridges[u].masterKey.Some? ==> bridges[u].masterKey == CachedKeyOf(u))
      && (forall u :: u in masterKeys ==> IsKeyOfSomePassword(u, masterKeys[u]))
    }

    function CachedKeyOf(user: string): Option<string>
      reads this`masterKeys
    {
      if user in masterKeys then Some(masterKeys[user].key) else None
    }

    ghost predicate IsKeyOfSomePassword(user: string, cached: CachedKey) {
      exists p: string :: cached == CachedKey(crypto.derive(user, p), crypto.hash(p))
    }

    constructor (crypto: Crypto)
      requires crypto.IsCollisionFree()
      ensures Valid() && bridges == map[] && masterKeys == map[] && eventSubs == {} && this.crypto == crypto
    {
      this.crypto := crypto;
      bridges, masterKeys, eventSubs := map[], map[], {};
    }

    /** An empty password counts as none. */
    method GetBridge(user: string, password: string) returns (bridge: Bridge)
      requires Valid()
      modifies this`bridges, this`masterKeys, if user in bridges then {bridges[user]} else {}
      ensures Valid() && bridges == old(bridges)[user := bridge]
      ensures if user in old(bridges) then bridge == old(bridges)[user] else fresh(bridge)
      ensures password != "" ==> bridge.masterKey == Some(crypto.derive(user, password))
      ensures masterKeys == if password == "" then old(masterKeys)
        else old(masterKeys)[user := CachedKey(crypto.derive(user, password), crypto.hash(password))]
      ensures |bridge.qubes| <= 20
      ensures user !in old(bridges) ==> bridge.qubes == []
      ensures user in old(bridges) ==>
        var qubes := old(bridges[user].qubes);
        bridge.qubes == if |qubes| <= 20 then qubes else qubes[|qubes| - 20..]
    {
      hide IsKeyOfSomePassword;
      bridge := EnsureBridge(user);
      if password != "" {
        UsePassword(user, bridge, password);
      }
      if |bridge.qubes| > MAX_CACHED_QUBES {
        bridge.qubes := bridge.qubes[|bridge.qubes| - MAX_CACHED_QUBES..];
      }
    }

    method EnsureBridge(user: string) returns (bridge: Bridge)
      requires Valid()
      modifies this`bridges
      ensures Valid() && bridges == old(bridges)[user := bridge]
      ensures if user in old(bridges) then bridge == old(bridges)[user] else fresh(bridge) && bridge.qubes == []
    {
      if user !in bridges {
        var created := new Bridge();
        bridges := bridges[user := created];
      }
      bridge := bridges[user];
    }

    /** Derives the key of a new or changed password; otherwise restores the cached key where it is missing. */
    method UsePassword(user: string, bridge: Bridge, password: string)
      requires Valid() && user in bridges && bridge == bridges[user] && password != ""
      modifies this`masterKeys, bridge`masterKey
      ensures Valid() && bridge.masterKey == Some(crypto.derive(user, password))
      ensures masterKeys == old(masterKeys)[user := CachedKey(crypto.derive(user, password), crypto.hash(password))]
    {
      var passwordHash := crypto.hash(password);
      if user !in masterKeys || masterKeys[user].passwordHash != passwordHash {
        bridge.masterKey := Some(crypto.derive(user, password));
        masterKeys := masterKeys[user := CachedKey(crypto.derive(user, password), passwordHash)];
        assert IsKeyOfSomePassword(user, masterKeys[user]);
      } else {
        assert IsKeyOfSomePassword(user, masterKeys[user]);
        assert masterKeys[user] == CachedKey(crypto.derive(user, password), passwordHash);
        if bridge.masterKey.None? {
          bridge.masterKey := Some(masterKeys[user].key);
        }
      }
    }

    method InvalidateQube(user: string, qube: string)
      requires Valid()
      modifies if user in bridges then {bridges[user]} else {}
      ensures Valid()
      ensures user in bridges ==> bridges[user].masterKey == old(bridges[user].masterKey)
      ensures user in bridges ==> bridges[user].qubes == Without(old(bridges[user].qubes), qube)
    {
      if user in bridges {
        var bridge := bridges[user];
        bridge.qubes := Without(bridge.qubes, qube);
      }
    }

    method InvalidateUser(user: string)
      requires Valid()
      modifies this`bridges, this`masterKeys, this`eventSubs
      ensures Valid()
      ensures bridges == old(bridges) - {user} && masterKeys == old(masterKeys) - {user}
      ensures forall k :: k in eventSubs <==> k in old(eventSubs) && !StartsWith(k, user + ":")
    {
      bridges := bridges - {user};
      masterKeys := masterKeys - {user};
      eventSubs := set k | k in eventSubs && !StartsWith(k, user + ":");
    }
  }

  /** A watcher key starts with a user's prefix exactly for that user and for names that continue it behind a colon. */
  lemma HasPrefixIff(user: string, other: string, qube: string)
    requires ':' !in qube
    ensures StartsWith(other + ":" + qube, user + ":") <==> other == user || StartsWith(other, user + ":")
  {
    var key := other + ":" + qube;
    assert other <= key;
    assert key[|other|] == ':' && forall i :: |other| < i < |key| ==> key[i] == qube[i - |other| - 1];
    if StartsWith(key, user + ":") {
      assert key[|user|] == (user + ":")[|user|] == ':';
      assert |user| <= |other|;
      assert forall i :: 0 <= i <= |user| ==> key[i] == (user + ":")[i];
      if |user| < |other| {
        assert user + ":" == other[..|user| + 1];
      }
    }
    assert key == (other + ":") + qube;
    assert other == user ==> user + ":" <= key;
  }

  lemma PrefixHasColon(user: string, other: string)
    ensures StartsWith(other, user + ":") ==> ':' in other
  {
    if StartsWith(other, user + ":") {
      assert other[|user|] == (user + ":")[|user|] == ':';
    }
  }

  /** User ids hold no colon, so logging a user out drops exactly that user's watchers. */
  lemma WatcherIsDroppedIff(user: string, other: string, qube: string)
    requires ':' !in other && ':' !in qube
    ensures StartsWith(other + ":" + qube, user + ":") <==> other == user
  {
    HasPrefixIff(user, other, qube);
    PrefixHasColon(user, other);
  }
}
