/**
  Star grants (src/store.rs). A star from `giver` to `receiver` is the
  SHA-256 of `be8(giver) ++ be8(receiver) ++ salt`, added to a Redis set;
  a user's star count is the size of the set at `"{group}:{user}:stars"`.
  SHA-256 is the `sha` argument.
*/
module Store {
  import opened Wrappers
  import opened RustStd
  import opened Decimal
  import opened Telegram
  import opened Redis

  function Pow256(n: nat): (p: nat)
    ensures p > 0
  {
    if n == 0 then 1 else 256 * Pow256(n - 1)
  }

  /** The `n` low bytes of `x`, most significant first. */
  function BigEndian(x: nat, n: nat): (b: seq<byte>)
    ensures |b| == n
  {
    if n == 0 then [] else BigEndian(x / 256, n - 1) + [x % 256]
  }

  /** The number a big-endian byte string denotes. */
  function FromBigEndian(b: seq<byte>): nat
  {
    if b == [] then 0 else FromBigEndian(b[..|b| - 1]) * 256 + b[|b| - 1]
  }

  lemma {:induction false} BigEndianRoundTrip(x: nat, n: nat)
    requires x < Pow256(n)
    ensures FromBigEndian(BigEndian(x, n)) == x
  {
    if n > 0 {
      var b := BigEndian(x, n);
      assert b[..|b| - 1] == BigEndian(x / 256, n - 1);
      assert x / 256 < Pow256(n - 1);
      BigEndianRoundTrip(x / 256, n - 1);
    }
  }

  /** `u64::to_be_bytes`. */
  function BE8(x: u64): (b: seq<byte>)
    ensures |b| == 8
  {
    BigEndian(x, 8)
  }

  /** The eight bytes give the number back, so `be8` is injective. */
  lemma BE8RoundTrip(x: u64)
    ensures FromBigEndian(BE8(x)) == x
  {
    assert Pow256(8) == 0x1_0000_0000_0000_0000;
    BigEndianRoundTrip(x, 8);
  }

  /** What `hash` feeds to SHA-256, in order. */
  function Preimage(giver: UserId, receiver: UserId, salt: seq<byte>): (p: seq<byte>)
    ensures |p| == 16 + |salt|
  {
    BE8(giver) + BE8(receiver) + salt
  }

  /** The preimage falls apart into its three fields. */
  lemma PreimageLayout(giver: UserId, receiver: UserId, salt: seq<byte>)
    ensures var p := Preimage(giver, receiver, salt);
      FromBigEndian(p[..8]) == giver && FromBigEndian(p[8..16]) == receiver && p[16..] == salt
  {
    var p := Preimage(giver, receiver, salt);
    assert p[..8] == BE8(giver) && p[8..16] == BE8(receiver) && p[16..] == salt;
    BE8RoundTrip(giver);
    BE8RoundTrip(receiver);
  }

  /** Distinct `(giver, receiver, salt)` give distinct preimages: the fields have fixed width. */
  lemma PreimageInjective(g1: UserId, r1: UserId, s1: seq<byte>, g2: UserId, r2: UserId, s2: seq<byte>)
    requires Preimage(g1, r1, s1) == Preimage(g2, r2, s2)
    ensures g1 == g2 && r1 == r2 && s1 == s2
  {
    PreimageLayout(g1, r1, s1);
    PreimageLayout(g2, r2, s2);
  }

  /** `hash(giver, receiver, salt)`. */
  function Hash(sha: seq<byte> -> seq<byte>, giver: UserId, receiver: UserId, salt: seq<byte>): seq<byte>
  {
    sha(Preimage(giver, receiver, salt))
  }

  /** `format!("{}:{}:stars", group_id, user_id.0)`. */
  function StarCountKey(group: ChatId, user: UserId): string
  {
    IntToString(group) + ":" + NatToString(user) + ":stars"
  }

  /** `get_star_count`: the size of the user's star set; it changes nothing. */
  method GetStarCount(user: UserId, group: ChatId, db: Redis) returns (r: Result<nat, RedisError>)
    ensures r.Ok? <==> db.online
    ensures r.Ok? ==> r.value == |db.Members(StarCountKey(group, user))|
  {
    r := db.SCard(StarCountKey(group, user));
  }

  /**
    `give_star`: adds the grant's hash to the set at `redisKey`. Nothing else
    in the store changes, and `giver == receiver` is not refused.
  */
  method GiveStar(sha: seq<byte> -> seq<byte>, giver: UserId, receiver: UserId, salt: seq<byte>,
                  redisKey: string, db: Redis) returns (r: Result<(), RedisError>)
    modifies db
    ensures db.online == old(db.online)
    ensures r.Ok? <==> old(db.online)
    ensures db.sets == if r.Ok? then AddMember(old(db.sets), redisKey, Hash(sha, giver, receiver, salt))
                       else old(db.sets)
  {
    var added := db.SAdd(redisKey, Hash(sha, giver, receiver, salt));
    if added.Err? {
      return Err(added.error);
    }
    return Ok(());
  }

  /** The store after a successful `give_star` from each of `givers` in turn. */
  function Grants(sha: seq<byte> -> seq<byte>, givers: seq<UserId>, receiver: UserId, salt: seq<byte>,
                  key: string, sets: Sets): Sets
  {
    if givers == [] then sets
    else
      var rest := Grants(sha, givers[..|givers| - 1], receiver, salt, key, sets);
      AddMember(rest, key, Hash(sha, givers[|givers| - 1], receiver, salt))
  }

  /** The grants' hashes, one per giver. */
  function Hashes(sha: seq<byte> -> seq<byte>, givers: seq<UserId>, receiver: UserId, salt: seq<byte>): set<seq<byte>>
  {
    set g | g in givers :: Hash(sha, g, receiver, salt)
  }

  /** The distinct users among `givers`. */
  function Givers(givers: seq<UserId>): set<UserId>
  {
    set g | g in givers
  }

  /** Granting adds exactly the givers' hashes to the key's set. */
  lemma {:induction false} GrantsMembers(sha: seq<byte> -> seq<byte>, givers: seq<UserId>, receiver: UserId,
                                         salt: seq<byte>, key: string, sets: Sets)
    ensures MembersOf(Grants(sha, givers, receiver, salt, key, sets), key)
         == MembersOf(sets, key) + Hashes(sha, givers, receiver, salt)
  {
    if givers != [] {
      var init := givers[..|givers| - 1];
      GrantsMembers(sha, init, receiver, salt, key, sets);
      assert givers == init + [givers[|givers| - 1]];
      assert Hashes(sha, givers, receiver, salt)
          == Hashes(sha, init, receiver, salt) + {Hash(sha, givers[|givers| - 1], receiver, salt)};
    }
  }

  /**
    SHA-256 has no collision among the preimages of these givers' grants.
    This is about the finitely many inputs actually hashed; SHA-256 itself
    has collisions somewhere, as every function to 32 bytes does.
  */
  predicate CollisionFree(sha: seq<byte> -> seq<byte>, givers: seq<UserId>, receiver: UserId, salt: seq<byte>)
  {
    forall g1, g2 :: g1 in givers && g2 in givers && Hash(sha, g1, receiver, salt) == Hash(sha, g2, receiver, salt)
      ==> Preimage(g1, receiver, salt) == Preimage(g2, receiver, salt)
  }

  /** Dropping givers keeps the preimages collision-free. */
  lemma CollisionFreeSubset(sha: seq<byte> -> seq<byte>, fewer: seq<UserId>, givers: seq<UserId>,
                            receiver: UserId, salt: seq<byte>)
    requires forall x :: x in fewer ==> x in givers
    requires CollisionFree(sha, givers, receiver, salt)
    ensures CollisionFree(sha, fewer, receiver, salt)
  {
  }

  /** Without a collision among the grants, a new giver's grant is a new member. */
  lemma NewGiverNewHash(sha: seq<byte> -> seq<byte>, givers: seq<UserId>, g: UserId,
                        receiver: UserId, salt: seq<byte>)
    requires CollisionFree(sha, givers + [g], receiver, salt)
    requires g !in givers
    ensures Hash(sha, g, receiver, salt) !in Hashes(sha, givers, receiver, salt)
  {
    if Hash(sha, g, receiver, salt) in Hashes(sha, givers, receiver, salt) {
      var x :| x in givers && Hash(sha, x, receiver, salt) == Hash(sha, g, receiver, salt);
      assert x in givers + [g] && g in givers + [g];
      PreimageInjective(x, receiver, salt, g, receiver, salt);
      assert false;
    }
  }

  /** Adding one giver and its hash keeps the two counts equal when the hash is new exactly when the giver is. */
  lemma CountStep(hs: set<seq<byte>>, gs: set<UserId>, h: seq<byte>, g: UserId)
    requires |hs| == |gs|
    requires h in hs <==> g in gs
    ensures |hs + {h}| == |gs + {g}|
  {
    if g in gs {
      assert hs + {h} == hs && gs + {g} == gs;
    } else {
      assert |hs + {h}| == |hs| + 1;
      assert |gs + {g}| == |gs| + 1;
    }
  }

  /** Without a collision among the grants there are as many grant hashes as distinct givers. */
  lemma {:induction false} HashesCount(sha: seq<byte> -> seq<byte>, givers: seq<UserId>,
                                       receiver: UserId, salt: seq<byte>)
    requires CollisionFree(sha, givers, receiver, salt)
    ensures |Hashes(sha, givers, receiver, salt)| == |Givers(givers)|
  {
    if givers != [] {
      var init, g := givers[..|givers| - 1], givers[|givers| - 1];
      assert givers == init + [g];
      assert forall x :: x in init ==> x in givers;
      CollisionFreeSubset(sha, init, givers, receiver, salt);
      HashesCount(sha, init, receiver, salt);
      var hs, gs := Hashes(sha, init, receiver, salt), Givers(init);
      var h := Hash(sha, g, receiver, salt);
      if g !in gs {
        NewGiverNewHash(sha, init, g, receiver, salt);
      }
      assert Hashes(sha, givers, receiver, salt) == hs + {h};
      assert Givers(givers) == gs + {g};
      CountStep(hs, gs, h, g);
    }
  }

  /**
    If SHA-256 has no collision among the grants' preimages, a receiver's
    star count is the number of DISTINCT users who gave a star: repeated
    grants from one giver count once.
  */
  lemma StarCountIsDistinctGivers(sha: seq<byte> -> seq<byte>, givers: seq<UserId>,
                                  receiver: UserId, salt: seq<byte>, key: string)
    requires CollisionFree(sha, givers, receiver, salt)
    ensures |MembersOf(Grants(sha, givers, receiver, salt, key, map[]), key)| == |Givers(givers)|
  {
    GrantsMembers(sha, givers, receiver, salt, key, map[]);
    assert MembersOf(map[], key) == {};
    HashesCount(sha, givers, receiver, salt);
  }
}
