/**
  A user of the bot together with the group it acts in
  (src/types/swappy_user.rs). The user's Redis keys are
  `"{group}:{user}:ads"` (the ids of the group messages the user posted)
  and `"{group}:{user}:stars"` (the star grants the user received).
*/
module SwappyUsers {
  import opened Wrappers
  import opened RustStd
  import opened Decimal
  import opened Telegram
  import opened Redis
  import Store

  /** The shared configuration; only the target group id is modelled. */
  class AppConfig {
    var groupId: ChatId

    constructor (groupId: ChatId)
      ensures this.groupId == groupId
    {
      this.groupId := groupId;
    }
  }

  /** `format!("{}:{}:{kind}", group, user)`. */
  function UserKey(group: ChatId, user: UserId, kind: string): string
  {
    IntToString(group) + ":" + NatToString(user) + ":" + kind
  }

  /** `ads_key`. */
  function AdsKey(group: ChatId, user: UserId): string
  {
    UserKey(group, user, "ads")
  }

  /** `stars_key`. */
  function StarsKey(group: ChatId, user: UserId): string
  {
    UserKey(group, user, "stars")
  }

  /** How Redis receives a message id: its decimal text. */
  function AdMember(id: MessageId): seq<byte>
  {
    Utf8(IntToString(id))
  }

  /** A key splits at its colons back into the group, the user and the kind. */
  lemma UserKeySplits(group: ChatId, user: UserId, kind: string)
    ensures SplitOnce(UserKey(group, user, kind), ':') == Some((IntToString(group), NatToString(user) + ":" + kind))
    ensures SplitOnce(NatToString(user) + ":" + kind, ':') == Some((NatToString(user), kind))
  {
    IntToStringHasNoColon(group);
    IntToStringHasNoColon(user);
    assert UserKey(group, user, kind) == IntToString(group) + [':'] + (NatToString(user) + ":" + kind);
    SplitOnceAt(IntToString(group), ':', NatToString(user) + ":" + kind);
    assert NatToString(user) + ":" + kind == NatToString(user) + [':'] + kind;
    SplitOnceAt(NatToString(user), ':', kind);
  }

  /** Distinct `(group, user, kind)` give distinct keys: decimal numbers hold no `:`. */
  lemma UserKeyInjective(g1: ChatId, u1: UserId, k1: string, g2: ChatId, u2: UserId, k2: string)
    requires UserKey(g1, u1, k1) == UserKey(g2, u2, k2)
    ensures g1 == g2 && u1 == u2 && k1 == k2
  {
    UserKeySplits(g1, u1, k1);
    UserKeySplits(g2, u2, k2);
    IntToStringInjective(g1, g2);
    IntToStringInjective(u1, u2);
  }

  /** No ads key is ever a stars key, whatever the groups and users. */
  lemma AdsKeyNeverStarsKey(g1: ChatId, u1: UserId, g2: ChatId, u2: UserId)
    ensures AdsKey(g1, u1) != StarsKey(g2, u2)
  {
    if AdsKey(g1, u1) == StarsKey(g2, u2) {
      UserKeyInjective(g1, u1, "ads", g2, u2, "stars");
      assert false;
    }
  }

  /** `star_count` reads the very set `get_star_count` reads. */
  lemma StarsKeyIsStarCountKey(group: ChatId, user: UserId)
    ensures StarsKey(group, user) == Store.StarCountKey(group, user)
  {
    assert ":" + "stars" == ":stars";
  }

  /** Distinct message ids are distinct set members. */
  lemma AdMemberInjective(m1: MessageId, m2: MessageId)
    requires AdMember(m1) == AdMember(m2)
    ensures m1 == m2
  {
    IntToStringAscii(m1);
    IntToStringAscii(m2);
    Utf8AsciiInjective(IntToString(m1), IntToString(m2));
    IntToStringInjective(m1, m2);
  }

  /**
    After `set_author(m)` by the user of `group`, `is_author(m2)` asked for
    any user of any group answers as before, except that `m` now belongs to
    that user in that group.
  */
  lemma SetAuthorEffect(sets: Sets, group: ChatId, user: UserId, m: MessageId,
                        group2: ChatId, user2: UserId, m2: MessageId)
    ensures AdMember(m2) in MembersOf(AddMember(sets, AdsKey(group, user), AdMember(m)), AdsKey(group2, user2))
        <==> AdMember(m2) in MembersOf(sets, AdsKey(group2, user2)) || (group2 == group && user2 == user && m2 == m)
  {
    if AdsKey(group, user) == AdsKey(group2, user2) {
      UserKeyInjective(group, user, "ads", group2, user2, "ads");
      if AdMember(m2) == AdMember(m) {
        AdMemberInjective(m2, m);
      }
    }
  }

  /** `set_author` never changes anybody's star count. */
  lemma SetAuthorKeepsStars(sets: Sets, group: ChatId, user: UserId, m: MessageId,
                            group2: ChatId, user2: UserId)
    ensures MembersOf(AddMember(sets, AdsKey(group, user), AdMember(m)), StarsKey(group2, user2))
         == MembersOf(sets, StarsKey(group2, user2))
  {
    AdsKeyNeverStarsKey(group, user, group2, user2);
  }

  class SwappyUser {
    /** The group id as it was when this value was made. */
    const groupId: ChatId
    const tgUser: User
    const conn: Redis

    /** `with_config`: reads the configured group id once; later changes to the config do not reach this user. */
    constructor WithConfig(user: User, config: AppConfig, conn: Redis)
      ensures groupId == config.groupId && tgUser == user && this.conn == conn
    {
      groupId := config.groupId;
      tgUser := user;
      this.conn := conn;
    }

    function MyAdsKey(): string
    {
      AdsKey(groupId, tgUser.id)
    }

    function MyStarsKey(): string
    {
      StarsKey(groupId, tgUser.id)
    }

    /** `star_count`: `SCARD` of the stars key; it changes nothing. */
    method StarCount() returns (r: Result<nat, RedisError>)
      ensures r.Ok? <==> conn.online
      ensures r.Ok? ==> r.value == |conn.Members(StarsKey(groupId, tgUser.id))|
    {
      r := conn.SCard(MyStarsKey());
    }

    /** `set_author`: `SADD` the message id to the ads key, and touch nothing else. */
    method SetAuthor(m: MessageId) returns (r: Result<(), RedisError>)
      modifies conn
      ensures conn.online == old(conn.online)
      ensures r.Ok? <==> old(conn.online)
      ensures conn.sets == if r.Ok? then AddMember(old(conn.sets), AdsKey(groupId, tgUser.id), AdMember(m))
                          else old(conn.sets)
    {
      var added := conn.SAdd(MyAdsKey(), AdMember(m));
      if added.Err? {
        return Err(added.error);
      }
      return Ok(());
    }

    /** `is_author`: `SISMEMBER` on the ads key; it changes nothing. */
    method IsAuthor(m: MessageId) returns (r: Result<bool, RedisError>)
      ensures r.Ok? <==> conn.online
      ensures r.Ok? ==> (r.value <==> AdMember(m) in conn.Members(AdsKey(groupId, tgUser.id)))
    {
      r := conn.SIsMember(MyAdsKey(), AdMember(m));
    }
  }
}
