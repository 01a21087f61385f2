/** The two message predicates the dispatch tree filters on (src/bot/filters.rs). */
module Filters {
  import opened Wrappers
  import opened RustStd
  import opened Telegram

  /** `new_members.iter().any(|member| member.id == me.id)`. */
  function AnyHasId(members: seq<User>, id: UserId): (b: bool)
    ensures b <==> exists i :: 0 <= i < |members| && members[i].id == id
  {
    if members == [] then false
    else if members[0].id == id then true
    else
      var b := AnyHasId(members[1..], id);
      assert b ==> exists i :: 0 <= i < |members| && members[i].id == id by {
        if b {
          var i :| 0 <= i < |members[1..]| && members[1..][i].id == id;
          assert members[i + 1].id == id;
        }
      }
      b
  }

  /**
    `me_added_to_group`: whether the bot itself is among the new members of
    the message or, for a message without new members, whether the message
    is the notice that a group was created (with the bot in it).
  */
  function MeAddedToGroup(message: Message, me: UserId): (b: bool)
    ensures message.kind.NewChatMembers? ==>
      (b <==> exists i :: 0 <= i < |message.kind.members| && message.kind.members[i].id == me)
    ensures !message.kind.NewChatMembers? ==> (b <==> message.kind.GroupChatCreated?)
  {
    match NewChatMembersOf(message)
    case Some(members) => AnyHasId(members, me)
    case None => IsGroupChatCreated(message)
  }

  /** `msg_from_maintainer`: the message has a sender and it is the maintainer; no sender is `false`. */
  function MsgFromMaintainer(message: Message, botMaintainer: UserId): (b: bool)
    ensures b <==> message.from.Some? && message.from.value.id == botMaintainer
  {
    match message.from
    case Some(user) => user.id == botMaintainer
    case None => false
  }
}
