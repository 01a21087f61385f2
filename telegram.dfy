/**
  The Bot API value types the core reads (teloxide's `User`, `Message`,
  `Update`, `CallbackQuery`), cut down to the fields the core looks at.
*/
module Telegram {
  import opened Wrappers
  import opened RustStd

  type UserId = u64
  type ChatId = i64
  type MessageId = i32

  datatype User = User(
    id: UserId,
    isBot: bool,
    firstName: string,
    lastName: Option<string>,
    username: Option<string>,
    languageCode: Option<string>,
    isPremium: bool,
    addedToAttachmentMenu: bool)

  /** The kind of a message; the variants are exclusive, as in teloxide's `MessageKind`. */
  datatype MessageKind =
    | Text(text: string)
    | NewChatMembers(members: seq<User>)
    | GroupChatCreated
    | OtherKind

  datatype Message = Message(id: MessageId, chat: ChatId, from: Option<User>, kind: MessageKind)

  datatype CallbackQuery = CallbackQuery(id: string, from: User, data: Option<string>)

  datatype Update =
    | MessageUpdate(message: Message)
    | CallbackQueryUpdate(query: CallbackQuery)
    | OtherUpdate

  /** `Message::text`. */
  function TextOf(m: Message): Option<string>
  {
    if m.kind.Text? then Some(m.kind.text) else None
  }

  /** `Message::new_chat_members`. */
  function NewChatMembersOf(m: Message): Option<seq<User>>
  {
    if m.kind.NewChatMembers? then Some(m.kind.members) else None
  }

  /** `Message::group_chat_created`. */
  predicate IsGroupChatCreated(m: Message)
  {
    m.kind.GroupChatCreated?
  }
}
