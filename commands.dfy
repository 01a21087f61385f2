/**
  Bot commands (src/bot/commands.rs). The two `BotCommands` enums are
  recognised by macro-generated parsers, which the router takes as given
  functions; the callback-query token `verb:id` is written out here, with
  its `Display` rendering and its `parse`.
*/
module Commands {
  import opened Wrappers
  import opened RustStd
  import opened Decimal

  datatype SimpleCommand = Start | Help | MyId | Maintainer

  datatype MaintainerCommand = GetGroup | SetGroup(group: i64) | TestMsg

  /** The payload of an inline-keyboard button: an action on a message id. */
  datatype CallbackQueryCommand = Delete(id: i32) | Edit(id: i32) | Repost(id: i32)

  function Verb(c: CallbackQueryCommand): string
  {
    match c
    case Delete(_) => "del"
    case Edit(_) => "edit"
    case Repost(_) => "repost"
  }

  /** `Display for CallbackQueryCommand`. */
  function Render(c: CallbackQueryCommand): (s: string)
    ensures s == Verb(c) + ":" + IntToString(c.id)
  {
    match c
    case Delete(id) => "del:" + IntToString(id)
    case Edit(id) => "edit:" + IntToString(id)
    case Repost(id) => "repost:" + IntToString(id)
  }

  /** The command a verb names, applied to an id; `None` for any other verb. */
  function FromVerb(verb: string, id: i32): Option<CallbackQueryCommand>
  {
    if verb == "del" then Some(Delete(id))
    else if verb == "edit" then Some(Edit(id))
    else if verb == "repost" then Some(Repost(id))
    else None
  }

  /** `CallbackQueryCommand::parse`: split at the first `:`, read an `i32`, match the verb. */
  function Parse(s: string): Option<CallbackQueryCommand>
  {
    match SplitOnce(s, ':')
    case None => None
    case Some((verb, id)) =>
      match ParseI32(id)
      case None => None
      case Some(n) => FromVerb(verb, n)
  }

  /** Every rendered command parses back to itself. */
  lemma RoundTrip(c: CallbackQueryCommand)
    ensures Parse(Render(c)) == Some(c)
  {
    var verb := Verb(c);
    assert ':' !in verb;
    SplitOnceAt(verb, ':', IntToString(c.id));
    assert Render(c) == verb + [':'] + IntToString(c.id);
    I32RoundTrip(c.id);
  }

  /** Distinct commands render to distinct tokens. */
  lemma RenderInjective(c: CallbackQueryCommand, d: CallbackQueryCommand)
    requires Render(c) == Render(d)
    ensures c == d
  {
    RoundTrip(c);
    RoundTrip(d);
  }

  /**
    What `parse` accepts, in both directions: exactly a known verb, then `:`,
    then text that `str::parse::<i32>` accepts. The verb holds no `:`, so
    the split is at the first colon and any further colon lands in the id.
  */
  lemma ParseAccepts(s: string, c: CallbackQueryCommand)
    ensures Parse(s) == Some(c) <==>
      exists t :: s == Verb(c) + ":" + t && ParseI32(t) == Some(c.id)
  {
    if Parse(s) == Some(c) {
      var (verb, t) := SplitOnce(s, ':').value;
      assert FromVerb(verb, ParseI32(t).value) == Some(c);
      assert verb == Verb(c);
      assert s == Verb(c) + ":" + t;
    }
    if t :| s == Verb(c) + ":" + t && ParseI32(t) == Some(c.id) {
      SplitOnceAt(Verb(c), ':', t);
      assert s == Verb(c) + [':'] + t;
    }
  }

  /** A string without a colon is never a command. */
  lemma NoColonNoCommand(s: string)
    requires ':' !in s
    ensures Parse(s) == None
  {
  }

  /** An unknown verb is never a command, whatever follows the colon. */
  lemma UnknownVerb(verb: string, t: string)
    requires ':' !in verb
    requires verb != "del" && verb != "edit" && verb != "repost"
    ensures Parse(verb + ":" + t) == None
  {
    SplitOnceAt(verb, ':', t);
    assert verb + ":" + t == verb + [':'] + t;
  }

  /** An id that `i32` parsing rejects is never a command: empty, out of range, or holding a second colon. */
  lemma BadId(verb: string, t: string)
    requires ':' !in verb
    requires ParseI32(t) == None
    ensures Parse(verb + ":" + t) == None
  {
    SplitOnceAt(verb, ':', t);
    assert verb + ":" + t == verb + [':'] + t;
  }

  /** A second colon always makes the id unreadable. */
  lemma SecondColonRejected(t: string)
    requires ':' in t
    ensures ParseI32(t) == None
  {
    var i :| 0 <= i < |t| && t[i] == ':';
    if t != [] && (t[0] == '+' || t[0] == '-') && i > 0 {
      assert t[1..][i - 1] == ':';
    }
  }

  /** Rust's `i32` parser takes a `+` sign and leading zeros, so one command has many spellings. */
  lemma ManySpellings()
    ensures Parse("del:+007") == Some(Delete(7))
  {
    var s := "del:+007";
    SplitOnceAt("del", ':', "+007");
    assert s == "del" + [':'] + "+007";
    assert "+007"[1..] == "007";
    assert "007"[..2] == "00" && "00"[..1] == "0" && "0"[..0] == [];
  }
}
