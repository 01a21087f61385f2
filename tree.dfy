/**
  The update dispatcher (src/bot/tree.rs): a tree of filters and endpoints,
  tried in order. A branch that does not handle the update lets the next
  branch try; the first endpoint reached handles it and nothing after it
  runs. The tree is data here, and `Run` interprets it.

  The command recognisers derived by `BotCommands`, and `has_shared_users`,
  are given functions in the `Context`.
*/
module Tree {
  import opened Wrappers
  import opened RustStd
  import opened Telegram
  import opened Commands
  import opened Filters

  datatype Context = Context(
    me: UserId,
    botMaintainer: UserId,
    simpleCommand: string -> Option<SimpleCommand>,          // `SimpleCommand::parse`
    maintainerCommand: string -> Option<MaintainerCommand>,  // `MaintainerCommand::parse`
    hasSharedUsers: Message -> bool)

  /** The values an endpoint receives: the update and the commands parsed on the way. */
  datatype Deps = Deps(update: Update, simple: Option<SimpleCommand>, maintainer: Option<MaintainerCommand>)

  /** A filter in a chain; it either lets the update through (possibly adding a value) or not. */
  datatype Step =
    | FilterMessage                // `Update::filter_message()`
    | FilterCallbackQuery          // `Update::filter_callback_query()`
    | FilterCommandSimple          // `.filter_command::<SimpleCommand>()`
    | FilterCommandMaintainer      // `.filter_command::<MaintainerCommand>()`
    | FilterFromMaintainer         // `dptree::filter(msg_from_maintainer)`
    | FilterAddedToGroup           // `dptree::filter(me_added_to_group)`
    | FilterSharedUsers            // `dptree::filter(has_shared_users)`

  datatype Target =
    | HandleSimpleCommand
    | HandleMaintainerCommand
    | HandleAddedToGroup
    | HandleSharedUsers
    | HandleCallbackQuery

  /** The endpoint that ran, with what it was given. */
  datatype Call = Call(target: Target, deps: Deps)

  datatype Handler =
    | Branches(children: seq<Handler>)   // `.branch(a).branch(b)…`: the first child that handles it
    | Then(step: Step, next: Handler)     // a filter, then the rest of the chain
    | Endpoint(target: Target)

  /** The text of the update's message, if it is a text message. */
  function MessageText(u: Update): Option<string>
  {
    if u.MessageUpdate? then TextOf(u.message) else None
  }

  /** One filter on the dependencies. */
  function Apply(ctx: Context, step: Step, d: Deps): Option<Deps>
  {
    var u := d.update;
    match step
    case FilterMessage => if u.MessageUpdate? then Some(d) else None
    case FilterCallbackQuery => if u.CallbackQueryUpdate? then Some(d) else None
    case FilterCommandSimple =>
      (match MessageText(u)
       case None => None
       case Some(t) =>
         match ctx.simpleCommand(t)
         case None => None
         case Some(c) => Some(d.(simple := Some(c))))
    case FilterCommandMaintainer =>
      (match MessageText(u)
       case None => None
       case Some(t) =>
         match ctx.maintainerCommand(t)
         case None => None
         case Some(c) => Some(d.(maintainer := Some(c))))
    case FilterFromMaintainer =>
      if u.MessageUpdate? && MsgFromMaintainer(u.message, ctx.botMaintainer) then Some(d) else None
    case FilterAddedToGroup =>
      if u.MessageUpdate? && MeAddedToGroup(u.message, ctx.me) then Some(d) else None
    case FilterSharedUsers =>
      if u.MessageUpdate? && ctx.hasSharedUsers(u.message) then Some(d) else None
  }

  /** The first result that is present. */
  function FirstOf(rs: seq<Option<Call>>): (r: Option<Call>)
    ensures r.Some? ==> exists i :: 0 <= i < |rs| && rs[i] == r && forall j :: 0 <= j < i ==> rs[j].None?
    ensures r.None? ==> forall i :: 0 <= i < |rs| ==> rs[i].None?
  {
    if rs == [] then None
    else if rs[0].Some? then rs[0]
    else
      var r := FirstOf(rs[1..]);
      assert r.Some? ==> exists i :: 0 <= i < |rs| && rs[i] == r && forall j :: 0 <= j < i ==> rs[j].None? by {
        if r.Some? {
          var i :| 0 <= i < |rs[1..]| && rs[1..][i] == r && forall j :: 0 <= j < i ==> rs[1..][j].None?;
          assert rs[i + 1] == r;
          assert forall j :: 1 <= j < i + 1 ==> rs[j] == rs[1..][j - 1];
        }
      }
      assert r.None? ==> forall i :: 1 <= i < |rs| ==> rs[i] == rs[1..][i - 1];
      r
  }

  /** Runs a handler on the dependencies: the endpoint that handles them, if any. */
  function Run(ctx: Context, h: Handler, d: Deps): Option<Call>
    decreases h
  {
    match h
    case Endpoint(t) => Some(Call(t, d))
    case Then(step, next) =>
      (match Apply(ctx, step, d)
       case None => None
       case Some(d2) => Run(ctx, next, d2))
    case Branches(cs) => FirstOf(seq(|cs|, i requires 0 <= i < |cs| => Run(ctx, cs[i], d)))
  }

  /**
    First match wins: a branch list handles the update by the first child
    that does, and every earlier child did not handle it.
  */
  lemma FirstMatchWins(ctx: Context, cs: seq<Handler>, d: Deps)
    ensures Run(ctx, Branches(cs), d).Some? ==>
      exists i :: 0 <= i < |cs| && Run(ctx, cs[i], d) == Run(ctx, Branches(cs), d)
        && forall j :: 0 <= j < i ==> Run(ctx, cs[j], d).None?
    ensures Run(ctx, Branches(cs), d).None? ==> forall i :: 0 <= i < |cs| ==> Run(ctx, cs[i], d).None?
  {
    var rs := seq(|cs|, i requires 0 <= i < |cs| => Run(ctx, cs[i], d));
    assert forall i :: 0 <= i < |cs| ==> rs[i] == Run(ctx, cs[i], d);
  }

  /** `build_handler`. */
  function BuildHandler(): Handler
  {
    Branches([
      Then(FilterMessage, Branches([
        Then(FilterCommandSimple, Endpoint(HandleSimpleCommand)),
        Then(FilterFromMaintainer, Then(FilterCommandMaintainer, Endpoint(HandleMaintainerCommand))),
        Then(FilterAddedToGroup, Endpoint(HandleAddedToGroup)),
        Then(FilterSharedUsers, Endpoint(HandleSharedUsers))])),
      Then(FilterCallbackQuery, Endpoint(HandleCallbackQuery))])
  }

  /**
    The routing written out as a chain of cases: a message goes to the
    first of simple command, maintainer command, bot added to a group,
    shared users that applies; a callback query always goes to
    `handle_callback_query`; nothing else is handled.
  */
  function Route(ctx: Context, u: Update): Option<Call>
  {
    var d := Deps(u, None, None);
    match u
    case MessageUpdate(m) =>
      var text := TextOf(m);
      if text.Some? && ctx.simpleCommand(text.value).Some? then
        Some(Call(HandleSimpleCommand, d.(simple := ctx.simpleCommand(text.value))))
      else if MsgFromMaintainer(m, ctx.botMaintainer) && text.Some? && ctx.maintainerCommand(text.value).Some? then
        Some(Call(HandleMaintainerCommand, d.(maintainer := ctx.maintainerCommand(text.value))))
      else if MeAddedToGroup(m, ctx.me) then Some(Call(HandleAddedToGroup, d))
      else if ctx.hasSharedUsers(m) then Some(Call(HandleSharedUsers, d))
      else None
    case CallbackQueryUpdate(_) => Some(Call(HandleCallbackQuery, d))
    case OtherUpdate => None
  }

  /** The message branch of the tree. */
  lemma MessageBranch(ctx: Context, m: Message)
    ensures Run(ctx, BuildHandler().children[0], Deps(MessageUpdate(m), None, None))
         == Route(ctx, MessageUpdate(m))
  {
    var d := Deps(MessageUpdate(m), None, None);
    var cs := BuildHandler().children[0].next.children;
    var rs := seq(|cs|, i requires 0 <= i < |cs| => Run(ctx, cs[i], d));
    assert Run(ctx, BuildHandler().children[0], d) == FirstOf(rs);
    var text := TextOf(m);
    assert rs[0] == if text.Some? && ctx.simpleCommand(text.value).Some?
      then Some(Call(HandleSimpleCommand, d.(simple := ctx.simpleCommand(text.value)))) else None;
    assert rs[1] == if MsgFromMaintainer(m, ctx.botMaintainer) && text.Some? && ctx.maintainerCommand(text.value).Some?
      then Some(Call(HandleMaintainerCommand, d.(maintainer := ctx.maintainerCommand(text.value)))) else None;
    assert rs[2] == if MeAddedToGroup(m, ctx.me) then Some(Call(HandleAddedToGroup, d)) else None;
    assert rs[3] == if ctx.hasSharedUsers(m) then Some(Call(HandleSharedUsers, d)) else None;
    assert FirstOf(rs[3..]) == rs[3];
    assert FirstOf(rs[2..]) == if rs[2].Some? then rs[2] else FirstOf(rs[2..][1..]);
    assert rs[2..][1..] == rs[3..];
    assert FirstOf(rs[1..]) == if rs[1].Some? then rs[1] else FirstOf(rs[1..][1..]);
    assert rs[1..][1..] == rs[2..];
  }

  /** The tree routes every update exactly as `Route` says. */
  lemma BuildHandlerRoutes(ctx: Context, u: Update)
    ensures Run(ctx, BuildHandler(), Deps(u, None, None)) == Route(ctx, u)
  {
    var d := Deps(u, None, None);
    var cs := BuildHandler().children;
    var rs := seq(|cs|, i requires 0 <= i < |cs| => Run(ctx, cs[i], d));
    assert rs == [Run(ctx, cs[0], d), Run(ctx, cs[1], d)];
    assert rs[1..] == [rs[1]];
    if u.MessageUpdate? {
      MessageBranch(ctx, u.message);
    }
  }

  /** A recognised simple command goes to `handle_simple_command`, even from the maintainer. */
  lemma SimpleCommandFirst(ctx: Context, m: Message, t: string, c: SimpleCommand)
    requires TextOf(m) == Some(t) && ctx.simpleCommand(t) == Some(c)
    ensures Run(ctx, BuildHandler(), Deps(MessageUpdate(m), None, None))
         == Some(Call(HandleSimpleCommand, Deps(MessageUpdate(m), Some(c), None)))
  {
    BuildHandlerRoutes(ctx, MessageUpdate(m));
  }

  /**
    The maintainer branch runs only for the maintainer's own text that is a
    maintainer command and not a simple one; otherwise the later branches
    get the message.
  */
  lemma MaintainerBranchExactly(ctx: Context, m: Message)
    ensures Run(ctx, BuildHandler(), Deps(MessageUpdate(m), None, None)).Some? &&
            Run(ctx, BuildHandler(), Deps(MessageUpdate(m), None, None)).value.target == HandleMaintainerCommand
        <==> MsgFromMaintainer(m, ctx.botMaintainer) && TextOf(m).Some?
             && ctx.simpleCommand(TextOf(m).value).None? && ctx.maintainerCommand(TextOf(m).value).Some?
  {
    BuildHandlerRoutes(ctx, MessageUpdate(m));
  }

  /** Every callback query reaches `handle_callback_query`. */
  lemma CallbackQueriesAlwaysHandled(ctx: Context, q: CallbackQuery)
    ensures Run(ctx, BuildHandler(), Deps(CallbackQueryUpdate(q), None, None))
         == Some(Call(HandleCallbackQuery, Deps(CallbackQueryUpdate(q), None, None)))
  {
    BuildHandlerRoutes(ctx, CallbackQueryUpdate(q));
  }

  /** Updates of other kinds, and messages no branch takes, reach no endpoint of the tree. */
  lemma Unhandled(ctx: Context, u: Update)
    requires u.OtherUpdate? ||
      (u.MessageUpdate? && !MeAddedToGroup(u.message, ctx.me) && !ctx.hasSharedUsers(u.message) &&
       (TextOf(u.message).None? ||
        (ctx.simpleCommand(TextOf(u.message).value).None? &&
         (!MsgFromMaintainer(u.message, ctx.botMaintainer) || ctx.maintainerCommand(TextOf(u.message).value).None?))))
    ensures Run(ctx, BuildHandler(), Deps(u, None, None)) == None
  {
    BuildHandlerRoutes(ctx, u);
  }
}
