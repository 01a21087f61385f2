/**
  Posting an ad to the group (src/site/tg.rs): an edit is allowed only for
  the user's own message, the group message is posted or edited, the user is
  recorded as its author, the old report is deleted after an edit, and a
  report with a keyboard is sent to the user.

  Bot API calls are not performed: each call the workflow makes is appended
  to a trace, and the replies the Bot API would give are an input.
*/
module Posting {
  import opened Wrappers
  import opened RustStd
  import opened Decimal
  import opened Telegram
  import opened Redis
  import opened SwappyUsers
  import Commands
  import Forms

  /** The request parameters `handle_shit` reads; src/site/tg.rs:10 imports it from src/site/handlers.rs, which does not declare it. */
  datatype PostParams = PostParams(editId: Option<i32>, reportId: Option<i32>, keeping: bool)

  /** HTTP 403 and 500. */
  datatype StatusCode = Forbidden | InternalServerError

  datatype Failure = Failure(status: StatusCode, message: string)

  const NotYours: Failure := Failure(Forbidden, "Редактируемое сообщение не ваше")
  const QueryFailed: Failure := Failure(InternalServerError, "Что-то пошло не так, попробуйте позднее")
  const TryLater: Failure := Failure(InternalServerError, "Try later")

  /** `handle_shit` returns the group message id and the report id, fails with a status, or panics at `expect("kk")`. */
  datatype Outcome = Returned(result: Result<(MessageId, MessageId), Failure>) | Panicked

  /** A web address; only its query is ever changed here. */
  datatype Url = Url(base: string, query: Option<string>, fragment: Option<string>)

  /** `Url::set_query(Some(q))`. */
  function SetQuery(u: Url, q: string): (v: Url)
    ensures v.query == Some(q) && v.base == u.base && v.fragment == u.fragment
  {
    u.(query := Some(q))
  }

  datatype Button = Callback(caption: string, data: string) | WebApp(caption: string, url: Url)

  /** What a bot API call would send. */
  datatype BotCall =
    | EditText(chat: ChatId, id: MessageId, text: string)
    | SendText(chat: ChatId, text: string)
    | DeleteMessage(user: UserId, id: MessageId)
    | CopyMessage(to: UserId, from: ChatId, id: MessageId, keyboard: seq<seq<Button>>)

  /** What the Bot API answers to the calls that can fail fatally. */
  datatype BotReplies = BotReplies(posted: Result<MessageId, string>, reported: Result<MessageId, string>)

  /** One step of the workflow: a bot call, or recording the author in Redis. */
  datatype Step = Call(call: BotCall) | RecordAuthor(id: MessageId)

  /** The star suffix of the ad header. */
  function StarSuffix(count: nat): (s: string)
    ensures s == "" <==> count == 0
    ensures count > 0 ==> s == " (<i>⭐️</i>" + NatToString(count) + ")"
  {
    if count > 0 then " (<i>⭐️</i>" + NatToString(count) + ")" else ""
  }

  /** The ad text: the user mention, the stars, a colon, a blank line and the form. */
  function AdText(mention: string, count: nat, form: Forms.Form): string
  {
    mention + StarSuffix(count) + ":\n\n" + Forms.Display(form)
  }

  /** The call `post_ad` makes: an edit of the given message, or a new message. */
  function PostCall(editId: Option<i32>, group: ChatId, text: string): (c: BotCall)
    ensures c.EditText? <==> editId.Some?
    ensures c.EditText? ==> c.chat == group && c.id == editId.value && c.text == text
    ensures c.SendText? ==> c.chat == group && c.text == text
  {
    if editId.Some? then EditText(group, editId.value, text) else SendText(group, text)
  }

  /** The star count the ad shows: a failed query counts as 0. */
  function ShownStars(online: bool, members: set<seq<byte>>): nat
  {
    if online then |members| else 0
  }

  /**
    `post_ad`: the star count (0 when Redis fails), the ad text, and an edit
    of `editId` or a new message in the user's group.
  */
  method PostAd(editId: Option<i32>, user: SwappyUser, form: Forms.Form, mention: string,
                reply: Result<MessageId, string>) returns (r: Result<MessageId, string>, call: BotCall)
    ensures call == PostCall(editId, user.groupId,
                             AdText(mention, ShownStars(user.conn.online, user.conn.Members(user.MyStarsKey())), form))
    ensures r == reply
  {
    var sc := user.StarCount();
    var count := if sc.Ok? then sc.value else 0;
    var text := AdText(mention, count, form);
    if editId.Some? {
      call := EditText(user.groupId, editId.value, text);
    } else {
      call := SendText(user.groupId, text);
    }
    r := reply;
  }

  const DeleteLabel: string := "Снять 🗑️"
  const EditLabel: string := "Редактировать ✏️"

  /** The report keyboard `report_ad` builds: one row, an Edit web-app button first when kept, then Delete. */
  function ReportButtons(appUrl: Url, id: MessageId, keeping: bool): seq<seq<Button>>
  {
    var delete := Callback(DeleteLabel, Commands.Render(Commands.Delete(id)));
    var edit := WebApp(EditLabel, SetQuery(appUrl, "edit=" + IntToString(id)));
    if keeping then [[edit, delete]] else [[delete]]
  }

  /** `report_ad`'s keyboard: builds the row and inserts the Edit button at position 0. */
  method ReportKeyboard(appUrl: Url, id: MessageId, keeping: bool) returns (butts: seq<seq<Button>>)
    ensures butts == ReportButtons(appUrl, id, keeping)
  {
    var editUrl := SetQuery(appUrl, "edit=" + IntToString(id));
    var delete := Callback(DeleteLabel, Commands.Render(Commands.Delete(id)));
    butts := [[delete]];
    if keeping {
      butts := butts[0 := [WebApp(EditLabel, editUrl)] + butts[0]];
      assert butts[0] == [WebApp(EditLabel, editUrl), delete];
    }
  }

  /**
    The report keyboard has one row whose last button deletes the ad: its
    callback data reads back as `Delete(id)`. The row has an Edit button,
    at position 0, pointing at the app with query `edit={id}`, exactly when
    the ad is kept.
  */
  lemma ReportLayout(appUrl: Url, id: MessageId, keeping: bool)
    ensures var b := ReportButtons(appUrl, id, keeping);
      |b| == 1 && |b[0]| >= 1
      && b[0][|b[0]| - 1].Callback?
      && Commands.Parse(b[0][|b[0]| - 1].data) == Some(Commands.Delete(id))
      && (|b[0]| == 2 <==> keeping)
      && (keeping ==> b[0][0].WebApp? && b[0][0].url.query == Some("edit=" + IntToString(id))
                      && b[0][0].url.base == appUrl.base)
      && (forall i :: 0 <= i < |b[0]| - 1 ==> b[0][i].WebApp?)
  {
    Commands.RoundTrip(Commands.Delete(id));
  }

  /** Whether the workflow gets past the ownership guard. */
  predicate Proceeds(params: PostParams, online: bool, ads: set<seq<byte>>)
  {
    params.editId.None? || (online && AdMember(params.editId.value) in ads)
  }

  /**
    `handle_shit`. With an `editId` the user must be the author of that
    message (403 if not, 500 if Redis fails), and nothing is posted otherwise.
    The ad is posted or edited; on success the user is recorded as the author
    of the group message (a Redis failure here panics), the old report is
    deleted after an edit (its failure is only logged), and the report is
    sent.
  */
  method HandleShit(params: PostParams, form: Forms.Form, user: SwappyUser, mention: string,
                    appUrl: Url, replies: BotReplies) returns (r: Outcome, steps: seq<Step>)
    modifies user.conn
    ensures user.conn.online == old(user.conn.online)
    ensures params.editId.Some? && !old(user.conn.online) ==>
      r == Returned(Err(QueryFailed)) && steps == [] && user.conn.sets == old(user.conn.sets)
    ensures params.editId.Some? && old(user.conn.online)
            && AdMember(params.editId.value) !in old(user.conn.Members(user.MyAdsKey())) ==>
      r == Returned(Err(NotYours)) && steps == [] && user.conn.sets == old(user.conn.sets)
    ensures Proceeds(params, old(user.conn.online), old(user.conn.Members(user.MyAdsKey()))) ==>
      |steps| >= 1
      && steps[0] == Call(PostCall(params.editId, user.groupId,
                         AdText(mention, ShownStars(old(user.conn.online), old(user.conn.Members(user.MyStarsKey()))), form)))
    ensures Proceeds(params, old(user.conn.online), old(user.conn.Members(user.MyAdsKey())))
            && replies.posted.Err? ==>
      r == Returned(Err(TryLater)) && |steps| == 1 && user.conn.sets == old(user.conn.sets)
    ensures params.editId.None? && replies.posted.Ok? && !old(user.conn.online) ==>
      r == Panicked && |steps| == 2 && steps[1] == RecordAuthor(replies.posted.value)
      && user.conn.sets == old(user.conn.sets)
    ensures Proceeds(params, old(user.conn.online), old(user.conn.Members(user.MyAdsKey())))
            && replies.posted.Ok? && old(user.conn.online) ==>
      var posted := replies.posted.value;
      user.conn.sets == AddMember(old(user.conn.sets), user.MyAdsKey(), AdMember(posted))
      && steps[1..] == [RecordAuthor(posted)]
                       + (if params.editId.Some?
                          then [Call(DeleteMessage(user.tgUser.id,
                                                   if params.reportId.Some? then params.reportId.value else 0))]
                          else [])
                       + [Call(CopyMessage(user.tgUser.id, user.groupId, posted,
                                           ReportButtons(appUrl, posted, params.keeping)))]
      && r == (match replies.reported
               case Ok(report) => Returned(Ok((posted, report)))
               case Err(e) => Returned(Err(Failure(InternalServerError, e))))
  {
    var deleteOldReport := false;
    if params.editId.Some? {
      var owned := user.IsAuthor(params.editId.value);
      if owned.Err? {
        return Returned(Err(QueryFailed)), [];
      }
      if !owned.value {
        return Returned(Err(NotYours)), [];
      }
      deleteOldReport := true;
    }

    var posted, call := PostAd(params.editId, user, form, mention, replies.posted);
    steps := [Call(call)];
    if posted.Err? {
      return Returned(Err(TryLater)), steps;
    }
    var groupMsg := posted.value;

    var recorded := user.SetAuthor(groupMsg);
    steps := steps + [RecordAuthor(groupMsg)];
    if recorded.Err? {
      return Panicked, steps;
    }

    if deleteOldReport {
      var oldReport := if params.reportId.Some? then params.reportId.value else 0;
      steps := steps + [Call(DeleteMessage(user.tgUser.id, oldReport))];
    }

    var keyboard := ReportKeyboard(appUrl, groupMsg, params.keeping);
    steps := steps + [Call(CopyMessage(user.tgUser.id, user.groupId, groupMsg, keyboard))];
    match replies.reported {
      case Ok(report) =>
        r := Returned(Ok((groupMsg, report)));
      case Err(e) =>
        r := Returned(Err(Failure(InternalServerError, e)));
    }
  }
}
