/**
  * `PrintingBot` (bot/bot.py): the main menu router. A menu label or an
  * inline-button tag either starts one of the three conversations (which
  * clears `user_data` and returns the flow's first state) or returns `END`;
  * `/cancel` returns `END` without touching `user_data`, and `/start`
  * upserts the user's row.
  */
module MainBot {
  import opened Text
  import opened Tables
  import opened BotConfig
  import opened Conversation
  import OrderFlow
  import ScheduleFlow
  import MessageFlow

  /** What a reply-keyboard text asks for; anything that is not exactly a label is `Fallback`. */
  datatype MenuAction = ViewServices | PlaceOrder | ScheduleTalk | MessageMe | ViewChannel | Fallback
  {
    /** The actions that start a conversation. */
    predicate Starts() {
      this == PlaceOrder || this == ScheduleTalk || this == MessageMe
    }
  }

  /** The `if`/`elif` chain of `handle_text_message` on the message text. */
  function MenuActionOf(text: string): (a: MenuAction)
    ensures a == ViewServices <==> text == ViewServicesLabel
    ensures a == PlaceOrder <==> text == PlaceOrderLabel
    ensures a == ScheduleTalk <==> text == ScheduleTalkLabel
    ensures a == MessageMe <==> text == MessageMeLabel
    ensures a == ViewChannel <==> text == ViewChannelLabel
  {
    if text == ViewServicesLabel then ViewServices
    else if text == PlaceOrderLabel then PlaceOrder
    else if text == ScheduleTalkLabel then ScheduleTalk
    else if text == MessageMeLabel then MessageMe
    else if text == ViewChannelLabel then ViewChannel
    else Fallback
  }

  /** The three inline-button tags. */
  const PlaceOrderTag := "place_order"
  const ScheduleTalkTag := "schedule_talk"
  const DirectMessageTag := "direct_message"

  /** The `if`/`elif` chain of `handle_callback_query` on `query.data`. */
  function CallbackActionOf(tag: string): (a: MenuAction)
    ensures a.Starts() || a == Fallback
    ensures a == PlaceOrder <==> tag == PlaceOrderTag
    ensures a == ScheduleTalk <==> tag == ScheduleTalkTag
    ensures a == MessageMe <==> tag == DirectMessageTag
  {
    if tag == PlaceOrderTag then PlaceOrder
    else if tag == ScheduleTalkTag then ScheduleTalk
    else if tag == DirectMessageTag then MessageMe
    else Fallback
  }

  /** The state the router returns for an action: a flow's first state, or `END`. */
  function StateAfter(a: MenuAction): (s: int)
    ensures s == End <==> !a.Starts()
    ensures a == PlaceOrder ==> s == WaitingName
    ensures a == ScheduleTalk ==> s == WaitingScheduleName
    ensures a == MessageMe ==> s == WaitingMessageName
  {
    match a
    case PlaceOrder => WaitingName
    case ScheduleTalk => WaitingScheduleName
    case MessageMe => WaitingMessageName
    case _ => End
  }

  /** Every label of the main menu keyboard is routed, each to an action of its own. */
  lemma KeyboardLabelsRouted()
    ensures forall row :: row in MainMenuKeyboard ==> forall item :: item in row ==> MenuActionOf(item) != Fallback
    ensures forall r1, c1, r2, c2 ::
              0 <= r1 < |MainMenuKeyboard| && 0 <= c1 < |MainMenuKeyboard[r1]| &&
              0 <= r2 < |MainMenuKeyboard| && 0 <= c2 < |MainMenuKeyboard[r2]| &&
              MenuActionOf(MainMenuKeyboard[r1][c1]) == MenuActionOf(MainMenuKeyboard[r2][c2])
              ==> r1 == r2 && c1 == c2
  {
    var k := MainMenuKeyboard;
    assert k[0][0] == ViewServicesLabel && k[0][1] == PlaceOrderLabel;
    assert k[1][0] == ScheduleTalkLabel && k[1][1] == MessageMeLabel && k[2][0] == ViewChannelLabel;
    assert |k| == 3 && |k[0]| == 2 && |k[1]| == 2 && |k[2]| == 1;
  }

  /** The bot object with the three conversation handlers and the users table they share with it. */
  class PrintingBot {
    const ctx: UserContext
    const users: UserModel
    const orderFlow: OrderFlow.OrderConversation
    const scheduleFlow: ScheduleFlow.ScheduleConversation
    const messageFlow: MessageFlow.MessageConversation

    /** All handlers work on the same `user_data`. */
    ghost predicate Valid()
      reads this
    {
      orderFlow.ctx == ctx && scheduleFlow.ctx == ctx && messageFlow.ctx == ctx
    }

    constructor(ctx: UserContext, users: UserModel, orderFlow: OrderFlow.OrderConversation,
                scheduleFlow: ScheduleFlow.ScheduleConversation, messageFlow: MessageFlow.MessageConversation)
      requires orderFlow.ctx == ctx && scheduleFlow.ctx == ctx && messageFlow.ctx == ctx
      ensures Valid()
      ensures this.ctx == ctx && this.users == users && this.orderFlow == orderFlow
      ensures this.scheduleFlow == scheduleFlow && this.messageFlow == messageFlow
    {
      this.ctx := ctx;
      this.users := users;
      this.orderFlow := orderFlow;
      this.scheduleFlow := scheduleFlow;
      this.messageFlow := messageFlow;
    }

    /** Runs the start handler of the conversation `a` asks for, or nothing. */
    method Dispatch(a: MenuAction) returns (next: int)
      requires Valid()
      modifies ctx, orderFlow`state, scheduleFlow`state, messageFlow`state
      ensures next == StateAfter(a)
      ensures a.Starts() ==> ctx.userData == map[]
      ensures !a.Starts() ==> ctx.userData == old(ctx.userData)
      ensures a == PlaceOrder ==> && orderFlow.state == WaitingName
                                  && OrderFlow.InProgress(orderFlow.state, ctx.userData)
      ensures a == ScheduleTalk ==> && scheduleFlow.state == WaitingScheduleName
                                    && ScheduleFlow.InProgress(scheduleFlow.state, ctx.userData)
      ensures a == MessageMe ==> && messageFlow.state == WaitingMessageName
                                 && MessageFlow.InProgress(messageFlow.state, ctx.userData)
      ensures a != PlaceOrder ==> orderFlow.state == old(orderFlow.state)
      ensures a != ScheduleTalk ==> scheduleFlow.state == old(scheduleFlow.state)
      ensures a != MessageMe ==> messageFlow.state == old(messageFlow.state)
    {
      match a
      case PlaceOrder => next := orderFlow.StartOrderConversation();
      case ScheduleTalk => next := scheduleFlow.StartScheduleConversation();
      case MessageMe => next := messageFlow.StartMessageConversation();
      case _ => next := End;
    }

    /**
      * `handle_text_message`: the five labels, matched exactly; the two that
      * only reply (services, channel) and any other text return `END`.
      */
    method HandleTextMessage(text: string) returns (next: int)
      requires Valid()
      modifies ctx, orderFlow`state, scheduleFlow`state, messageFlow`state
      ensures next == StateAfter(MenuActionOf(text))
      ensures MenuActionOf(text).Starts() ==> ctx.userData == map[]
      ensures !MenuActionOf(text).Starts() ==> ctx.userData == old(ctx.userData)
      ensures text != PlaceOrderLabel ==> orderFlow.state == old(orderFlow.state)
      ensures text != ScheduleTalkLabel ==> scheduleFlow.state == old(scheduleFlow.state)
      ensures text != MessageMeLabel ==> messageFlow.state == old(messageFlow.state)
    {
      next := Dispatch(MenuActionOf(text));
    }

    /** `handle_callback_query`: the three tags start their conversations, any other tag returns `END`. */
    method HandleCallbackQuery(tag: string) returns (next: int)
      requires Valid()
      modifies ctx, orderFlow`state, scheduleFlow`state, messageFlow`state
      ensures next == StateAfter(CallbackActionOf(tag))
      ensures CallbackActionOf(tag).Starts() ==> ctx.userData == map[]
      ensures !CallbackActionOf(tag).Starts() ==> ctx.userData == old(ctx.userData)
      ensures tag != PlaceOrderTag ==> orderFlow.state == old(orderFlow.state)
      ensures tag != ScheduleTalkTag ==> scheduleFlow.state == old(scheduleFlow.state)
      ensures tag != DirectMessageTag ==> messageFlow.state == old(messageFlow.state)
    {
      next := Dispatch(CallbackActionOf(tag));
    }

    /** `cancel_command`: returns `END` and, unlike the flows' own cancel handlers, keeps `user_data`. */
    method CancelCommand() returns (next: int)
      ensures next == End
    {
      next := End;
    }

    /** `start_command`, the database part: the user's row is created or refreshed. */
    method StartCommand(telegramUserId: int, username: Option<string>, firstName: Option<string>, lastName: Option<string>)
      returns (id: int)
      requires users.Valid()
      modifies users
      ensures users.Valid()
      ensures id in users.rows && users.rows[id] == UserRow(telegramUserId, username, firstName, lastName)
      ensures users.rows == old(users.rows)[id := UserRow(telegramUserId, username, firstName, lastName)]
      ensures id in old(users.rows) ==> old(users.rows)[id].telegramUserId == telegramUserId
      ensures id !in old(users.rows) ==> forall k :: k in old(users.rows) ==> old(users.rows)[k].telegramUserId != telegramUserId
    {
      id := users.CreateOrUpdateUser(telegramUserId, username, firstName, lastName);
    }
  }
}
