/**
  * `DirectMessageHandler` (bot/handlers/message_handler.py): the three-step
  * direct-message conversation (name, contact, text); the last step inserts
  * the message, attempts the admin notification, clears `user_data` and
  * ends the conversation.
  */
module MessageFlow {
  import opened Text
  import opened Validators
  import opened Tables
  import opened BotConfig
  import opened Conversation
  import opened Notifications

  /** The keys the steps before the last store, in order. */
  const MessageSteps: seq<string> := [CustomerNameKey, ContactInfoKey]

  const PreviewLength := 100

  /** The preview in the confirmation: the first 100 characters and `...`, or the whole text. */
  function MessagePreview(text: string): (r: string)
    ensures |text| <= PreviewLength ==> r == text
    ensures |text| > PreviewLength ==> |r| == PreviewLength + 3 && r[..PreviewLength] == text[..PreviewLength] && r[PreviewLength..] == "..."
  {
    if |text| > PreviewLength then text[..PreviewLength] + "..." else text
  }

  /** The preview always begins with as much of the text as it has room for. */
  lemma PreviewIsPrefix(text: string)
    ensures var r := MessagePreview(text);
            |r| <= PreviewLength + 3 && StartsWith(text, r[..if |text| < PreviewLength then |text| else PreviewLength])
  {
    var r := MessagePreview(text);
    var n := if |text| < PreviewLength then |text| else PreviewLength;
    assert r[..n] == text[..n];
  }

  /** The keys the final step reads with `[...]` are there and neither is `None`. */
  predicate Ready(data: map<string, Value>) {
    && CustomerNameKey in data && ContactInfoKey in data
    && data[CustomerNameKey] != Null && data[ContactInfoKey] != Null
  }

  predicate Places(data: map<string, Value>, fault: Fault) {
    Ready(data) && fault != StoreFault
  }

  function MessageFor(data: map<string, Value>, text: string, userId: int): MessageRow
    requires Ready(data)
  {
    MessageRow(data[CustomerNameKey], data[ContactInfoKey], Str(text), Pending, Some(userId), None)
  }

  function NoticeFor(id: int, data: map<string, Value>, text: string): Notice
    requires Ready(data)
  {
    NewMessage(id, data[CustomerNameKey], data[ContactInfoKey], text)
  }

  /** Once the name and contact steps have run, the final step has everything it reads. */
  lemma CollectedIsReady(data: map<string, Value>)
    requires Holds(data, MessageSteps, 2, {})
    ensures Ready(data)
  {
    var keys := Stored(MessageSteps, 2);
    assert MessageSteps[..2] == MessageSteps;
    assert CustomerNameKey == MessageSteps[0] && ContactInfoKey == MessageSteps[1];
  }

  /** While the flow waits in step `state`, `user_data` holds exactly what the earlier steps stored. */
  ghost predicate InProgress(state: int, data: map<string, Value>) {
    InStep(state, WaitingMessageName, MessageSteps, {}, data)
  }

  class MessageConversation {
    const ctx: UserContext
    const messages: MessageModel
    const notifier: Notifier
    const rule: ContactRule
    /** The state the conversation handler recorded from the last step. */
    var state: int

    constructor(ctx: UserContext, messages: MessageModel, notifier: Notifier, rule: ContactRule)
      ensures this.ctx == ctx && this.messages == messages && this.notifier == notifier
      ensures this.rule == rule && state == End
    {
      this.ctx := ctx;
      this.messages := messages;
      this.notifier := notifier;
      this.rule := rule;
      state := End;
    }


    /** `start_message_conversation`. */
    method StartMessageConversation() returns (next: int)
      modifies this`state, ctx
      ensures next == WaitingMessageName && state == next && ctx.userData == map[]
      ensures InProgress(next, ctx.userData)
    {
      ctx.userData := map[];
      state := WaitingMessageName;
      return WaitingMessageName;
    }

    /** `handle_message_name`. */
    method HandleMessageName(text: string) returns (next: int)
      modifies this`state, ctx
      ensures state == next
      ensures var r := ValidateName(text);
              if r.ok then next == WaitingMessageContact && ctx.userData == old(ctx.userData)[CustomerNameKey := Str(r.value)]
              else next == WaitingMessageName && ctx.userData == old(ctx.userData)
      ensures InProgress(WaitingMessageName, old(ctx.userData)) ==> InProgress(next, ctx.userData)
    {
      var r := ValidateName(text);
      if !r.ok {
        state := WaitingMessageName;
        return WaitingMessageName;
      }
      Record(WaitingMessageName, Str(r.value));
      return WaitingMessageContact;
    }

    /** `handle_message_contact`. */
    method HandleMessageContact(text: string) returns (next: int)
      modifies this`state, ctx
      ensures state == next
      ensures var r := ValidateContact(rule, text);
              if r.ok then next == WaitingMessageText && ctx.userData == old(ctx.userData)[ContactInfoKey := Str(r.value)]
              else next == WaitingMessageContact && ctx.userData == old(ctx.userData)
      ensures InProgress(WaitingMessageContact, old(ctx.userData)) ==> InProgress(next, ctx.userData)
    {
      var r := ValidateContact(rule, text);
      if !r.ok {
        state := WaitingMessageContact;
        return WaitingMessageContact;
      }
      Record(WaitingMessageContact, Str(r.value));
      return WaitingMessageText;
    }

    /**
      * `handle_message_text`: on valid text, one `create_message` call, then
      * at most one notification, only for a stored message; `user_data` is
      * cleared and the conversation ends whether or not it was stored.
      */
    method HandleMessageText(text: string, userId: int, fault: Fault) returns (next: int)
      requires messages.Valid()
      modifies this`state, ctx, messages, notifier
      ensures messages.Valid() && state == next
      ensures !ValidateMessageText(text).ok ==>
                && next == WaitingMessageText && ctx.userData == old(ctx.userData)
                && messages.rows == old(messages.rows) && messages.nextId == old(messages.nextId)
                && notifier.attempts == old(notifier.attempts)
      ensures ValidateMessageText(text).ok ==> next == End && ctx.userData == map[]
      ensures ValidateMessageText(text).ok ==>
                Submitted(old(ctx.userData), ValidateMessageText(text).value, userId, fault,
                          old(messages.rows), old(messages.nextId), old(notifier.attempts))
      ensures InProgress(WaitingMessageText, old(ctx.userData)) && fault != StoreFault ==> Places(old(ctx.userData), fault)
    {
      if InProgress(WaitingMessageText, ctx.userData) {
        CollectedIsReady(ctx.userData);
      }
      var r := ValidateMessageText(text);
      if !r.ok {
        state := WaitingMessageText;
        return WaitingMessageText;
      }
      ghost var before := ctx.userData;
      ctx.userData := ctx.userData[MessageTextKey := Str(r.value)];
      SubmitMessage(ctx.userData, before, r.value, userId, fault);
      ctx.userData := map[];
      state := End;
      return End;
    }

    /**
      * What the final step did to the table and the notifications: with
      * `Places`, one new row under the next id and, without a fault, one
      * notification for it; otherwise neither.
      */
    ghost predicate Submitted(data: map<string, Value>, text: string, userId: int, fault: Fault,
                              rows0: map<int, MessageRow>, next0: int, attempts0: seq<Notice>)
      reads messages, notifier
    {
      if Places(data, fault) then
        && messages.rows == rows0[next0 := MessageFor(data, text, userId)]
        && next0 !in rows0 && messages.nextId == next0 + 1
        && notifier.attempts == attempts0 + (if fault == NoFault then [NoticeFor(next0, data, text)] else [])
      else
        messages.rows == rows0 && messages.nextId == next0 && notifier.attempts == attempts0
    }

    /** The `try` block of the final step, on `user_data` with the text stored. */
    method SubmitMessage(data: map<string, Value>, ghost before: map<string, Value>, text: string, userId: int, fault: Fault)
      requires messages.Valid()
      requires data == before[MessageTextKey := Str(text)]
      modifies messages, notifier
      ensures messages.Valid()
      ensures Submitted(before, text, userId, fault, old(messages.rows), old(messages.nextId), old(notifier.attempts))
    {
      if fault != StoreFault && CustomerNameKey in data && ContactInfoKey in data {
        assert data[CustomerNameKey] == before[CustomerNameKey] && data[ContactInfoKey] == before[ContactInfoKey];
        var ok, id := messages.CreateMessage(data[CustomerNameKey], data[ContactInfoKey], Str(text), Some(userId));
        if ok && fault == NoFault {
          notifier.Notify(NewMessage(id, data[CustomerNameKey], data[ContactInfoKey], text));
        }
      } else {
        assert !Places(before, fault);
      }
    }

    /** Stores the value step `step` collected under its key and moves on to the next step. */
    method Record(step: int, v: Value)
      requires WaitingMessageName <= step < WaitingMessageText && (v != Null)
      modifies this`state, ctx
      ensures state == step + 1 && ctx.userData == old(ctx.userData)[MessageSteps[step - WaitingMessageName] := v]
      ensures InProgress(step, old(ctx.userData)) ==> InProgress(step + 1, ctx.userData)
    {
      if InProgress(step, ctx.userData) {
        Advance(step, WaitingMessageName, MessageSteps, {}, ctx.userData, v);
      }
      ctx.userData := ctx.userData[MessageSteps[step - WaitingMessageName] := v];
      state := step + 1;
    }

    /** `cancel_message`: from any state, nothing stored. */
    method CancelMessage() returns (next: int)
      modifies this`state, ctx
      ensures next == End && state == End && ctx.userData == map[]
    {
      ctx.userData := map[];
      state := End;
      return End;
    }
  }
}
