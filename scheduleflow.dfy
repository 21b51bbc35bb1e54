/**
  * `ScheduleHandler` (bot/handlers/schedule_handler.py): the three-step
  * consultation conversation (name, contact, preferred time); the last step
  * inserts the schedule, attempts the admin notification, clears
  * `user_data` and ends the conversation.
  */
module ScheduleFlow {
  import opened Text
  import opened Civil
  import opened Validators
  import opened Tables
  import opened BotConfig
  import opened Conversation
  import opened Notifications

  /** The keys the steps before the last store, in order. */
  const ScheduleSteps: seq<string> := [CustomerNameKey, ContactInfoKey]

  /** The keys the final step reads with `[...]` are there and neither is `None`. */
  predicate Ready(data: map<string, Value>) {
    && CustomerNameKey in data && ContactInfoKey in data
    && data[CustomerNameKey] != Null && data[ContactInfoKey] != Null
  }

  predicate Places(data: map<string, Value>, fault: Fault) {
    Ready(data) && fault != StoreFault
  }

  function ScheduleFor(data: map<string, Value>, preferred: string, userId: int): ScheduleRow
    requires Ready(data)
  {
    ScheduleRow(data[CustomerNameKey], data[ContactInfoKey], Str(preferred), Pending, Some(userId), Null)
  }

  function NoticeFor(id: int, data: map<string, Value>, preferred: string): Notice
    requires Ready(data)
  {
    NewSchedule(id, data[CustomerNameKey], data[ContactInfoKey], preferred)
  }

  /** Once the name and contact steps have run, the final step has everything it reads. */
  lemma CollectedIsReady(data: map<string, Value>)
    requires Holds(data, ScheduleSteps, 2, {})
    ensures Ready(data)
  {
    var keys := Stored(ScheduleSteps, 2);
    assert ScheduleSteps[..2] == ScheduleSteps;
    assert CustomerNameKey == ScheduleSteps[0] && ContactInfoKey == ScheduleSteps[1];
  }

  /** While the flow waits in step `state`, `user_data` holds exactly what the earlier steps stored. */
  ghost predicate InProgress(state: int, data: map<string, Value>) {
    InStep(state, WaitingScheduleName, ScheduleSteps, {}, data)
  }

  class ScheduleConversation {
    const ctx: UserContext
    const schedules: ScheduleModel
    const notifier: Notifier
    const rule: ContactRule
    /** The state the conversation handler recorded from the last step. */
    var state: int

    constructor(ctx: UserContext, schedules: ScheduleModel, notifier: Notifier, rule: ContactRule)
      ensures this.ctx == ctx && this.schedules == schedules && this.notifier == notifier
      ensures this.rule == rule && state == End
    {
      this.ctx := ctx;
      this.schedules := schedules;
      this.notifier := notifier;
      this.rule := rule;
      state := End;
    }


    /** `start_schedule_conversation`. */
    method StartScheduleConversation() returns (next: int)
      modifies this`state, ctx
      ensures next == WaitingScheduleName && state == next && ctx.userData == map[]
      ensures InProgress(next, ctx.userData)
    {
      ctx.userData := map[];
      state := WaitingScheduleName;
      return WaitingScheduleName;
    }

    /** `handle_schedule_name`. */
    method HandleScheduleName(text: string) returns (next: int)
      modifies this`state, ctx
      ensures state == next
      ensures var r := ValidateName(text);
              if r.ok then next == WaitingScheduleContact && ctx.userData == old(ctx.userData)[CustomerNameKey := Str(r.value)]
              else next == WaitingScheduleName && ctx.userData == old(ctx.userData)
      ensures InProgress(WaitingScheduleName, old(ctx.userData)) ==> InProgress(next, ctx.userData)
    {
      var r := ValidateName(text);
      if !r.ok {
        state := WaitingScheduleName;
        return WaitingScheduleName;
      }
      Record(WaitingScheduleName, Str(r.value));
      return WaitingScheduleContact;
    }

    /** `handle_schedule_contact`. */
    method HandleScheduleContact(text: string) returns (next: int)
      modifies this`state, ctx
      ensures state == next
      ensures var r := ValidateContact(rule, text);
              if r.ok then next == WaitingScheduleDatetime && ctx.userData == old(ctx.userData)[ContactInfoKey := Str(r.value)]
              else next == WaitingScheduleContact && ctx.userData == old(ctx.userData)
      ensures InProgress(WaitingScheduleContact, old(ctx.userData)) ==> InProgress(next, ctx.userData)
    {
      var r := ValidateContact(rule, text);
      if !r.ok {
        state := WaitingScheduleContact;
        return WaitingScheduleContact;
      }
      Record(WaitingScheduleContact, Str(r.value));
      return WaitingScheduleDatetime;
    }

    /**
      * `handle_schedule_datetime`, with the clock reading `now`: on a valid
      * preference, one `create_schedule` call with the processed text, then
      * at most one notification, only for a stored schedule; `user_data` is
      * cleared and the conversation ends whether or not it was stored.
      */
    method HandleScheduleDatetime(text: string, now: Moment, userId: int, fault: Fault) returns (next: int)
      requires schedules.Valid()
      modifies this`state, ctx, schedules, notifier
      ensures schedules.Valid() && state == next
      ensures !PreferenceVerdict(now, text).ok ==>
                && next == WaitingScheduleDatetime && ctx.userData == old(ctx.userData)
                && schedules.rows == old(schedules.rows) && schedules.nextId == old(schedules.nextId)
                && notifier.attempts == old(notifier.attempts)
      ensures PreferenceVerdict(now, text).ok ==> next == End && ctx.userData == map[]
      ensures PreferenceVerdict(now, text).ok ==>
                Submitted(old(ctx.userData), PreferenceVerdict(now, text).value, userId, fault,
                          old(schedules.rows), old(schedules.nextId), old(notifier.attempts))
      ensures InProgress(WaitingScheduleDatetime, old(ctx.userData)) && fault != StoreFault ==> Places(old(ctx.userData), fault)
    {
      if InProgress(WaitingScheduleDatetime, ctx.userData) {
        CollectedIsReady(ctx.userData);
      }
      var ok, processed := ValidateDatetimePreference(text, now);
      if !ok {
        state := WaitingScheduleDatetime;
        return WaitingScheduleDatetime;
      }
      ghost var before := ctx.userData;
      ctx.userData := ctx.userData[PreferredDatetimeKey := Str(processed)];
      SubmitSchedule(ctx.userData, before, processed, userId, fault);
      ctx.userData := map[];
      state := End;
      return End;
    }

    /**
      * What the final step did to the table and the notifications: with
      * `Places`, one new row under the next id and, without a fault, one
      * notification for it; otherwise neither.
      */
    ghost predicate Submitted(data: map<string, Value>, preferred: string, userId: int, fault: Fault,
                              rows0: map<int, ScheduleRow>, next0: int, attempts0: seq<Notice>)
      reads schedules, notifier
    {
      if Places(data, fault) then
        && schedules.rows == rows0[next0 := ScheduleFor(data, preferred, userId)]
        && next0 !in rows0 && schedules.nextId == next0 + 1
        && notifier.attempts == attempts0 + (if fault == NoFault then [NoticeFor(next0, data, preferred)] else [])
      else
        schedules.rows == rows0 && schedules.nextId == next0 && notifier.attempts == attempts0
    }

    /** The `try` block of the final step, on `user_data` with the preference stored. */
    method SubmitSchedule(data: map<string, Value>, ghost before: map<string, Value>, preferred: string, userId: int, fault: Fault)
      requires schedules.Valid()
      requires data == before[PreferredDatetimeKey := Str(preferred)]
      modifies schedules, notifier
      ensures schedules.Valid()
      ensures Submitted(before, preferred, userId, fault, old(schedules.rows), old(schedules.nextId), old(notifier.attempts))
    {
      if fault != StoreFault && CustomerNameKey in data && ContactInfoKey in data {
        assert data[CustomerNameKey] == before[CustomerNameKey] && data[ContactInfoKey] == before[ContactInfoKey];
        var ok, id := schedules.CreateSchedule(data[CustomerNameKey], data[ContactInfoKey], Str(preferred), Some(userId), Null);
        if ok && fault == NoFault {
          notifier.Notify(NewSchedule(id, data[CustomerNameKey], data[ContactInfoKey], preferred));
        }
      } else {
        assert !Places(before, fault);
      }
    }

    /** Stores the value step `step` collected under its key and moves on to the next step. */
    method Record(step: int, v: Value)
      requires WaitingScheduleName <= step < WaitingScheduleDatetime && (v != Null)
      modifies this`state, ctx
      ensures state == step + 1 && ctx.userData == old(ctx.userData)[ScheduleSteps[step - WaitingScheduleName] := v]
      ensures InProgress(step, old(ctx.userData)) ==> InProgress(step + 1, ctx.userData)
    {
      if InProgress(step, ctx.userData) {
        Advance(step, WaitingScheduleName, ScheduleSteps, {}, ctx.userData, v);
      }
      ctx.userData := ctx.userData[ScheduleSteps[step - WaitingScheduleName] := v];
      state := step + 1;
    }

    /** `cancel_schedule`: from any state, nothing stored. */
    method CancelSchedule() returns (next: int)
      modifies this`state, ctx
      ensures next == End && state == End && ctx.userData == map[]
    {
      ctx.userData := map[];
      state := End;
      return End;
    }
  }
}
