/**
  * The admin notifications of bot/utils/notifications.py, as the record of
  * the attempts: each `notify_new_*` call formats one message and posts it
  * to the admin chat, catching every error itself, so an attempt is all a
  * caller can observe.
  */
module Notifications {
  import opened Tables

  datatype Notice =
    | NewOrder(orderId: int, customerName: Value, companyName: Value, productType: Value,
               quantity: Value, deliveryDate: Value, contactInfo: Value)
    | NewSchedule(scheduleId: int, customerName: Value, contactInfo: Value, preferredDatetime: string)
    | NewMessage(messageId: int, customerName: Value, contactInfo: Value, messageText: string)

  class Notifier {
    var attempts: seq<Notice>

    constructor()
      ensures attempts == []
    {
      attempts := [];
    }

    /** One `notify_new_*` call: one more attempt, the earlier ones kept. */
    method Notify(n: Notice)
      modifies this
      ensures attempts == old(attempts) + [n]
    {
      attempts := attempts + [n];
    }
  }
}
