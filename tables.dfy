/**
  * The bot's SQLite tables (users, orders, schedules, messages, services)
  * and the model classes that read and write them. A table is a map from
  * row id to row plus the AUTOINCREMENT counter; an insert takes the
  * counter's value as the new row's id, and `ORDER BY created_at DESC`
  * lists larger ids first.
  */
module Tables {
  import opened Text
  import Listing

  /** A Python value bound to an SQL parameter (or kept in `user_data`). */
  datatype Value = Str(s: string) | Num(n: int) | Null

  // ---------------------------------------------------------------------
  // users: telegram_user_id is UNIQUE NOT NULL

  datatype UserRow = UserRow(telegramUserId: int, username: Option<string>, firstName: Option<string>, lastName: Option<string>)

  class UserModel {
    var rows: map<int, UserRow>
    var nextId: int

    /** At most one row per Telegram id. */
    ghost predicate Valid()
      reads this
    {
      && Listing.IdsBelow(rows, nextId)
      && forall a, b :: a in rows && b in rows && rows[a].telegramUserId == rows[b].telegramUserId ==> a == b
    }

    constructor()
      ensures Valid() && rows == map[] && nextId == 1
    {
      rows := map[];
      nextId := 1;
    }

    /** The id of the row for a Telegram user, if there is one. */
    method GetUser(telegramUserId: int) returns (found: Option<int>)
      requires Valid()
      ensures found.None? <==> forall id :: id in rows ==> rows[id].telegramUserId != telegramUserId
      ensures found.Some? ==> found.value in rows && rows[found.value].telegramUserId == telegramUserId
    {
      found := Listing.FirstWhere(rows, nextId, (r: UserRow) => r.telegramUserId == telegramUserId);
    }

    /**
      * Updates the name fields of the user's existing row and returns its id,
      * or inserts a new row and returns the new id.
      */
    method CreateOrUpdateUser(telegramUserId: int, username: Option<string>, firstName: Option<string>, lastName: Option<string>)
      returns (id: int)
      requires Valid()
      modifies this
      ensures Valid()
      ensures rows == old(rows)[id := UserRow(telegramUserId, username, firstName, lastName)]
      ensures id in old(rows) ==> old(rows)[id].telegramUserId == telegramUserId && nextId == old(nextId)
      ensures id !in old(rows) ==> id == old(nextId) && nextId == old(nextId) + 1
      ensures id !in old(rows) ==> forall k :: k in old(rows) ==> old(rows)[k].telegramUserId != telegramUserId
    {
      var existing := GetUser(telegramUserId);
      if existing.Some? {
        id := existing.value;
        rows := rows[id := UserRow(telegramUserId, username, firstName, lastName)];
      } else {
        id := nextId;
        rows := rows[id := UserRow(telegramUserId, username, firstName, lastName)];
        nextId := nextId + 1;
      }
    }
  }

  // ---------------------------------------------------------------------
  // orders: customer_name, product_type, quantity, delivery_date and
  // contact_info are NOT NULL; order_status defaults to 'Pending'

  datatype OrderRow = OrderRow(
    customerName: Value, companyName: Value, productType: Value, quantity: Value,
    deliveryDate: Value, contactInfo: Value, status: string, telegramUserId: Option<int>, notes: Value)

  const Pending := "Pending"

  class OrderModel {
    var rows: map<int, OrderRow>
    var nextId: int

    ghost predicate Valid()
      reads this
    {
      Listing.IdsBelow(rows, nextId)
    }

    constructor()
      ensures Valid() && rows == map[] && nextId == 1
    {
      rows := map[];
      nextId := 1;
    }

    /**
      * Inserts one row with status 'Pending' and returns its id; `ok` is false
      * (SQLite's IntegrityError) when a NOT NULL column gets None, and then
      * nothing is inserted.
      */
    method CreateOrder(customerName: Value, companyName: Value, productType: Value, quantity: Value,
                       deliveryDate: Value, contactInfo: Value, telegramUserId: Option<int>, notes: Value)
      returns (ok: bool, id: int)
      requires Valid()
      modifies this
      ensures Valid()
      ensures ok <==> customerName != Null && productType != Null && quantity != Null && deliveryDate != Null && contactInfo != Null
      ensures ok ==> id == old(nextId) && id !in old(rows) && nextId == old(nextId) + 1
      ensures ok ==> rows == old(rows)[id := OrderRow(customerName, companyName, productType, quantity, deliveryDate, contactInfo, Pending, telegramUserId, notes)]
      ensures !ok ==> rows == old(rows) && nextId == old(nextId)
    {
      ok := customerName != Null && productType != Null && quantity != Null && deliveryDate != Null && contactInfo != Null;
      id := 0;
      if ok {
        id := nextId;
        rows := rows[id := OrderRow(customerName, companyName, productType, quantity, deliveryDate, contactInfo, Pending, telegramUserId, notes)];
        nextId := nextId + 1;
      }
    }

    /** The row with this id, or None. */
    function GetOrder(id: int): (r: Option<OrderRow>)
      reads this
      ensures r.None? <==> id !in rows
      ensures r.Some? ==> id in rows && rows[id] == r.value
    {
      if id in rows then Some(rows[id]) else None
    }

    /** The ids of the orders with this status, newest first. */
    method GetOrdersByStatus(status: string) returns (ids: seq<int>)
      requires Valid()
      ensures Listing.Descending(ids)
      ensures Listing.Selects(ids, rows, (r: OrderRow) => r.status == status)
    {
      ids := Listing.NewestFirst(rows, nextId, (r: OrderRow) => r.status == status);
    }

    /** Sets the status of one row; true exactly when the row exists. */
    method UpdateOrderStatus(id: int, status: string) returns (found: bool)
      modifies this
      ensures found <==> id in old(rows)
      ensures found ==> rows == old(rows)[id := old(rows)[id].(status := status)]
      ensures !found ==> rows == old(rows)
      ensures nextId == old(nextId)
    {
      found := id in rows;
      if found {
        rows := rows[id := rows[id].(status := status)];
      }
    }

    /** At most `limit` ids (all of them when `limit` is negative), newest first. */
    method GetRecentOrders(limit: int) returns (ids: seq<int>)
      requires Valid()
      ensures Listing.Descending(ids)
      ensures forall i :: 0 <= i < |ids| ==> ids[i] in rows
      ensures limit >= 0 ==> |ids| <= limit
      ensures limit < 0 || |ids| < limit ==> forall id :: id in rows ==> id in ids
      ensures forall id, i :: id in rows && id !in ids && 0 <= i < |ids| ==> id < ids[i]
    {
      var all := Listing.NewestFirst(rows, nextId, (r: OrderRow) => true);
      ids := Listing.Limit(all, limit);
      forall id, i | id in rows && id !in ids && 0 <= i < |ids| ensures id < ids[i] {
        var k :| 0 <= k < |all| && all[k] == id;
        assert ids[i] == all[i];
        assert i < k;
      }
    }
  }

  // ---------------------------------------------------------------------
  // schedules: customer_name, contact_info and preferred_datetime are
  // NOT NULL; status defaults to 'Pending'

  datatype ScheduleRow = ScheduleRow(
    customerName: Value, contactInfo: Value, preferredDatetime: Value,
    status: string, telegramUserId: Option<int>, notes: Value)

  class ScheduleModel {
    var rows: map<int, ScheduleRow>
    var nextId: int

    ghost predicate Valid()
      reads this
    {
      Listing.IdsBelow(rows, nextId)
    }

    constructor()
      ensures Valid() && rows == map[] && nextId == 1
    {
      rows := map[];
      nextId := 1;
    }

    method CreateSchedule(customerName: Value, contactInfo: Value, preferredDatetime: Value, telegramUserId: Option<int>, notes: Value)
      returns (ok: bool, id: int)
      requires Valid()
      modifies this
      ensures Valid()
      ensures ok <==> customerName != Null && contactInfo != Null && preferredDatetime != Null
      ensures ok ==> id == old(nextId) && id !in old(rows) && nextId == old(nextId) + 1
      ensures ok ==> rows == old(rows)[id := ScheduleRow(customerName, contactInfo, preferredDatetime, Pending, telegramUserId, notes)]
      ensures !ok ==> rows == old(rows) && nextId == old(nextId)
    {
      ok := customerName != Null && contactInfo != Null && preferredDatetime != Null;
      id := 0;
      if ok {
        id := nextId;
        rows := rows[id := ScheduleRow(customerName, contactInfo, preferredDatetime, Pending, telegramUserId, notes)];
        nextId := nextId + 1;
      }
    }

    function GetSchedule(id: int): (r: Option<ScheduleRow>)
      reads this
      ensures r.None? <==> id !in rows
      ensures r.Some? ==> id in rows && rows[id] == r.value
    {
      if id in rows then Some(rows[id]) else None
    }

    /** The ids of the 'Pending' schedules, newest first. */
    method GetPendingSchedules() returns (ids: seq<int>)
      requires Valid()
      ensures Listing.Descending(ids)
      ensures Listing.Selects(ids, rows, (r: ScheduleRow) => r.status == Pending)
    {
      ids := Listing.NewestFirst(rows, nextId, (r: ScheduleRow) => r.status == Pending);
    }

    method UpdateScheduleStatus(id: int, status: string) returns (found: bool)
      modifies this
      ensures found <==> id in old(rows)
      ensures found ==> rows == old(rows)[id := old(rows)[id].(status := status)]
      ensures !found ==> rows == old(rows)
      ensures nextId == old(nextId)
    {
      found := id in rows;
      if found {
        rows := rows[id := rows[id].(status := status)];
      }
    }
  }

  // ---------------------------------------------------------------------
  // messages: customer_name, contact_info and message_text are NOT NULL;
  // status defaults to 'Pending', response to NULL

  datatype MessageRow = MessageRow(
    customerName: Value, contactInfo: Value, messageText: Value,
    status: string, telegramUserId: Option<int>, response: Option<string>)

  class MessageModel {
    var rows: map<int, MessageRow>
    var nextId: int

    ghost predicate Valid()
      reads this
    {
      Listing.IdsBelow(rows, nextId)
    }

    constructor()
      ensures Valid() && rows == map[] && nextId == 1
    {
      rows := map[];
      nextId := 1;
    }

    method CreateMessage(customerName: Value, contactInfo: Value, messageText: Value, telegramUserId: Option<int>)
      returns (ok: bool, id: int)
      requires Valid()
      modifies this
      ensures Valid()
      ensures ok <==> customerName != Null && contactInfo != Null && messageText != Null
      ensures ok ==> id == old(nextId) && id !in old(rows) && nextId == old(nextId) + 1
      ensures ok ==> rows == old(rows)[id := MessageRow(customerName, contactInfo, messageText, Pending, telegramUserId, None)]
      ensures !ok ==> rows == old(rows) && nextId == old(nextId)
    {
      ok := customerName != Null && contactInfo != Null && messageText != Null;
      id := 0;
      if ok {
        id := nextId;
        rows := rows[id := MessageRow(customerName, contactInfo, messageText, Pending, telegramUserId, None)];
        nextId := nextId + 1;
      }
    }

    function GetMessage(id: int): (r: Option<MessageRow>)
      reads this
      ensures r.None? <==> id !in rows
      ensures r.Some? ==> id in rows && rows[id] == r.value
    {
      if id in rows then Some(rows[id]) else None
    }

    /** The ids of the 'Pending' messages, newest first. */
    method GetPendingMessages() returns (ids: seq<int>)
      requires Valid()
      ensures Listing.Descending(ids)
      ensures Listing.Selects(ids, rows, (r: MessageRow) => r.status == Pending)
    {
      ids := Listing.NewestFirst(rows, nextId, (r: MessageRow) => r.status == Pending);
    }

    /** Overwrites status and response together; an omitted response is None (NULL). */
    method UpdateMessageStatus(id: int, status: string, response: Option<string>) returns (found: bool)
      modifies this
      ensures found <==> id in old(rows)
      ensures found ==> rows == old(rows)[id := old(rows)[id].(status := status, response := response)]
      ensures !found ==> rows == old(rows)
      ensures nextId == old(nextId)
    {
      found := id in rows;
      if found {
        rows := rows[id := rows[id].(status := status, response := response)];
      }
    }
  }

  // ---------------------------------------------------------------------
  // services: name is NOT NULL UNIQUE, is_active defaults to 1

  datatype ServiceRow = ServiceRow(name: string, description: Option<string>, priceRange: Option<string>, isActive: bool)

  class ServiceModel {
    var rows: map<int, ServiceRow>
    var nextId: int

    /** No two services share a name. */
    ghost predicate Valid()
      reads this
    {
      && Listing.IdsBelow(rows, nextId)
      && forall a, b :: a in rows && b in rows && rows[a].name == rows[b].name ==> a == b
    }

    /** A services table holding the given rows. */
    constructor(initial: map<int, ServiceRow>, next: int)
      requires Listing.IdsBelow(initial, next)
      requires forall a, b :: a in initial && b in initial && initial[a].name == initial[b].name ==> a == b
      ensures Valid() && rows == initial && nextId == next
    {
      rows := initial;
      nextId := next;
    }

    /** The ids of the active services in strictly increasing name order. */
    method GetActiveServices() returns (ids: seq<int>)
      requires Valid()
      ensures Listing.Selects(ids, rows, (r: ServiceRow) => r.isActive)
      ensures forall i, j :: 0 <= i < j < |ids| ==> Listing.TextBefore(rows[ids[i]].name, rows[ids[j]].name)
    {
      ids := Listing.SortByName(rows, nextId, (r: ServiceRow) => r.isActive, (r: ServiceRow) => r.name);
      forall i, j | 0 <= i < j < |ids| ensures Listing.TextBefore(rows[ids[i]].name, rows[ids[j]].name) {
        assert ids[i] != ids[j];
      }
    }

    /** The names of the listed services, in order. */
    function Names(ids: seq<int>): (names: seq<string>)
      reads this
      requires forall i :: 0 <= i < |ids| ==> ids[i] in rows
      ensures |names| == |ids| && forall i :: 0 <= i < |ids| ==> names[i] == rows[ids[i]].name
    {
      if ids == [] then [] else [rows[ids[0]].name] + Names(ids[1..])
    }

    function GetService(id: int): (r: Option<ServiceRow>)
      reads this
      ensures r.None? <==> id !in rows
      ensures r.Some? ==> id in rows && rows[id] == r.value
    {
      if id in rows then Some(rows[id]) else None
    }

    /** The id of the service with exactly this name, if any. */
    method GetServiceByName(name: string) returns (found: Option<int>)
      requires Valid()
      ensures found.None? <==> forall id :: id in rows ==> rows[id].name != name
      ensures found.Some? ==> found.value in rows && rows[found.value].name == name
    {
      found := Listing.FirstWhere(rows, nextId, (r: ServiceRow) => r.name == name);
    }
  }
}
