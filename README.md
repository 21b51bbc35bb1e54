# KalNetworks printing bot — customer-input pipeline

A Dafny model of the part of the KalNetworks Telegram bot that turns what
a customer types into stored records:

- the input validators of `ValidationUtils` (names, company names,
  quantities, delivery dates, contact details, meeting-time preferences,
  message texts, service names, HTML escaping);
- the three conversations (place an order, schedule a talk, send a direct
  message), each a linear state machine over the states `0..11` of the bot
  configuration that collects one field of `context.user_data` per turn
  and stores one record at the end;
- the main-menu router of `PrintingBot` (menu labels and button tags) and
  the `/start` user upsert;
- the chat-language state machine of the polling bot (`user_states` and
  `user_languages` keyed by chat id) with its `offset` bookkeeping;
- the SQLite tables behind them (users, orders, schedules, messages,
  services; the admin database's services, products and settings), each
  a `map<int, Row>` with an id counter, or a `map<string, Setting>`.

Modules, one per source unit:

| module | file | models |
|---|---|---|
| `Text` | `text.dfy` | `str.strip`, `lower`, `title`, `int()` and `str()` on the ASCII range |
| `Civil` | `civil.dfy` | proleptic Gregorian dates: `toordinal`, `weekday`, ordering of `date`/`datetime` |
| `TimeFormat` | `timeformat.dfy` | `datetime.strptime` for the `%d %m %Y %H %I %M %p` directives, `strftime("%d/%m/%Y")` |
| `Validators` | `validators.dfy` | `bot/utils/validators.py` |
| `Listing` | `listing.dfy` | `ORDER BY ... DESC`, `ORDER BY name`, `LIMIT`, and single-row `WHERE` lookups over a table map |
| `Tables` | `tables.dfy` | `bot/models/database.py` |
| `AdminModels` | `adminmodels.dfy` | `database/admin_models.py` |
| `Notifications` | `notifications.dfy` | the `notify_new_*` calls, as a log of attempts |
| `BotConfig` | `botconfig.dfy` | the state numbers, `ConversationHandler.END` and the main menu labels |
| `Conversation` | `conversation.dfy` | `context.user_data`, the step invariant every flow keeps, the ways a final step can fail |
| `OrderFlow`, `ScheduleFlow`, `MessageFlow` | `orderflow.dfy`, `scheduleflow.dfy`, `messageflow.dfy` | the three conversation handlers |
| `MainBot` | `mainbot.dfy` | `bot/bot.py` |
| `SimpleBot` | `simplebot.dfy` | `render_deploy_simple_bot.py` |

Design in brief:

- Every validator returns `Checked(ok, value)`, the Python `(bool, value)`
  pair. The three validators that loop in the source (delivery date,
  meeting-time preference, service selection) are a specification
  function plus a `method` with the loop, proved equal to it. HTML
  escaping rebinds its text through five `replace` calls; it is a
  `method` doing the same, proved equal to the function `EscapeHtml`.
- `datetime.now()` is a parameter `now: Moment` of the two date
  validators and of the handlers that call them.
- A conversation is a class holding the recorded state, the shared
  `UserContext` (its `userData` map is `user_data`), the table object and
  the `Notifier`. Each step method returns the next state and states the
  new `user_data` exactly. Each step also preserves `InProgress(state,
  user_data)`: while the flow waits in a state, `user_data` holds exactly
  the keys the earlier steps stored, none of them `None` except a skipped
  company. From that, the final step provably has every key it reads.
- The final step takes a `Fault` parameter, the nondeterministic outcome
  of its `try` block. `StoreFault` means the insert raised, so nothing is
  stored and nothing is notified. `ReplyFault` means the summary reply
  raised after the insert, so the row is stored and no notification is
  sent. A `KeyError` on a missing `user_data` key and an
  `IntegrityError` on a `NOT NULL` column both take the `StoreFault` path.
- `validate_contact_info` as written never accepts a phone number (see
  Findings). The conversations are parameterised by a `ContactRule`: the
  rule as written, or the rule the code's comment describes.

## Model

| member | source | states |
|---|---|---|
| Text.ToLower | bot/utils/validators.py:110 | lower-casing keeps a character a letter exactly when it was one, leaves no upper-case letter, and leaves non-letters and lower-case letters alone |
| Text.ToUpper | bot/utils/validators.py:24 | upper-casing keeps a character a letter exactly when it was one and leaves no lower-case letter |
| Text.TrimStart | bot/utils/validators.py:14 | the result is a suffix of the input, starts with a non-whitespace character (or is empty), and only whitespace was dropped |
| Text.TrimEnd | bot/utils/validators.py:14 | the result is a prefix of the input, ends with a non-whitespace character (or is empty), and only whitespace was dropped |
| Text.TrimIsTrimmed | bot/utils/validators.py:24 | `strip()` leaves text with no whitespace at either end, and never makes text longer |
| Text.TrimmedFixed | bot/utils/validators.py:39 | text without whitespace at its ends is left unchanged by `strip()` |
| Text.TrimIdempotent | bot/utils/validators.py:102 | stripping twice is stripping once |
| Text.Lower | bot/utils/validators.py:110 | `lower()` keeps the length and lower-cases each character in place |
| Text.Title | bot/utils/validators.py:24 | `title()` keeps the length; each position is upper-cased when it starts a run of letters, lower-cased otherwise |
| Text.TitleKeepsClasses | bot/utils/validators.py:24 | `title()` keeps every letter a letter and every non-letter unchanged |
| Text.TitleIdempotent | bot/utils/validators.py:24 | title-casing twice is title-casing once |
| Text.RemoveWhere | bot/utils/validators.py:114 | `re.sub` with a character class and empty replacement: no removed character is left, each kept character comes from the input, and the text never grows |
| Text.RemoveNothing | bot/utils/validators.py:114 | removing a class the text does not use changes nothing |
| Text.NatToString | bot/utils/validators.py:45 | `str(n)` of a natural number is a non-empty run of digits |
| Text.NatToStringValue | bot/utils/validators.py:45 | the digits of `str(n)` read back as `n` |
| Text.IntToStringRoundTrip | bot/utils/validators.py:45 | `int(str(n)) == n` for every integer |
| Text.IntToStringParses | bot/utils/validators.py:45 | the rendering of any integer, including negatives, parses back to it |
| Text.IntToStringTrimmed | bot/utils/validators.py:45 | `str(n)` has no surrounding whitespace, so `strip()` leaves it alone |
| Text.ParseWithoutPadding | bot/utils/validators.py:45 | on stripped text, `int()` reads the digits with no padding to skip |
| Text.ParseDigits | bot/utils/validators.py:45 | a run of digits parses to its decimal value |
| Text.ParseNegativeDigits | bot/utils/validators.py:45 | a minus sign before digits parses to the negated value |
| Text.IntToStringInjective | render_deploy_simple_bot.py:173 | different integers have different renderings, so comparing `str(a)` with `str(b)` compares `a` with `b` |
| Civil.DaysInMonth | bot/utils/validators.py:76 | a month has 28 to 31 days, and 29 exactly in February of a leap year |
| Civil.Weekday | bot/utils/validators.py:151 | `weekday()` lies in 0..6 |
| Civil.OrdinalInYear | bot/utils/validators.py:86 | a date's day number lies inside its own year's range of day numbers |
| Civil.YearsIncrease | bot/utils/validators.py:86 | every day of an earlier year precedes every day of a later year |
| Civil.MonthsIncrease | bot/utils/validators.py:86 | every day of an earlier month precedes every day of a later month in the same year |
| Civil.OrdinalOrder | bot/utils/validators.py:86-94 | comparing dates field by field is comparing their day numbers, and two dates are equal exactly when their day numbers are |
| TimeFormat.Candidates | bot/utils/validators.py:76 | every way a directive can match at a position stays within the text |
| TimeFormat.WhitespaceRun | bot/utils/validators.py:139 | the whitespace run at a position is maximal: all of it is whitespace and the next character is not |
| TimeFormat.MatchFrom | bot/utils/validators.py:76 | a successful match of a format ends within the text, at or after where it started |
| TimeFormat.Strptime | bot/utils/validators.py:76 | `strptime` succeeds only on a valid calendar date whose format consumes the whole text, with seconds and microseconds zero |
| TimeFormat.FormatDmy | bot/utils/validators.py:97 | `strftime("%d/%m/%Y")` is ten characters, digits around slashes at positions 2 and 5 |
| TimeFormat.Pad2Value | bot/utils/validators.py:97 | a two-digit zero-padded field reads back as its value |
| TimeFormat.Pad4Value | bot/utils/validators.py:97 | a four-digit zero-padded year reads back as its value |
| TimeFormat.FirstCandidate | bot/utils/validators.py:76 | the first way a directive matches is its first alternative that matches |
| TimeFormat.DayFirst | bot/utils/validators.py:76 | on a zero-padded day, `%d` first takes both digits, with the day's value |
| TimeFormat.MonthFirst | bot/utils/validators.py:76 | on a zero-padded month, `%m` first takes both digits, with the month's value |
| TimeFormat.YearOnly | bot/utils/validators.py:76 | on four digits, `%Y` has exactly one way to match |
| TimeFormat.YearTail | bot/utils/validators.py:97 | the `/%Y` tail of a formatted date matches and captures its year |
| TimeFormat.MonthYearTail | bot/utils/validators.py:97 | the `/%m/%Y` tail of a formatted date matches and captures its month and year |
| TimeFormat.ParseFormatDmy | bot/utils/validators.py:76-97 | parsing `d.strftime("%d/%m/%Y")` with `%d/%m/%Y` gives `d` at midnight |
| Validators.ValidateName | bot/utils/validators.py:12-24 | accepted exactly when the stripped name has 2 to 50 characters, all letters, whitespace, `-` or `'`; then the stripped name title-cased, of the same length; on rejection the message for the first rule broken |
| Validators.TitleKeepsName | bot/utils/validators.py:20-24 | title-casing a stripped name of allowed characters keeps it stripped, of allowed characters, and of the same length |
| Validators.NameFixedPoint | bot/utils/validators.py:12-24 | an accepted name's output is accepted again and returned unchanged |
| Validators.ValidateCompanyName | bot/utils/validators.py:27-39 | accepted exactly when the input is empty, or its stripped form has 1 to 100 characters of the allowed class; returns the stripped text, or the message for the rule broken |
| Validators.CompanyFixedPoint | bot/utils/validators.py:27-39 | an accepted company name's output is accepted again and returned unchanged |
| Validators.ValidateQuantity | bot/utils/validators.py:42-56 | succeeds exactly when the stripped text parses as an integer in 1..100000, returning it; every failure returns `(False, 0)` |
| Validators.QuantityRoundTrip | bot/utils/validators.py:42-56 | every quantity in range, written in decimal, is accepted as itself |
| Validators.ValidateContactInfo | bot/utils/validators.py:100-121 | empty stripped input is rejected; an e-mail address is returned stripped and lower-cased; every rejection returns `""` |
| Validators.PhoneBranchNeverAccepts | bot/utils/validators.py:114-119 | as written, the stripped phone text never matches the phone pattern |
| Validators.ContactAcceptsOnlyEmail | bot/utils/validators.py:100-121 | as written, the validator accepts exactly the e-mail addresses, and returns them lower-cased |
| Validators.ValidateContactInfoIntended | bot/utils/validators.py:116 | the rule the comment describes: e-mail as before, otherwise any accepted text is returned stripped, rejection returns `""` |
| Validators.StrippedDigits | bot/utils/validators.py:114-115 | after the intended strip only digits are left exactly when the text holds only digits, whitespace, `-`, `(`, `)` and `+`, and then the digits are all that is left |
| Validators.IntendedPatternOnStripped | bot/utils/validators.py:118-119 | on stripped text, which has no `+` or newline left, the intended phone pattern holds exactly when 6 to 15 digits remain |
| Validators.ContactIntendedPhoneRule | bot/utils/validators.py:112-121 | text that is not an e-mail address is accepted by the intended rule if and only if it is phone-shaped: only digits and formatting characters, 6 to 15 digits |
| Validators.PhoneShapedNotEmail | bot/utils/validators.py:108-110 | phone-shaped text has no `@`, so it never takes the e-mail branch |
| Validators.PhoneShapedAccepted | bot/utils/validators.py:112-121 | phone-shaped input is accepted by the intended rule and returned stripped but otherwise as typed; the rule as written rejects it |
| Validators.SeparatedPhoneShape | bot/utils/validators.py:114-116 | `+CC AA-NNN(NNNN)` with 6 to 15 digits in its groups is phone-shaped |
| Validators.SeparatedPhoneNumber | bot/utils/validators.py:112-121 | `+CC AA-NNN(NNNN)` with 6 to 15 digits is accepted as typed by the intended rule and rejected as written |
| Validators.SeparatedPhoneExample | bot/utils/validators.py:112-121 | `+251 91-123(4567)` is accepted unchanged by the intended rule and rejected as written |
| Validators.PhoneRejectedExample | bot/utils/validators.py:114-119 | `0911234567` is rejected as written and accepted by the intended rule |
| Validators.LowerTrimmed | bot/utils/validators.py:102-110 | lower-casing stripped text leaves it stripped |
| Validators.LowerIdempotent | bot/utils/validators.py:110 | lower-casing twice is lower-casing once |
| Validators.LowerKeepsEmail | bot/utils/validators.py:108-110 | the lower-cased form of an e-mail address still matches the e-mail pattern |
| Validators.ContactFixedPoint | bot/utils/validators.py:100-121 | a contact the code accepts is accepted again, with the same value, when that value is entered |
| Validators.ContactIntendedFixedPoint | bot/utils/validators.py:100-121 | the same for the intended rule, for e-mail addresses and phone numbers alike |
| Validators.ValidateContact | bot/utils/validators.py:100-121 | either rule returns `""` on rejection and the stripped (possibly lower-cased) input on acceptance |
| Validators.FormatContactDisplay | bot/utils/validators.py:217-224 | the text behind a five-character badge, the e-mail badge exactly when the text contains `@` |
| Validators.ValidateMessageText | bot/utils/validators.py:169-182 | accepted exactly when the stripped text has 5 to 1000 characters, returned stripped; empty, short and long text get `""`, the too-short and the too-long message |
| Validators.FirstParse | bot/utils/validators.py:74-79 | the first format that parses decides; None exactly when no format parses; a parse is a valid date |
| Validators.FirstParseHead | bot/utils/validators.py:74-79 | when the first format parses, its result is taken |
| Validators.FirstParseSkip | bot/utils/validators.py:74-79 | when the first format fails, the rest of the list decides |
| Validators.WindowIsDatetimeComparison | bot/utils/validators.py:84-94 | the source's comparison of datetimes against tomorrow and today+365 is the window on day numbers |
| Validators.DeliveryVerdict | bot/utils/validators.py:59-97 | accepted exactly when a format parses and the date lies from tomorrow to today+365; then the date as `DD/MM/YYYY`; otherwise `""` |
| Validators.DeliveryAcceptsFormatted | bot/utils/validators.py:59-97 | any date in the window, written `DD/MM/YYYY`, is accepted and returned as written |
| Validators.DeliveryFixedPoint | bot/utils/validators.py:59-97 | the normalised date is accepted again and comes back unchanged |
| Validators.ParseFirst | bot/utils/validators.py:74-79 | the loop over the formats gives the first format's parse |
| Validators.ValidateDeliveryDate | bot/utils/validators.py:59-97 | the loop, then the window checks, return the delivery verdict |
| Validators.JudgeParsed | bot/utils/validators.py:144-157 | a parsed moment is rejected with `""`, or the text comes back, possibly with a tag appended |
| Validators.PreferenceVerdict | bot/utils/validators.py:124-166 | rejection returns `""`; an accepted value starts with the stripped text |
| Validators.PreferenceParsed | bot/utils/validators.py:142-157 | a moment a strict format parses is accepted exactly when it is after `now`; weekend moments get the weekend tag, weekday moments outside 08-18 the off-hours tag, others none |
| Validators.PreferenceFreeText | bot/utils/validators.py:160-166 | when no strict format parses, text of 5 or more characters gets the will-confirm tag and shorter text is rejected |
| Validators.MomentOrderTotal | bot/utils/validators.py:147 | `now >= m` is the negation of `m > now` |
| Validators.ValidateDatetimePreference | bot/utils/validators.py:124-166 | the loop with its early return gives the preference verdict |
| Validators.ExactIndex | bot/utils/validators.py:192-195 | the first service whose lower-cased name equals the input lower-cased, or None exactly when there is none |
| Validators.Containing | bot/utils/validators.py:198 | exactly the services whose lower-cased name contains the lower-cased input |
| Validators.ContainingAppend | bot/utils/validators.py:198 | the comprehension extends one service at a time |
| Validators.ServiceVerdict | bot/utils/validators.py:185-202 | any accepted value is one of the offered services; rejection returns `""` |
| Validators.ServiceExactWins | bot/utils/validators.py:192-195 | an exact case-insensitive match wins, and the first one in list order is taken |
| Validators.ServiceSubstringRule | bot/utils/validators.py:197-202 | without an exact match, selection succeeds exactly when one service contains the input, and returns that service |
| Validators.ValidateServiceSelection | bot/utils/validators.py:185-202 | the loop with its early return, then the comprehension, give the service verdict |
| Validators.FindExact | bot/utils/validators.py:192-195 | the loop finds the first exact match |
| Validators.ExactIndexFirst | bot/utils/validators.py:192-195 | an exact match with no earlier one is the one found |
| Validators.CollectContaining | bot/utils/validators.py:198 | the loop collects the substring matches in list order |
| Validators.ReplaceCharAbsent | bot/utils/validators.py:207-213 | replacing a character the text lacks changes nothing |
| Validators.ReplaceSpecialsIsEscape | bot/utils/validators.py:207-213 | the five `replace` calls in sequence, `&` first, replace each special character by its entity exactly once, nothing double-escaped |
| Validators.EscapeHtmlHasNoSpecials | bot/utils/validators.py:205-214 | no `<`, `>`, `"` or `'` survives escaping |
| Validators.UnescapeEscape | bot/utils/validators.py:205-214 | decoding the entities gives back the original text: escaping loses nothing |
| Validators.SanitizeTextForHtml | bot/utils/validators.py:205-214 | the text rebound through the five replaces is the one-pass escape, decodes back to the input, and holds none of `<`, `>`, `"`, `'` |
| Listing.NewestFirst | bot/models/database.py:119 | the ids of exactly the selected rows, each once, in strictly decreasing order |
| Listing.FirstWhere | bot/models/database.py:221-224 | the lowest id whose row matches, or None exactly when none matches |
| Listing.Limit | bot/models/database.py:130 | `LIMIT n` keeps the first `n` rows, or all of them when `n` is negative |
| Listing.TextIrreflexive | database/admin_models.py:155 | no name comes before itself |
| Listing.TextTotal | database/admin_models.py:155 | name order is total |
| Listing.TextTransitive | database/admin_models.py:155 | name order is transitive |
| Listing.TextAsymmetric | database/admin_models.py:155 | name order is asymmetric |
| Listing.InsertByName | database/admin_models.py:155 | inserting one id keeps the others and adds it |
| Listing.InsertKeepsDistinct | database/admin_models.py:155 | inserting a new id keeps the ids distinct |
| Listing.InsertKeepsSorted | database/admin_models.py:155 | inserting by name keeps the list in name order |
| Listing.SortByName | database/admin_models.py:155 | the ids of exactly the selected rows, each once, in name order |
| Tables.UserModel.constructor | database/init_db.py:69 | an empty users table |
| Tables.UserModel.GetUser | bot/models/database.py:84-88 | the row for a Telegram id, or None exactly when there is none |
| Tables.UserModel.CreateOrUpdateUser | bot/models/database.py:62-82 | an existing Telegram id gets its name fields overwritten and keeps its row id; a new one is inserted under the next id; at most one row per Telegram id |
| Tables.OrderModel.constructor | database/init_db.py:21-35 | an empty orders table |
| Tables.OrderModel.CreateOrder | bot/models/database.py:96-109 | one row inserted under the next id with status `Pending`, exactly when every `NOT NULL` column has a value; otherwise nothing changes |
| Tables.OrderModel.GetOrder | bot/models/database.py:111-115 | the row with that id, or None exactly when it is absent |
| Tables.OrderModel.GetOrdersByStatus | bot/models/database.py:117-120 | exactly the orders with that status, newest first |
| Tables.OrderModel.UpdateOrderStatus | bot/models/database.py:122-126 | true exactly when the row exists; only its status changes |
| Tables.OrderModel.GetRecentOrders | bot/models/database.py:128-131 | at most `limit` orders, the newest ones, newest first |
| Tables.ScheduleModel.CreateSchedule | bot/models/database.py:139-149 | one row inserted under the next id with status `Pending`, exactly when name, contact and time are present |
| Tables.ScheduleModel.GetSchedule | bot/models/database.py:151-155 | the row with that id, or None exactly when it is absent |
| Tables.ScheduleModel.GetPendingSchedules | bot/models/database.py:157-160 | exactly the `Pending` schedules, newest first |
| Tables.ScheduleModel.UpdateScheduleStatus | bot/models/database.py:162-166 | true exactly when the row exists; only its status changes |
| Tables.MessageModel.CreateMessage | bot/models/database.py:174-184 | one row inserted under the next id with status `Pending` and no response, exactly when name, contact and text are present |
| Tables.MessageModel.GetMessage | bot/models/database.py:186-190 | the row with that id, or None exactly when it is absent |
| Tables.MessageModel.GetPendingMessages | bot/models/database.py:192-195 | exactly the `Pending` messages, newest first |
| Tables.MessageModel.UpdateMessageStatus | bot/models/database.py:197-201 | true exactly when the row exists; status and response are both overwritten, an omitted response with NULL |
| Tables.ServiceModel.GetActiveServices | bot/models/database.py:209-212 | exactly the active services, in strictly increasing name order |
| Tables.ServiceModel.Names | bot/handlers/order_handler.py:93 | the names of the listed services, position by position |
| Tables.ServiceModel.GetService | bot/models/database.py:214-218 | the row with that id, or None exactly when it is absent |
| Tables.ServiceModel.GetServiceByName | bot/models/database.py:220-224 | the service with exactly that name, or None exactly when there is none |
| AdminModels.Lookup | database/admin_models.py:210-222 | `d.get(key, default)`: the default exactly when the key is missing; a key present with None reads as None |
| AdminModels.SpecificationsOf | database/admin_models.py:322 | `json.dumps` of the specifications: `{}` when the key is missing, `null` when it is None, the given text otherwise |
| AdminModels.ServiceRowOf | database/admin_models.py:203-253 | the row written for a service dictionary: each missing field at its default, each field present as None stored as NULL; None exactly when the `NOT NULL` name is missing or None |
| AdminModels.ProductRowOf | database/admin_models.py:317-369 | the row written for a product dictionary: missing fields at their defaults, present None as NULL; None exactly when the `NOT NULL` name or price is missing or None |
| AdminModels.DefaultServices | database/admin_models.py:103-111 | the seven default services |
| AdminModels.DefaultSettings | database/admin_models.py:125-132 | the six default settings |
| AdminModels.InsertOrIgnoreKeeps | database/admin_models.py:134-138 | `INSERT OR IGNORE` keeps every existing key's value and description, and leaves every default key present and no other new key |
| AdminModels.InsertOrIgnorePresent | database/admin_models.py:134-138 | when every key already exists, seeding changes nothing |
| AdminModels.SeedSettingsIdempotent | database/admin_models.py:123-138 | seeding the settings twice is seeding them once |
| AdminModels.AdminDatabase.constructor | database/admin_models.py:11-99 | the tables as found, then seeded as `init_admin_tables` does |
| AdminModels.AdminDatabase.InitAdminTables | database/admin_models.py:21-99 | the services are seeded only when none exist, the settings only where their keys are missing; products untouched |
| AdminModels.AdminDatabase.InsertDefaultServices | database/admin_models.py:101-121 | the seven defaults are inserted under consecutive ids only into an empty services table; otherwise nothing changes |
| AdminModels.AdminDatabase.InsertDefaultAdminSettings | database/admin_models.py:123-138 | each default setting is inserted unless its key exists |
| AdminModels.ServiceManager.GetAllServices | database/admin_models.py:147-176 | exactly the services (only those whose flag is 1 when asked; a NULL flag is not active), each once, in name order |
| AdminModels.ServiceManager.GetServiceById | database/admin_models.py:178-201 | the service with that id, or None exactly when it is absent |
| AdminModels.ServiceManager.CreateService | database/admin_models.py:203-225 | the row inserted under the next id, or an `IntegrityError` and no change when the name is missing or None |
| AdminModels.ServiceManager.UpdateService | database/admin_models.py:227-253 | true exactly when the id exists, its row then overwritten with the dictionary and defaults; an `IntegrityError` when the row exists and the name is missing or None |
| AdminModels.ServiceManager.DeleteService | database/admin_models.py:255-268 | every product of the service is deleted, then the service; true exactly when the service row existed |
| AdminModels.ProductManager.GetProductsByService | database/admin_models.py:277-315 | an empty list when no product is selected; otherwise the row mapping raises `IndexError` |
| AdminModels.ProductManager.CreateProduct | database/admin_models.py:317-341 | the row inserted under the next id, under the dictionary's service id (NULL when missing), or an `IntegrityError` and no change when name or price is missing or None |
| AdminModels.ProductManager.UpdateProduct | database/admin_models.py:343-369 | true exactly when the id exists; every field but the product's service is overwritten; an `IntegrityError` when name or price is missing or None |
| AdminModels.ProductManager.DeleteProduct | database/admin_models.py:371-380 | the row removed; true exactly when it existed |
| AdminModels.AdminSettingsManager.GetSetting | database/admin_models.py:389-398 | the stored value (None when it is NULL), or the given default exactly when the key is absent |
| AdminModels.AdminSettingsManager.SetSetting | database/admin_models.py:400-413 | always true; afterwards the key holds exactly this value (possibly None) and description, and reads back as the value whatever default is given |
| AdminModels.AdminSettingsManager.GetAllSettings | database/admin_models.py:415-430 | keyed by exactly the stored keys, with their values (None for NULL); a missing description reads as `""` |
| Notifications.Notifier.Notify | bot/utils/notifications.py:73-137 | one `notify_new_*` call adds one attempt to the log and keeps the earlier ones |
| Conversation.UserContext.constructor | bot/handlers/order_handler.py:21 | `user_data` as given |
| Conversation.Stored | bot/handlers/order_handler.py:46-184 | the keys the first `n` steps stored, `n` of them when the keys are distinct |
| Conversation.HoldsStep | bot/handlers/order_handler.py:46-184 | storing the next step's key with a value allowed there moves the collected data one step on |
| Conversation.Advance | bot/handlers/order_handler.py:46-184 | a step that stores its key hands the next state what it expects |
| OrderFlow.CompanyStep | bot/handlers/order_handler.py:56-71 | a skip word (after `lower()` and `strip()`) stores `None`; other text is stored stripped exactly when `validate_company_name` accepts it |
| OrderFlow.ProductChoice | bot/handlers/order_handler.py:96-114 | integer input selects a service exactly when it is in 1..len; other input selects exactly when `validate_service_selection` accepts; the choice is an offered name |
| OrderFlow.ProductByNumber | bot/handlers/order_handler.py:99-102 | typing the position `n` selects the `n`-th service |
| OrderFlow.ProductNumberNoFallback | bot/handlers/order_handler.py:99-105 | an out-of-range number fails even when it is itself a service name: no fallback to name matching |
| OrderFlow.CollectedIsReady | bot/handlers/order_handler.py:188-195 | after the five earlier steps, every key the final step reads is there and not `None` |
| OrderFlow.OrderConversation.constructor | bot/handlers/order_handler.py:14-16 | a handler with the given tables, notifier and contact rule, at `END` |
| OrderFlow.OrderConversation.StartOrderConversation | bot/handlers/order_handler.py:18-32 | `user_data` cleared, `WAITING_NAME` entered |
| OrderFlow.OrderConversation.HandleName | bot/handlers/order_handler.py:34-54 | an invalid name stays in `WAITING_NAME` with `user_data` unchanged; a valid one stores the title-cased name and moves to `WAITING_COMPANY` |
| OrderFlow.OrderConversation.HandleCompany | bot/handlers/order_handler.py:56-88 | a rejected company stays in `WAITING_COMPANY` with `user_data` unchanged; otherwise the step's value is stored and `WAITING_PRODUCT` entered |
| OrderFlow.OrderConversation.HandleProduct | bot/handlers/order_handler.py:90-124 | the active services are offered in name order; a chosen non-empty name is stored and `WAITING_QUANTITY` entered; otherwise the step stays with `user_data` unchanged |
| OrderFlow.OrderConversation.OfferedServices | bot/handlers/order_handler.py:92-93 | the names of exactly the active services, once each, in name order |
| OrderFlow.OrderConversation.SelectProduct | bot/handlers/order_handler.py:98-107 | the `try`/`except ValueError` computes the product choice |
| OrderFlow.OrderConversation.OfferedNames | bot/handlers/order_handler.py:92-93 | the names of the listed active services are exactly the active names |
| OrderFlow.OrderConversation.HandleQuantity | bot/handlers/order_handler.py:126-147 | an invalid quantity stays in `WAITING_QUANTITY` with `user_data` unchanged; a valid one stores the integer and moves to `WAITING_DELIVERY` |
| OrderFlow.OrderConversation.HandleDeliveryDate | bot/handlers/order_handler.py:149-170 | an invalid date stays in `WAITING_DELIVERY` with `user_data` unchanged; a valid one stores `DD/MM/YYYY` and moves to `WAITING_CONTACT` |
| OrderFlow.OrderConversation.HandleContact | bot/handlers/order_handler.py:172-251 | an invalid contact stays with nothing changed; a valid one makes one `create_order` call with the collected fields and user id, notifies at most once and only for a stored order, clears `user_data` and ends; after a full conversation the order is stored unless the insert fails |
| OrderFlow.OrderConversation.SubmitOrder | bot/handlers/order_handler.py:186-247 | the `try` block: a missing key or failed insert stores nothing and notifies nothing; otherwise one new row and, without a reply fault, one notification for it |
| OrderFlow.OrderConversation.Record | bot/handlers/order_handler.py:46-161 | one key stored for the step, the next state entered |
| OrderFlow.OrderConversation.CancelOrder | bot/handlers/order_handler.py:253-265 | `user_data` cleared and `END` returned from any state, with no order created |
| ScheduleFlow.CollectedIsReady | bot/handlers/schedule_handler.py:109-112 | after the name and contact steps, the keys the final step reads are there and not `None` |
| ScheduleFlow.ScheduleConversation.constructor | bot/handlers/schedule_handler.py:14-16 | a handler with the given table, notifier and contact rule, at `END` |
| ScheduleFlow.ScheduleConversation.StartScheduleConversation | bot/handlers/schedule_handler.py:18-32 | `user_data` cleared, `WAITING_SCHEDULE_NAME` entered |
| ScheduleFlow.ScheduleConversation.HandleScheduleName | bot/handlers/schedule_handler.py:34-55 | an invalid name stays with `user_data` unchanged; a valid one stores the name and moves to `WAITING_SCHEDULE_CONTACT` |
| ScheduleFlow.ScheduleConversation.HandleScheduleContact | bot/handlers/schedule_handler.py:57-86 | an invalid contact stays with `user_data` unchanged; a valid one stores it and moves to `WAITING_SCHEDULE_DATETIME` |
| ScheduleFlow.ScheduleConversation.HandleScheduleDatetime | bot/handlers/schedule_handler.py:88-173 | an invalid preference stays with nothing changed; a valid one makes one `create_schedule` call with the processed preference, notifies at most once and only for a stored schedule, clears `user_data` and ends |
| ScheduleFlow.ScheduleConversation.SubmitSchedule | bot/handlers/schedule_handler.py:107-169 | the `try` block: one new row and at most one notification for it, or nothing |
| ScheduleFlow.ScheduleConversation.Record | bot/handlers/schedule_handler.py:46-69 | one key stored for the step, the next state entered |
| ScheduleFlow.ScheduleConversation.CancelSchedule | bot/handlers/schedule_handler.py:175-187 | `user_data` cleared and `END` returned, with no schedule created |
| MessageFlow.MessagePreview | bot/handlers/message_handler.py:115 | the whole text up to 100 characters; otherwise its first 100 characters followed by `...` |
| MessageFlow.PreviewIsPrefix | bot/handlers/message_handler.py:115 | the preview starts with as much of the text as fits, and is never longer than 103 characters |
| MessageFlow.CollectedIsReady | bot/handlers/message_handler.py:107-110 | after the name and contact steps, the keys the final step reads are there and not `None` |
| MessageFlow.MessageConversation.constructor | bot/handlers/message_handler.py:14-16 | a handler with the given table, notifier and contact rule, at `END` |
| MessageFlow.MessageConversation.StartMessageConversation | bot/handlers/message_handler.py:18-32 | `user_data` cleared, `WAITING_MESSAGE_NAME` entered |
| MessageFlow.MessageConversation.HandleMessageName | bot/handlers/message_handler.py:34-55 | an invalid name stays with `user_data` unchanged; a valid one stores it and moves to `WAITING_MESSAGE_CONTACT` |
| MessageFlow.MessageConversation.HandleMessageContact | bot/handlers/message_handler.py:57-88 | an invalid contact stays with `user_data` unchanged; a valid one stores it and moves to `WAITING_MESSAGE_TEXT` |
| MessageFlow.MessageConversation.HandleMessageText | bot/handlers/message_handler.py:90-180 | invalid text stays with nothing changed; valid text makes one `create_message` call, notifies at most once and only for a stored message, clears `user_data` and ends |
| MessageFlow.MessageConversation.SubmitMessage | bot/handlers/message_handler.py:105-176 | the `try` block: one new row and at most one notification for it, or nothing |
| MessageFlow.MessageConversation.Record | bot/handlers/message_handler.py:46-69 | one key stored for the step, the next state entered |
| MessageFlow.MessageConversation.CancelMessage | bot/handlers/message_handler.py:182-194 | `user_data` cleared and `END` returned, with no message created |
| MainBot.MenuActionOf | bot/bot.py:176-200 | each of the five labels, matched exactly, gives its own action; any other text the fallback |
| MainBot.CallbackActionOf | bot/bot.py:162-174 | `place_order`, `schedule_talk` and `direct_message` start their flows, exactly; any other tag the fallback |
| MainBot.StateAfter | bot/bot.py:162-200 | `END` exactly for the actions that start no flow; otherwise the first state of the flow |
| MainBot.KeyboardLabelsRouted | config/bot_config.py:41-45 | every label of the main menu keyboard is routed, each to an action of its own |
| MainBot.PrintingBot.constructor | bot/bot.py:32-39 | the three handlers share one `user_data` |
| MainBot.PrintingBot.Dispatch | bot/bot.py:167-187 | a starting action clears `user_data` and enters its flow's first state; other actions change nothing; the other flows keep their states |
| MainBot.PrintingBot.HandleTextMessage | bot/bot.py:176-200 | the state for the text's action; `user_data` cleared exactly when a flow starts |
| MainBot.PrintingBot.HandleCallbackQuery | bot/bot.py:162-174 | the state for the tag's action; `user_data` cleared exactly when a flow starts |
| MainBot.PrintingBot.CancelCommand | bot/bot.py:95-105 | `END`, with `user_data` untouched |
| MainBot.PrintingBot.StartCommand | bot/bot.py:41-51 | the user's row created or refreshed, one row per Telegram id |
| SimpleBot.MenuChoice | render_deploy_simple_bot.py:230-241 | a screen exactly for the eight menu labels |
| SimpleBot.BothLanguagesSameScreen | render_deploy_simple_bot.py:230-241 | the English and the Amharic label of an option lead to the same screen |
| SimpleBot.HelpLanguage | render_deploy_simple_bot.py:372-375 | the given language, or the chat's (English by default) when none is given |
| SimpleBot.LanguageChoice | render_deploy_simple_bot.py:158-163 | English exactly when the lower-cased answer starts with `en`; Amharic exactly when it starts with `am` and not `en` |
| SimpleBot.RouteOf | render_deploy_simple_bot.py:134-171 | menu labels first, then `/start`, then a pending language prompt, then `/help`, then everything else |
| SimpleBot.MenuChangesNothing | render_deploy_simple_bot.py:134-142 | a menu label shows its screen in the chat's language and changes neither dictionary, even while a language is pending |
| SimpleBot.StartAwaitsLanguage | render_deploy_simple_bot.py:144-155 | `/start` sends the language prompt and sets the chat to awaiting a language, keeping its language |
| SimpleBot.LanguageAnswer | render_deploy_simple_bot.py:157-166 | while awaiting, an `en`/`am` answer sets the language, clears the state and shows the menu; any other answer re-prompts and changes nothing |
| SimpleBot.PromptBeforeHelp | render_deploy_simple_bot.py:157-169 | a pending language prompt takes precedence over `/help` |
| SimpleBot.OtherTextForwarded | render_deploy_simple_bot.py:171-196 | other text changes nothing, is forwarded exactly when the chat id differs from the admin id as text, and is acknowledged in the chat's language |
| SimpleBot.OneChatIsAdmin | render_deploy_simple_bot.py:173 | at most one chat id equals the admin id as text |
| SimpleBot.OtherChatsUntouched | render_deploy_simple_bot.py:123-199 | a message changes only its own chat's entries |
| SimpleBot.LanguageOnlyFromPrompt | render_deploy_simple_bot.py:157-163 | a chat's language changes only to the one chosen at the prompt |
| SimpleBot.RunSkipsEmpty | render_deploy_simple_bot.py:435-436 | updates without a message change nothing and send nothing |
| SimpleBot.Bot.constructor | render_deploy_simple_bot.py:58-68 | empty dictionaries, nothing sent, offset 0 |
| SimpleBot.Bot.HandleMessage | render_deploy_simple_bot.py:123-199 | the dictionaries updated in place as one step of the chat-language machine, its messages appended to the outbox |
| SimpleBot.Bot.ProcessBatch | render_deploy_simple_bot.py:430-436 | the batch handled in order; afterwards `offset` is the last `update_id` + 1 (unchanged for an empty batch) |

## Left out

- Telegram and HTTP I/O: reply texts, keyboards, HTML bodies, `send_message`, `get_updates` and the HTTP client behind the notifications. A notification is an attempt recorded in a log; whether the POST succeeds is not modelled.
- The summary reply of a final step is modelled only by its effect on the `try` block: the `ReplyFault` outcome. A failing reply in an earlier step is not modelled.
- The python-telegram-bot `ConversationHandler` wiring: its `entry_points` list is empty, so the framework never enters these flows itself. The `start_*` methods are the entry points, and each step records its returned state in the handler's `state` field, as the framework would.
- The `while self.running` loop of `run_bot`, its sleeps and its error retry. One batch of updates is `ProcessBatch`.
- `send_message` failures inside `handle_message` are swallowed by its `except`. The model treats every send as done.
- The contents of the services, order, contact and help screens, and the `first_name`/`username` shown in a forwarded message. A screen is identified by its kind and language; a forward by its target, chat and text.
- `help_command`, `view_services`, `view_channel`, `error_handler` and `create_application` of `bot/bot.py`. They only send text or wire handlers. `StartCommand` models only the user upsert, not the welcome reply.
- SQLite engine details. `CURRENT_TIMESTAMP` and `created_at` are not modelled: "newest first" is decreasing id, which equals insertion order. `updated_at` columns are not modelled either.
- `ProductManager.GetProductsByService`: its row mapping reads past the end of an 11-column row, so it is modelled as raising `IndexError` whenever a product is selected. No listing property is stated for it.
- `format_contact_display`'s badges are kept as the code points the file actually holds (a mis-decoded emoji), not as the intended emoji.
- Unicode: `lower()`, `upper()`, `title()` and the letter classes are modelled on ASCII letters only. `\s` and `strip()` use a fixed set of whitespace characters. `%p` is matched as `am`/`pm` in any case, the C locale.
- Validators.ValidateQuantity: accepts only the digits `0`-`9`, because `Text.ParseInt` models `int()` on ASCII. Python's `int()` (the quantity at `bot/utils/validators.py:45`, the service number at `bot/handlers/order_handler.py:100`) and the numeric directives of `strptime` (modelled in `TimeFormat`) accept any Unicode decimal digit, so a full-width `１００` is a valid quantity in Python and rejected here.
- `strptime` is modelled for the directives these formats use. The weekday of `%a`, time zones and other directives are not modelled.
- Validators.ValidateContactInfo: the contract does not characterise the phone branch beyond the lemmas about it, because as written it never accepts (see Findings).
- Validators.PreferenceVerdict: its own contract is only the prefix property; what it returns for each case is stated by `PreferenceParsed` and `PreferenceFreeText`.
- Validators.ServiceVerdict: its own contract is membership; the matching rules are stated by `ServiceExactWins` and `ServiceSubstringRule`.
- `database/init_db.py` table creation and the Flask admin and website apps are not part of this model; `init_db.py` is cited only for the column defaults and the unique Telegram id.
- `bot/utils/notifications.py`'s `broadcast_to_channel` and `send_to_admin_sync` are not used by the modelled flows and are not part of this model.

## Findings

| source | as written | input that shows it | evidently intended | confidence | as-written member | corrected member |
|---|---|---|---|---|---|---|
| bot/utils/validators.py:114-119 | the raw strings double every backslash, so the strip class removes `\`, `s`, `(`, `)` and `+` but not spaces or hyphens, and the pattern then demands a leading backslash that was just removed: no phone number is ever accepted | `0911234567` is rejected | strip whitespace, `-`, `(`, `)`, `+`, then accept an optional `+` and 6 to 15 digits, as the comment at line 116 says | not executed | Validators.PhoneBranchNeverAccepts, Validators.PhoneRejectedExample | Validators.ValidateContactInfoIntended, Validators.ContactIntendedPhoneRule |
