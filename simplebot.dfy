/**
  * `SimpleBot` (render_deploy_simple_bot.py): the polling bot with a
  * language choice. Per chat it keeps a conversation state
  * (`user_states`) and a language (`user_languages`); every outgoing
  * message is recorded in an outbox instead of being posted to Telegram.
  */
module SimpleBot {
  import opened Text

  /** The two languages of the bot. */
  datatype Lang = En | Am

  /** `user_states[chat]`: only `'awaiting_language'` and `None` are ever stored. */
  datatype ChatState = AwaitingLanguage | Idle

  /** The four menu screens. */
  datatype Screen = ServicesScreen | OrderScreen | ContactScreen | HelpScreen

  /** A message the bot sends; the texts themselves are fixed per kind and language. */
  datatype Outgoing =
    | LanguagePrompt(chat: int)
    | LanguageRetry(chat: int)
    | Menu(chat: int, lang: Lang)
    | Show(chat: int, screen: Screen, lang: Lang)
    | Forward(to: Option<string>, from: int, text: string)
    | Ack(chat: int, lang: Lang)

  /** Both dictionaries, keyed by chat id. */
  datatype Chats = Chats(states: map<int, ChatState>, languages: map<int, Lang>)

  /** `menu_options['en']` and `menu_options['am']`, in the same option order. */
  const EnglishMenu: seq<string> :=
    ["\U{1F3EA} Services", "\U{1F6D2} Order", "\U{1F4AC} Contact", "\U{2753} Help"]
  const AmharicMenu: seq<string> :=
    ["\U{1F3EA} \U{12A0}\U{1308}\U{120D}\U{130D}\U{120E}\U{1276}\U{127D}",
     "\U{1F6D2} \U{1275}\U{12D5}\U{12DB}\U{12DD}",
     "\U{1F4AC} \U{12EB}\U{1290}\U{130B}\U{130D}\U{1229}\U{1295}",
     "\U{2753} \U{12A5}\U{122D}\U{12F3}\U{1273}"]
  /** The screen of each option, in menu order. */
  const MenuScreens: seq<Screen> := [ServicesScreen, OrderScreen, ContactScreen, HelpScreen]

  /** The loop over `menu_options.values()`: the text is one of the eight labels. */
  predicate IsMenuOption(text: string) {
    text in EnglishMenu || text in AmharicMenu
  }

  /** `handle_menu_selection`'s `if`/`elif` chain: the screen of a label, in either language. */
  function MenuChoice(text: string): (r: Option<Screen>)
    ensures r.Some? <==> IsMenuOption(text)
  {
    if text == EnglishMenu[0] || text == AmharicMenu[0] then Some(ServicesScreen)
    else if text == EnglishMenu[1] || text == AmharicMenu[1] then Some(OrderScreen)
    else if text == EnglishMenu[2] || text == AmharicMenu[2] then Some(ContactScreen)
    else if text == EnglishMenu[3] || text == AmharicMenu[3] then Some(HelpScreen)
    else None
  }

  /** The English and the Amharic label of each option lead to that option's screen. */
  lemma BothLanguagesSameScreen(i: int)
    requires 0 <= i < 4
    ensures MenuChoice(EnglishMenu[i]) == MenuChoice(AmharicMenu[i]) == Some(MenuScreens[i])
  {
    var en := EnglishMenu;
    var am := AmharicMenu;
    assert am[0][0] != am[1][0] && am[1][0] != am[2][0] && am[2][0] != am[3][0];
    assert am[0][0] == en[0][0] && am[1][0] == en[1][0] && am[2][0] == en[2][0] && am[3][0] == en[3][0];
    assert en[0][0] != en[1][0] && en[0][0] != en[2][0] && en[0][0] != en[3][0];
    assert en[1][0] != en[2][0] && en[1][0] != en[3][0] && en[2][0] != en[3][0];
  }

  /** `user_languages.get(chat, 'en')`. */
  function LanguageOf(c: Chats, chat: int): Lang {
    if chat in c.languages then c.languages[chat] else En
  }

  /** The language `show_help` uses: the one it is given, or the chat's (`lang is None`). */
  function HelpLanguage(c: Chats, chat: int, given: Option<Lang>): (l: Lang)
    ensures given.Some? ==> l == given.value
    ensures given.None? ==> l == LanguageOf(c, chat)
  {
    match given
    case Some(l) => l
    case None => LanguageOf(c, chat)
  }

  predicate Awaiting(c: Chats, chat: int) {
    chat in c.states && c.states[chat] == AwaitingLanguage
  }

  /** The answer to the language prompt: `text.lower()` starting with `en`, else with `am`. */
  function LanguageChoice(text: string): (r: Option<Lang>)
    ensures r == Some(En) <==> StartsWith(Lower(text), "en")
    ensures r == Some(Am) <==> StartsWith(Lower(text), "am") && !StartsWith(Lower(text), "en")
  {
    if StartsWith(Lower(text), "en") then Some(En)
    else if StartsWith(Lower(text), "am") then Some(Am)
    else None
  }

  /** `str(self.admin_chat_id)`: an unset `ADMIN_CHAT_ID` is `None`, printed `"None"`. */
  function AdminText(admin: Option<string>): string {
    if admin.Some? then admin.value else "None"
  }

  /** Which branch of `handle_message` a text takes. */
  datatype Route = MenuRoute(screen: Screen) | StartRoute | LanguageRoute(choice: Option<Lang>) | HelpRoute | ForwardRoute

  /** The branch order: menu labels, `/start`, the pending language prompt, `/help`, anything else. */
  function RouteOf(c: Chats, chat: int, text: string): (r: Route)
    ensures r.MenuRoute? <==> IsMenuOption(text)
    ensures r == StartRoute <==> !IsMenuOption(text) && StartsWith(text, "/start")
    ensures r.LanguageRoute? <==> !IsMenuOption(text) && !StartsWith(text, "/start") && Awaiting(c, chat)
  {
    match MenuChoice(text)
    case Some(s) => MenuRoute(s)
    case None =>
      if StartsWith(text, "/start") then StartRoute
      else if Awaiting(c, chat) then LanguageRoute(LanguageChoice(text))
      else if StartsWith(text, "/help") then HelpRoute
      else ForwardRoute
  }

  /** `handle_message` on one text from `chat`: the new dictionaries and the messages sent, in order. */
  function Step(c: Chats, chat: int, text: string, admin: Option<string>): (Chats, seq<Outgoing>) {
    match RouteOf(c, chat, text)
    case MenuRoute(s) => (c, [Show(chat, s, LanguageOf(c, chat))])
    case StartRoute => (c.(states := c.states[chat := AwaitingLanguage]), [LanguagePrompt(chat)])
    case LanguageRoute(choice) =>
      if choice.None? then (c, [LanguageRetry(chat)])
      else (Chats(c.states[chat := Idle], c.languages[chat := choice.value]), [Menu(chat, choice.value)])
    case HelpRoute => (c, [Show(chat, HelpScreen, HelpLanguage(c, chat, None))])
    case ForwardRoute =>
      var forward := if IntToString(chat) != AdminText(admin) then [Forward(admin, chat, text)] else [];
      (c, forward + [Ack(chat, LanguageOf(c, chat))])
  }

  // ---------------------------------------------------------------------
  // What a step does

  /** A menu label is answered with its screen, in the chat's language, and changes neither dictionary, even while a language is pending. */
  lemma MenuChangesNothing(c: Chats, chat: int, text: string, admin: Option<string>)
    requires IsMenuOption(text)
    ensures Step(c, chat, text, admin) == (c, [Show(chat, MenuChoice(text).value, LanguageOf(c, chat))])
  {
  }

  /** `/start` (not a label) puts the chat into the language prompt, whatever its state was, and keeps its language. */
  lemma StartAwaitsLanguage(c: Chats, chat: int, text: string, admin: Option<string>)
    requires !IsMenuOption(text) && StartsWith(text, "/start")
    ensures var (c', out) := Step(c, chat, text, admin);
            Awaiting(c', chat) && c'.languages == c.languages && out == [LanguagePrompt(chat)]
  {
  }

  /**
    * While the prompt is pending, an answer starting with `en` or `am` (in
    * any case) sets the language and ends the prompt; any other answer
    * repeats the prompt and changes nothing.
    */
  lemma LanguageAnswer(c: Chats, chat: int, text: string, admin: Option<string>)
    requires Awaiting(c, chat) && !IsMenuOption(text) && !StartsWith(text, "/start")
    ensures var (c', out) := Step(c, chat, text, admin);
            match LanguageChoice(text)
            case Some(l) => c'.languages == c.languages[chat := l] && c'.states == c.states[chat := Idle] && out == [Menu(chat, l)]
            case None => c' == c && out == [LanguageRetry(chat)]
  {
  }

  /** The pending prompt takes precedence over `/help`: the prompt is repeated and no help is shown. */
  lemma PromptBeforeHelp(c: Chats, chat: int, text: string, admin: Option<string>)
    requires Awaiting(c, chat) && StartsWith(text, "/help")
    ensures Step(c, chat, text, admin) == (c, [LanguageRetry(chat)])
  {
    assert text[0] == '/' && text[1] == 'h';
    assert !IsMenuOption(text);
    assert !StartsWith(text, "/start");
    assert !StartsWith(Lower(text), "en") && !StartsWith(Lower(text), "am");
  }

  /** Any other text is forwarded to the admin exactly when it does not come from the admin's chat, and acknowledged in the chat's language. */
  lemma OtherTextForwarded(c: Chats, chat: int, text: string, admin: Option<string>)
    requires RouteOf(c, chat, text) == ForwardRoute
    ensures var (c', out) := Step(c, chat, text, admin);
            && c' == c
            && out[|out| - 1] == Ack(chat, LanguageOf(c, chat))
            && (Forward(admin, chat, text) in out <==> IntToString(chat) != AdminText(admin))
            && |out| <= 2
  {
  }

  /** The admin id, compared as text, matches at most one chat id: every other chat is forwarded. */
  lemma OneChatIsAdmin(a: int, b: int, admin: Option<string>)
    requires IntToString(a) == AdminText(admin) && IntToString(b) == AdminText(admin)
    ensures a == b
  {
    IntToStringInjective(a, b);
  }

  /** A step touches only the dictionaries' entries for its own chat. */
  lemma OtherChatsUntouched(c: Chats, chat: int, text: string, admin: Option<string>, other: int)
    requires other != chat
    ensures var (c', _) := Step(c, chat, text, admin);
            && (other in c'.states <==> other in c.states)
            && (other in c.states ==> c'.states[other] == c.states[other])
            && (other in c'.languages <==> other in c.languages)
            && (other in c.languages ==> c'.languages[other] == c.languages[other])
  {
  }

  /** A chat's language only ever becomes one the user chose at the prompt. */
  lemma LanguageOnlyFromPrompt(c: Chats, chat: int, text: string, admin: Option<string>)
    ensures var (c', _) := Step(c, chat, text, admin);
            c'.languages == c.languages ||
            (Awaiting(c, chat) && LanguageChoice(text).Some? && c'.languages == c.languages[chat := LanguageChoice(text).value])
  {
  }

  // ---------------------------------------------------------------------
  // Polling

  /** An incoming update; `text` is absent for a message without one. */
  datatype Incoming = Incoming(chat: int, text: Option<string>)
  datatype Update = Update(updateId: int, message: Option<Incoming>)

  /** `message.get('text', '')`. */
  function TextOf(m: Incoming): string {
    if m.text.Some? then m.text.value else ""
  }

  /** Handling all updates of a batch in order: the dictionaries and everything sent. */
  function Run(c: Chats, updates: seq<Update>, admin: Option<string>): (Chats, seq<Outgoing>)
  {
    if updates == [] then (c, [])
    else
      var (c1, out1) := Run(c, updates[..|updates| - 1], admin);
      var u := updates[|updates| - 1];
      if u.message.None? then (c1, out1)
      else
        var (c2, out2) := Step(c1, u.message.value.chat, TextOf(u.message.value), admin);
        (c2, out1 + out2)
  }

  /** Updates without a message are skipped: they change nothing and send nothing. */
  lemma {:induction false} RunSkipsEmpty(c: Chats, updates: seq<Update>, admin: Option<string>)
    requires forall i :: 0 <= i < |updates| ==> updates[i].message.None?
    ensures Run(c, updates, admin) == (c, [])
  {
    if updates != [] {
      RunSkipsEmpty(c, updates[..|updates| - 1], admin);
    }
  }

  class Bot {
    const adminChatId: Option<string>
    var userStates: map<int, ChatState>
    var userLanguages: map<int, Lang>
    /** Everything sent, oldest first. */
    var outbox: seq<Outgoing>
    /** The `offset` of `run_bot`'s polling loop. */
    var offset: int

    constructor(adminChatId: Option<string>)
      ensures this.adminChatId == adminChatId
      ensures userStates == map[] && userLanguages == map[] && outbox == [] && offset == 0
    {
      this.adminChatId := adminChatId;
      userStates := map[];
      userLanguages := map[];
      outbox := [];
      offset := 0;
    }

    function Current(): Chats
      reads this
    {
      Chats(userStates, userLanguages)
    }

    /** `handle_message`. */
    method HandleMessage(chat: int, text: string)
      modifies this`userStates, this`userLanguages, this`outbox
      ensures Current() == Step(old(Current()), chat, text, adminChatId).0
      ensures outbox == old(outbox) + Step(old(Current()), chat, text, adminChatId).1
    {
      var lang := if chat in userLanguages then userLanguages[chat] else En;
      var isMenuOption := text in EnglishMenu || text in AmharicMenu;
      if isMenuOption {
        var screen := MenuChoice(text);
        outbox := outbox + [Show(chat, screen.value, lang)];
        return;
      }
      if StartsWith(text, "/start") {
        outbox := outbox + [LanguagePrompt(chat)];
        userStates := userStates[chat := AwaitingLanguage];
      } else if chat in userStates && userStates[chat] == AwaitingLanguage {
        var lowered := Lower(text);
        if StartsWith(lowered, "en") {
          userLanguages := userLanguages[chat := En];
        } else if StartsWith(lowered, "am") {
          userLanguages := userLanguages[chat := Am];
        } else {
          outbox := outbox + [LanguageRetry(chat)];
          return;
        }
        userStates := userStates[chat := Idle];
        outbox := outbox + [Menu(chat, userLanguages[chat])];
      } else if StartsWith(text, "/help") {
        outbox := outbox + [Show(chat, HelpScreen, lang)];
      } else {
        var forward := [];
        if IntToString(chat) != AdminText(adminChatId) {
          forward := [Forward(adminChatId, chat, text)];
        }
        outbox := outbox + (forward + [Ack(chat, lang)]);
      }
    }

    /**
      * One pass of `run_bot`'s `for update in updates` loop over a batch
      * from `get_updates`: every message is handled in order, and
      * `offset` ends one past the last update's id.
      */
    method ProcessBatch(updates: seq<Update>)
      modifies this`userStates, this`userLanguages, this`outbox, this`offset
      ensures updates != [] ==> offset == updates[|updates| - 1].updateId + 1
      ensures updates == [] ==> offset == old(offset)
      ensures Current() == Run(old(Current()), updates, adminChatId).0
      ensures outbox == old(outbox) + Run(old(Current()), updates, adminChatId).1
    {
      var i := 0;
      assert updates[..0] == [];
      while i < |updates|
        invariant 0 <= i <= |updates|
        invariant i > 0 ==> offset == updates[i - 1].updateId + 1
        invariant i == 0 ==> offset == old(offset)
        invariant Current() == Run(old(Current()), updates[..i], adminChatId).0
        invariant outbox == old(outbox) + Run(old(Current()), updates[..i], adminChatId).1
      {
        var u := updates[i];
        offset := u.updateId + 1;
        assert updates[..i + 1][..i] == updates[..i];
        if u.message.Some? {
          HandleMessage(u.message.value.chat, TextOf(u.message.value));
        }
        i := i + 1;
      }
      assert updates[..|updates|] == updates;
    }
  }
}
