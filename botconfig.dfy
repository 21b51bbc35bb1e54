/**
  * The constants of config/bot_config.py the handlers use: the twelve
  * conversation states (`range(12)`), python-telegram-bot's
  * `ConversationHandler.END`, and the labels of the main menu keyboard.
  */
module BotConfig {

  const WaitingName := 0
  const WaitingCompany := 1
  const WaitingProduct := 2
  const WaitingQuantity := 3
  const WaitingDelivery := 4
  const WaitingContact := 5
  const WaitingScheduleName := 6
  const WaitingScheduleContact := 7
  const WaitingScheduleDatetime := 8
  const WaitingMessageName := 9
  const WaitingMessageContact := 10
  const WaitingMessageText := 11

  /** `ConversationHandler.END`. */
  const End := -1

  const ViewServicesLabel := "\U{1F4CB} View Services"
  const PlaceOrderLabel := "\U{1F6D2} Place Order"
  const ScheduleTalkLabel := "\U{1F4C5} Schedule a Talk"
  const MessageMeLabel := "\U{1F4AC} Message Me Directly"
  const ViewChannelLabel := "\U{1F4E2} View Channel"

  /** `MAIN_MENU_KEYBOARD`, row by row. */
  const MainMenuKeyboard: seq<seq<string>> :=
    [[ViewServicesLabel, PlaceOrderLabel], [ScheduleTalkLabel, MessageMeLabel], [ViewChannelLabel]]
}
