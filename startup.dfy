/**
 * stock_tracker.py, `load_telegram_config` and the guard at the start of `main`:
 * where the Telegram settings come from, and when the polling never starts.
 *
 * Environment variables and files are values here: an absent variable or an
 * unreadable file is `None`; the settings file is the JSON object it holds.
 */
module Startup {
  import opened Wrappers
  import opened Text
  import opened Tracking
  import opened Availability

  datatype TelegramConfig = TelegramConfig(token: string, chatId: string)

  /** config.json: the store profiles in order, and `check_interval` if it is given. */
  datatype Config = Config(stores: seq<StoreProfile>, checkInterval: Option<int>)

  /** How the polling loop runs: seconds between cycles, and whether to stop after one. */
  datatype Schedule = Schedule(interval: int, runOnce: bool)

  const DEFAULT_INTERVAL := 1200

  /** A Python string is truthy when it is set and non-empty. */
  predicate Truthy(v: Option<string>) {
    v.Some? && v.value != ""
  }

  /**
   * `load_telegram_config()`: TELEGRAM_TOKEN and TELEGRAM_CHAT_ID from the
   * environment when both are non-empty; otherwise telegram_config.json when it
   * has both a "token" and a "chat_id" key; otherwise nothing. The two sources are
   * never mixed.
   */
  function LoadTelegramConfig(envToken: Option<string>, envChatId: Option<string>, file: Option<map<string, string>>)
    : (r: Option<TelegramConfig>)
    ensures Truthy(envToken) && Truthy(envChatId) ==> r == Some(TelegramConfig(envToken.value, envChatId.value))
    ensures !(Truthy(envToken) && Truthy(envChatId)) ==>
              (r.Some? <==> file.Some? && "token" in file.value && "chat_id" in file.value)
    ensures !(Truthy(envToken) && Truthy(envChatId)) && r.Some? ==>
              r.value == TelegramConfig(file.value["token"], file.value["chat_id"])
  {
    if Truthy(envToken) && Truthy(envChatId) then Some(TelegramConfig(envToken.value, envChatId.value))
    else if file.Some? && "token" in file.value && "chat_id" in file.value then
      Some(TelegramConfig(file.value["token"], file.value["chat_id"]))
    else None
  }

  /** The environment decides whenever it holds both values, whatever the file says. */
  lemma EnvironmentWins(envToken: string, envChatId: string, file1: Option<map<string, string>>, file2: Option<map<string, string>>)
    requires envToken != "" && envChatId != ""
    ensures LoadTelegramConfig(Some(envToken), Some(envChatId), file1)
         == LoadTelegramConfig(Some(envToken), Some(envChatId), file2)
  {
  }

  /** `os.getenv("RUN_ONCE", "false").lower() == "true"`. */
  function RunOnce(env: Option<string>): (b: bool)
    ensures b <==> env.Some? && |env.value| == 4 && forall i :: 0 <= i < 4 ==> LowerChar(env.value[i]) == "true"[i]
  {
    var v := AsciiLower(env.GetOr("false"));
    assert v == "true" <==> |v| == 4 && forall i :: 0 <= i < 4 ==> v[i] == "true"[i];
    v == "true"
  }

  /**
   * The start of `main`: nothing runs unless config.json, a non-empty products.json
   * and a Telegram configuration were all loaded; `check_interval` defaults to 1200
   * seconds, and RUN_ONCE (any letter case of "true") stops after one cycle.
   */
  function Start(config: Option<Config>, products: Option<seq<Item>>, telegram: Option<TelegramConfig>, runOnceEnv: Option<string>)
    : (r: Option<Schedule>)
    ensures r.Some? <==> config.Some? && products.Some? && products.value != [] && telegram.Some?
    ensures r.Some? && config.value.checkInterval.None? ==> r.value.interval == DEFAULT_INTERVAL
    ensures r.Some? && config.value.checkInterval.Some? ==> r.value.interval == config.value.checkInterval.value
    ensures r.Some? ==> (r.value.runOnce <==> RunOnce(runOnceEnv))
  {
    if config.None? || products.None? || products.value == [] || telegram.None? then None
    else Some(Schedule(config.value.checkInterval.GetOr(DEFAULT_INTERVAL), RunOnce(runOnceEnv)))
  }
}
