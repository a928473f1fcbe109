/** Which host runtime is active, decided once at start-up from the page
    environment: the messaging host injects its WebApp object (with launch data
    when opened as a mini-app), the social-network host is recognised by URL
    parameters or the referrer, and the plain browser is the fallback. */
module Detect {
  import opened JsBuiltins

  datatype Platform = Telegram | Vk | Browser

  function PlatformName(p: Platform): string {
    match p
    case Telegram => "telegram"
    case Vk => "vk"
    case Browser => "browser"
  }

  /** The injected `window.Telegram.WebApp` object; `initData` is "" when absent. */
  datatype TelegramWebApp = TelegramWebApp(initData: string)

  /** What detection reads: the injected object, `location.search` and
      `document.referrer` ("" when there is none). */
  datatype Env = Env(webApp: Option<TelegramWebApp>, search: string, referrer: string)

  predicate HasInitData(env: Env) {
    env.webApp.Some? && env.webApp.value.initData != ""
  }

  predicate HasWebApp(env: Env) {
    env.webApp.Some?
  }

  predicate HasVkMarkers(env: Env) {
    Includes(env.search, "vk_") || Includes(env.referrer, "vk.com") || Includes(env.referrer, "vk.ru")
  }

  /** detectPlatform */
  function DetectPlatform(env: Env): (p: Platform)
    ensures p == Telegram <==> HasInitData(env) || (!HasVkMarkers(env) && env.webApp.Some?)
    ensures p == Vk <==> !HasInitData(env) && HasVkMarkers(env)
    ensures p == Browser <==> !HasInitData(env) && !HasVkMarkers(env) && env.webApp.None?
  {
    if HasInitData(env) then Telegram
    else if HasVkMarkers(env) then Vk
    else if env.webApp.Some? then Telegram
    else Browser
  }

  /** The same decision written as an ordered list of detectors, each a test on
      the environment and the platform it signals. */
  datatype Detector = Detector(matches: Env -> bool, platform: Platform)

  function Detectors(): seq<Detector> {
    [ Detector(HasInitData, Telegram),
      Detector(HasVkMarkers, Vk),
      Detector(HasWebApp, Telegram) ]
  }

  /** The platform of the first detector that matches, the browser otherwise. */
  function FirstMatch(ds: seq<Detector>, env: Env): Platform {
    if ds == [] then Browser
    else if ds[0].matches(env) then ds[0].platform
    else FirstMatch(ds[1..], env)
  }

  lemma DetectPlatformIsFirstMatch(env: Env)
    ensures DetectPlatform(env) == FirstMatch(Detectors(), env)
  {
    var ds := Detectors();
    var rest1, rest2 := ds[1..], ds[1..][1..];
    assert rest2[1..] == [];
    assert FirstMatch(rest2, env) == if HasWebApp(env) then Telegram else Browser;
    assert FirstMatch(rest1, env) == if HasVkMarkers(env) then Vk else FirstMatch(rest2, env);
    assert FirstMatch(ds, env) == if HasInitData(env) then Telegram else FirstMatch(rest1, env);
  }
}
