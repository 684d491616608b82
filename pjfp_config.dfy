/** The default configuration table that every parser starts from. */
module PjfpConfig {
  import opened Php

  /** The five default settings; callers override them by key. */
  const Defaults: map<string, Value> := map[
    "user" := Str(""),
    "max_width" := Int(550),
    "max_height" := Int(367),
    "use_HTTPS" := Bool(false),
    "use_curl" := Bool(true)
  ]

  /** The table defines exactly five keys, spelled as the parser reads them. */
  lemma DefaultKeys()
    ensures Defaults.Keys == {"user", "max_width", "max_height", "use_HTTPS", "use_curl"}
    ensures |Defaults| == 5
  {
    assert Defaults.Keys == {"user", "max_width", "max_height", "use_HTTPS", "use_curl"};
  }

  /** The default user is empty, the bounds are 550 by 367, HTTPS is off and cURL is on. */
  lemma DefaultValues()
    ensures Defaults["user"] == Str("")
    ensures Defaults["max_width"] == Int(550) && Defaults["max_height"] == Int(367)
    ensures !Truthy(Defaults["use_HTTPS"]) && Truthy(Defaults["use_curl"])
  {
  }
}
