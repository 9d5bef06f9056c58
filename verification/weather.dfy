/** `getWeather`, the stub tool both function-calling demos offer the model:
    a fixed lookup table of three cities with a fallback text. */
module Weather {

  const NotFound: string := "天気情報が見つかりません"

  /** The stub's table. */
  const WeatherInfo: map<string, string> := map[
    "Tokyo" := "晴れ、気温25度",
    "Osaka" := "曇り、気温22度",
    "Kyoto" := "雨、気温18度"
  ]

  /** `getWeather(location)`: the table's entry, or the fallback text for any
      other name. The lookup is exact, so letter case matters. */
  function GetWeather(location: string): (r: string)
    ensures location == "Tokyo" ==> r == "晴れ、気温25度"
    ensures location == "Osaka" ==> r == "曇り、気温22度"
    ensures location == "Kyoto" ==> r == "雨、気温18度"
    ensures r == NotFound <==> location !in {"Tokyo", "Osaka", "Kyoto"}
  {
    if location in WeatherInfo then WeatherInfo[location] else NotFound
  }

  /** Different known cities get different reports, so a report other than
      the fallback identifies the city it was asked for. */
  lemma ReportIdentifiesCity(a: string, b: string)
    requires GetWeather(a) == GetWeather(b) != NotFound
    ensures a == b
  {
  }

  /** Names that differ from a table key only in letter case fall back. */
  lemma LookupIsCaseSensitive()
    ensures GetWeather("tokyo") == NotFound
    ensures GetWeather("TOKYO") == NotFound
    ensures GetWeather("") == NotFound
  {
  }
}
