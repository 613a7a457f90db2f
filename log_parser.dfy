/**
 * `parse_log` of processing/log_parser.py: a raw log dictionary becomes a
 * normalised one with exactly four keys, each read from the raw dictionary
 * with a default.
 */
module LogParser {
  import opened Records

  /** The four keys of a parsed log. */
  const ParsedKeys: set<string> := {"service", "severity", "content", "timestamp"}

  /** The raw keys `parse_log` reads. */
  const RawKeys: set<string> := {"service", "level", "message", "timestamp"}

  /**
   * `parse_log(raw_log)`: `service` from "service" (default "unknown"),
   * `severity` from "level" (default "INFO"), `content` from "message"
   * (default "") and `timestamp` from "timestamp" (default `None`).
   */
  function ParseLog(raw: Record): (r: Record)
    ensures r.Keys == ParsedKeys
    ensures r["service"] == (if "service" in raw then raw["service"] else Str("unknown"))
    ensures r["severity"] == (if "level" in raw then raw["level"] else Str("INFO"))
    ensures r["content"] == (if "message" in raw then raw["message"] else Str(""))
    ensures r["timestamp"] == (if "timestamp" in raw then raw["timestamp"] else Null)
  {
    map[
      "service" := Get(raw, "service", Str("unknown")),
      "severity" := Get(raw, "level", Str("INFO")),
      "content" := Get(raw, "message", Str("")),
      "timestamp" := Get(raw, "timestamp", Null)
    ]
  }

  /** Keys other than the four it reads make no difference to the parsed log. */
  lemma ExtraKeysIgnored(a: Record, b: Record)
    requires forall k :: k in RawKeys ==> (k in a <==> k in b)
    requires forall k :: k in RawKeys && k in a ==> a[k] == b[k]
    ensures ParseLog(a) == ParseLog(b)
  {
    assert "service" in RawKeys && "level" in RawKeys && "message" in RawKeys && "timestamp" in RawKeys;
  }

  /** The parser's test case: the service of `{"service": "api", "level": "ERROR", "message": "fail"}` is "api". */
  lemma ParsesTestLog()
    ensures var parsed := ParseLog(map["service" := Str("api"), "level" := Str("ERROR"), "message" := Str("fail")]);
      parsed["service"] == Str("api") && parsed["severity"] == Str("ERROR")
      && parsed["content"] == Str("fail") && parsed["timestamp"] == Null
  {
  }
}
