/**
 * One parsed line of a session log, with every field optional as the log format allows,
 * and the JSON parser left abstract.
 */
module Records {
  import opened Wrappers

  /**
   * The `timestamp` field as `new Date(timestamp).getTime()` sees it.
   * `Absent` is a missing or empty field (falsy), `Unparseable` a present value for which
   * `getTime()` is NaN, `Millis` a valid instant in milliseconds since the epoch.
   */
  datatype Timestamp = Absent | Unparseable | Millis(ms: int) {

    /** The field passes a JavaScript truthiness test. */
    predicate IsTruthy() {
      !Absent?
    }
  }

  /** `new Date(timestamp).getTime()`; `None` stands for NaN. */
  function TimeOf(ts: Timestamp): Option<int> {
    if ts.Millis? then Some(ts.ms) else None
  }

  /** One item of `message.content`: its `type` and its `text`. */
  datatype ContentItem = ContentItem(itemType: Option<string>, text: Option<string>)

  /** `message.usage`: the four token subcounts, each possibly missing. */
  datatype Usage = Usage(
    inputTokens: Option<int>,
    outputTokens: Option<int>,
    cacheCreationInputTokens: Option<int>,
    cacheReadInputTokens: Option<int>)

  /** The `message` sub-object. `id` is kept to show that no operation reads it. */
  datatype Message = Message(
    id: Option<string>,
    role: Option<string>,
    messageType: Option<string>,
    model: Option<string>,
    content: Option<seq<ContentItem>>,
    usage: Option<Usage>)

  /**
   * A parsed log line that is truthy. A non-object JSON value (a number, a string)
   * is a record with every field missing.
   */
  datatype Record = Record(message: Option<Message>, timestamp: Timestamp, uuid: Option<string>)

  /** What `JSON.parse` returns for a line that parses: a falsy value (`null`, `0`, `""`, `false`) or a record. */
  datatype Json = Falsy | Value(record: Record)

  /** `JSON.parse` applied to one line: `None` when it throws. */
  type Parser = string -> Option<Json>

  /** An optional string field passes a JavaScript truthiness test. */
  predicate IsTruthy(s: Option<string>) {
    s.Some? && s.value != []
  }

  /** One model's per-token rates, as the pricing table gives them. */
  datatype Rates = Rates(
    inputCostPerToken: Option<real>,
    outputCostPerToken: Option<real>,
    cacheCreationInputTokenCost: Option<real>,
    cacheReadInputTokenCost: Option<real>)

  /** The pricing table: model name to rates. */
  type Pricing = map<string, Rates>
}
