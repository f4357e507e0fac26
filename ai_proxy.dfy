/**
 * The serverless AI proxy: a request handler that answers CORS preflights,
 * accepts only POST, needs a configured API key, validates the JSON body,
 * forwards the (truncated) text to the language-model service, and
 * normalises whatever array of items comes back into flashcards or quiz
 * questions.
 *
 * The language-model call is the parameter `llm`, the JSON parser the
 * parameter `parse`; JSON numbers are integers in this model.
 */
module AiProxy {
  import opened Wrappers
  import Text

  datatype Json =
    | JNull
    | JBool(b: bool)
    | JNum(n: int)
    | JStr(s: string)
    | JArr(items: seq<Json>)
    | JObj(fields: map<string, Json>)

  /** `value?.[key]`: only objects have properties. */
  function Field(v: Json, key: string): (r: Option<Json>)
    ensures r.Some? <==> v.JObj? && key in v.fields
  {
    if v.JObj? && key in v.fields then Some(v.fields[key]) else None
  }

  /** `x ?? fallback` sees both null and undefined as absent. */
  predicate Nullish(o: Option<Json>) {
    o.None? || o.value.JNull?
  }

  /** `String(v)`. */
  function ToStr(v: Json): string
    decreases v, 1
  {
    match v
    case JNull => "null"
    case JBool(b) => if b then "true" else "false"
    case JNum(n) => Text.IntToString(n)
    case JStr(s) => s
    case JArr(items) => Join(items)
    case JObj(_) => "[object Object]"
  }

  /** `Array.prototype.join(',')`, which renders null elements as "". */
  function Join(items: seq<Json>): string
    decreases items, 0
  {
    if items == [] then ""
    else
      var head := if items[0].JNull? then "" else ToStr(items[0]);
      if |items| == 1 then head else head + "," + Join(items[1..])
  }

  // ---------------------------------------------------------------- request

  datatype Action = Flashcards | QuizAction

  /** The outcome of `await req.json()`: a parse failure throws. */
  datatype Body = Unreadable(message: string) | Parsed(value: Json)

  /** The outcome of the language-model call: a thrown error with its
      message, or the reply content (`choices?.[0]?.message?.content`). */
  datatype Reply = Failed(message: string) | Replied(content: Option<string>)

  datatype CardOut = CardOut(front: string, back: string)
  datatype QuestionOut = QuestionOut(question: string, options: seq<string>, correctAnswer: int)

  datatype Payload =
    | NoContent
    | Error(message: string)
    | Cards(cards: seq<CardOut>)
    | Questions(questions: seq<QuestionOut>)

  datatype Response = Response(status: int, payload: Payload)

  const MissingKey: string := "GROQ_API_KEY is not configured. Add it in Vercel Project Settings → Environment Variables."
  const InvalidText: string := "Missing or invalid text"
  const InvalidAction: string := "Invalid action. Use \"flashcards\" or \"quiz\"."
  /** The message of the TypeError thrown by destructuring a null body. */
  const NullBody: string := "Cannot destructure property 'action' of 'body' as it is null."
  const MaxText: nat := 12000

  /** `count = action === 'flashcards' ? 10 : 5`. */
  function DefaultCount(action: Option<Json>): (r: int)
    ensures r == (if action == Some(JStr("flashcards")) then 10 else 5)
  {
    if action == Some(JStr("flashcards")) then 10 else 5
  }

  /** The numeric value `slice` gives a count argument: numbers as they are,
      `true` as 1, everything else as 0. */
  function CountValue(v: Json): int {
    match v
    case JNum(n) => n
    case JBool(b) => if b then 1 else 0
    case _ => 0
  }

  /** The destructuring default applies only to an absent `count`. */
  function CountOf(body: Json): int {
    match Field(body, "count")
    case None => DefaultCount(Field(body, "action"))
    case Some(v) => CountValue(v)
  }

  /** `seq.slice(0, count)`: a negative end counts from the back. */
  function SliceLen(len: nat, count: int): (r: nat)
    ensures r <= len
    ensures count >= 0 ==> r <= count
    ensures 0 <= count <= len ==> r == count
  {
    if count < 0 then (if len + count < 0 then 0 else len + count)
    else if count < len then count else len
  }

  /** The request handler: the decision table of status codes. */
  function Handle(verb: string, apiKey: string, body: Body,
                  llm: (Action, int, string) -> Reply, parse: string -> Option<Json>): (r: Response)
    ensures verb == "OPTIONS" ==> r == Response(204, NoContent)
    ensures verb != "OPTIONS" && verb != "POST" ==> r == Response(405, Error("Method not allowed"))
    ensures verb == "POST" && apiKey == "" ==> r == Response(500, Error(MissingKey))
    ensures r.status in {200, 204, 400, 405, 500}
    ensures r.status == 200 <==> (r.payload.Cards? || r.payload.Questions?)
  {
    if verb == "OPTIONS" then Response(204, NoContent)
    else if verb != "POST" then Response(405, Error("Method not allowed"))
    else if apiKey == "" then Response(500, Error(MissingKey))
    else
      match body
      case Unreadable(message) => Response(500, Error(message))
      case Parsed(v) =>
        if v.JNull? then Response(500, Error(NullBody))
        else HandleBody(v, llm, parse)
  }

  /** The body checks: text first, then the action. */
  function HandleBody(v: Json, llm: (Action, int, string) -> Reply, parse: string -> Option<Json>): (r: Response)
    ensures r.status in {200, 400, 500}
    ensures r.status == 200 <==> (r.payload.Cards? || r.payload.Questions?)
  {
    var action := Field(v, "action");
    var count := CountOf(v);
    match Field(v, "text")
    case Some(JStr(text)) =>
      if text == "" then Response(400, Error(InvalidText))
      else if action == Some(JStr("flashcards")) then
        match llm(Flashcards, count, Text.Take(text, MaxText))
        case Failed(m) => Response(500, Error(m))
        case Replied(c) => Response(200, Cards(NormalizeCards(ParseJsonArray(ReplyText(c), parse), count)))
      else if action == Some(JStr("quiz")) then
        match llm(QuizAction, count, Text.Take(text, MaxText))
        case Failed(m) => Response(500, Error(m))
        case Replied(c) => Response(200, Questions(NormalizeQuestions(ParseJsonArray(ReplyText(c), parse), count)))
      else Response(400, Error(InvalidAction))
    case _ => Response(400, Error(InvalidText))
  }

  /** `content?.trim() ?? ''`, then `content || '[]'`. */
  function ReplyText(c: Option<string>): (r: string)
    ensures r != ""
  {
    var t := if c.Some? then Text.Trim(c.value) else "";
    if t == "" then "[]" else t
  }

  // ------------------------------------------------------------- normalising

  /** The first pass, `replace(/```json?\s*\/g, '')`: removes every "```jso",
      with an optional "n" and any whitespace after it. */
  function StripJsonFences(s: string): (r: string)
    ensures |r| <= |s|
    ensures (forall i :: 0 <= i < |s| ==> !JsonFenceAt(s, i)) ==> r == s
    decreases |s|
  {
    if |s| >= 6 && s[..6] == "```jso" then
      assert JsonFenceAt(s, 0);
      var rest := if |s| > 6 && s[6] == 'n' then s[7..] else s[6..];
      StripJsonFences(Text.SkipWhitespace(rest))
    else if s == [] then []
    else
      assert (forall i :: 0 <= i < |s| ==> !JsonFenceAt(s, i)) ==> forall i :: 0 <= i < |s| - 1 ==> !JsonFenceAt(s[1..], i) by {
        forall i | 0 <= i < |s| - 1 && JsonFenceAt(s[1..], i)
          ensures JsonFenceAt(s, i + 1)
        {
          assert s[1..][i..i + 6] == s[i + 1..i + 7];
        }
      }
      [s[0]] + StripJsonFences(s[1..])
  }

  /** An opening "```jso" starts at position `i` of `s`. */
  predicate JsonFenceAt(s: string, i: int)
    requires 0 <= i
  {
    i + 6 <= |s| && s[i..i + 6] == "```jso"
  }

  /** The second pass, `replace(/```\s*\/g, '')`: no fence is left, however
      runs of backticks and the text between them fall together. A result
      starts with a backtick, or with two, only where the input does. */
  function StripFences(s: string): (r: string)
    ensures |r| <= |s|
    ensures forall i :: 0 <= i < |r| ==> !FenceAt(r, i)
    ensures (s == [] || s[0] != '`') ==> (r == [] || r[0] != '`')
    ensures !(|s| >= 2 && s[0] == '`' && s[1] == '`') ==> !(|r| >= 2 && r[0] == '`' && r[1] == '`')
    decreases |s|
  {
    if |s| >= 3 && s[..3] == "```" then StripFences(Text.SkipWhitespace(s[3..]))
    else if s == [] then []
    else
      assert s[0] == '`' ==> !(|s[1..]| >= 2 && s[1..][0] == '`' && s[1..][1] == '`') by {
        if s[0] == '`' && |s| >= 3 {
          assert s[..3] == [s[0], s[1], s[2]];
        }
      }
      var t := StripFences(s[1..]);
      ConsNoFence(s[0], t);
      [s[0]] + t
  }

  /** Putting one character in front of a fence-free text makes no fence,
      unless a backtick meets two leading backticks. */
  lemma ConsNoFence(c: char, t: string)
    requires forall i :: 0 <= i < |t| ==> !FenceAt(t, i)
    requires c == '`' ==> !(|t| >= 2 && t[0] == '`' && t[1] == '`')
    ensures forall i :: 0 <= i < |t| + 1 ==> !FenceAt([c] + t, i)
  {
    forall i | 1 <= i < |t| + 1
      ensures !FenceAt([c] + t, i)
    {
      assert !FenceAt(t, i - 1);
    }
  }

  /** A markdown fence "```" starts at position `i` of `r`. */
  predicate FenceAt(r: string, i: int)
    requires 0 <= i
  {
    i + 3 <= |r| && r[i] == '`' && r[i + 1] == '`' && r[i + 2] == '`'
  }

  /** `parseJsonArray`: an array as it is, any other value as a singleton,
      and nothing when the cleaned text does not parse. */
  function ParseJsonArray(content: string, parse: string -> Option<Json>): (r: seq<Json>)
    ensures parse(Text.Trim(StripFences(StripJsonFences(content)))).None? ==> r == []
    ensures forall xs :: parse(Text.Trim(StripFences(StripJsonFences(content)))) == Some(JArr(xs)) ==> r == xs
    ensures forall v :: parse(Text.Trim(StripFences(StripJsonFences(content)))) == Some(v) && !v.JArr? ==> r == [v]
  {
    var cleaned := Text.Trim(StripFences(StripJsonFences(content)));
    match parse(cleaned)
    case None => []
    case Some(JArr(xs)) => xs
    case Some(v) => [v]
  }

  /** `String(item?.[key] ?? fallback)`. */
  function StrField(item: Json, key: string, fallback: string): (r: string)
    ensures Nullish(Field(item, key)) ==> r == fallback
    ensures forall s :: Field(item, key) == Some(JStr(s)) ==> r == s
  {
    var f := Field(item, key);
    if Nullish(f) then fallback else ToStr(f.value)
  }

  function NormalizeCard(item: Json): CardOut {
    CardOut(StrField(item, "front", "Question"), StrField(item, "back", "Answer"))
  }

  /** `parsed.slice(0, count).map(...)` into flashcards. */
  function NormalizeCards(parsed: seq<Json>, count: int): (r: seq<CardOut>)
    ensures |r| == SliceLen(|parsed|, count)
    ensures forall i :: 0 <= i < |r| ==> r[i] == NormalizeCard(parsed[i])
  {
    var n := SliceLen(|parsed|, count);
    seq(n, i requires 0 <= i < n => NormalizeCard(parsed[i]))
  }

  /** `typeof c === 'number' ? Math.min(3, Math.max(0, c)) : 0`. */
  function CorrectIndex(c: Option<Json>): (r: int)
    ensures 0 <= r <= 3
    ensures !(c.Some? && c.value.JNum?) ==> r == 0
    ensures c.Some? && c.value.JNum? && 0 <= c.value.n <= 3 ==> r == c.value.n
  {
    match c
    case Some(JNum(n)) => if n < 0 then 0 else if n > 3 then 3 else n
    case _ => 0
  }

  /** `Array.isArray(o) ? o.map(String) : ['A', 'B', 'C', 'D']`. */
  function Options(o: Option<Json>): (r: seq<string>)
    ensures !(o.Some? && o.value.JArr?) ==> r == ["A", "B", "C", "D"]
    ensures o.Some? && o.value.JArr? ==>
      |r| == |o.value.items| && forall i :: 0 <= i < |r| ==> r[i] == ToStr(o.value.items[i])
  {
    match o
    case Some(JArr(xs)) => seq(|xs|, i requires 0 <= i < |xs| => ToStr(xs[i]))
    case _ => ["A", "B", "C", "D"]
  }

  function NormalizeQuestion(item: Json): QuestionOut {
    QuestionOut(StrField(item, "question", "Question"), Options(Field(item, "options")),
                CorrectIndex(Field(item, "correctAnswer")))
  }

  /** `parsed.slice(0, count).map(...)` into quiz questions. */
  function NormalizeQuestions(parsed: seq<Json>, count: int): (r: seq<QuestionOut>)
    ensures |r| == SliceLen(|parsed|, count)
    ensures forall i :: 0 <= i < |r| ==> r[i] == NormalizeQuestion(parsed[i])
  {
    var n := SliceLen(|parsed|, count);
    seq(n, i requires 0 <= i < n => NormalizeQuestion(parsed[i]))
  }

  // ---------------------------------------------------------------- lemmas

  /** The key check comes before the body is read: without a key, every POST
      gets the same 500 answer whatever its body. */
  lemma KeyCheckedFirst(body1: Body, body2: Body, llm: (Action, int, string) -> Reply, parse: string -> Option<Json>)
    ensures Handle("POST", "", body1, llm, parse) == Handle("POST", "", body2, llm, parse)
    ensures Handle("POST", "", body1, llm, parse).status == 500
  {
  }

  /** The 400 answers: a missing, non-string or empty text, and then an
      action other than the two known ones. */
  lemma BadRequests(apiKey: string, v: Json, llm: (Action, int, string) -> Reply, parse: string -> Option<Json>)
    requires apiKey != "" && !v.JNull?
    ensures (forall s :: Field(v, "text") != Some(JStr(s))) ==>
      Handle("POST", apiKey, Parsed(v), llm, parse) == Response(400, Error(InvalidText))
    ensures Field(v, "text") == Some(JStr("")) ==>
      Handle("POST", apiKey, Parsed(v), llm, parse) == Response(400, Error(InvalidText))
    ensures ((exists s :: s != "" && Field(v, "text") == Some(JStr(s)))
             && Field(v, "action") != Some(JStr("flashcards")) && Field(v, "action") != Some(JStr("quiz"))) ==>
      Handle("POST", apiKey, Parsed(v), llm, parse) == Response(400, Error(InvalidAction))
  {
    var t := Field(v, "text");
    if t.Some? && t.value.JStr? {
      assert Field(v, "text") == Some(JStr(t.value.s));
    }
  }

  /** Only the first 12000 characters of the text reach the model: two model
      functions that agree on such prefixes give the same response. */
  lemma OnlyPrefixSent(apiKey: string, v: Json, text: string,
                       llm1: (Action, int, string) -> Reply, llm2: (Action, int, string) -> Reply,
                       parse: string -> Option<Json>)
    requires Field(v, "text") == Some(JStr(text))
    requires forall a, c :: llm1(a, c, Text.Take(text, MaxText)) == llm2(a, c, Text.Take(text, MaxText))
    ensures Handle("POST", apiKey, Parsed(v), llm1, parse) == Handle("POST", apiKey, Parsed(v), llm2, parse)
    ensures |Text.Take(text, MaxText)| <= MaxText && Text.Take(text, MaxText) <= text
  {
  }

  /** Every card of a flashcard answer comes from the corresponding parsed
      item, at most `count` of them, with "Question"/"Answer" for missing
      sides. */
  lemma FlashcardAnswer(apiKey: string, v: Json, llm: (Action, int, string) -> Reply,
                        parse: string -> Option<Json>, cards: seq<CardOut>)
    requires Handle("POST", apiKey, Parsed(v), llm, parse) == Response(200, Cards(cards))
    ensures Field(v, "action") == Some(JStr("flashcards"))
    ensures Field(v, "count").None? ==> |cards| <= 10
    ensures CountOf(v) >= 0 ==> |cards| <= CountOf(v)
  {
  }

  /** Every question of a quiz answer has an answer index in [0, 3]. */
  lemma QuizAnswer(apiKey: string, v: Json, llm: (Action, int, string) -> Reply,
                   parse: string -> Option<Json>, questions: seq<QuestionOut>)
    requires Handle("POST", apiKey, Parsed(v), llm, parse) == Response(200, Questions(questions))
    ensures Field(v, "action") == Some(JStr("quiz"))
    ensures Field(v, "count").None? ==> |questions| <= 5
    ensures forall i :: 0 <= i < |questions| ==> 0 <= questions[i].correctAnswer <= 3
  {
    var t := Field(v, "text");
    assert t.Some? && t.value.JStr?;
    var c := llm(QuizAction, CountOf(v), Text.Take(t.value.s, MaxText));
    assert c.Replied?;
    var parsed := ParseJsonArray(ReplyText(c.content), parse);
    assert questions == NormalizeQuestions(parsed, CountOf(v));
  }

  /** A text with no backtick passes both fence passes unchanged. */
  lemma {:induction false} NoFencesUnchanged(s: string)
    requires forall i :: 0 <= i < |s| ==> s[i] != '`'
    ensures StripFences(StripJsonFences(s)) == s
  {
    JsonPassKeeps(s);
    FencePassKeeps(s);
  }

  lemma {:induction false} JsonPassKeeps(s: string)
    requires forall i :: 0 <= i < |s| ==> s[i] != '`'
    ensures StripJsonFences(s) == s
  {
    if s != [] {
      assert !(|s| >= 6 && s[..6] == "```jso") by {
        if |s| >= 6 {
          assert s[..6][0] == s[0];
        }
      }
      JsonPassKeeps(s[1..]);
    }
  }

  lemma {:induction false} FencePassKeeps(s: string)
    requires forall i :: 0 <= i < |s| ==> s[i] != '`'
    ensures StripFences(s) == s
  {
    if s != [] {
      assert |s| < 3 || s[..3] != "```" by {
        if |s| >= 3 {
          assert s[..3][0] == s[0];
        }
      }
      FencePassKeeps(s[1..]);
    }
  }

  /** A reply wrapped in a markdown JSON fence, "```json" … "```", is
      cleaned to its trimmed body when the body itself has no backtick. */
  lemma FencedReplyCleaned(open: string, body: string, close: string)
    requires open == "```json" && close == "```"
    requires forall i :: 0 <= i < |body| ==> body[i] != '`'
    ensures Text.Trim(StripFences(StripJsonFences(open + body + close))) == Text.Trim(body)
  {
    var inner := Text.SkipWhitespace(body);
    OpeningFenceDropped(open, body, close);
    NoBacktickSuffix(body, |body| - |inner|);
    JsonPassKeepsFence(inner);
    FencePassDropsFence(inner);
    assert Text.SkipWhitespace(inner) == inner;
  }

  /** The first pass drops an opening "```json" and the whitespace after it. */
  lemma OpeningFenceDropped(open: string, body: string, close: string)
    requires open == "```json" && close != [] && !Text.IsWhitespace(close[0])
    ensures StripJsonFences(open + body + close) == StripJsonFences(Text.SkipWhitespace(body) + close)
  {
    var rest := body + close;
    assert open + body + close == open + rest;
    PrefixParts(open, rest);
    JsonOpenStep(open + rest);
    SkipBeforeFence(body, close);
  }

  /** One step of the first pass over a text that opens with "```json". */
  lemma JsonOpenStep(s: string)
    requires |s| >= 7 && s[..7] == "```json"
    ensures StripJsonFences(s) == StripJsonFences(Text.SkipWhitespace(s[7..]))
  {
    assert s[..6] == s[..7][..6];
    assert s[6] == s[..7][6];
  }

  lemma NoBacktickSuffix(s: string, k: nat)
    requires k <= |s| && forall i :: 0 <= i < |s| ==> s[i] != '`'
    ensures forall i :: 0 <= i < |s[k..]| ==> s[k..][i] != '`'
  {
    forall i | 0 <= i < |s[k..]|
      ensures s[k..][i] != '`'
    {
      assert s[k..][i] == s[k + i];
    }
  }

  lemma PrefixParts(p: string, t: string)
    requires |p| == 7
    ensures (p + t)[..7] == p && (p + t)[7..] == t
  {
  }

  lemma {:induction false} SkipBeforeFence(x: string, y: string)
    requires y != [] && !Text.IsWhitespace(y[0])
    ensures Text.SkipWhitespace(x + y) == Text.SkipWhitespace(x) + y
  {
    if x == [] {
      assert x + y == y;
    } else {
      assert (x + y)[0] == x[0];
      assert (x + y)[1..] == x[1..] + y;
      SkipBeforeFence(x[1..], y);
    }
  }

  lemma {:induction false} JsonPassKeepsFence(x: string)
    requires forall i :: 0 <= i < |x| ==> x[i] != '`'
    ensures StripJsonFences(x + "```") == x + "```"
  {
    if x == [] {
      assert x + "```" == "```";
      assert "```"[1..] == "``" && "``"[1..] == "`" && "`"[1..] == [];
    } else {
      var s := x + "```";
      assert !(|s| >= 6 && s[..6] == "```jso") by {
        if |s| >= 6 {
          assert s[..6][0] == x[0];
        }
      }
      assert s[1..] == x[1..] + "```";
      JsonPassKeepsFence(x[1..]);
    }
  }

  lemma {:induction false} FencePassDropsFence(x: string)
    requires forall i :: 0 <= i < |x| ==> x[i] != '`'
    ensures StripFences(x + "```") == x
  {
    if x == [] {
      assert x + "```" == "```";
      assert "```"[3..] == [];
    } else {
      var s := x + "```";
      assert |s| < 3 || s[..3] != "```" by {
        if |s| >= 3 {
          assert s[..3][0] == x[0];
        }
      }
      assert s[1..] == x[1..] + "```";
      FencePassDropsFence(x[1..]);
    }
  }
}
